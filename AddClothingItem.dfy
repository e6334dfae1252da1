/** The add-item form component of the web client
    (client/web/src/components/AddClothingItem.tsx): the category options rendered from
    the category tree, the image list with its cap of five, and the field routing of
    `handleInputChange`. Previews produced by FileReader callbacks are not modelled. */
module AddClothingItem {
  import opened Wrappers
  import opened Seqs
  import Text

  // ---------------------------------------------------------------- category options

  /** A category node as the tree endpoint delivers it; `icon` is "" when absent. */
  datatype Category = Category(id: int, name: string, icon: string, children: seq<Category>)

  /** An `<option value=... >label</option>`. */
  datatype OptionEntry = OptionEntry(value: string, text: string)

  function Repeat(c: char, n: nat): (s: string)
    ensures |s| == n && forall i :: 0 <= i < n ==> s[i] == c
  {
    if n == 0 then "" else Repeat(c, n - 1) + [c]
  }

  /** `'—'.repeat(depth) + ' '` below the top level, nothing at the top level. */
  function Indent(depth: nat): string {
    if depth > 0 then Repeat('—', depth) + " " else ""
  }

  function Label(c: Category, depth: nat): string {
    (if c.icon != "" then c.icon + " " else "") + Indent(depth) + c.name
  }

  function Entry(c: Category, depth: nat): OptionEntry {
    OptionEntry(Text.IntToString(c.id), Label(c, depth))
  }

  /** A label at depth d > 0 is [icon + ' '] + d dashes + ' ' + name; at depth 0 it has no dashes. */
  lemma LabelShape(c: Category, depth: nat)
    ensures var pre := if c.icon != "" then c.icon + " " else "";
      depth > 0 ==> Label(c, depth) == pre + Repeat('—', depth) + " " + c.name
    ensures depth == 0 ==> Label(c, depth) == (if c.icon != "" then c.icon + " " else "") + c.name
    ensures var pre := if c.icon != "" then c.icon + " " else "";
      |Label(c, depth)| == |pre| + (if depth > 0 then depth + 1 else 0) + |c.name|
  {
  }

  /** `renderCategoryOptions(categories, depth)`: each node, then its children one level deeper. */
  function RenderOptions(cats: seq<Category>, depth: nat): seq<OptionEntry>
    decreases cats
  {
    if cats == [] then []
    else RenderNode(cats[0], depth) + RenderOptions(cats[1..], depth)
  }

  function RenderNode(c: Category, depth: nat): seq<OptionEntry>
    decreases c
  {
    [Entry(c, depth)] + RenderOptions(c.children, depth + 1)
  }

  /** Number of nodes in a forest. */
  function Size(cats: seq<Category>): nat
    decreases cats
  {
    if cats == [] then 0 else 1 + Size(cats[0].children) + Size(cats[1..])
  }

  /** Exactly one option per node of the tree. */
  lemma {:induction false} RenderSize(cats: seq<Category>, depth: nat)
    ensures |RenderOptions(cats, depth)| == Size(cats)
    decreases cats
  {
    if cats != [] {
      RenderSize(cats[0].children, depth + 1);
      RenderSize(cats[1..], depth);
    }
  }

  /** Siblings are rendered in array order: the options of a concatenation are the
      concatenation of the options. */
  lemma {:induction false} RenderAppend(a: seq<Category>, b: seq<Category>, depth: nat)
    ensures RenderOptions(a + b, depth) == RenderOptions(a, depth) + RenderOptions(b, depth)
    decreases a
  {
    if a == [] {
      assert a + b == b;
    } else {
      assert (a + b)[0] == a[0] && (a + b)[1..] == a[1..] + b;
      RenderAppend(a[1..], b, depth);
    }
  }

  /** Pre-order: the option of the k-th sibling comes right after the options of all
      siblings before it and their subtrees, and is followed by its own subtree. */
  lemma PreOrderPosition(cats: seq<Category>, k: nat, depth: nat)
    requires k < |cats|
    ensures RenderOptions(cats, depth) ==
      RenderOptions(cats[..k], depth) + [Entry(cats[k], depth)]
      + RenderOptions(cats[k].children, depth + 1) + RenderOptions(cats[k + 1..], depth)
    ensures |RenderOptions(cats[..k], depth)| == Size(cats[..k])
  {
    var rest := [cats[k]] + cats[k + 1..];
    assert cats == cats[..k] + rest;
    RenderAppend(cats[..k], rest, depth);
    assert rest[0] == cats[k] && rest[1..] == cats[k + 1..];
    var before := RenderOptions(cats[..k], depth);
    var sub := RenderOptions(cats[k].children, depth + 1);
    assert RenderOptions(rest, depth) == [Entry(cats[k], depth)] + sub + RenderOptions(cats[k + 1..], depth);
    assert RenderOptions(cats, depth) == before + [Entry(cats[k], depth)] + sub + RenderOptions(cats[k + 1..], depth);
    RenderSize(cats[..k], depth);
  }

  /** Every node of the top level has its option. */
  lemma {:induction false} RenderedIds(cats: seq<Category>, depth: nat, i: nat)
    requires i < |cats|
    ensures Entry(cats[i], depth) in RenderOptions(cats, depth)
    decreases cats
  {
    if i > 0 {
      RenderedIds(cats[1..], depth, i - 1);
    }
  }

  // ---------------------------------------------------------------- dynamic attributes

  /** The category-specific section: its title and the attribute names of its selects. */
  datatype Section = Section(title: string, attributes: seq<string>)

  function DynamicAttributes(categoryId: string): (r: Option<Section>)
    ensures r.Some? <==> categoryId in {"1", "2", "4", "5"}
    ensures r.Some? ==> |r.value.attributes| == 3
  {
    if categoryId == "" then None
    else if categoryId == "1" then Some(Section("上衣属性", ["sleeveLength", "neckline", "fit"]))
    else if categoryId == "2" then Some(Section("下装属性", ["length", "waistType", "closure"]))
    else if categoryId == "4" then Some(Section("鞋子属性", ["heelHeight", "shoeType", "occasion"]))
    else if categoryId == "5" then Some(Section("配饰属性", ["accessoryType", "style", "season"]))
    else None
  }

  // ---------------------------------------------------------------- form fields

  datatype FieldValue = Str(s: string) | Flag(b: bool)

  /** `formData`: the top-level fields by name, and `specificAttributes`. */
  datatype FormData = FormData(fields: map<string, FieldValue>, specificAttributes: map<string, string>)

  const InitialForm := FormData(map[
    "name" := Str(""), "categoryId" := Str(""), "brand" := Str(""), "color" := Str(""),
    "size" := Str(""), "sizeSystem" := Str("CN"), "material" := Str(""), "price" := Str(""),
    "purchaseDate" := Str(""), "notes" := Str(""), "isFavorite" := Flag(false)], map[])

  const AttrPrefix := "attr_"

  /** The change event of an input, select or textarea. */
  datatype ChangeEvent = ChangeEvent(name: string, value: string, isCheckbox: bool, checked: bool)

  /** `handleInputChange`: a checkbox stores its boolean under its name; a name starting
      with 'attr_' sets that attribute (the name without its first 'attr_'); anything
      else sets the top-level field. */
  function HandleInputChange(f: FormData, e: ChangeEvent): (g: FormData)
    ensures e.isCheckbox ==> g == FormData(f.fields[e.name := Flag(e.checked)], f.specificAttributes)
    ensures !e.isCheckbox && Text.StartsWith(e.name, AttrPrefix) ==>
      g == FormData(f.fields, f.specificAttributes[e.name[|AttrPrefix|..] := e.value])
    ensures !e.isCheckbox && !Text.StartsWith(e.name, AttrPrefix) ==>
      g == FormData(f.fields[e.name := Str(e.value)], f.specificAttributes)
  {
    if e.isCheckbox then FormData(f.fields[e.name := Flag(e.checked)], f.specificAttributes)
    else if Text.StartsWith(e.name, AttrPrefix) then
      FormData(f.fields, f.specificAttributes[e.name[|AttrPrefix|..] := e.value])
    else FormData(f.fields[e.name := Str(e.value)], f.specificAttributes)
  }

  /** Every select of a dynamic section routes its value to the attribute of the same
      name, leaving the top-level fields alone. */
  lemma SectionSelectsRouteToAttributes(f: FormData, categoryId: string, k: nat, value: string)
    requires DynamicAttributes(categoryId).Some? && k < 3
    ensures var n := DynamicAttributes(categoryId).value.attributes[k];
      var g := HandleInputChange(f, ChangeEvent(AttrPrefix + n, value, false, false));
      g.fields == f.fields && g.specificAttributes == f.specificAttributes[n := value]
  {
    var n := DynamicAttributes(categoryId).value.attributes[k];
    assert (AttrPrefix + n)[..|AttrPrefix|] == AttrPrefix;
    assert (AttrPrefix + n)[|AttrPrefix|..] == n;
  }

  /** A change touches exactly one entry: everything else is as before. */
  lemma ChangeTouchesOneField(f: FormData, e: ChangeEvent, other: string)
    requires other != e.name
    ensures other in f.fields ==>
      (other in HandleInputChange(f, e).fields && HandleInputChange(f, e).fields[other] == f.fields[other])
  {
  }

  // ---------------------------------------------------------------- images

  datatype File = File(name: string, mime: string)

  const MaxImages := 5

  /** `[...images, ...files].slice(0, 5)`. */
  function Capped(images: seq<File>, files: seq<File>): (r: seq<File>)
    ensures |r| == if |images| + |files| <= MaxImages then |images| + |files| else MaxImages
    ensures |images| <= MaxImages ==> r[..|images|] == images && r[|images|..] == files[..|r| - |images|]
    ensures |images| > MaxImages ==> r == images[..MaxImages]
  {
    Take(images + files, MaxImages)
  }

  function IsImageFile(f: File): bool {
    Text.StartsWith(f.mime, "image/")
  }

  class ImageState {
    var images: seq<File>
    var imagePreviews: seq<string>

    constructor ()
      ensures images == [] && imagePreviews == []
    {
      images := [];
      imagePreviews := [];
    }

    /** `handleImageUpload`: an empty selection changes nothing. */
    method HandleImageUpload(files: seq<File>)
      modifies this
      ensures files == [] ==> images == old(images)
      ensures files != [] ==> images == Capped(old(images), files)
      ensures imagePreviews == old(imagePreviews)
    {
      if |files| == 0 {
        return;
      }
      images := Capped(images, files);
    }

    /** `handleDrop`: only files whose MIME type starts with 'image/' are added. */
    method HandleDrop(files: seq<File>)
      modifies this
      ensures var imageFiles := Filter(IsImageFile, files);
        images == if imageFiles == [] then old(images) else Capped(old(images), imageFiles)
      ensures imagePreviews == old(imagePreviews)
    {
      var imageFiles := Filter(IsImageFile, files);
      if |imageFiles| > 0 {
        images := Capped(images, imageFiles);
      }
    }

    /** `removeImage(index)` removes that index from both lists. */
    method RemoveImage(index: int)
      modifies this
      ensures images == RemoveAt(old(images), index)
      ensures imagePreviews == RemoveAt(old(imagePreviews), index)
    {
      images := RemoveAt(images, index);
      imagePreviews := RemoveAt(imagePreviews, index);
    }
  }

  /** A drop never adds a file that is not an image. */
  lemma DropAddsOnlyImages(images: seq<File>, files: seq<File>, j: nat)
    requires |images| <= MaxImages
    requires |images| <= j < |Capped(images, Filter(IsImageFile, files))|
    ensures IsImageFile(Capped(images, Filter(IsImageFile, files))[j])
  {
    var imgs := Filter(IsImageFile, files);
    assert Capped(images, imgs)[j] == (images + imgs)[j] == imgs[j - |images|];
  }
}
