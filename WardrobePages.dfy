/** The add page of the wardrobe (client/web/src/app/main/wardrobe/add/page.tsx):
    form fields, the image list and the suggested/applied tag lists. */
module AddClothingPage {
  import opened Seqs

  datatype Image = Image(id: string, url: string, alt: string)
  datatype SuggestedTag = SuggestedTag(id: string, text: string, kind: string)

  const MockImages: seq<Image> := [
    Image("1", "https://lh3.googleusercontent.com/aida-public/AB6AXuBfXUvHl_ZjPaWqqe58_4LD2RTGeU0QaJQXmf-JXkC1CUK2IM0-qXg_PxwTTiB49YHlMZBJ-CGpgLaBdOD6iqe7UX6l8iKOk58ZGfvHD1lrETWOcx1VGe444V67KwXbT8aSX-nGa7FSGUCfsSJB97IHcyea9ChEmdS0bvu5L3fWa6fc6LI71zJbm60d5mcBC9sne0S2Lvm6Q2mlpokzTOaFnOx2QbwwLvtBdFq00Mp-4vdF9ET2xPk0P8pNU6ae8LWWGmsCkO0AX26T",
          "黑色T恤"),
    Image("2", "https://lh3.googleusercontent.com/aida-public/AB6AXuCykmBlONpG_g9Jsqom6b9elDQa4cHB4aMEoUiaPGLskaNa-kiYQx1p-egTA78yaoqGw11kHmzrqgnsWOPmtmahIjcvvv8kU5GJpziLdv4Jhb2kIMjH5_p3jklc86CXYZefBTWu1bDT6oOGpYG8OYjrA4BFcTygNB_1VoXEQUxQqClgVkzvIh201YOX5EDHVT09aO7xy-EptNCLtE9KFqjK0jyIJy1VY6XIaUygg4n7Nba8KNjcFsw4j-LwbmxWG7jPEx9zr4Po738g",
          "黑色T恤背面"),
    Image("3", "https://lh3.googleusercontent.com/aida-public/AB6AXuBhPzMq0rTN8DW9qnYZMrborfQ_SOLL6LmC5Wa6IB0qQMdVNbCQoC_iw60TZI0zgYxRWeOzM-Ge1g53uLCVyUN_e4XKslWpOEp4u22TAYrCSiySlKBPsJAWztC0_5XrqImr_Je-ScWbW0t0nftQsSK8LVoJEBCqpY1y-HRwE9Bs8HEfC9aI_9YmuuZq95sqLmbzZgT1ZQdU7tZQwOTS0fZ4-X41tZpx2CBty7_jZ2Lov8JWKxZEZ1NEB8Thkl5nAXhmio63LKkd4h1K",
          "黑色T恤细节")
  ]

  const AiSuggestedTags: seq<SuggestedTag> := [
    SuggestedTag("1", "颜色: 黑色", "color"), SuggestedTag("2", "款式: T恤", "style"),
    SuggestedTag("3", "材质: 棉", "material"), SuggestedTag("4", "风格: 简约", "style")
  ]

  const InitialFormData: map<string, string> := map[
    "name" := "黑色T恤", "category" := "上装", "brand" := "", "color" := "黑色",
    "material" := "棉", "style" := "简约", "size" := "", "season" := "", "occasion" := "",
    "price" := "", "store" := "", "purchaseDate" := "", "notes" := ""]

  /** `suggestedTags.map(tag => tag.label)`. */
  function Labels(tags: seq<SuggestedTag>): (r: seq<string>)
    ensures |r| == |tags| && forall i :: 0 <= i < |tags| ==> r[i] == tags[i].text
  {
    seq(|tags|, i requires 0 <= i < |tags| => tags[i].text)
  }

  class AddPageState {
    var formData: map<string, string>
    var images: seq<Image>
    var suggestedTags: seq<SuggestedTag>
    var appliedTags: seq<string>

    constructor ()
      ensures formData == InitialFormData && images == MockImages
      ensures suggestedTags == AiSuggestedTags && appliedTags == []
    {
      formData := InitialFormData;
      images := MockImages;
      suggestedTags := AiSuggestedTags;
      appliedTags := [];
    }

    /** Whether the suggestion card is shown. */
    predicate ShowsSuggestions()
      reads this
    {
      |suggestedTags| > 0
    }

    method HandleInputChange(name: string, value: string)
      modifies this
      ensures formData == old(formData)[name := value]
      ensures images == old(images) && suggestedTags == old(suggestedTags) && appliedTags == old(appliedTags)
    {
      formData := formData[name := value];
    }

    method HandleRemoveImage(imageId: string)
      modifies this
      ensures images == Filter((img: Image) => img.id != imageId, old(images))
      ensures formData == old(formData) && suggestedTags == old(suggestedTags) && appliedTags == old(appliedTags)
    {
      images := Filter((img: Image) => img.id != imageId, images);
    }

    method HandleRemoveTag(tagId: string)
      modifies this
      ensures suggestedTags == Filter((t: SuggestedTag) => t.id != tagId, old(suggestedTags))
      ensures formData == old(formData) && images == old(images) && appliedTags == old(appliedTags)
    {
      suggestedTags := Filter((t: SuggestedTag) => t.id != tagId, suggestedTags);
    }

    method HandleApplyAllTags()
      modifies this
      ensures appliedTags == old(appliedTags) + Labels(old(suggestedTags))
      ensures suggestedTags == [] && !ShowsSuggestions()
      ensures formData == old(formData) && images == old(images)
    {
      appliedTags := appliedTags + Labels(suggestedTags);
      suggestedTags := [];
    }
  }
}

/** The list page of the wardrobe (client/web/src/app/main/wardrobe/list/page.tsx): a
    search over four constant items. */
module WardrobeList {
  import opened Seqs
  import Text

  datatype ListItem = ListItem(id: int, name: string, category: string, season: string,
                               icon: string, wearCount: int, tags: seq<string>)

  const MockItems: seq<ListItem> := [
    ListItem(1, "简约白T", "上装", "夏", "👕", 18, ["通勤", "百搭"]),
    ListItem(2, "直筒牛仔裤", "下装", "春秋", "👖", 12, ["休闲", "耐穿"]),
    ListItem(3, "机能风防风外套", "外套", "春秋", "🧥", 6, ["户外", "防风"]),
    ListItem(4, "白色运动鞋", "鞋履", "全季", "👟", 22, ["百搭", "舒适"])
  ]

  /** The search is a case-insensitive substring of the name, the category or a tag. */
  predicate Listed(searchTerm: string, item: ListItem) {
    var t := Text.Lower(searchTerm);
    Text.Contains(Text.Lower(item.name), t)
    || Text.Contains(Text.Lower(item.category), t)
    || exists k :: 0 <= k < |item.tags| && Text.Contains(Text.Lower(item.tags[k]), t)
  }

  function FilteredItems(searchTerm: string): (r: seq<ListItem>)
    ensures forall i :: 0 <= i < |r| ==> r[i] in MockItems && Listed(searchTerm, r[i])
    ensures forall i :: 0 <= i < |MockItems| && Listed(searchTerm, MockItems[i]) ==> MockItems[i] in r
  {
    Filter(item => Listed(searchTerm, item), MockItems)
  }

  /** An empty search lists all four items, in their order. */
  lemma EmptySearchListsAll()
    ensures FilteredItems("") == MockItems && |FilteredItems("")| == 4
  {
    forall i | 0 <= i < |MockItems| ensures Listed("", MockItems[i]) {
      Text.EmptyContained(Text.Lower(MockItems[i].name));
    }
    FilterAll(item => Listed("", item), MockItems);
  }

  /** The count shown under the header ("共 n 件"). */
  function DisplayedCount(searchTerm: string): (n: nat)
    ensures n == Count(item => Listed(searchTerm, item), MockItems)
  {
    CountIsFilterLength(item => Listed(searchTerm, item), MockItems);
    |FilteredItems(searchTerm)|
  }

  /** The page's state; `sortBy` is stored but takes no part in what is listed. */
  class ListPageState {
    var searchTerm: string
    var sortBy: string

    constructor ()
      ensures searchTerm == "" && sortBy == "recent"
    {
      searchTerm := "";
      sortBy := "recent";
    }

    function Shown(): seq<ListItem>
      reads this
    {
      FilteredItems(searchTerm)
    }

    method SetSortBy(s: string)
      modifies this
      ensures sortBy == s && searchTerm == old(searchTerm)
      ensures Shown() == old(Shown())
    {
      sortBy := s;
    }

    method SetSearchTerm(s: string)
      modifies this
      ensures searchTerm == s && sortBy == old(sortBy)
    {
      searchTerm := s;
    }
  }
}

/** The categories page of the wardrobe (client/web/src/app/main/wardrobe/categories/page.tsx):
    the chip input and the category and tag lists it appends to. */
module WardrobeCategories {
  import opened Wrappers
  import Text

  /** What `handleAdd` hands to `onAdd`: the trimmed value, when it is not empty. */
  function Accepted(value: string): (r: Option<string>)
    ensures r.Some? <==> Text.Trim(Text.JavaScript, value) != ""
    ensures r.Some? ==> r.value == Text.Trim(Text.JavaScript, value)
  {
    var t := Text.Trim(Text.JavaScript, value);
    if t != "" then Some(t) else None
  }

  /** The add button is disabled exactly when a click would add nothing. */
  predicate ButtonDisabled(value: string) {
    Text.Trim(Text.JavaScript, value) == ""
  }

  lemma DisabledIffNothingAdded(value: string)
    ensures ButtonDisabled(value) <==> Accepted(value).None?
    ensures ButtonDisabled(value) <==> forall i :: 0 <= i < |value| ==> Text.IsSpace(Text.JavaScript, value[i])
  {
    Text.TrimEmptyIff(Text.JavaScript, value);
  }

  /** An accepted value has no white space at either end. */
  lemma AcceptedIsTrimmed(value: string)
    requires Accepted(value).Some?
    ensures var v := Accepted(value).value;
      !Text.IsSpace(Text.JavaScript, v[0]) && !Text.IsSpace(Text.JavaScript, v[|v| - 1])
  {
    Text.TrimProperties(Text.JavaScript, value);
  }

  class ChipInput {
    var value: string

    constructor ()
      ensures value == ""
    {
      value := "";
    }

    /** `handleAdd`: returns what is passed to `onAdd` and clears the input when it adds. */
    method HandleAdd() returns (added: Option<string>)
      modifies this
      ensures added == Accepted(old(value))
      ensures added.Some? ==> value == ""
      ensures added.None? ==> value == old(value)
    {
      added := Accepted(value);
      if added.Some? {
        value := "";
      }
    }

    /** Enter performs the same add; other keys do nothing. */
    method HandleKeyPress(key: string) returns (added: Option<string>)
      modifies this
      ensures key == "Enter" ==> added == Accepted(old(value)) && (added.Some? ==> value == "")
      ensures key == "Enter" && added.None? ==> value == old(value)
      ensures key != "Enter" ==> added.None? && value == old(value)
    {
      if key == "Enter" {
        added := HandleAdd();
      } else {
        added := None;
      }
    }
  }

  datatype CategoryEntry = CategoryEntry(name: string, count: int)

  datatype TagGroup = Styles | Scenes | Colors | Materials

  const InitialCategories: seq<CategoryEntry> := [
    CategoryEntry("👕 上装", 128), CategoryEntry("👖 下装", 96),
    CategoryEntry("🧥 外套", 54), CategoryEntry("👟 鞋履", 42)
  ]

  const InitialTags: map<TagGroup, seq<string>> := map[
    Styles := ["通勤", "休闲", "户外"], Scenes := ["会议", "约会", "旅行"],
    Colors := ["黑", "白", "灰"], Materials := ["棉", "羊毛", "尼龙"]]

  class CategoriesState {
    var categories: seq<CategoryEntry>
    var tags: map<TagGroup, seq<string>>

    constructor ()
      ensures categories == InitialCategories && tags == InitialTags
    {
      categories := InitialCategories;
      tags := InitialTags;
    }

    predicate Valid()
      reads this
    {
      forall g: TagGroup :: g in tags
    }

    method AddCategory(name: string)
      modifies this
      ensures categories == old(categories) + [CategoryEntry(name, 0)]
      ensures tags == old(tags)
    {
      categories := categories + [CategoryEntry(name, 0)];
    }

    method AddTag(group: TagGroup, value: string)
      requires Valid()
      modifies this
      ensures Valid()
      ensures tags[group] == old(tags[group]) + [value]
      ensures forall g: TagGroup :: g != group ==> tags[g] == old(tags[g])
      ensures categories == old(categories)
    {
      tags := tags[group := tags[group] + [value]];
    }
  }
}
