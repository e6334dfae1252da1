/** The category service (server/services/clothing_category_service.go; the older
    server/services/category_service.go has the same logic over another DTO name). The
    repository behind it is an in-memory table keyed by id. */
module CategoryService {
  import opened Wrappers
  import Seqs
  import Text
  import CategoryModel

  type Category = CategoryModel.ClothingCategory

  const ParentMissing := "父分类不存在"
  const SelfParent := "不能将分类设为自己的父分类"
  const HasChildren := "不能删除有子分类的分类"
  const HasItems := "不能删除有关联衣物的分类"
  /** GORM's `ErrRecordNotFound` text. */
  const NotFound := "record not found"
  /** Stands in for the driver's unique-index violation on `clothing_categories.name`. */
  const DuplicateName := "duplicate category name"
  const PathSeparator := " > "

  datatype CategoryDTO = CategoryDTO(id: nat, name: string, description: string,
                                     parentId: Option<nat>, icon: string, sortOrder: int,
                                     isActive: bool, parentName: string, itemCount: nat)

  /** The DTO fields copied from a row; `ParentName` and `ItemCount` start empty. */
  function ToDTO(c: Category): CategoryDTO {
    CategoryDTO(c.id, c.name, c.description, c.parentId, c.icon, c.sortOrder, c.isActive, "", 0)
  }

  datatype TreeNode = TreeNode(dto: CategoryDTO, children: seq<TreeNode>)

  function NodeOf(c: Category): TreeNode {
    TreeNode(ToDTO(c), [])
  }

  // ---------------------------------------------------------------------------------------
  // GetCategoryTree. Go keeps `map[uint]*CategoryTreeNode` and appends `*node`, a copy of the
  // pointed-to struct; here the map holds the pointed-to values and every append copies the
  // value the map holds at that moment.

  predicate IdsIn(cs: seq<Category>, keys: set<nat>) {
    forall j :: 0 <= j < |cs| ==> cs[j].id in keys
  }

  /** The node map after the first loop has run over `cs`. */
  function InitialNodes(cs: seq<Category>): (m: map<nat, TreeNode>)
    ensures IdsIn(cs, m.Keys)
    decreases |cs|
  {
    if cs == [] then map[]
    else InitialNodes(cs[..|cs| - 1])[cs[|cs| - 1].id := NodeOf(cs[|cs| - 1])]
  }

  /** The first loop makes one fresh node per distinct id, with no children and no
      `ParentName`. */
  lemma {:induction false} InitialNodesFacts(cs: seq<Category>)
    ensures InitialNodes(cs).Keys == set j | 0 <= j < |cs| :: cs[j].id
    ensures forall k :: k in InitialNodes(cs) ==>
              InitialNodes(cs)[k].dto.id == k && InitialNodes(cs)[k].children == [] && InitialNodes(cs)[k].dto.parentName == ""
    decreases |cs|
  {
    if cs != [] {
      var pre := cs[..|cs| - 1];
      InitialNodesFacts(pre);
      assert (set j | 0 <= j < |cs| :: cs[j].id) == (set j | 0 <= j < |pre| :: pre[j].id) + {cs[|cs| - 1].id};
    }
  }

  datatype TreeState = TreeState(nodes: map<nat, TreeNode>, roots: seq<TreeNode>)

  /** One iteration of the second loop (lines 66-80). */
  function Attach(st: TreeState, c: Category): (r: TreeState)
    requires c.id in st.nodes
    ensures r.nodes.Keys == st.nodes.Keys
  {
    var node := st.nodes[c.id];
    if c.parentId.None? then TreeState(st.nodes, st.roots + [node])
    else if c.parentId.value !in st.nodes then st
    else
      var pid := c.parentId.value;
      var parent := st.nodes[pid];
      var nodes1 := st.nodes[pid := parent.(children := parent.children + [node])];
      var cur := nodes1[c.id];
      TreeState(nodes1[c.id := cur.(dto := cur.dto.(parentName := parent.dto.name))], st.roots)
  }

  /** How one step changes the children lists and the roots. */
  lemma AttachEffect(st: TreeState, c: Category, n: nat)
    requires c.id in st.nodes && n in st.nodes
    ensures Attach(st, c).nodes[n].children ==
              if c.parentId == Some(n) then st.nodes[n].children + [st.nodes[c.id]] else st.nodes[n].children
    ensures Attach(st, c).nodes[n].dto.id == st.nodes[n].dto.id
    ensures n != c.id ==> Attach(st, c).nodes[n].dto.parentName == st.nodes[n].dto.parentName
    ensures Attach(st, c).roots == if c.parentId.None? then st.roots + [st.nodes[c.id]] else st.roots
  {
  }

  /** The state after the second loop has run over `cs`, starting from `st`. */
  function AttachAll(st: TreeState, cs: seq<Category>): (r: TreeState)
    requires IdsIn(cs, st.nodes.Keys)
    ensures r.nodes.Keys == st.nodes.Keys
    decreases |cs|
  {
    if cs == [] then st else AttachAll(Attach(st, cs[0]), cs[1..])
  }

  lemma AttachAllCons(st: TreeState, cs: seq<Category>)
    requires cs != [] && IdsIn(cs, st.nodes.Keys)
    ensures AttachAll(st, cs) == AttachAll(Attach(st, cs[0]), cs[1..])
  {
  }

  /** The roots `GetCategoryTree` returns for the fetched categories `cs`. */
  function CategoryTree(cs: seq<Category>): seq<TreeNode> {
    AttachAll(TreeState(InitialNodes(cs), []), cs).roots
  }

  /** The two loops of `GetCategoryTree`, on the categories `GetAll` returned. */
  method GetCategoryTree(categories: seq<Category>) returns (rootNodes: seq<TreeNode>)
    ensures rootNodes == CategoryTree(categories)
  {
    var categoryMap: map<nat, TreeNode> := map[];
    for i := 0 to |categories|
      invariant categoryMap == InitialNodes(categories[..i])
    {
      assert categories[..i + 1][..i] == categories[..i];
      categoryMap := categoryMap[categories[i].id := NodeOf(categories[i])];
    }
    assert categories[..|categories|] == categories;
    ghost var init := categoryMap;
    rootNodes := [];
    for i := 0 to |categories|
      invariant categoryMap.Keys == init.Keys
      invariant AttachAll(TreeState(categoryMap, rootNodes), categories[i..]) == AttachAll(TreeState(init, []), categories)
    {
      ghost var before := TreeState(categoryMap, rootNodes);
      var category := categories[i];
      var node := categoryMap[category.id];
      if category.parentId.None? {
        rootNodes := rootNodes + [node];
      } else if category.parentId.value in categoryMap {
        var parent := categoryMap[category.parentId.value];
        categoryMap := categoryMap[category.parentId.value := parent.(children := parent.children + [node])];
        var cur := categoryMap[category.id];
        categoryMap := categoryMap[category.id := cur.(dto := cur.dto.(parentName := parent.dto.name))];
      }
      assert TreeState(categoryMap, rootNodes) == Attach(before, category);
      AttachAllCons(before, categories[i..]);
      assert categories[i..][1..] == categories[i + 1..];
    }
  }

  // ---------------------------------------------------------------------------------------
  // Facts about the tree.

  /** The ids of a list of categories, in order. */
  function CategoryIds(cs: seq<Category>): (ids: seq<nat>)
    ensures |ids| == |cs|
    ensures forall j :: 0 <= j < |cs| ==> ids[j] == cs[j].id
  {
    if cs == [] then [] else CategoryIds(cs[..|cs| - 1]) + [cs[|cs| - 1].id]
  }

  /** The ids of a list of nodes, in order (top level only). */
  function NodeIds(ns: seq<TreeNode>): (ids: seq<nat>)
    ensures |ids| == |ns|
    ensures forall j :: 0 <= j < |ns| ==> ids[j] == ns[j].dto.id
  {
    if ns == [] then [] else NodeIds(ns[..|ns| - 1]) + [ns[|ns| - 1].dto.id]
  }

  /** The ids of the nil-parent categories of `cs`, in order. */
  function RootIds(cs: seq<Category>): seq<nat> {
    if cs == [] then []
    else RootIds(cs[..|cs| - 1]) + (if cs[|cs| - 1].parentId.None? then [cs[|cs| - 1].id] else [])
  }

  /** The ids of the categories of `cs` whose parent is `n`, in order. */
  function ChildIds(n: nat, cs: seq<Category>): seq<nat> {
    if cs == [] then []
    else ChildIds(n, cs[..|cs| - 1]) + (if cs[|cs| - 1].parentId == Some(n) then [cs[|cs| - 1].id] else [])
  }

  function IsRoot(): Category -> bool {
    (c: Category) => c.parentId.None?
  }

  /** `RootIds` is the ids of the filter on a nil parent. */
  lemma {:induction false} RootIdsAreFilter(cs: seq<Category>)
    ensures RootIds(cs) == CategoryIds(Seqs.Filter(IsRoot(), cs))
    decreases |cs|
  {
    if cs != [] {
      var pre := cs[..|cs| - 1];
      var c := cs[|cs| - 1];
      RootIdsAreFilter(pre);
      assert cs == pre + [c];
      Seqs.FilterAppend(IsRoot(), pre, [c]);
      var f := Seqs.Filter(IsRoot(), pre);
      if c.parentId.None? {
        assert Seqs.Filter(IsRoot(), [c]) == [c];
        assert CategoryIds(f + [c]) == CategoryIds(f) + [c.id];
      } else {
        assert Seqs.Filter(IsRoot(), [c]) == [];
        assert f + [] == f;
      }
    }
  }

  /** Every map node carries the id it is keyed by. */
  ghost predicate Keyed(st: TreeState) {
    forall n {:trigger st.nodes[n]} :: n in st.nodes ==> st.nodes[n].dto.id == n
  }

  lemma KeyedStep(st: TreeState, c: Category)
    requires c.id in st.nodes && Keyed(st)
    ensures Keyed(Attach(st, c))
  {
    forall n | n in Attach(st, c).nodes ensures Attach(st, c).nodes[n].dto.id == n {
      AttachEffect(st, c, n);
    }
  }

  /** The remaining ids stay keys of the map after one step. */
  lemma AttachTailIds(st: TreeState, rest: seq<Category>)
    requires rest != [] && IdsIn(rest, st.nodes.Keys)
    ensures IdsIn(rest[1..], Attach(st, rest[0]).nodes.Keys)
  {
    forall j | 0 <= j < |rest[1..]| ensures rest[1..][j].id in Attach(st, rest[0]).nodes.Keys {
      assert rest[1..][j] == rest[j + 1];
    }
  }

  /** One step appends the new category's id to the children of its parent's node. */
  lemma ChildrenStep(st: TreeState, c: Category, pre: seq<Category>, n: nat)
    requires c.id in st.nodes && n in st.nodes
    requires st.nodes[c.id].dto.id == c.id
    requires NodeIds(st.nodes[n].children) == ChildIds(n, pre)
    ensures NodeIds(Attach(st, c).nodes[n].children) == ChildIds(n, pre + [c])
  {
    assert (pre + [c])[..|pre|] == pre;
    AttachEffect(st, c, n);
    assert NodeIds(st.nodes[n].children + [st.nodes[c.id]]) == NodeIds(st.nodes[n].children) + [c.id];
  }

  /** One step appends the new category's id to the roots when its parent is nil. */
  lemma RootsStep(st: TreeState, c: Category, pre: seq<Category>)
    requires c.id in st.nodes
    requires st.nodes[c.id].dto.id == c.id
    requires NodeIds(st.roots) == RootIds(pre)
    ensures NodeIds(Attach(st, c).roots) == RootIds(pre + [c])
  {
    assert (pre + [c])[..|pre|] == pre;
    AttachEffect(st, c, c.id);
    assert NodeIds(st.roots + [st.nodes[c.id]]) == NodeIds(st.roots) + [c.id];
  }

  /** What one step keeps: the remaining ids stay keys and every node keeps its id. */
  lemma NextStep(st: TreeState, rest: seq<Category>)
    requires rest != [] && IdsIn(rest, st.nodes.Keys) && Keyed(st)
    ensures IdsIn(rest[1..], Attach(st, rest[0]).nodes.Keys) && Keyed(Attach(st, rest[0]))
  {
    KeyedStep(st, rest[0]);
    AttachTailIds(st, rest);
  }

  /** Once the loop has processed `pre` and then `rest`, the roots are the nil-parent
      categories of `pre + rest`, in order. */
  lemma {:induction false} RootsAll(st: TreeState, pre: seq<Category>, rest: seq<Category>, all: seq<Category>)
    requires IdsIn(rest, st.nodes.Keys) && Keyed(st)
    requires NodeIds(st.roots) == RootIds(pre)
    requires all == pre + rest
    ensures NodeIds(AttachAll(st, rest).roots) == RootIds(all)
    decreases |rest|
  {
    if rest != [] {
      RootsStep(st, rest[0], pre);
      NextStep(st, rest);
      assert all == pre + [rest[0]] + rest[1..];
      RootsAll(Attach(st, rest[0]), pre + [rest[0]], rest[1..], all);
    } else {
      assert all == pre;
    }
  }

  /** Once the loop has processed `pre` and then `rest`, the map node `n` holds the
      categories of `pre + rest` naming `n` as parent, in order. */
  lemma {:induction false} ChildrenAll(st: TreeState, pre: seq<Category>, rest: seq<Category>, all: seq<Category>, n: nat)
    requires IdsIn(rest, st.nodes.Keys) && Keyed(st) && n in st.nodes
    requires NodeIds(st.nodes[n].children) == ChildIds(n, pre)
    requires all == pre + rest
    ensures NodeIds(AttachAll(st, rest).nodes[n].children) == ChildIds(n, all)
    decreases |rest|
  {
    if rest != [] {
      ChildrenStep(st, rest[0], pre, n);
      NextStep(st, rest);
      assert all == pre + [rest[0]] + rest[1..];
      ChildrenAll(Attach(st, rest[0]), pre + [rest[0]], rest[1..], all, n);
    } else {
      assert all == pre;
    }
  }

  /** One root entry per fetched category with a nil parent, in input order. */
  lemma RootsInInputOrder(cs: seq<Category>)
    ensures NodeIds(CategoryTree(cs)) == RootIds(cs)
    ensures NodeIds(CategoryTree(cs)) == CategoryIds(Seqs.Filter(IsRoot(), cs))
  {
    InitialNodesFacts(cs);
    RootsAll(TreeState(InitialNodes(cs), []), [], cs, cs);
    RootIdsAreFilter(cs);
  }

  /** Running the loop over `a + b` is running it over `a`, then over `b`. */
  lemma {:induction false} AttachAllSplit(st: TreeState, a: seq<Category>, b: seq<Category>)
    requires IdsIn(a, st.nodes.Keys) && IdsIn(b, st.nodes.Keys)
    ensures AttachAll(st, a + b) == AttachAll(AttachAll(st, a), b)
    decreases |a|
  {
    if a != [] {
      assert (a + b)[1..] == a[1..] + b;
      AttachAllSplit(Attach(st, a[0]), a[1..], b);
    } else {
      assert a + b == b;
    }
  }

  /** The loop only ever appends to the roots. */
  lemma {:induction false} RootsOnlyGrow(st: TreeState, cs: seq<Category>)
    requires IdsIn(cs, st.nodes.Keys)
    ensures st.roots <= AttachAll(st, cs).roots
    decreases |cs|
  {
    if cs != [] {
      AttachEffect(st, cs[0], cs[0].id);
      RootsOnlyGrow(Attach(st, cs[0]), cs[1..]);
    }
  }

  /** After the loop has run over the first `i` categories: one root entry per root among
      them, and the map node of `cs[i]` holds the children among them. */
  lemma PrefixFacts(cs: seq<Category>, i: nat)
    requires i < |cs|
    ensures var st := AttachAll(TreeState(InitialNodes(cs), []), cs[..i]);
            && cs[i].id in st.nodes
            && |st.roots| == |RootIds(cs[..i])|
            && NodeIds(st.nodes[cs[i].id].children) == ChildIds(cs[i].id, cs[..i])
  {
    InitialNodesFacts(cs);
    var st0 := TreeState(InitialNodes(cs), []);
    var pre := cs[..i];
    RootsAll(st0, [], pre, pre);
    ChildrenAll(st0, [], pre, pre, cs[i].id);
  }

  /** The loop over `cs` is the loop over the first `i` categories, one step for `cs[i]`,
      and the loop over the rest. */
  lemma SplitAt(cs: seq<Category>, i: nat)
    requires i < |cs|
    ensures var st0 := TreeState(InitialNodes(cs), []);
            var st := AttachAll(st0, cs[..i]);
            && cs[i].id in st.nodes
            && AttachAll(st0, cs) == AttachAll(Attach(st, cs[i]), cs[i + 1..])
  {
    var st0 := TreeState(InitialNodes(cs), []);
    var pre := cs[..i];
    assert cs == pre + cs[i..];
    AttachAllSplit(st0, pre, cs[i..]);
    assert cs[i..][1..] == cs[i + 1..];
  }

  /** Value-copy semantics: the entry of the root `cs[i]` holds exactly the children whose
      categories came before it in the input, in input order; children attached to the
      map node later do not reach the copy. */
  lemma RootEntryChildren(cs: seq<Category>, i: nat)
    requires i < |cs| && cs[i].parentId.None?
    ensures |RootIds(cs[..i])| < |CategoryTree(cs)|
    ensures NodeIds(CategoryTree(cs)[|RootIds(cs[..i])|].children) == ChildIds(cs[i].id, cs[..i])
  {
    var st0 := TreeState(InitialNodes(cs), []);
    var st := AttachAll(st0, cs[..i]);
    PrefixFacts(cs, i);
    SplitAt(cs, i);
    var st1 := Attach(st, cs[i]);
    AttachEffect(st, cs[i], cs[i].id);
    RootsOnlyGrow(st1, cs[i + 1..]);
  }

  /** No category of `cs` names `n` as parent: no child ids. */
  lemma {:induction false} NoChildIds(n: nat, cs: seq<Category>)
    requires forall j :: 0 <= j < |cs| ==> cs[j].parentId != Some(n)
    ensures ChildIds(n, cs) == []
    decreases |cs|
  {
    if cs != [] {
      NoChildIds(n, cs[..|cs| - 1]);
    }
  }

  /** Hence a root placed before all of its children comes back with no children. */
  lemma RootBeforeChildren(cs: seq<Category>, i: nat)
    requires i < |cs| && cs[i].parentId.None?
    requires forall j :: 0 <= j < i ==> cs[j].parentId != Some(cs[i].id)
    ensures |RootIds(cs[..i])| < |CategoryTree(cs)|
    ensures CategoryTree(cs)[|RootIds(cs[..i])|].children == []
  {
    RootEntryChildren(cs, i);
    NoChildIds(cs[i].id, cs[..i]);
  }

  /** The output depends on input order: a root fetched before its child is returned
      without it, and after its child with it. */
  lemma TreeDependsOnOrder()
    ensures var top := CategoryModel.ClothingCategory(1, "上衣", "", None, "", 1, true);
            var shirt := CategoryModel.ClothingCategory(2, "T恤", "", Some(1), "", 1, true);
            && CategoryTree([top, shirt]) == [NodeOf(top)]
            && CategoryTree([shirt, top]) == [TreeNode(ToDTO(top), [NodeOf(shirt)])]
  {
    var top := CategoryModel.ClothingCategory(1, "上衣", "", None, "", 1, true);
    var shirt := CategoryModel.ClothingCategory(2, "T恤", "", Some(1), "", 1, true);
    var a := [top, shirt];
    assert a[..1] == [top] && [top][..0] == [];
    assert InitialNodes([top]) == map[][1 := NodeOf(top)];
    var m := map[1 := NodeOf(top), 2 := NodeOf(shirt)];
    assert InitialNodes(a) == m;
    assert a[1..] == [shirt] && [shirt][1..] == [];
    var sa := Attach(TreeState(m, []), top);
    assert sa == TreeState(m, [NodeOf(top)]);
    var b := [shirt, top];
    assert b[..1] == [shirt] && [shirt][..0] == [];
    assert InitialNodes([shirt]) == map[][2 := NodeOf(shirt)];
    assert InitialNodes(b) == m;
    assert b[1..] == [top] && [top][1..] == [];
    var sb := Attach(TreeState(m, []), shirt);
    assert sb.nodes[1] == TreeNode(ToDTO(top), [NodeOf(shirt)]);
  }

  /** Every id in a forest, at any depth. */
  function AllIds(ns: seq<TreeNode>): set<nat>
    decreases ns
  {
    if ns == [] then {} else AllIds(ns[..|ns| - 1]) + {ns[|ns| - 1].dto.id} + AllIds(ns[|ns| - 1].children)
  }

  lemma AllIdsSnoc(ns: seq<TreeNode>, x: TreeNode)
    ensures AllIds(ns + [x]) == AllIds(ns) + {x.dto.id} + AllIds(x.children)
  {
    assert (ns + [x])[..|ns|] == ns;
  }

  function RootCategoryIds(cs: seq<Category>): set<nat> {
    set j | 0 <= j < |cs| && cs[j].parentId.None? :: cs[j].id
  }

  /** Ids of the categories whose parent is one of the ids `keys`. */
  function AttachedIds(cs: seq<Category>, keys: set<nat>): set<nat> {
    set j | 0 <= j < |cs| && cs[j].parentId.Some? && cs[j].parentId.value in keys :: cs[j].id
  }

  /** Every id copied into the roots is a root's or an attached category's, and every id
      copied into a child list is an attached category's. */
  ghost predicate Placement(cs: seq<Category>, st: TreeState) {
    && (forall n {:trigger st.nodes[n]} :: n in st.nodes ==> st.nodes[n].dto.id == n)
    && AllIds(st.roots) <= RootCategoryIds(cs) + AttachedIds(cs, st.nodes.Keys)
    && (forall n {:trigger st.nodes[n]} :: n in st.nodes ==> AllIds(st.nodes[n].children) <= AttachedIds(cs, st.nodes.Keys))
  }

  lemma PlacementStep(cs: seq<Category>, st: TreeState, j: nat)
    requires j < |cs| && cs[j].id in st.nodes
    requires Placement(cs, st)
    ensures Placement(cs, Attach(st, cs[j]))
  {
    var c := cs[j];
    var st' := Attach(st, c);
    AttachEffect(st, c, c.id);
    AllIdsSnoc(st.roots, st.nodes[c.id]);
    if c.parentId.None? {
      assert c.id in RootCategoryIds(cs);
    }
    forall n | n in st'.nodes
      ensures st'.nodes[n].dto.id == n
      ensures AllIds(st'.nodes[n].children) <= AttachedIds(cs, st'.nodes.Keys)
    {
      AttachEffect(st, c, n);
      AllIdsSnoc(st.nodes[n].children, st.nodes[c.id]);
      if c.parentId == Some(n) {
        assert c.id in AttachedIds(cs, st.nodes.Keys);
      }
    }
  }

  lemma {:induction false} PlacementAll(cs: seq<Category>, st: TreeState, k: nat)
    requires k <= |cs| && IdsIn(cs[k..], st.nodes.Keys)
    requires Placement(cs, st)
    ensures Placement(cs, AttachAll(st, cs[k..]))
    decreases |cs| - k
  {
    if k < |cs| {
      PlacementStep(cs, st, k);
      assert cs[k..][1..] == cs[k + 1..];
      PlacementAll(cs, Attach(st, cs[k]), k + 1);
    }
  }

  predicate DistinctIds(cs: seq<Category>) {
    forall j, j' :: 0 <= j < j' < |cs| ==> cs[j].id != cs[j'].id
  }

  /** Every id in the tree is a root's or one whose parent was fetched. */
  lemma TreePlacement(cs: seq<Category>)
    ensures AllIds(CategoryTree(cs)) <= RootCategoryIds(cs) + AttachedIds(cs, InitialNodes(cs).Keys)
  {
    var init := InitialNodes(cs);
    InitialNodesFacts(cs);
    assert AllIds([]) == {};
    assert cs[0..] == cs;
    PlacementAll(cs, TreeState(init, []), 0);
  }

  /** With distinct ids, a category whose parent is not among the fetched categories is
      nowhere in the tree, at any depth. */
  lemma OrphansDropped(cs: seq<Category>, i: nat)
    requires DistinctIds(cs)
    requires i < |cs| && cs[i].parentId.Some?
    requires forall j :: 0 <= j < |cs| ==> cs[i].parentId.value != cs[j].id
    ensures cs[i].id !in AllIds(CategoryTree(cs))
  {
    TreePlacement(cs);
    assert cs[i].id !in RootCategoryIds(cs);
    InitialNodesFacts(cs);
    assert cs[i].parentId.value !in InitialNodes(cs).Keys;
    assert cs[i].id !in AttachedIds(cs, InitialNodes(cs).Keys);
  }

  /** No node of a forest, at any depth, carries a `ParentName`. */
  predicate AllBlank(ns: seq<TreeNode>)
    decreases ns
  {
    ns == [] || (AllBlank(ns[..|ns| - 1]) && ns[|ns| - 1].dto.parentName == "" && AllBlank(ns[|ns| - 1].children))
  }

  lemma AllBlankSnoc(ns: seq<TreeNode>, x: TreeNode)
    ensures AllBlank(ns + [x]) <==> AllBlank(ns) && x.dto.parentName == "" && AllBlank(x.children)
  {
    assert (ns + [x])[..|ns|] == ns;
  }

  /** Nothing copied so far carries a `ParentName`, and only the map nodes of processed ids
      may have one. */
  ghost predicate Blankness(processed: set<nat>, st: TreeState) {
    && AllBlank(st.roots)
    && (forall n {:trigger st.nodes[n]} :: n in st.nodes ==> AllBlank(st.nodes[n].children))
    && (forall n {:trigger st.nodes[n]} :: n in st.nodes && n !in processed ==> st.nodes[n].dto.parentName == "")
  }

  lemma BlanknessStep(processed: set<nat>, st: TreeState, c: Category)
    requires c.id in st.nodes && c.id !in processed
    requires Blankness(processed, st)
    ensures Blankness(processed + {c.id}, Attach(st, c))
  {
    var st' := Attach(st, c);
    AttachEffect(st, c, c.id);
    AllBlankSnoc(st.roots, st.nodes[c.id]);
    forall n | n in st'.nodes
      ensures AllBlank(st'.nodes[n].children)
      ensures n !in processed + {c.id} ==> st'.nodes[n].dto.parentName == ""
    {
      AttachEffect(st, c, n);
      AllBlankSnoc(st.nodes[n].children, st.nodes[c.id]);
    }
  }

  lemma {:induction false} BlanknessAll(processed: set<nat>, st: TreeState, rest: seq<Category>)
    requires IdsIn(rest, st.nodes.Keys)
    requires forall j :: 0 <= j < |rest| ==> rest[j].id !in processed
    requires DistinctIds(rest)
    requires Blankness(processed, st)
    ensures AllBlank(AttachAll(st, rest).roots)
    decreases |rest|
  {
    if rest != [] {
      BlanknessStep(processed, st, rest[0]);
      BlanknessAll(processed + {rest[0].id}, Attach(st, rest[0]), rest[1..]);
    }
  }

  /** `ParentName` is written to the map node after its copy went into the parent, so with
      distinct ids no node of the returned tree carries one, at any depth. */
  lemma TreeHasNoParentNames(cs: seq<Category>)
    requires DistinctIds(cs)
    ensures AllBlank(CategoryTree(cs))
  {
    InitialNodesFacts(cs);
    BlanknessAll({}, TreeState(InitialNodes(cs), []), cs);
  }
}
