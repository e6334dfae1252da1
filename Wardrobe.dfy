/** The wardrobe hook of the web client (client/web/src/hooks/useWardrobe.ts): the item
    list and filter state, the filter and the sort that produce the displayed items,
    and the handlers that replace the list. */
module Wardrobe {
  import opened Seqs
  import Wrappers
  import Text

  /** `ClothingItem`. The optional string properties (brand, color, material, size,
      price, purchaseDate, notes) are kept by property name in `extra`. */
  datatype Item = Item(
    id: string, name: string, category: string, season: string, image: string,
    tags: seq<string>, wearCount: int, extra: map<string, string>)

  /** The argument of `addItem`: an item without id and wear count. */
  datatype Draft = Draft(
    name: string, category: string, season: string, image: string,
    tags: seq<string>, extra: map<string, string>)

  /** A `Partial<ClothingItem>`: each present property overrides the item's. */
  datatype ItemUpdate = ItemUpdate(
    id: Wrappers.Option<string>, name: Wrappers.Option<string>, category: Wrappers.Option<string>,
    season: Wrappers.Option<string>, image: Wrappers.Option<string>,
    tags: Wrappers.Option<seq<string>>, wearCount: Wrappers.Option<int>, extra: map<string, string>)

  datatype SortBy = ByName | ByCategory | ByWearCount | ByDateAdded
  datatype SortOrder = Asc | Desc

  datatype Filters = Filters(category: string, season: string, searchTerm: string, sortBy: SortBy, sortOrder: SortOrder)

  const AllCategories := "所有类别"
  const AllSeasons := "所有季节"

  /** The filters the hook starts with and `resetFilters` restores. */
  const InitialFilters := Filters(AllCategories, AllSeasons, "", ByName, Asc)

  // ---------------------------------------------------------------- filtering

  /** The predicate of `filteredItems`. */
  predicate Matches(f: Filters, item: Item) {
    var term := Text.Lower(f.searchTerm);
    && (f.category == AllCategories || item.category == f.category)
    && (f.season == AllSeasons || item.season == f.season)
    && (Text.Contains(Text.Lower(item.name), term)
        || exists k :: 0 <= k < |item.tags| && Text.Contains(Text.Lower(item.tags[k]), term))
  }

  function FilterItems(items: seq<Item>, f: Filters): (r: seq<Item>)
    ensures forall i :: 0 <= i < |r| ==> r[i] in items && Matches(f, r[i])
    ensures forall i :: 0 <= i < |items| && Matches(f, items[i]) ==> items[i] in r
  {
    Filter(item => Matches(f, item), items)
  }

  /** An item passes exactly when the category, the season and the search term all match,
      the search term being a case-insensitive substring of the name or of some tag. */
  lemma MatchesIff(f: Filters, item: Item)
    ensures Matches(f, item) <==>
      && (f.category == AllCategories || item.category == f.category)
      && (f.season == AllSeasons || item.season == f.season)
      && ((exists i :: Text.OccursAt(Text.Lower(item.name), Text.Lower(f.searchTerm), i))
          || exists k :: 0 <= k < |item.tags|
               && exists i :: Text.OccursAt(Text.Lower(item.tags[k]), Text.Lower(f.searchTerm), i))
  {
    var term := Text.Lower(f.searchTerm);
    Text.ContainsIff(Text.Lower(item.name), term);
    forall k | 0 <= k < |item.tags| {
      Text.ContainsIff(Text.Lower(item.tags[k]), term);
    }
  }

  /** With the initial filters every item is shown: the empty search term is part of every name. */
  lemma InitialFiltersKeepEverything(items: seq<Item>)
    ensures FilterItems(items, InitialFilters) == items
  {
    forall i | 0 <= i < |items| ensures Matches(InitialFilters, items[i]) {
      Text.EmptyContained(Text.Lower(items[i].name));
    }
    FilterAll(item => Matches(InitialFilters, item), items);
  }

  // ---------------------------------------------------------------- sorting

  /** The comparator of `sortedItems` before the direction is applied. */
  function Compare(key: SortBy, a: Item, b: Item): int {
    match key
    case ByName => Text.StrCmp(a.name, b.name)
    case ByCategory => Text.StrCmp(a.category, b.category)
    case ByWearCount => a.wearCount - b.wearCount
    case ByDateAdded => Text.StrCmp(a.id, b.id)
  }

  /** `sortOrder === 'asc' ? comparison : -comparison`. */
  function Directed(key: SortBy, order: SortOrder, a: Item, b: Item): int {
    if order == Asc then Compare(key, a, b) else -Compare(key, a, b)
  }

  /** `a` may stand before `b` in the sorted list. */
  predicate Before(key: SortBy, order: SortOrder, a: Item, b: Item) {
    Directed(key, order, a, b) <= 0
  }

  lemma DirectedAntisymmetric(key: SortBy, order: SortOrder, a: Item, b: Item)
    ensures Directed(key, order, a, b) == -Directed(key, order, b, a)
  {
    match key
    case ByName => Text.StrCmpAntisymmetric(a.name, b.name);
    case ByCategory => Text.StrCmpAntisymmetric(a.category, b.category);
    case ByWearCount =>
    case ByDateAdded => Text.StrCmpAntisymmetric(a.id, b.id);
  }

  lemma BeforeTransitive(key: SortBy, order: SortOrder, a: Item, b: Item, c: Item)
    requires Before(key, order, a, b) && Before(key, order, b, c)
    ensures Before(key, order, a, c)
  {
    match key
    case ByName =>
      if order == Asc { Text.StrCmpTransitive(a.name, b.name, c.name); }
      else {
        Text.StrCmpAntisymmetric(a.name, b.name); Text.StrCmpAntisymmetric(b.name, c.name);
        Text.StrCmpAntisymmetric(a.name, c.name); Text.StrCmpTransitive(c.name, b.name, a.name);
      }
    case ByCategory =>
      if order == Asc { Text.StrCmpTransitive(a.category, b.category, c.category); }
      else {
        Text.StrCmpAntisymmetric(a.category, b.category); Text.StrCmpAntisymmetric(b.category, c.category);
        Text.StrCmpAntisymmetric(a.category, c.category); Text.StrCmpTransitive(c.category, b.category, a.category);
      }
    case ByWearCount =>
    case ByDateAdded =>
      if order == Asc { Text.StrCmpTransitive(a.id, b.id, c.id); }
      else {
        Text.StrCmpAntisymmetric(a.id, b.id); Text.StrCmpAntisymmetric(b.id, c.id);
        Text.StrCmpAntisymmetric(a.id, c.id); Text.StrCmpTransitive(c.id, b.id, a.id);
      }
  }

  /** The comparator as a function value. */
  function BeforeFn(key: SortBy, order: SortOrder): (Item, Item) -> bool {
    (a: Item, b: Item) => Before(key, order, a, b)
  }

  /** Either direction of every key is a total preorder on items. */
  lemma BeforeIsTotalPreorder(key: SortBy, order: SortOrder)
    ensures IsTotalPreorder(BeforeFn(key, order))
  {
    var le := BeforeFn(key, order);
    forall a: Item, b: Item ensures le(a, b) || le(b, a) {
      DirectedAntisymmetric(key, order, a, b);
    }
    forall a: Item, b: Item, c: Item | le(a, b) && le(b, c) ensures le(a, c) {
      BeforeTransitive(key, order, a, b, c);
    }
  }

  predicate SortedBy(key: SortBy, order: SortOrder, s: seq<Item>) {
    forall i, j :: 0 <= i < j < |s| ==> Before(key, order, s[i], s[j])
  }

  /** `[...filteredItems].sort(comparator)`: a stable insertion sort. */
  function SortItems(key: SortBy, order: SortOrder, s: seq<Item>): (r: seq<Item>)
    ensures multiset(r) == multiset(s)
  {
    SortWith(BeforeFn(key, order), s)
  }

  /** The sorted list is ordered by the directed comparator. */
  lemma SortItemsSorted(key: SortBy, order: SortOrder, s: seq<Item>)
    ensures SortedBy(key, order, SortItems(key, order, s))
  {
    BeforeIsTotalPreorder(key, order);
    SortWithSorted(BeforeFn(key, order), s);
  }

  /** What the hook hands out as `items`: the filtered items, sorted. */
  function Displayed(items: seq<Item>, f: Filters): seq<Item> {
    SortItems(f.sortBy, f.sortOrder, FilterItems(items, f))
  }

  /** The displayed items are a permutation of the filtered items; sorted by wear count
      ascending the counts never decrease, descending they never increase. */
  lemma DisplayedIsSortedPermutation(items: seq<Item>, f: Filters)
    ensures multiset(Displayed(items, f)) == multiset(FilterItems(items, f))
    ensures f.sortBy == ByWearCount && f.sortOrder == Asc ==>
      forall i, j :: 0 <= i < j < |Displayed(items, f)| ==> Displayed(items, f)[i].wearCount <= Displayed(items, f)[j].wearCount
    ensures f.sortBy == ByWearCount && f.sortOrder == Desc ==>
      forall i, j :: 0 <= i < j < |Displayed(items, f)| ==> Displayed(items, f)[i].wearCount >= Displayed(items, f)[j].wearCount
  {
    SortItemsSorted(f.sortBy, f.sortOrder, FilterItems(items, f));
  }

  /** 'desc' negates every comparison: an order that is ascending for one is descending for the other. */
  lemma DescReversesAsc(key: SortBy, a: Item, b: Item)
    ensures Before(key, Desc, a, b) <==> Before(key, Asc, b, a)
  {
    DirectedAntisymmetric(key, Asc, a, b);
  }

  // ---------------------------------------------------------------- list updates

  /** `{ ...item, ...updates }`. */
  function Merge(item: Item, u: ItemUpdate): Item {
    Item(u.id.GetOr(item.id), u.name.GetOr(item.name), u.category.GetOr(item.category),
         u.season.GetOr(item.season), u.image.GetOr(item.image), u.tags.GetOr(item.tags),
         u.wearCount.GetOr(item.wearCount), item.extra + u.extra)
  }

  /** The list after `updateItem(id, updates)`. */
  function UpdateMatching(s: seq<Item>, id: string, u: ItemUpdate): (r: seq<Item>)
    ensures |r| == |s|
    ensures forall i :: 0 <= i < |s| && s[i].id != id ==> r[i] == s[i]
    ensures forall i :: 0 <= i < |s| && s[i].id == id ==> r[i] == Merge(s[i], u)
  {
    seq(|s|, i requires 0 <= i < |s| => if s[i].id == id then Merge(s[i], u) else s[i])
  }

  /** An update with no properties changes nothing. */
  lemma EmptyUpdateIsIdentity(s: seq<Item>, id: string)
    ensures UpdateMatching(s, id, ItemUpdate(Wrappers.None, Wrappers.None, Wrappers.None, Wrappers.None,
      Wrappers.None, Wrappers.None, Wrappers.None, map[])) == s
  {
    var u := ItemUpdate(Wrappers.None, Wrappers.None, Wrappers.None, Wrappers.None,
      Wrappers.None, Wrappers.None, Wrappers.None, map[]);
    forall i | 0 <= i < |s| ensures Merge(s[i], u) == s[i] {
      assert s[i].extra + map[] == s[i].extra;
    }
  }

  /** The list after `deleteItem(id)`. */
  function DeleteMatching(s: seq<Item>, id: string): (r: seq<Item>)
    ensures forall i :: 0 <= i < |r| ==> r[i].id != id
    ensures forall i :: 0 <= i < |s| && s[i].id != id ==> s[i] in r
    ensures forall x :: x in multiset(r) ==> x in multiset(s)
  {
    Filter((item: Item) => item.id != id, s)
  }

  /** Deleting keeps order: it works piece by piece over a concatenation, and a single
      item is dropped exactly when it has that id. */
  lemma DeleteKeepsOrder(a: seq<Item>, b: seq<Item>, id: string)
    ensures DeleteMatching(a + b, id) == DeleteMatching(a, id) + DeleteMatching(b, id)
    ensures |b| == 1 ==> DeleteMatching(b, id) == if b[0].id == id then [] else b
  {
    FilterAppend((item: Item) => item.id != id, a, b);
    if |b| == 1 {
      assert b[1..] == [];
    }
  }

  /** Deleting keeps every other item as often as it occurred. */
  lemma DeleteKeepsOthers(s: seq<Item>, id: string, x: Item)
    ensures multiset(DeleteMatching(s, id))[x] == if x.id == id then 0 else multiset(s)[x]
  {
    FilterMultiset((item: Item) => item.id != id, s, x);
  }

  /** `isFiltered`: category, season or search term differ from their defaults; the sort
      fields do not count. */
  predicate IsFiltered(f: Filters) {
    f.category != AllCategories || f.season != AllSeasons || f.searchTerm != ""
  }

  lemma IsFilteredIgnoresSort(f: Filters)
    ensures IsFiltered(f) <==> f.(sortBy := ByName, sortOrder := Asc) != InitialFilters
  {
  }

  /** `{ ...prev, ...newFilters }` on the filters. */
  datatype FiltersUpdate = FiltersUpdate(
    category: Wrappers.Option<string>, season: Wrappers.Option<string>, searchTerm: Wrappers.Option<string>,
    sortBy: Wrappers.Option<SortBy>, sortOrder: Wrappers.Option<SortOrder>)

  function ApplyFilters(f: Filters, u: FiltersUpdate): Filters {
    Filters(u.category.GetOr(f.category), u.season.GetOr(f.season), u.searchTerm.GetOr(f.searchTerm),
            u.sortBy.GetOr(f.sortBy), u.sortOrder.GetOr(f.sortOrder))
  }

  /** The spread `{ ...prev, ...newFilters }`: each given field replaces the old one and the
      others stay; an empty update changes nothing, and applying an update twice is applying
      it once. */
  lemma ApplyFiltersSpread(f: Filters, u: FiltersUpdate)
    ensures var r := ApplyFilters(f, u);
            && r.category == (if u.category.Some? then u.category.value else f.category)
            && r.season == (if u.season.Some? then u.season.value else f.season)
            && r.searchTerm == (if u.searchTerm.Some? then u.searchTerm.value else f.searchTerm)
            && r.sortBy == (if u.sortBy.Some? then u.sortBy.value else f.sortBy)
            && r.sortOrder == (if u.sortOrder.Some? then u.sortOrder.value else f.sortOrder)
    ensures ApplyFilters(f, FiltersUpdate(Wrappers.None, Wrappers.None, Wrappers.None, Wrappers.None, Wrappers.None)) == f
    ensures ApplyFilters(ApplyFilters(f, u), u) == ApplyFilters(f, u)
  {
  }

  /** The four items `fetchItems` loads. */
  const MockClothingItems: seq<Item> := [
    Item("1", "简约白T", "上装", "夏",
         "https://lh3.googleusercontent.com/aida-public/AB6AXuBpKRSkI0k_rv3-f3pkIHx8gSRFlXMKWkz5pMMTOl91whfAGmxZ7W_Wvp_51sCXqPS05Ghwswh09y79iYU2YbqzgVI4qFgBJ2Mczj3QLPKX7k1sxRZ3sMniVjXctOedrgdGbFGiCcgRUuiEp4TgBZ2UcKsMvm9ii-cWu6FEeSZ_3WqYfeCv_IZ8HWbm70HZy2d4gHO0jqVJ3ZoyD639pZGAXsiMRunOgs_pq5LK-DtbU-il8n_jKcAe8zuVzcacFavxvNxlkCyNSpRJ", ["通勤", "百搭"], 8, map[]),
    Item("2", "直筒牛仔裤", "下装", "春秋",
         "https://lh3.googleusercontent.com/aida-public/AB6AXuC1CcPAuYZDAzOoS09aTYninYVkA0F2bZ6MQS1XvIVykKnhdjXc3ILR5f1bddH6AKyZii9O-OWLbeYZdr5JF5c0jgotXh3R0Hduw2ZjFcjneACgQHUmJPTsB-w-bezs3EzNP9D6lDQIA3d5eCo1LWojxp7-mkYLjJme5Xrah723APDeA0vX2eD6n2vS4l3r4FQBpYvXVRPkp0ZzRO0f70ezn9BaACBMIfvjgDn-THgQ-sLvJjcAijZoDaqZ2xj2qpx16du5mQTaOANO", ["休闲", "耐穿"], 12, map[]),
    Item("3", "机能风冲锋衣", "外套", "春秋",
         "https://lh3.googleusercontent.com/aida-public/AB6AXuAkHfG8nBe7u5ky9SU6swqaWeW1-vlQh4NGnzLV5wcO1HGZ8UrMgwB1I8etuA48UQjqQTaC7FyDzurm8Yg_tjUXEXX0K9HqsQk4J16OZbuegSNbXf35h2CzqYrbzyReOOQQeD5llB_Kxkk_FzpBnnFtvBm6D9IfD9JV4vIepeh28KsFUbiffkw7PAya8M5RvMmByPuoK1cGq4zL6mSQqiZaJVIU67cpamB-8RDI3B3pv7kb0_HOsBXODmEfF0y4IEcft4h388KEs9Yd", ["户外", "防风"], 6, map[]),
    Item("4", "白色运动鞋", "鞋履", "全季",
         "https://lh3.googleusercontent.com/aida-public/AB6AXuBDGHZOG1AVpehpXck7NDvsGZfMo9PMolJN4mPrh3Qw9f47KWQniwwoRyFEOOoIZ-MmJzuHCGjaW1eUC5ix2wdCz5t2taSiXbrfHTGnRrEBKZaX4zL3vYa5ttzh0MA_FOYAiW9kDO6s8SRWVfCwAlTjeHcu5SoAsMlbcOjgkizcEMVl4Q8PPe7wfF3rl0UPRmpa23iHIaKr8jPVC3OjxAjqodqcwh5slG7xQLzUgbvkYNLhHp5IAvuDlHHHdAySC0o0vN0sxYWXQ5gf", ["百搭", "舒适"], 22, map[])
  ]

  /** The state of one `useWardrobe` instance. */
  class WardrobeState {
    var items: seq<Item>
    var filters: Filters

    constructor ()
      ensures items == [] && filters == InitialFilters
    {
      items := [];
      filters := InitialFilters;
    }

    /** `items`: what the page displays; reading it changes neither list nor filters. */
    function DisplayedItems(): seq<Item>
      reads this
    {
      Displayed(items, filters)
    }

    function FilteredCount(): nat
      reads this
    {
      |FilterItems(items, filters)|
    }

    predicate HasItems()
      reads this
    {
      |items| > 0
    }

    method FetchItems()
      modifies this
      ensures items == MockClothingItems && filters == old(filters)
    {
      items := MockClothingItems;
    }

    /** `addItem`: one new item with id `Date.now().toString()` and no wears, at the end. */
    method AddItem(draft: Draft, now: nat) returns (newItem: Item)
      modifies this
      ensures newItem == Item(Text.NatToString(now), draft.name, draft.category, draft.season,
                              draft.image, draft.tags, 0, draft.extra)
      ensures items == old(items) + [newItem] && filters == old(filters)
    {
      newItem := Item(Text.NatToString(now), draft.name, draft.category, draft.season,
                      draft.image, draft.tags, 0, draft.extra);
      items := items + [newItem];
    }

    method UpdateItem(id: string, u: ItemUpdate)
      modifies this
      ensures items == UpdateMatching(old(items), id, u) && filters == old(filters)
    {
      items := UpdateMatching(items, id, u);
    }

    method DeleteItem(id: string)
      modifies this
      ensures items == DeleteMatching(old(items), id) && filters == old(filters)
    {
      items := DeleteMatching(items, id);
    }

    method UpdateFilters(u: FiltersUpdate)
      modifies this
      ensures filters == ApplyFilters(old(filters), u) && items == old(items)
    {
      filters := ApplyFilters(filters, u);
    }

    method ResetFilters()
      modifies this
      ensures filters == InitialFilters && !IsFiltered(filters) && items == old(items)
    {
      filters := InitialFilters;
    }
  }
}
