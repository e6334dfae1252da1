/** The clothing-item row (server/models/clothing_item.go). Dates are day numbers and
    money is an exact real; the JSON columns keep only what the services read. */
module ItemModel {
  import opened Wrappers

  datatype ClothingSize = ClothingSize(size: string, system: string)

  /** A row of `clothing_items`. */
  datatype ClothingItem = ClothingItem(
    id: nat, userId: nat, categoryId: nat, name: string, brand: string, color: string,
    size: ClothingSize, material: string, description: string, price: real,
    purchaseDate: Option<int>, condition: string, wearCount: int, durabilityScore: real,
    lastWornDate: Option<int>, notes: string, isActive: bool, isFavorite: bool,
    createdAt: int, updatedAt: int)
}

/** The repository over `clothing_items` and `clothing_item_tags`
    (server/repositories/clothing_item_repository.go). The item table is a sequence in id
    order, the association table a set of (item id, tag id) pairs. */
module ItemRepository {
  import opened Wrappers
  import opened Seqs
  import Text
  import opened ItemModel
  import ControllerHelpers

  /** The part of `ClothingItemListDTO` the query reads; its status, season, occasion,
      query text and filter map play no part. */
  datatype ListRequest = ListRequest(
    categoryIds: seq<nat>, tagIds: seq<nat>, brand: string, color: string, material: string,
    condition: string, minPrice: Option<real>, maxPrice: Option<real>, isFavorite: Option<bool>,
    search: string, sortBy: string, sortOrder: string, page: int, pageSize: int)

  /** A request with no filters, no sort field and the given page (what the services build
      for their own lists). */
  function PlainRequest(page: int, pageSize: int): ListRequest {
    ListRequest([], [], "", "", "", "", None, None, None, "", "", "", page, pageSize)
  }

  // ---------------------------------------------------------------- the WHERE clause

  /** `LIKE '%x%'`: `x` occurs in `s`. Wildcards inside `x` and the collation's case
      folding are not part of this model. */
  predicate Like(s: string, x: string) {
    Text.Contains(s, x)
  }

  /** The conditions on the item row: the user's active items, then each filter the request
      sets. */
  predicate Selected(userId: nat, req: ListRequest, item: ClothingItem) {
    && item.userId == userId && item.isActive
    && (|req.categoryIds| > 0 ==> item.categoryId in req.categoryIds)
    && (req.color != "" ==> Like(item.color, req.color))
    && (req.brand != "" ==> Like(item.brand, req.brand))
    && (req.material != "" ==> Like(item.material, req.material))
    && (req.condition != "" ==> item.condition == req.condition)
    && (req.minPrice.Some? ==> item.price >= req.minPrice.value)
    && (req.maxPrice.Some? ==> item.price <= req.maxPrice.value)
    && (req.isFavorite.Some? ==> item.isFavorite == req.isFavorite.value)
    && (req.search != "" ==> Like(item.name, req.search) || Like(item.brand, req.search) || Like(item.notes, req.search))
  }

  function SelectedBy(userId: nat, req: ListRequest): ClothingItem -> bool {
    (item: ClothingItem) => Selected(userId, req, item)
  }

  /** The tags of the list an item carries, one joined row each. */
  function JoinedTags(itemTags: set<(nat, nat)>, id: nat, tagIds: seq<nat>): (r: set<nat>)
    ensures forall t :: t in r <==> t in tagIds && (id, t) in itemTags
  {
    set t | t in tagIds && (id, t) in itemTags
  }

  /** How many rows the query yields for one item: none unless it is selected, one
      without a tag filter, and with one the join repeats it once per listed tag it
      carries. */
  function Copies(itemTags: set<(nat, nat)>, userId: nat, req: ListRequest, item: ClothingItem): nat {
    if !Selected(userId, req, item) then 0
    else if |req.tagIds| == 0 then 1
    else |JoinedTags(itemTags, item.id, req.tagIds)|
  }

  function Repeat<T>(x: T, n: nat): (r: seq<T>)
    ensures |r| == n && forall i :: 0 <= i < n ==> r[i] == x
  {
    if n == 0 then [] else [x] + Repeat(x, n - 1)
  }

  /** The joined, filtered rows in table order, before `ORDER BY`. */
  function Matches(items: seq<ClothingItem>, itemTags: set<(nat, nat)>, userId: nat, req: ListRequest): seq<ClothingItem> {
    if items == [] then []
    else Repeat(items[0], Copies(itemTags, userId, req, items[0])) + Matches(items[1..], itemTags, userId, req)
  }

  /** Every row the query yields is an active item of the user that passes every filter. */
  lemma {:induction false} MatchesSelected(items: seq<ClothingItem>, itemTags: set<(nat, nat)>, userId: nat, req: ListRequest)
    ensures forall x :: x in Matches(items, itemTags, userId, req) ==> Selected(userId, req, x) && x in items
  {
    if items != [] {
      MatchesSelected(items[1..], itemTags, userId, req);
      var head := Repeat(items[0], Copies(itemTags, userId, req, items[0]));
      var tail := Matches(items[1..], itemTags, userId, req);
      forall x | x in head + tail ensures Selected(userId, req, x) && x in items {
        if x in head {
          assert x == items[0];
        } else {
          assert x in items[1..];
        }
      }
    }
  }

  /** Without a tag filter the query is a plain filter: each selected item once, in table
      order. */
  lemma {:induction false} MatchesWithoutTags(items: seq<ClothingItem>, itemTags: set<(nat, nat)>, userId: nat, req: ListRequest)
    requires |req.tagIds| == 0
    ensures Matches(items, itemTags, userId, req) == Filter(SelectedBy(userId, req), items)
  {
    if items != [] {
      MatchesWithoutTags(items[1..], itemTags, userId, req);
    }
  }

  /** The number of rows carrying the id `id`. */
  function IdCount(rows: seq<ClothingItem>, id: nat): nat {
    if rows == [] then 0 else (if rows[0].id == id then 1 else 0) + IdCount(rows[1..], id)
  }

  lemma {:induction false} IdCountAppend(a: seq<ClothingItem>, b: seq<ClothingItem>, id: nat)
    ensures IdCount(a + b, id) == IdCount(a, id) + IdCount(b, id)
  {
    if a != [] {
      assert (a + b)[0] == a[0];
      assert (a + b)[1..] == a[1..] + b;
      IdCountAppend(a[1..], b, id);
    } else {
      assert a + b == b;
    }
  }

  lemma {:induction false} IdCountRepeat(x: ClothingItem, n: nat, id: nat)
    ensures IdCount(Repeat(x, n), id) == if x.id == id then n else 0
  {
    if n > 0 {
      IdCountRepeat(x, n - 1, id);
    }
  }

  lemma {:induction false} IdCountAbsent(items: seq<ClothingItem>, itemTags: set<(nat, nat)>, userId: nat, req: ListRequest, id: nat)
    requires forall j :: 0 <= j < |items| ==> items[j].id != id
    ensures IdCount(Matches(items, itemTags, userId, req), id) == 0
  {
    if items != [] {
      IdCountAbsent(items[1..], itemTags, userId, req, id);
      IdCountRepeat(items[0], Copies(itemTags, userId, req, items[0]), id);
      IdCountAppend(Repeat(items[0], Copies(itemTags, userId, req, items[0])), Matches(items[1..], itemTags, userId, req), id);
    }
  }

  /** With distinct ids, an item comes back as often as `Copies` says: once, or once per
      listed tag it carries when the request filters by tags. */
  lemma {:induction false} MatchesCopies(items: seq<ClothingItem>, itemTags: set<(nat, nat)>, userId: nat, req: ListRequest, i: nat)
    requires i < |items|
    requires forall j, k :: 0 <= j < k < |items| ==> items[j].id != items[k].id
    ensures IdCount(Matches(items, itemTags, userId, req), items[i].id) == Copies(itemTags, userId, req, items[i])
  {
    var head := Repeat(items[0], Copies(itemTags, userId, req, items[0]));
    var tail := Matches(items[1..], itemTags, userId, req);
    IdCountAppend(head, tail, items[i].id);
    IdCountRepeat(items[0], Copies(itemTags, userId, req, items[0]), items[i].id);
    if i == 0 {
      IdCountAbsent(items[1..], itemTags, userId, req, items[0].id);
    } else {
      assert items[1..][i - 1] == items[i];
      MatchesCopies(items[1..], itemTags, userId, req, i - 1);
    }
  }

  // ---------------------------------------------------------------- ORDER BY, OFFSET, LIMIT

  /** The `ORDER BY` text: "created_at DESC" without a sort field, else the field and a
      direction that is DESC only for the exact string "desc". */
  function OrderClause(req: ListRequest): (r: string)
    ensures req.sortBy == "" ==> r == "created_at DESC"
  {
    if req.sortBy == "" then "created_at DESC"
    else req.sortBy + " " + (if req.sortOrder == "desc" then "DESC" else "ASC")
  }

  /** The direction is descending exactly for the default order and for "desc"; "DESC",
      "Desc" or anything else sorts ascending. */
  lemma OrderDirection(req: ListRequest)
    ensures req.sortBy != "" ==>
      (OrderClause(req) == req.sortBy + " DESC" <==> req.sortOrder == "desc")
      && (OrderClause(req) == req.sortBy + " ASC" <==> req.sortOrder != "desc")
    ensures req.sortBy != "" && req.sortOrder == "DESC" ==> OrderClause(req) == req.sortBy + " ASC"
  {
    if req.sortBy != "" {
      var asc := req.sortBy + " ASC";
      var desc := req.sortBy + " DESC";
      assert asc[|req.sortBy| + 1] == 'A' && desc[|req.sortBy| + 1] == 'D';
    }
  }

  /** The sort fields the handler accepts. */
  datatype Column = Name | Price | WearCount | Durability | CreatedAt | UpdatedAt | Brand | Color

  function ColumnOf(field: string): Column
    requires field == "" || ControllerHelpers.IsValidClothingSortBy(field)
  {
    if field == "name" then Name
    else if field == "price" then Price
    else if field == "wear_count" then WearCount
    else if field == "durability_score" then Durability
    else if field == "updated_at" then UpdatedAt
    else if field == "brand" then Brand
    else if field == "color" then Color
    else CreatedAt
  }

  /** Ascending comparison on one column; text compares by code point. */
  predicate KeyLe(c: Column, a: ClothingItem, b: ClothingItem) {
    match c
    case Name => Text.StrCmp(a.name, b.name) <= 0
    case Price => a.price <= b.price
    case WearCount => a.wearCount <= b.wearCount
    case Durability => a.durabilityScore <= b.durabilityScore
    case CreatedAt => a.createdAt <= b.createdAt
    case UpdatedAt => a.updatedAt <= b.updatedAt
    case Brand => Text.StrCmp(a.brand, b.brand) <= 0
    case Color => Text.StrCmp(a.color, b.color) <= 0
  }

  function Order(c: Column, desc: bool): (ClothingItem, ClothingItem) -> bool {
    (a: ClothingItem, b: ClothingItem) => if desc then KeyLe(c, b, a) else KeyLe(c, a, b)
  }

  lemma KeyLeTotal(c: Column, a: ClothingItem, b: ClothingItem)
    ensures KeyLe(c, a, b) || KeyLe(c, b, a)
  {
    match c
    case Name => Text.StrCmpAntisymmetric(a.name, b.name);
    case Brand => Text.StrCmpAntisymmetric(a.brand, b.brand);
    case Color => Text.StrCmpAntisymmetric(a.color, b.color);
    case _ =>
  }

  lemma KeyLeTransitive(c: Column, a: ClothingItem, b: ClothingItem, d: ClothingItem)
    requires KeyLe(c, a, b) && KeyLe(c, b, d)
    ensures KeyLe(c, a, d)
  {
    match c
    case Name => Text.StrCmpTransitive(a.name, b.name, d.name);
    case Brand => Text.StrCmpTransitive(a.brand, b.brand, d.brand);
    case Color => Text.StrCmpTransitive(a.color, b.color, d.color);
    case _ =>
  }

  lemma OrderIsTotalPreorder(c: Column, desc: bool)
    ensures IsTotalPreorder(Order(c, desc))
  {
    var le := Order(c, desc);
    forall a: ClothingItem, b: ClothingItem ensures le(a, b) || le(b, a) {
      KeyLeTotal(c, a, b);
    }
    forall a: ClothingItem, b: ClothingItem, d: ClothingItem | le(a, b) && le(b, d) ensures le(a, d) {
      if desc {
        KeyLeTransitive(c, d, b, a);
      } else {
        KeyLeTransitive(c, a, b, d);
      }
    }
  }

  /** The order the clause asks for; rows that tie keep table order. */
  function OrderOf(req: ListRequest): (ClothingItem, ClothingItem) -> bool
    requires req.sortBy == "" || ControllerHelpers.IsValidClothingSortBy(req.sortBy)
  {
    Order(ColumnOf(req.sortBy), req.sortBy == "" || req.sortOrder == "desc")
  }

  /** `Offset((Page - 1) * PageSize).Limit(PageSize)`. */
  function Offset(req: ListRequest): (r: int)
    ensures req.page >= 1 && req.pageSize >= 1 ==> r >= 0 && r == (req.page - 1) * req.pageSize
  {
    (req.page - 1) * req.pageSize
  }

  function Window(rows: seq<ClothingItem>, offset: nat, limit: nat): (r: seq<ClothingItem>)
    ensures |r| <= limit
    ensures forall i :: 0 <= i < |r| ==> offset + i < |rows| && r[i] == rows[offset + i]
    ensures offset + limit <= |rows| ==> |r| == limit
  {
    var lo := if offset <= |rows| then offset else |rows|;
    var hi := if offset + limit <= |rows| then offset + limit else |rows|;
    rows[lo..hi]
  }

  predicate QueryRequest(req: ListRequest) {
    req.page >= 1 && req.pageSize >= 1 && (req.sortBy == "" || ControllerHelpers.IsValidClothingSortBy(req.sortBy))
  }

  /** `GetByUserID` on the tables: the page of the ordered rows and the count of all of
      them. */
  function Query(items: seq<ClothingItem>, itemTags: set<(nat, nat)>, userId: nat, req: ListRequest): (r: (seq<ClothingItem>, nat))
    requires QueryRequest(req)
    ensures r.1 == |Matches(items, itemTags, userId, req)|
    ensures |r.0| <= req.pageSize
    ensures forall x :: x in r.0 ==> x in Matches(items, itemTags, userId, req)
  {
    var m := Matches(items, itemTags, userId, req);
    var sorted := SortWith(OrderOf(req), m);
    var page := Window(sorted, Offset(req), req.pageSize);
    assert forall x :: x in page ==> x in multiset(sorted);
    (page, |m|)
  }

  /** A window of a sorted sequence is sorted. */
  lemma WindowSorted(le: (ClothingItem, ClothingItem) -> bool, rows: seq<ClothingItem>, offset: nat, limit: nat)
    requires SortedWith(le, rows)
    ensures SortedWith(le, Window(rows, offset, limit))
  {
    var w := Window(rows, offset, limit);
    forall i, j | 0 <= i < j < |w| ensures le(w[i], w[j]) {
      assert w[i] == rows[offset + i] && w[j] == rows[offset + j];
    }
  }

  /** The page holds only the user's active items that pass the filters, in the requested
      order, and it is the slice of the ordered rows that starts after `page - 1` full
      pages. */
  lemma QueryRows(items: seq<ClothingItem>, itemTags: set<(nat, nat)>, userId: nat, req: ListRequest)
    requires QueryRequest(req)
    ensures forall x :: x in Query(items, itemTags, userId, req).0 ==> Selected(userId, req, x)
    ensures SortedWith(OrderOf(req), Query(items, itemTags, userId, req).0)
    ensures Query(items, itemTags, userId, req).0 ==
              Window(SortWith(OrderOf(req), Matches(items, itemTags, userId, req)), Offset(req), req.pageSize)
  {
    var m := Matches(items, itemTags, userId, req);
    var le := OrderOf(req);
    MatchesSelected(items, itemTags, userId, req);
    OrderIsTotalPreorder(ColumnOf(req.sortBy), req.sortBy == "" || req.sortOrder == "desc");
    SortWithSorted(le, m);
    WindowSorted(le, SortWith(le, m), Offset(req), req.pageSize);
  }

  // ---------------------------------------------------------------- the tag association

  /** The pairs after `AddTags(itemId, tagIds)`. */
  function WithTags(pairs: set<(nat, nat)>, itemId: nat, tagIds: seq<nat>): (r: set<(nat, nat)>)
    ensures forall p :: p in r <==> p in pairs || (p.0 == itemId && p.1 in tagIds)
  {
    pairs + set t | t in tagIds :: (itemId, t)
  }

  /** The pairs after `RemoveTags(itemId, tagIds)`. */
  function WithoutTags(pairs: set<(nat, nat)>, itemId: nat, tagIds: seq<nat>): (r: set<(nat, nat)>)
    ensures forall p :: p in r <==> p in pairs && !(p.0 == itemId && p.1 in tagIds)
  {
    set p | p in pairs && !(p.0 == itemId && p.1 in tagIds)
  }

  /** Adding twice is adding once, nothing already there is lost, and other items'
      pairs are untouched by both operations. */
  lemma TagAssociation(pairs: set<(nat, nat)>, itemId: nat, tagIds: seq<nat>)
    ensures WithTags(WithTags(pairs, itemId, tagIds), itemId, tagIds) == WithTags(pairs, itemId, tagIds)
    ensures pairs <= WithTags(pairs, itemId, tagIds)
    ensures WithoutTags(pairs, itemId, tagIds) <= pairs
    ensures forall p: (nat, nat) :: p.0 != itemId ==> (p in WithTags(pairs, itemId, tagIds) <==> p in pairs)
    ensures forall p: (nat, nat) :: p.0 != itemId ==> (p in WithoutTags(pairs, itemId, tagIds) <==> p in pairs)
    ensures WithoutTags(WithTags(pairs, itemId, tagIds), itemId, tagIds) == WithoutTags(pairs, itemId, tagIds)
  {
  }

  /** A row after `Update("is_active", false)`: inactive, stamped with the update time,
      every other column as it was. */
  function Deactivated(row: ClothingItem, now: int): (r: ClothingItem)
    ensures !r.isActive && r.updatedAt == now && r.id == row.id && r.userId == row.userId
    ensures r.(isActive := row.isActive, updatedAt := row.updatedAt) == row
  {
    row.(isActive := false, updatedAt := now)
  }

  /** The repository: the item rows (row `i` has id `i + 1`) and the association rows. */
  class ClothingItemRepository {
    var items: seq<ClothingItem>
    var itemTags: set<(nat, nat)>

    ghost predicate Valid()
      reads this
    {
      forall i :: 0 <= i < |items| ==> items[i].id == i + 1
    }

    constructor ()
      ensures Valid() && items == [] && itemTags == {}
    {
      items := [];
      itemTags := {};
    }

    /** `Create`: the row gets the next id and the column defaults GORM writes for zero
        values (`condition` 'active', `is_active` true, `durability_score` 100). */
    method Create(item: ClothingItem, now: int) returns (id: nat)
      requires Valid()
      modifies this
      ensures Valid() && id == |old(items)| + 1 && itemTags == old(itemTags)
      ensures items == old(items) + [Inserted(item, id, now)]
    {
      id := |items| + 1;
      items := items + [Inserted(item, id, now)];
    }

    /** `GetByID`. */
    function GetByID(id: nat): (r: Option<ClothingItem>)
      reads this
      requires Valid()
      ensures r == RowOf(items, id)
      ensures r.Some? <==> exists i :: 0 <= i < |items| && items[i].id == id
    {
      if 1 <= id <= |items| then Some(items[id - 1]) else None
    }

    /** `GetByUserID`. */
    function GetByUserID(userId: nat, req: ListRequest): (r: (seq<ClothingItem>, nat))
      reads this
      requires QueryRequest(req)
      ensures r.1 == |Matches(items, itemTags, userId, req)|
      ensures |r.0| <= req.pageSize
      ensures forall x :: x in r.0 ==> Selected(userId, req, x) && x in items
    {
      MatchesSelected(items, itemTags, userId, req);
      Query(items, itemTags, userId, req)
    }

    /** `Update` (GORM `Save`) of a row that exists: the whole row is written back. */
    method Update(item: ClothingItem, now: int)
      requires Valid() && 1 <= item.id <= |items|
      modifies this
      ensures Valid() && itemTags == old(itemTags)
      ensures items == old(items)[item.id - 1 := item.(updatedAt := now)]
    {
      items := items[item.id - 1 := item.(updatedAt := now)];
    }

    /** `Delete`: `is_active` is cleared on that row alone; GORM's `Update` also writes
        `updated_at`, which becomes `now`. */
    method Delete(id: nat, now: int)
      requires Valid()
      modifies this
      ensures Valid() && itemTags == old(itemTags) && |items| == |old(items)|
      ensures forall i :: 0 <= i < |items| ==>
                items[i] == if i + 1 == id then Deactivated(old(items)[i], now) else old(items)[i]
    {
      if 1 <= id <= |items| {
        items := items[id - 1 := Deactivated(items[id - 1], now)];
      }
    }

    /** `AddTags`: for each tag, the pair is inserted only if it is missing. */
    method AddTags(itemId: nat, tagIds: seq<nat>)
      modifies this
      ensures items == old(items)
      ensures itemTags == WithTags(old(itemTags), itemId, tagIds)
    {
      var i := 0;
      while i < |tagIds|
        invariant 0 <= i <= |tagIds| && items == old(items)
        invariant itemTags == WithTags(old(itemTags), itemId, tagIds[..i])
      {
        assert tagIds[..i + 1] == tagIds[..i] + [tagIds[i]];
        if (itemId, tagIds[i]) !in itemTags {
          itemTags := itemTags + {(itemId, tagIds[i])};
        }
        i := i + 1;
      }
      assert tagIds[..i] == tagIds;
    }

    /** `RemoveTags`: the pairs of that item whose tag is listed are deleted. */
    method RemoveTags(itemId: nat, tagIds: seq<nat>)
      modifies this
      ensures items == old(items)
      ensures itemTags == WithoutTags(old(itemTags), itemId, tagIds)
    {
      itemTags := set p | p in itemTags && !(p.0 == itemId && p.1 in tagIds);
    }

    /** `IncrementWearCount`: `wear_count + 1` on that row and nothing else; unlike the
        model's own method it leaves the last-worn date and the durability alone. */
    method IncrementWearCount(id: nat)
      requires Valid()
      modifies this
      ensures Valid() && itemTags == old(itemTags) && |items| == |old(items)|
      ensures forall i :: 0 <= i < |items| ==>
                items[i] == if i + 1 == id then old(items)[i].(wearCount := old(items)[i].wearCount + 1) else old(items)[i]
    {
      if 1 <= id <= |items| {
        items := items[id - 1 := items[id - 1].(wearCount := items[id - 1].wearCount + 1)];
      }
    }
  }

  /** `First(&item, id)` on the table: the row with that id, active or not (the soft delete
      does not hide it). */
  function RowOf(items: seq<ClothingItem>, id: nat): (r: Option<ClothingItem>)
    ensures r.Some? ==> 1 <= id <= |items| && r.value == items[id - 1]
    ensures r.None? <==> !(1 <= id <= |items|)
  {
    if 1 <= id <= |items| then Some(items[id - 1]) else None
  }

  /** `Search`: the user's active items where the lower-cased query occurs in the
      lower-cased name, brand, colour, material or notes, newest first, at most `limit`
      when `limit` is positive. */
  function Search(items: seq<ClothingItem>, userId: nat, query: string, limit: int): (r: seq<ClothingItem>)
    ensures limit > 0 ==> |r| <= limit
    ensures forall x :: x in r ==> x in items && SearchHit(userId, query, x)
  {
    var hits := Filter(SearchHitBy(userId, query), items);
    var sorted := SortWith(NewestFirst(), hits);
    assert forall x :: x in sorted ==> x in multiset(hits);
    var r := Limited(sorted, limit);
    assert forall j :: 0 <= j < |r| ==> r[j] in sorted;
    r
  }

  /** `Order("created_at DESC")`. */
  function NewestFirst(): (ClothingItem, ClothingItem) -> bool {
    (a: ClothingItem, b: ClothingItem) => a.createdAt >= b.createdAt
  }

  /** The search lists the user's hits newest first: all of them without a limit, else as
      many as the limit allows, and a hit left out is no newer than any hit listed. */
  lemma SearchRows(items: seq<ClothingItem>, userId: nat, query: string, limit: int)
    ensures var hits, r := Filter(SearchHitBy(userId, query), items), Search(items, userId, query, limit);
            && (forall i, j :: 0 <= i < j < |r| ==> r[i].createdAt >= r[j].createdAt)
            && (limit <= 0 ==> multiset(r) == multiset(hits))
            && (limit <= 0 ==> forall x :: x in items && SearchHitBy(userId, query)(x) ==> x in r)
            && (limit > 0 ==> |r| == if |hits| <= limit then |hits| else limit)
            && (forall x :: x in items && SearchHitBy(userId, query)(x) ==>
                  x in r || forall y :: y in r ==> y.createdAt >= x.createdAt)
  {
    assert IsTotalPreorder(NewestFirst());
    TopRows(NewestFirst(), SearchHitBy(userId, query), items, limit);
  }

  predicate SearchHit(userId: nat, query: string, x: ClothingItem) {
    var q := Text.Lower(query);
    && x.userId == userId && x.isActive
    && (Like(Text.Lower(x.name), q) || Like(Text.Lower(x.brand), q) || Like(Text.Lower(x.color), q)
        || Like(Text.Lower(x.material), q) || Like(Text.Lower(x.notes), q))
  }

  function SearchHitBy(userId: nat, query: string): ClothingItem -> bool {
    (x: ClothingItem) => SearchHit(userId, query, x)
  }

  /** The row `Create` writes: the id, the timestamps and the defaults for zero values. */
  function Inserted(item: ClothingItem, id: nat, now: int): (r: ClothingItem)
    ensures r.id == id && r.isActive && r.createdAt == now && r.updatedAt == now
    ensures r.condition == (if item.condition == "" then "active" else item.condition)
    ensures r.durabilityScore == (if item.durabilityScore == 0.0 then 100.0 else item.durabilityScore)
    ensures r.(id := item.id, isActive := item.isActive, createdAt := item.createdAt, updatedAt := item.updatedAt,
               condition := item.condition, durabilityScore := item.durabilityScore) == item
  {
    item.(id := id, isActive := true, createdAt := now, updatedAt := now,
          condition := if item.condition == "" then "active" else item.condition,
          durabilityScore := if item.durabilityScore == 0.0 then 100.0 else item.durabilityScore)
  }
}
