/** The clothing item service (server/services/clothing_item_service.go): create, read,
    patch and soft-delete an item with the owner check, the batch delete, the page count,
    the stub statistics, the search and the recommendation list, and the two conversions.
    The item table is the repository object; the category table, which the service only
    reads, is a map from id to row. A failed lookup is GORM's "record not found". */
module ClothingItemService {
  import opened Wrappers
  import opened Seqs
  import opened ItemModel
  import opened ItemRepository
  import CategoryModel
  import GoInt
  import PageCounts

  type Categories = map<nat, CategoryModel.ClothingCategory>

  const RecordNotFound := "record not found"
  const CategoryMissing := "分类不存在: " + RecordNotFound
  const ItemMissing := "衣物不存在: " + RecordNotFound
  const CategoryLookupFailed := "获取分类信息失败: " + RecordNotFound
  const NoViewRight := "无权访问该衣物"
  const NoEditRight := "无权修改该衣物"
  const NoDeleteRight := "无权删除该衣物"

  /** The number of recommendations kept, and the page they are taken from. */
  const RecommendationLimit := 10
  const RecommendationPage := 20

  // ---------------------------------------------------------------- requests and DTOs

  datatype PurchaseInfo = PurchaseInfo(price: real, store: string, purchaseDate: int, notes: string)

  /** `CreateClothingItemDTO`, without the free-form attribute map and the tag names. */
  datatype CreateRequest = CreateRequest(
    categoryId: nat, categoryName: string, name: string, brand: string, color: string,
    size: string, material: string, style: string, description: string, status: string,
    isFavorite: bool, purchaseInfo: Option<PurchaseInfo>, tags: seq<nat>)

  /** `UpdateClothingItemDTO`: a nil pointer is None; season, occasion and style are left
      out (the service never reads them either). */
  datatype UpdateRequest = UpdateRequest(
    categoryId: Option<nat>, name: Option<string>, brand: Option<string>, color: Option<string>,
    size: Option<string>, material: Option<string>, description: Option<string>, tags: seq<nat>,
    status: Option<string>, isFavorite: Option<bool>)

  /** `ClothingItemDTO`; its season, occasion, tag, attachment and record lists are always
      empty and its purchase record nil, so they are not fields here. */
  datatype ItemDTO = ItemDTO(
    id: nat, userId: nat, categoryId: nat, categoryName: string, name: string, brand: string,
    color: string, size: string, material: string, style: string, description: string,
    status: string, wearCount: int, lastWornDate: Option<int>, createdAt: int, updatedAt: int)

  /** `ClothingItemSummary`. */
  datatype ItemSummary = ItemSummary(
    id: nat, name: string, brand: string, color: string, categoryName: string, imageUrl: string,
    status: string, wearCount: int, lastWornDate: Option<int>, purchasePrice: real)

  /** `ClothingStatsDTO` without its timestamp. */
  datatype ClothingStats = ClothingStats(
    totalItems: nat, byCategory: map<string, nat>, byStatus: map<string, nat>,
    bySeason: map<string, nat>, byOccasion: map<string, nat>, byBrand: map<string, nat>,
    byColor: map<string, nat>, totalValue: real, averagePrice: real,
    mostWornItems: seq<ItemSummary>, recentlyAdded: seq<ItemSummary>)

  /** `clothingCategoryRepo.GetByID`: `First` by id, active or not. */
  function CategoryOf(categories: Categories, id: nat): (r: Option<CategoryModel.ClothingCategory>)
    ensures r.Some? <==> id in categories
    ensures r.Some? ==> r.value == categories[id]
  {
    if id in categories then Some(categories[id]) else None
  }

  /** `convertToDTO`: the category name is empty when there is no category; style and
      description are always empty and the status is the item's condition. */
  function ToDTO(item: ClothingItem, category: Option<CategoryModel.ClothingCategory>): (r: ItemDTO)
    ensures r.id == item.id && r.userId == item.userId && r.categoryId == item.categoryId
    ensures r.categoryName == if category.Some? then category.value.name else ""
    ensures r.style == "" && r.description == "" && r.status == item.condition
  {
    ItemDTO(item.id, item.userId, item.categoryId,
            if category.Some? then category.value.name else "",
            item.name, item.brand, item.color, item.size.size, item.material, "", "",
            item.condition, item.wearCount, item.lastWornDate, item.createdAt, item.updatedAt)
  }

  /** What the item DTO never shows: the item's own description, notes, price, purchase
      date, durability and favourite flag make no difference to it. */
  lemma ToDTOHides(item: ClothingItem, category: Option<CategoryModel.ClothingCategory>,
                   description: string, notes: string, price: real, purchaseDate: Option<int>,
                   durability: real, favorite: bool)
    ensures ToDTO(item, category)
         == ToDTO(item.(description := description, notes := notes, price := price,
                        purchaseDate := purchaseDate, durabilityScore := durability,
                        isFavorite := favorite), category)
  {
  }

  /** One element of `convertToSummaryList`: no category name, no image, the item's own
      price (a fresh loop variable each iteration). */
  function Summary(item: ClothingItem): (r: ItemSummary)
    ensures r.id == item.id && r.categoryName == "" && r.imageUrl == ""
    ensures r.status == item.condition && r.purchasePrice == item.price
  {
    ItemSummary(item.id, item.name, item.brand, item.color, "", "", item.condition,
                item.wearCount, item.lastWornDate, item.price)
  }

  /** `convertToSummaryList`. */
  method ConvertToSummaryList(items: seq<ClothingItem>) returns (r: seq<ItemSummary>)
    ensures |r| == |items|
    ensures forall i :: 0 <= i < |items| ==> r[i] == Summary(items[i])
  {
    r := [];
    var i := 0;
    while i < |items|
      invariant 0 <= i <= |items| && |r| == i
      invariant forall j :: 0 <= j < i ==> r[j] == Summary(items[j])
    {
      r := r + [Summary(items[i])];
      i := i + 1;
    }
  }

  // ---------------------------------------------------------------- create

  /** The row `CreateClothingItem` builds before `Create` fills in the defaults: the
      request's description, style, favourite flag and category name are not copied; the
      size gets the system "CN" only when one is given; price and purchase date come only
      with purchase information. */
  function NewItem(userId: nat, req: CreateRequest): ClothingItem {
    ClothingItem(
      0, userId, req.categoryId, req.name, req.brand, req.color,
      if req.size != "" then ClothingSize(req.size, "CN") else ClothingSize("", ""),
      req.material, "",
      if req.purchaseInfo.Some? then req.purchaseInfo.value.price else 0.0,
      if req.purchaseInfo.Some? then Some(req.purchaseInfo.value.purchaseDate) else None,
      req.status, 0, 0.0, None, "", true, false, 0, 0)
  }

  /** The stored row of a new item: the caller's, active, not a favourite, never worn,
      with the size system only alongside a size, and the column defaults for an empty
      status and the zero durability; the request's description and favourite flag are
      dropped. */
  lemma NewItemRow(userId: nat, req: CreateRequest, id: nat, now: int)
    ensures var row := Inserted(NewItem(userId, req), id, now);
            && row.id == id && row.userId == userId && row.categoryId == req.categoryId
            && row.isActive && !row.isFavorite && row.wearCount == 0 && row.lastWornDate.None?
            && row.description == "" && row.durabilityScore == 100.0
            && row.condition == (if req.status == "" then "active" else req.status)
            && (row.size.system == "CN" <==> req.size != "")
            && (row.purchaseDate.Some? <==> req.purchaseInfo.Some?)
            && (req.purchaseInfo.Some? ==> row.price == req.purchaseInfo.value.price)
  {
  }

  /** The request's description, style, category name and favourite flag make no
      difference to the item created. */
  lemma NewItemIgnores(userId: nat, req: CreateRequest, description: string, style: string,
                       categoryName: string, favorite: bool)
    ensures NewItem(userId, req)
         == NewItem(userId, req.(description := description, style := style,
                                 categoryName := categoryName, isFavorite := favorite))
  {
  }

  /** `CreateClothingItem`: with no category row nothing is written; otherwise the item is
      appended, its tags are linked, and the DTO shows the stored row with the category's
      name. */
  method CreateClothingItem(repo: ClothingItemRepository, categories: Categories, userId: nat,
                            req: CreateRequest, now: int) returns (r: Result<ItemDTO, string>)
    requires repo.Valid()
    modifies repo
    ensures repo.Valid()
    ensures req.categoryId !in categories ==>
              r == Err(CategoryMissing) && repo.items == old(repo.items) && repo.itemTags == old(repo.itemTags)
    ensures req.categoryId in categories ==>
              var id := |old(repo.items)| + 1;
              var row := Inserted(NewItem(userId, req), id, now);
              && repo.items == old(repo.items) + [row]
              && repo.itemTags == WithTags(old(repo.itemTags), id, req.tags)
              && r == Ok(ToDTO(row, Some(categories[req.categoryId])))
  {
    var category := CategoryOf(categories, req.categoryId);
    if category.None? {
      return Err(CategoryMissing);
    }
    var id := repo.Create(NewItem(userId, req), now);
    if |req.tags| > 0 {
      repo.AddTags(id, req.tags);
    } else {
      TagAssociation(repo.itemTags, id, req.tags);
    }
    r := Ok(ToDTO(repo.items[id - 1], category));
  }

  // ---------------------------------------------------------------- the owner check

  /** The lookup and owner check that `GetClothingItem`, `UpdateClothingItem` and
      `DeleteClothingItem` start with; `denied` is each one's own refusal. */
  function Access(items: seq<ClothingItem>, userId: nat, itemId: nat, denied: string): (r: Result<ClothingItem, string>)
    ensures r.Ok? <==> 1 <= itemId <= |items| && items[itemId - 1].userId == userId
    ensures r.Ok? ==> r.value == items[itemId - 1]
    ensures RowOf(items, itemId).None? ==> r == Err(ItemMissing)
    ensures RowOf(items, itemId).Some? && r.Err? ==> r == Err(denied)
  {
    match RowOf(items, itemId)
    case None => Err(ItemMissing)
    case Some(item) => if item.userId != userId then Err(denied) else Ok(item)
  }

  /** `GetClothingItem`: a missing item, another user's item and a missing category are
      the three errors, in that order; a soft-deleted item of the user is still returned. */
  function GetClothingItem(repo: ClothingItemRepository, categories: Categories, userId: nat, itemId: nat): (r: Result<ItemDTO, string>)
    reads repo
    ensures r.Ok? <==> 1 <= itemId <= |repo.items| && repo.items[itemId - 1].userId == userId
                       && repo.items[itemId - 1].categoryId in categories
    ensures r.Ok? ==> var item := repo.items[itemId - 1];
                      r.value == ToDTO(item, Some(categories[item.categoryId]))
    ensures r == Err(ItemMissing) <==> !(1 <= itemId <= |repo.items|)
    ensures r == Err(NoViewRight) <==> 1 <= itemId <= |repo.items| && repo.items[itemId - 1].userId != userId
  {
    match Access(repo.items, userId, itemId, NoViewRight)
    case Err(e) => Err(e)
    case Ok(item) =>
      match CategoryOf(categories, item.categoryId)
      case None => Err(CategoryLookupFailed)
      case Some(c) => Ok(ToDTO(item, Some(c)))
  }

  // ---------------------------------------------------------------- update

  /** The fields `UpdateClothingItem` copies from the request: category, name, brand,
      colour, material and status (as the condition), each only when given. */
  function Patch(item: ClothingItem, req: UpdateRequest): ClothingItem {
    item.(categoryId := req.categoryId.GetOr(item.categoryId),
          name := req.name.GetOr(item.name),
          brand := req.brand.GetOr(item.brand),
          color := req.color.GetOr(item.color),
          material := req.material.GetOr(item.material),
          condition := req.status.GetOr(item.condition))
  }

  /** The patch: a given field takes the request's value, an absent one keeps the item's,
      and size, description, favourite flag, owner and active flag stay as they were. */
  lemma PatchFields(item: ClothingItem, req: UpdateRequest)
    ensures var p := Patch(item, req);
            && (req.name.Some? ==> p.name == req.name.value) && (req.name.None? ==> p.name == item.name)
            && (req.categoryId.Some? ==> p.categoryId == req.categoryId.value)
            && (req.categoryId.None? ==> p.categoryId == item.categoryId)
            && (req.status.Some? ==> p.condition == req.status.value)
            && (req.status.None? ==> p.condition == item.condition)
            && p.size == item.size && p.description == item.description && p.isFavorite == item.isFavorite
            && p.id == item.id && p.userId == item.userId && p.isActive == item.isActive
  {
  }

  /** The request's size, description, tags and favourite flag make no difference;
      patching twice with the same request changes nothing more, and the empty request
      changes nothing. */
  lemma PatchIgnores(item: ClothingItem, req: UpdateRequest, size: Option<string>,
                     description: Option<string>, tags: seq<nat>, favorite: Option<bool>)
    ensures Patch(item, req) == Patch(item, req.(size := size, description := description, tags := tags, isFavorite := favorite))
    ensures Patch(Patch(item, req), req) == Patch(item, req)
    ensures Patch(item, UpdateRequest(None, None, None, None, None, None, None, [], None, None)) == item
  {
  }

  /** `UpdateClothingItem`: after the owner check the patched row is saved with a new
      update time. The new category is not checked: the update succeeds for an id with
      no category row, and the DTO then has an empty category name. */
  method UpdateClothingItem(repo: ClothingItemRepository, categories: Categories, userId: nat,
                            itemId: nat, req: UpdateRequest, now: int) returns (r: Result<ItemDTO, string>)
    requires repo.Valid()
    modifies repo
    ensures repo.Valid() && repo.itemTags == old(repo.itemTags)
    ensures var acc := Access(old(repo.items), userId, itemId, NoEditRight);
            && (acc.Err? ==> r == Err(acc.error) && repo.items == old(repo.items))
            && (acc.Ok? ==>
                  var row := Patch(acc.value, req).(updatedAt := now);
                  && repo.items == old(repo.items)[itemId - 1 := row]
                  && r == Ok(ToDTO(row, CategoryOf(categories, row.categoryId))))
  {
    var acc := Access(repo.items, userId, itemId, NoEditRight);
    if acc.Err? {
      return Err(acc.error);
    }
    var item := Patch(acc.value, req);
    repo.Update(item, now);
    var row := item.(updatedAt := now);
    r := Ok(ToDTO(row, CategoryOf(categories, row.categoryId)));
  }

  // ---------------------------------------------------------------- delete

  /** `DeleteClothingItem`: after the owner check only that row changes: its active flag
      is cleared and its update time becomes `now`. A row already deleted passes the
      check again. */
  method DeleteClothingItem(repo: ClothingItemRepository, userId: nat, itemId: nat, now: int)
    returns (err: Option<string>)
    requires repo.Valid()
    modifies repo
    ensures repo.Valid() && repo.itemTags == old(repo.itemTags)
    ensures var acc := Access(old(repo.items), userId, itemId, NoDeleteRight);
            && (err.None? <==> acc.Ok?)
            && (acc.Err? ==> err == Some(acc.error) && repo.items == old(repo.items))
            && (acc.Ok? ==> repo.items == old(repo.items)[itemId - 1 := Deactivated(old(repo.items)[itemId - 1], now)])
  {
    var acc := Access(repo.items, userId, itemId, NoDeleteRight);
    if acc.Err? {
      return Some(acc.error);
    }
    ghost var before := repo.items;
    repo.Delete(itemId, now);
    assert repo.items == before[itemId - 1 := Deactivated(before[itemId - 1], now)];
    err := None;
  }

  /** An id the user may delete: its row exists and is the user's. */
  predicate Owned(items: seq<ClothingItem>, userId: nat, id: nat) {
    1 <= id <= |items| && items[id - 1].userId == userId
  }

  function OwnedBy(items: seq<ClothingItem>, userId: nat): nat -> bool {
    (id: nat) => Owned(items, userId, id)
  }

  lemma {:induction false} CountSnoc<T>(p: T -> bool, s: seq<T>, x: T)
    ensures Count(p, s + [x]) == Count(p, s) + (if p(x) then 1 else 0)
  {
    if s != [] {
      assert (s + [x])[0] == s[0];
      assert (s + [x])[1..] == s[1..] + [x];
      CountSnoc(p, s[1..], x);
    }
  }

  /** The table after the batch has handled the ids in `done`: the user's rows named in
      `done` are inactive, every other row is as before. */
  ghost predicate BatchDone(before: seq<ClothingItem>, items: seq<ClothingItem>, userId: nat, done: seq<nat>,
                           now: int) {
    |items| == |before|
    && forall i :: 0 <= i < |before| ==>
         items[i] == if i + 1 in done && before[i].userId == userId then Deactivated(before[i], now) else before[i]
  }

  /** `BatchDeleteClothingItems`: every id is tried; the successes are the listed ids the
      user owns (an id listed twice counts twice, since a deleted row is still found), the
      rest are failures, and the total is the length of the list. */
  method BatchDeleteClothingItems(repo: ClothingItemRepository, userId: nat, itemIds: seq<nat>, now: int)
    returns (success: nat, failed: nat, total: nat)
    requires repo.Valid()
    modifies repo
    ensures repo.Valid() && repo.itemTags == old(repo.itemTags)
    ensures total == |itemIds| && success + failed == total
    ensures success == Count(OwnedBy(old(repo.items), userId), itemIds)
    ensures BatchDone(old(repo.items), repo.items, userId, itemIds, now)
  {
    success, failed, total := 0, 0, |itemIds|;
    var k := 0;
    while k < |itemIds|
      invariant 0 <= k <= |itemIds| && success + failed == k
      invariant repo.Valid() && repo.itemTags == old(repo.itemTags)
      invariant success == Count(OwnedBy(old(repo.items), userId), itemIds[..k])
      invariant BatchDone(old(repo.items), repo.items, userId, itemIds[..k], now)
    {
      ghost var items := repo.items;
      var err := DeleteClothingItem(repo, userId, itemIds[k], now);
      assert itemIds[..k + 1] == itemIds[..k] + [itemIds[k]];
      CountSnoc(OwnedBy(old(repo.items), userId), itemIds[..k], itemIds[k]);
      BatchStep(old(repo.items), items, repo.items, userId, itemIds[..k], itemIds[k], err.None?, now);
      if err.Some? {
        failed := failed + 1;
      } else {
        success := success + 1;
      }
      k := k + 1;
    }
    assert itemIds[..k] == itemIds;
  }

  /** One step of the batch: deleting `id` (or failing to) extends `done` by `id`, and it
      succeeds exactly when the user owned `id` at the start. */
  lemma BatchStep(before: seq<ClothingItem>, items: seq<ClothingItem>, after: seq<ClothingItem>,
                  userId: nat, done: seq<nat>, id: nat, ok: bool, now: int)
    requires BatchDone(before, items, userId, done, now)
    requires var acc := Access(items, userId, id, NoDeleteRight);
             && (ok <==> acc.Ok?)
             && (acc.Err? ==> after == items)
             && (acc.Ok? ==> after == items[id - 1 := Deactivated(items[id - 1], now)])
    ensures BatchDone(before, after, userId, done + [id], now)
    ensures ok <==> Owned(before, userId, id)
  {
    assert ok <==> Owned(items, userId, id);
    if 1 <= id <= |items| {
      assert items[id - 1].userId == before[id - 1].userId;
    }
    forall i | 0 <= i < |before|
      ensures after[i] == if i + 1 in done + [id] && before[i].userId == userId then Deactivated(before[i], now) else before[i]
    {
      assert items[i].userId == before[i].userId;
    }
  }

  // ---------------------------------------------------------------- lists

  /** `GetClothingItems`: the repository's page and the number of pages, the ceiling of
      the row count over the page size. */
  function GetClothingItems(repo: ClothingItemRepository, userId: nat, req: ListRequest): (r: (seq<ClothingItem>, int))
    reads repo
    requires QueryRequest(req)
    ensures r.0 == Query(repo.items, repo.itemTags, userId, req).0
    ensures GoInt.IsCeil(r.1, |Matches(repo.items, repo.itemTags, userId, req)|, req.pageSize)
  {
    var q := Query(repo.items, repo.itemTags, userId, req);
    (q.0, PageCount(q.1, req.pageSize))
  }

  /** `int(math.Ceil(float64(total) / float64(pageSize)))`, on exact numbers. */
  function PageCount(total: nat, pageSize: int): (p: int)
    requires pageSize > 0
    ensures GoInt.IsCeil(p, total, pageSize)
  {
    PageCounts.RoundUpIsCeil(total, pageSize);
    GoInt.Div(total + pageSize - 1, pageSize)
  }

  /** Without filters the query keeps exactly the user's active items. */
  lemma PlainSelects(userId: nat, page: int, pageSize: int, x: ClothingItem)
    ensures Selected(userId, PlainRequest(page, pageSize), x) <==> x.userId == userId && x.isActive
  {
  }

  /** `GetClothingStats`: the total is the number of the user's active items (from a
      one-row page); every breakdown is empty and both sums are zero. */
  function GetClothingStats(repo: ClothingItemRepository, userId: nat): (r: ClothingStats)
    reads repo
    ensures r.totalItems == |Filter(SelectedBy(userId, PlainRequest(1, 1)), repo.items)|
    ensures r.byCategory == map[] && r.byStatus == map[] && r.bySeason == map[]
    ensures r.byOccasion == map[] && r.byBrand == map[] && r.byColor == map[]
    ensures r.totalValue == 0.0 && r.averagePrice == 0.0
    ensures r.mostWornItems == [] && r.recentlyAdded == []
  {
    var req := PlainRequest(1, 1);
    MatchesWithoutTags(repo.items, repo.itemTags, userId, req);
    var total := repo.GetByUserID(userId, req).1;
    ClothingStats(total, map[], map[], map[], map[], map[], map[], 0.0, 0.0, [], [])
  }

  /** `SearchClothingItems`: the summaries of the repository's search. */
  method SearchClothingItems(repo: ClothingItemRepository, userId: nat, query: string, limit: int)
    returns (r: seq<ItemSummary>)
    ensures var hits := Search(repo.items, userId, query, limit);
            |r| == |hits| && forall i :: 0 <= i < |hits| ==> r[i] == Summary(hits[i])
    ensures limit > 0 ==> |r| <= limit
    ensures forall s :: s in r ==> exists x :: x in repo.items && SearchHit(userId, query, x) && s == Summary(x)
    ensures limit <= 0 ==> forall x :: x in repo.items && SearchHit(userId, query, x) ==> Summary(x) in r
    ensures var all := Filter(SearchHitBy(userId, query), repo.items);
            limit > 0 ==> |r| == if |all| <= limit then |all| else limit
  {
    var hits := Search(repo.items, userId, query, limit);
    r := ConvertToSummaryList(hits);
    SearchRows(repo.items, userId, query, limit);
    if limit <= 0 {
      forall x | x in repo.items && SearchHit(userId, query, x) ensures Summary(x) in r {
        assert SearchHitBy(userId, query)(x);
        var i :| 0 <= i < |hits| && hits[i] == x;
        assert r[i] == Summary(x);
      }
    }
    forall s | s in r
      ensures exists x :: x in repo.items && SearchHit(userId, query, x) && s == Summary(x)
    {
      var i :| 0 <= i < |r| && r[i] == s;
      assert hits[i] in hits;
    }
  }

  /** `GetRecommendations`: the first ten of the user's twenty newest active items,
      whatever the occasion and the weather. */
  method GetRecommendations(repo: ClothingItemRepository, userId: nat, occasion: string, weather: string)
    returns (r: seq<ItemSummary>)
    ensures var page := Query(repo.items, repo.itemTags, userId, PlainRequest(1, RecommendationPage)).0;
            && |r| == (if |page| <= RecommendationLimit then |page| else RecommendationLimit)
            && forall i :: 0 <= i < |r| ==> r[i] == Summary(page[i])
    ensures |r| <= RecommendationLimit
    ensures forall s :: s in r ==> exists x :: x in repo.items && x.userId == userId && x.isActive && s == Summary(x)
  {
    var page := repo.GetByUserID(userId, PlainRequest(1, RecommendationPage)).0;
    var top := Take(page, RecommendationLimit);
    r := ConvertToSummaryList(top);
    forall s | s in r
      ensures exists x :: x in repo.items && x.userId == userId && x.isActive && s == Summary(x)
    {
      var i :| 0 <= i < |r| && r[i] == s;
      assert top[i] == page[i] && page[i] in page;
    }
  }
}
