/** The outfit service (server/services/outfit_service.go): recording an outfit from the
    user's own clothes, the outfit history, the weather-based recommendation and the
    rating. The outfit and outfit-item tables form one store object; the clothing table
    is the item repository, which the service only reads; the category table is a map. */
module OutfitService {
  import opened Wrappers
  import opened Seqs
  import Text
  import Enums
  import CategoryModel
  import opened ItemModel
  import opened ItemRepository

  type Categories = map<nat, CategoryModel.ClothingCategory>

  const RecordNotFound := "record not found"
  const InvalidWeather := "无效的天气类型"
  const EmptyWardrobe := "用户暂无衣物，无法生成推荐"
  const InvalidRating := "评分必须在1-5之间"
  const OutfitLookupFailed := "获取穿搭记录失败: " + RecordNotFound
  const NotYourOutfit := "无权限修改此穿搭记录"
  const NoRecommendation := "暂无合适的推荐"
  const DefaultOccasion := "日常"
  const ItemRoleMain := "main"

  /** The wardrobe page the recommendation is drawn from. */
  const WardrobePage := 100

  function MissingClothing(id: nat): string {
    "衣物ID " + Text.NatToString(id) + " 不存在"
  }

  function ForeignClothing(id: nat): string {
    "衣物ID " + Text.NatToString(id) + " 不属于当前用户"
  }

  // ---------------------------------------------------------------- records

  /** An outfit record with the fields the service writes; times are integers, a nil
      pointer is None. */
  datatype Outfit = Outfit(
    id: nat, userId: nat, name: string, date: int, temperature: Option<real>,
    weather: Option<string>, occasion: string, location: string, notes: string,
    tags: seq<string>, isPublic: bool, rating: Option<int>, ratingNotes: string,
    createdAt: int, updatedAt: int)

  /** A row of `outfit_items`: one clothing item in one outfit. */
  datatype OutfitItem = OutfitItem(id: nat, outfitId: nat, clothingItemId: nat, itemRole: string, layerOrder: int)

  /** `CreateOutfitDTO`. */
  datatype CreateOutfitRequest = CreateOutfitRequest(
    name: string, date: int, temperature: Option<real>, weather: Option<string>,
    occasion: string, location: string, notes: string, clothingIds: seq<nat>,
    tags: seq<string>, isPublic: bool)

  /** `dto.Outfit`. */
  datatype OutfitDTO = OutfitDTO(
    id: nat, userId: nat, name: string, date: int, temperature: Option<real>,
    weather: Option<string>, occasion: string, location: string, notes: string,
    isPublic: bool, clothingIds: seq<nat>, tags: seq<string>, createdAt: int, updatedAt: int)

  /** The outfit `CreateOutfit` builds from the request, before the store numbers it. */
  function NewOutfit(userId: nat, req: CreateOutfitRequest): Outfit {
    Outfit(0, userId, req.name, req.date, req.temperature, req.weather, req.occasion,
           req.location, req.notes, req.tags, req.isPublic, None, "", 0, 0)
  }

  /** The link row for the `i`-th clothing id of the request: layer `i + 1`, role main. */
  function LinkRow(outfitId: nat, clothingId: nat, i: nat): OutfitItem {
    OutfitItem(0, outfitId, clothingId, ItemRoleMain, i + 1)
  }

  /** Rows as `Create` on a slice stores them: numbered after the `base` rows already
      there. */
  function Numbered(rows: seq<OutfitItem>, base: nat): (r: seq<OutfitItem>)
    ensures |r| == |rows|
    ensures forall i :: 0 <= i < |rows| ==> r[i] == rows[i].(id := base + i + 1)
  {
    seq(|rows|, i requires 0 <= i < |rows| => rows[i].(id := base + i + 1))
  }

  predicate OfOutfit(outfitId: nat, x: OutfitItem) {
    x.outfitId == outfitId
  }

  function OfOutfitBy(outfitId: nat): OutfitItem -> bool {
    (x: OutfitItem) => OfOutfit(outfitId, x)
  }

  predicate LayerLe(a: OutfitItem, b: OutfitItem) {
    a.layerOrder <= b.layerOrder
  }

  function ByLayer(): (OutfitItem, OutfitItem) -> bool {
    (a: OutfitItem, b: OutfitItem) => LayerLe(a, b)
  }

  /** `GetByOutfitID`: the outfit's rows by layer, rows of one layer in the order they were
      stored (the creation time). */
  function ItemsOf(rows: seq<OutfitItem>, outfitId: nat): seq<OutfitItem> {
    SortWith(ByLayer(), Filter(OfOutfitBy(outfitId), rows))
  }

  /** The rows read back are the outfit's own rows, all of them, in layer order. */
  lemma ItemsOfOutfit(rows: seq<OutfitItem>, outfitId: nat)
    ensures forall x :: x in ItemsOf(rows, outfitId) <==> x in rows && x.outfitId == outfitId
  {
    var mine := Filter(OfOutfitBy(outfitId), rows);
    assert forall x :: x in ItemsOf(rows, outfitId) <==> x in multiset(mine);
  }

  lemma ItemsOfSorted(rows: seq<OutfitItem>, outfitId: nat)
    ensures SortedWith(ByLayer(), ItemsOf(rows, outfitId))
  {
    SortWithSorted(ByLayer(), Filter(OfOutfitBy(outfitId), rows));
  }

  /** The clothing ids of a list of outfit rows, in order. */
  function ClothingIdsOf(rows: seq<OutfitItem>): (r: seq<nat>)
    ensures |r| == |rows|
    ensures forall i :: 0 <= i < |rows| ==> r[i] == rows[i].clothingItemId
  {
    seq(|rows|, i requires 0 <= i < |rows| => rows[i].clothingItemId)
  }

  /** `extractClothingIDs`: one id per row, in the rows' order. */
  method ExtractClothingIDs(rows: seq<OutfitItem>) returns (ids: seq<nat>)
    ensures ids == ClothingIdsOf(rows)
  {
    ids := [];
    var i := 0;
    while i < |rows|
      invariant 0 <= i <= |rows| && |ids| == i
      invariant forall j :: 0 <= j < i ==> ids[j] == rows[j].clothingItemId
    {
      ids := ids + [rows[i].clothingItemId];
      i := i + 1;
    }
  }

  /** The DTO of an outfit among the link rows `rows`. */
  function DTOOf(rows: seq<OutfitItem>, o: Outfit): OutfitDTO {
    ToDTO(o, ClothingIdsOf(SortWith(ByLayer(), Filter(OfOutfitBy(o.id), rows))))
  }

  /** The DTO of an outfit with the clothing ids `ids`. */
  function ToDTO(o: Outfit, ids: seq<nat>): OutfitDTO {
    OutfitDTO(o.id, o.userId, o.name, o.date, o.temperature, o.weather, o.occasion,
              o.location, o.notes, o.isPublic, ids, o.tags, o.createdAt, o.updatedAt)
  }

  // ---------------------------------------------------------------- the store

  class OutfitStore {
    var outfits: seq<Outfit>
    var outfitItems: seq<OutfitItem>

    /** Row `i` has id `i + 1`, and a link row names an outfit already stored. */
    ghost predicate Valid()
      reads this
    {
      && (forall i :: 0 <= i < |outfits| ==> outfits[i].id == i + 1)
      && (forall i :: 0 <= i < |outfitItems| ==> outfitItems[i].id == i + 1 && outfitItems[i].outfitId <= |outfits|)
    }

    constructor ()
      ensures Valid() && outfits == [] && outfitItems == []
    {
      outfits := [];
      outfitItems := [];
    }

    /** `outfitRepo.Create`. */
    method Create(o: Outfit, now: int) returns (id: nat)
      requires Valid()
      modifies this
      ensures Valid() && id == |old(outfits)| + 1 && outfitItems == old(outfitItems)
      ensures outfits == old(outfits) + [o.(id := id, createdAt := now, updatedAt := now)]
    {
      id := |outfits| + 1;
      outfits := outfits + [o.(id := id, createdAt := now, updatedAt := now)];
    }

    /** `outfitItemRepo.CreateBatch`: nothing for an empty list, else the rows in order. */
    method CreateBatch(rows: seq<OutfitItem>)
      requires Valid() && forall i :: 0 <= i < |rows| ==> rows[i].outfitId <= |outfits|
      modifies this
      ensures Valid() && outfits == old(outfits)
      ensures outfitItems == old(outfitItems) + Numbered(rows, |old(outfitItems)|)
    {
      if |rows| == 0 {
        assert Numbered(rows, |outfitItems|) == [];
        return;
      }
      outfitItems := outfitItems + Numbered(rows, |outfitItems|);
    }

    /** `outfitRepo.GetByID`. */
    function GetByID(id: nat): (r: Option<Outfit>)
      reads this
      requires Valid()
      ensures r.Some? <==> 1 <= id <= |outfits|
      ensures r.Some? ==> r.value == outfits[id - 1] && r.value.id == id
    {
      if 1 <= id <= |outfits| then Some(outfits[id - 1]) else None
    }

    /** `outfitRepo.Update` (GORM `Save`) of a stored outfit. */
    method Update(o: Outfit, now: int)
      requires Valid() && 1 <= o.id <= |outfits|
      modifies this
      ensures Valid() && outfitItems == old(outfitItems)
      ensures outfits == old(outfits)[o.id - 1 := o.(updatedAt := now)]
    {
      outfits := outfits[o.id - 1 := o.(updatedAt := now)];
    }
  }

  /** `convertToOutfitDTO`: the outfit's fields and the clothing ids of its rows. The
      clothing details and attachments it also looks up never reach the DTO. */
  method ConvertToOutfitDTO(store: OutfitStore, o: Outfit) returns (d: OutfitDTO)
    ensures d == DTOOf(store.outfitItems, o)
  {
    var ids := ExtractClothingIDs(ItemsOf(store.outfitItems, o.id));
    d := ToDTO(o, ids);
  }

  // ---------------------------------------------------------------- create

  /** Every id names a clothing row of the user (soft-deleted rows included). */
  predicate OwnsAll(clothes: seq<ClothingItem>, userId: nat, ids: seq<nat>) {
    forall i :: 0 <= i < |ids| ==> 1 <= ids[i] <= |clothes| && clothes[ids[i] - 1].userId == userId
  }

  /** The error for an id that fails the check. */
  function Refusal(clothes: seq<ClothingItem>, id: nat): string {
    if 1 <= id <= |clothes| then ForeignClothing(id) else MissingClothing(id)
  }

  /** The ownership loop of `CreateOutfit`: the first id that is missing or another
      user's stops it with that id's error; otherwise there is no error. */
  method CheckClothingOwnership(clothing: ClothingItemRepository, userId: nat, ids: seq<nat>) returns (err: Option<string>)
    ensures err.None? <==> OwnsAll(clothing.items, userId, ids)
    ensures err.Some? ==> exists i :: 0 <= i < |ids| && OwnsAll(clothing.items, userId, ids[..i])
                            && !OwnsAll(clothing.items, userId, [ids[i]])
                            && err.value == Refusal(clothing.items, ids[i])
  {
    var k := 0;
    while k < |ids|
      invariant 0 <= k <= |ids| && OwnsAll(clothing.items, userId, ids[..k])
    {
      var row := RowOf(clothing.items, ids[k]);
      if row.None? || row.value.userId != userId {
        assert [ids[k]][0] == ids[k];
        assert !OwnsAll(clothing.items, userId, [ids[k]]);
        return Some(Refusal(clothing.items, ids[k]));
      }
      assert ids[..k + 1] == ids[..k] + [ids[k]];
      k := k + 1;
    }
    assert ids[..k] == ids;
    return None;
  }

  /** The link-row loop of `CreateOutfit`: one row per clothing id, in request order. */
  method BuildOutfitItems(outfitId: nat, ids: seq<nat>) returns (rows: seq<OutfitItem>)
    ensures |rows| == |ids|
    ensures forall i :: 0 <= i < |ids| ==> rows[i] == LinkRow(outfitId, ids[i], i)
  {
    rows := [];
    var i := 0;
    while i < |ids|
      invariant 0 <= i <= |ids| && |rows| == i
      invariant forall j :: 0 <= j < i ==> rows[j] == LinkRow(outfitId, ids[j], j)
    {
      rows := rows + [LinkRow(outfitId, ids[i], i)];
      i := i + 1;
    }
  }

  /** The link rows of the request, for the outfit `outfitId`. */
  function LinkRows(outfitId: nat, ids: seq<nat>): (r: seq<OutfitItem>)
    ensures |r| == |ids|
    ensures forall i :: 0 <= i < |ids| ==> r[i] == LinkRow(outfitId, ids[i], i)
  {
    seq(|ids|, i requires 0 <= i < |ids| => LinkRow(outfitId, ids[i], i))
  }

  /** The new outfit's rows are read back in request order: no older row names the new
      outfit, and the layers 1..n are already in order. */
  lemma NewRowsReadBack(before: seq<OutfitItem>, outfitId: nat, ids: seq<nat>)
    requires forall i :: 0 <= i < |before| ==> before[i].outfitId < outfitId
    ensures ClothingIdsOf(ItemsOf(before + Numbered(LinkRows(outfitId, ids), |before|), outfitId)) == ids
  {
    var added := Numbered(LinkRows(outfitId, ids), |before|);
    OnlyAddedRows(before, outfitId, added);
    AddedRowsInLayerOrder(outfitId, ids, |before|);
    SortWithKeepsSorted(ByLayer(), added);
    assert ItemsOf(before + added, outfitId) == added;
  }

  lemma OnlyAddedRows(before: seq<OutfitItem>, outfitId: nat, added: seq<OutfitItem>)
    requires forall i :: 0 <= i < |before| ==> before[i].outfitId < outfitId
    requires forall i :: 0 <= i < |added| ==> added[i].outfitId == outfitId
    ensures Filter(OfOutfitBy(outfitId), before + added) == added
  {
    FilterAppend(OfOutfitBy(outfitId), before, added);
    FilterNone(OfOutfitBy(outfitId), before);
    FilterAll(OfOutfitBy(outfitId), added);
  }

  lemma AddedRowsInLayerOrder(outfitId: nat, ids: seq<nat>, base: nat)
    ensures SortedWith(ByLayer(), Numbered(LinkRows(outfitId, ids), base))
    ensures forall i :: 0 <= i < |ids| ==> Numbered(LinkRows(outfitId, ids), base)[i].outfitId == outfitId
  {
    var added := Numbered(LinkRows(outfitId, ids), base);
    forall i, j | 0 <= i < j < |added| ensures LayerLe(added[i], added[j]) {
      assert added[i].layerOrder == i + 1 && added[j].layerOrder == j + 1;
    }
  }

  /** `CreateOutfit`: if any clothing id is missing or another user's, nothing is written
      and the error names the first such id; otherwise the outfit is stored with one link
      row per clothing id (layer `i + 1`, role main), and the DTO lists the request's
      clothing ids in order. */
  method CreateOutfit(store: OutfitStore, clothing: ClothingItemRepository, userId: nat,
                      req: CreateOutfitRequest, now: int) returns (r: Result<OutfitDTO, string>)
    requires store.Valid()
    modifies store
    ensures store.Valid()
    ensures !OwnsAll(clothing.items, userId, req.clothingIds) ==>
              && r.Err? && store.outfits == old(store.outfits) && store.outfitItems == old(store.outfitItems)
              && exists i :: 0 <= i < |req.clothingIds| && OwnsAll(clothing.items, userId, req.clothingIds[..i])
                             && !OwnsAll(clothing.items, userId, [req.clothingIds[i]])
                             && r.error == Refusal(clothing.items, req.clothingIds[i])
    ensures OwnsAll(clothing.items, userId, req.clothingIds) ==>
              var id := |old(store.outfits)| + 1;
              var o := NewOutfit(userId, req).(id := id, createdAt := now, updatedAt := now);
              && store.outfits == old(store.outfits) + [o]
              && store.outfitItems == old(store.outfitItems) + Numbered(LinkRows(id, req.clothingIds), |old(store.outfitItems)|)
              && r == Ok(ToDTO(o, req.clothingIds))
  {
    var err := CheckClothingOwnership(clothing, userId, req.clothingIds);
    if err.Some? {
      return Err(err.value);
    }
    var id := store.Create(NewOutfit(userId, req), now);
    var rows := BuildOutfitItems(id, req.clothingIds);
    assert rows == LinkRows(id, req.clothingIds);
    NewRowsReadBack(store.outfitItems, id, req.clothingIds);
    store.CreateBatch(rows);
    var d := ConvertToOutfitDTO(store, store.outfits[id - 1]);
    r := Ok(d);
  }

  // ---------------------------------------------------------------- history

  predicate OfUser(userId: nat, o: Outfit) {
    o.userId == userId
  }

  function OfUserBy(userId: nat): Outfit -> bool {
    (o: Outfit) => OfUser(userId, o)
  }

  /** `ORDER BY date DESC, created_at DESC`. */
  predicate NewerOrSame(a: Outfit, b: Outfit) {
    a.date > b.date || (a.date == b.date && a.createdAt >= b.createdAt)
  }

  function NewestFirst(): (Outfit, Outfit) -> bool {
    (a: Outfit, b: Outfit) => NewerOrSame(a, b)
  }

  lemma NewestFirstIsTotalPreorder()
    ensures IsTotalPreorder(NewestFirst())
  {
  }

  /** `outfitRepo.GetByUserID(userID, limit, offset)`: the user's outfits newest first,
      skipping `offset` rows only when it is positive and keeping `limit` only when it is
      positive. */
  function History(outfits: seq<Outfit>, userId: nat, limit: int, offset: int): (r: seq<Outfit>)
    ensures limit > 0 ==> |r| <= limit
    ensures forall x :: x in r ==> x in outfits && x.userId == userId
  {
    var mine := Filter(OfUserBy(userId), outfits);
    var sorted := SortWith(NewestFirst(), mine);
    assert forall x :: x in sorted ==> x in multiset(mine);
    Slice(sorted, limit, offset)
  }

  /** The number of rows `OFFSET` skips. */
  function Skipped(len: nat, offset: int): (n: nat)
    ensures n <= len
  {
    if offset <= 0 then 0 else if offset <= len then offset else len
  }

  /** `OFFSET offset LIMIT limit`, each only when positive: a run of consecutive rows. */
  function Slice<T>(s: seq<T>, limit: int, offset: int): (r: seq<T>)
    ensures limit > 0 ==> |r| <= limit
    ensures forall i :: 0 <= i < |r| ==> Skipped(|s|, offset) + i < |s| && r[i] == s[Skipped(|s|, offset) + i]
    ensures forall x :: x in r ==> x in s
  {
    var skipped := s[Skipped(|s|, offset)..];
    var r := if limit > 0 then Take(skipped, limit) else skipped;
    assert forall j :: 0 <= j < |r| ==> r[j] in skipped;
    r
  }

  lemma SliceSorted<T>(le: (T, T) -> bool, s: seq<T>, limit: int, offset: int)
    requires SortedWith(le, s)
    ensures SortedWith(le, Slice(s, limit, offset))
  {
    var r := Slice(s, limit, offset);
    var k := Skipped(|s|, offset);
    forall i, j | 0 <= i < j < |r| ensures le(r[i], r[j]) {
      assert r[i] == s[k + i] && r[j] == s[k + j];
    }
  }

  /** The history is newest first. */
  lemma HistoryNewestFirst(outfits: seq<Outfit>, userId: nat, limit: int, offset: int)
    ensures SortedWith(NewestFirst(), History(outfits, userId, limit, offset))
  {
    var sorted := SortWith(NewestFirst(), Filter(OfUserBy(userId), outfits));
    NewestFirstIsTotalPreorder();
    SortWithSorted(NewestFirst(), Filter(OfUserBy(userId), outfits));
    SliceSorted(NewestFirst(), sorted, limit, offset);
  }

  /** Without limit and offset the history is every outfit of the user. */
  lemma FullHistory(outfits: seq<Outfit>, userId: nat)
    ensures |History(outfits, userId, 0, 0)| == |Filter(OfUserBy(userId), outfits)|
  {
  }

  /** The offset of a history page. */
  function HistoryOffset(page: int, pageSize: int): (r: int)
    ensures page >= 1 && pageSize >= 0 ==> r >= 0
  {
    (page - 1) * pageSize
  }

  /** `GetUserOutfits`: the page of the history at offset `(page - 1) * pageSize`, each
      outfit with its clothing ids, and the count of all the user's outfits. */
  method GetUserOutfits(store: OutfitStore, userId: nat, page: int, pageSize: int)
    returns (dtos: seq<OutfitDTO>, total: nat)
    ensures total == |Filter(OfUserBy(userId), store.outfits)|
    ensures var rows := History(store.outfits, userId, pageSize, HistoryOffset(page, pageSize));
            && |dtos| == |rows|
            && forall i :: 0 <= i < |rows| ==> dtos[i] == DTOOf(store.outfitItems, rows[i])
  {
    var offset := HistoryOffset(page, pageSize);
    var rows := History(store.outfits, userId, pageSize, offset);
    dtos := ConvertAll(store, rows);
    var all := History(store.outfits, userId, 0, 0);
    FullHistory(store.outfits, userId);
    total := |all|;
  }

  function DTOsOf(links: seq<OutfitItem>, rows: seq<Outfit>): (r: seq<OutfitDTO>)
    ensures |r| == |rows|
    ensures forall i :: 0 <= i < |rows| ==> r[i] == DTOOf(links, rows[i])
  {
    seq(|rows|, i requires 0 <= i < |rows| => DTOOf(links, rows[i]))
  }

  /** The conversion loop of `GetUserOutfits`. */
  method ConvertAll(store: OutfitStore, rows: seq<Outfit>) returns (dtos: seq<OutfitDTO>)
    ensures |dtos| == |rows|
    ensures forall i :: 0 <= i < |rows| ==> dtos[i] == DTOOf(store.outfitItems, rows[i])
  {
    dtos := [];
    var i := 0;
    ghost var want := DTOsOf(store.outfitItems, rows);
    while i < |rows|
      invariant 0 <= i <= |rows| && dtos == want[..i]
    {
      var d := ConvertToOutfitDTO(store, rows[i]);
      assert want[..i + 1] == want[..i] + [d];
      dtos := dtos + [d];
      i := i + 1;
    }
    assert want[..i] == want;
  }

  // ---------------------------------------------------------------- recommendation

  /** `RecommendationStrategy`; confidences are exact numbers here. */
  datatype Strategy = Strategy(position: string, layer: int, confidence: real, reason: string)

  /** `getRecommendationStrategy`: the category names to fill for the weather, each with
      its position, layer, confidence and reason. */
  function StrategyFor(weather: string): map<string, Strategy> {
    if weather == "sunny" then
      map["上衣" := Strategy("top", 1, 0.9, "晴天适合轻薄透气的上衣"),
          "裤子" := Strategy("bottom", 1, 0.9, "晴天适合轻便的下装"),
          "鞋子" := Strategy("shoes", 1, 0.8, "晴天可选择透气的鞋子")]
    else if weather == "rainy" then
      map["外套" := Strategy("outer", 2, 0.95, "雨天需要防水外套"),
          "裤子" := Strategy("bottom", 1, 0.8, "雨天适合不易湿的下装"),
          "鞋子" := Strategy("shoes", 1, 0.9, "雨天需要防水鞋")]
    else if weather == "snowy" then
      map["外套" := Strategy("outer", 3, 0.95, "雪天需要保暖外套"),
          "内衣" := Strategy("inner", 1, 0.9, "雪天需要保暖内衣"),
          "靴子" := Strategy("shoes", 1, 0.9, "雪天需要保暖防滑靴")]
    else
      map["上衣" := Strategy("top", 1, 0.7, "基础搭配"),
          "裤子" := Strategy("bottom", 1, 0.7, "基础搭配")]
  }

  /** The categories each weather asks for, and every confidence lies in (0, 1]. */
  lemma StrategyCategories(weather: string)
    ensures weather == "sunny" ==> StrategyFor(weather).Keys == {"上衣", "裤子", "鞋子"}
    ensures weather == "rainy" ==> StrategyFor(weather).Keys == {"外套", "裤子", "鞋子"}
    ensures weather == "snowy" ==> StrategyFor(weather).Keys == {"外套", "内衣", "靴子"}
    ensures weather !in {"sunny", "rainy", "snowy"} ==> StrategyFor(weather).Keys == {"上衣", "裤子"}
    ensures forall k :: k in StrategyFor(weather) ==> 0.0 < StrategyFor(weather)[k].confidence <= 1.0
  {
  }

  /** `RecommendedClothingItem`. */
  datatype RecommendedItem = RecommendedItem(
    id: nat, name: string, brand: string, color: string, categoryName: string,
    imageUrl: string, position: string, layer: int, confidence: real, reason: string)

  /** The item has a category row with that name. */
  predicate InCategory(categories: Categories, name: string, item: ClothingItem) {
    item.categoryId in categories && categories[item.categoryId].name == name
  }

  /** The first item of the list in the named category. */
  function FirstIn(categories: Categories, name: string, items: seq<ClothingItem>): (r: Option<ClothingItem>)
    ensures r.Some? ==> r.value in items && InCategory(categories, name, r.value)
    ensures r.None? <==> forall i :: 0 <= i < |items| ==> !InCategory(categories, name, items[i])
  {
    if items == [] then None
    else if InCategory(categories, name, items[0]) then Some(items[0])
    else FirstIn(categories, name, items[1..])
  }

  lemma {:induction false} FirstInSnoc(categories: Categories, name: string, items: seq<ClothingItem>, x: ClothingItem)
    ensures FirstIn(categories, name, items + [x])
         == if FirstIn(categories, name, items).Some? then FirstIn(categories, name, items)
            else if InCategory(categories, name, x) then Some(x) else None
  {
    if items == [] {
      assert items + [x] == [x];
    } else {
      assert (items + [x])[0] == items[0];
      assert (items + [x])[1..] == items[1..] + [x];
      FirstInSnoc(categories, name, items[1..], x);
    }
  }

  /** What the recommendation holds for a strategy category: the first wardrobe item in
      it, with the strategy's position, layer, confidence and reason; nothing if the
      wardrobe has none. */
  function Pick(categories: Categories, weather: string, items: seq<ClothingItem>, name: string): (r: Option<RecommendedItem>)
    requires name in StrategyFor(weather)
    ensures r.Some? <==> FirstIn(categories, name, items).Some?
  {
    match FirstIn(categories, name, items)
    case None => None
    case Some(x) => Some(Recommend(weather, name, x))
  }

  /** The recommendation entry for item `x` under the strategy of category `name`. */
  function Recommend(weather: string, name: string, x: ClothingItem): (r: RecommendedItem)
    requires name in StrategyFor(weather)
    ensures r.id == x.id && r.categoryName == name && r.imageUrl == ""
    ensures r.layer == StrategyFor(weather)[name].layer && r.confidence == StrategyFor(weather)[name].confidence
  {
    var s := StrategyFor(weather)[name];
    RecommendedItem(x.id, x.name, x.brand, x.color, name, "", s.position, s.layer, s.confidence, s.reason)
  }

  /** The recommendations for a wardrobe: each is the pick of a strategy category, every
      category with a pick appears, and none appears twice. */
  ghost predicate RecommendationsOf(categories: Categories, weather: string, items: seq<ClothingItem>, r: seq<RecommendedItem>) {
    && (forall j :: 0 <= j < |r| ==> r[j].categoryName in StrategyFor(weather)
                                     && Pick(categories, weather, items, r[j].categoryName) == Some(r[j]))
    && (forall name :: name in StrategyFor(weather) && FirstIn(categories, name, items).Some? ==>
                         exists j :: 0 <= j < |r| && r[j].categoryName == name)
    && (forall i, j :: 0 <= i < j < |r| ==> r[i].categoryName != r[j].categoryName)
  }

  /** The grouping of the wardrobe by category name, as far as the recommendation uses
      it: a name is a key once an item of that category is seen, and its list starts with
      the first such item. */
  ghost predicate Grouped(categories: Categories, groups: map<string, seq<ClothingItem>>, seen: seq<ClothingItem>) {
    forall name :: GroupedAt(categories, groups, seen, name)
  }

  ghost predicate GroupedAt(categories: Categories, groups: map<string, seq<ClothingItem>>, seen: seq<ClothingItem>, name: string) {
    && (name in groups <==> FirstIn(categories, name, seen).Some?)
    && (name in groups ==> |groups[name]| > 0 && groups[name][0] == FirstIn(categories, name, seen).value)
  }

  /** `generateRecommendations`: group the items by category name (items without a
      category row are skipped), then, in the map's order, take the first item of each
      strategy category that has one. */
  method GenerateRecommendations(categories: Categories, items: seq<ClothingItem>, weather: string)
    returns (r: seq<RecommendedItem>)
    ensures RecommendationsOf(categories, weather, items, r)
    ensures |r| <= |StrategyFor(weather).Keys|
  {
    var groups := GroupByCategory(categories, items);
    r := PickFromGroups(categories, items, weather, groups);
  }

  /** The grouping loop of `generateRecommendations`. */
  method GroupByCategory(categories: Categories, items: seq<ClothingItem>) returns (groups: map<string, seq<ClothingItem>>)
    ensures Grouped(categories, groups, items)
  {
    groups := map[];
    var i := 0;
    while i < |items|
      invariant 0 <= i <= |items| && Grouped(categories, groups, items[..i])
    {
      GroupStep(categories, groups, items[..i], items[i]);
      if items[i].categoryId in categories {
        var name := categories[items[i].categoryId].name;
        groups := groups[name := (if name in groups then groups[name] else []) + [items[i]]];
      }
      assert items[..i + 1] == items[..i] + [items[i]];
      i := i + 1;
    }
    assert items[..i] == items;
  }

  /** The strategy loop of `generateRecommendations`, over the keys in any order. */
  method PickFromGroups(categories: Categories, items: seq<ClothingItem>, weather: string,
                        groups: map<string, seq<ClothingItem>>) returns (r: seq<RecommendedItem>)
    requires Grouped(categories, groups, items)
    ensures RecommendationsOf(categories, weather, items, r)
    ensures |r| <= |StrategyFor(weather).Keys|
  {
    var strategy := StrategyFor(weather);
    var remaining := strategy.Keys;
    ghost var done: set<string> := {};
    r := [];
    while remaining != {}
      invariant remaining <= strategy.Keys && done == strategy.Keys - remaining
      invariant |r| + |remaining| <= |strategy.Keys|
      invariant PickedFor(categories, weather, items, done, r)
      decreases |remaining|
    {
      var name :| name in remaining;
      assert GroupedAt(categories, groups, items, name);
      if name in groups && |groups[name]| > 0 {
        PickAdd(categories, weather, items, done, r, name, groups[name][0]);
        r := r + [Recommend(weather, name, groups[name][0])];
      } else {
        PickSkip(categories, weather, items, done, r, name);
      }
      remaining := remaining - {name};
      done := done + {name};
    }
  }

  /** The loop's progress: the entries so far are the picks of distinct categories among
      `done`, and every category of `done` with a pick has its entry. */
  ghost predicate PickedFor(categories: Categories, weather: string, items: seq<ClothingItem>, done: set<string>, r: seq<RecommendedItem>) {
    PicksAmong(categories, weather, items, done, r) && PicksCover(categories, weather, items, done, r) && PicksDistinct(r)
  }

  ghost predicate PicksAmong(categories: Categories, weather: string, items: seq<ClothingItem>, done: set<string>, r: seq<RecommendedItem>) {
    forall j :: 0 <= j < |r| ==> r[j].categoryName in done && r[j].categoryName in StrategyFor(weather)
                                 && Pick(categories, weather, items, r[j].categoryName) == Some(r[j])
  }

  ghost predicate PicksCover(categories: Categories, weather: string, items: seq<ClothingItem>, done: set<string>, r: seq<RecommendedItem>) {
    forall name :: name in done && name in StrategyFor(weather) && FirstIn(categories, name, items).Some? ==>
                     exists j :: 0 <= j < |r| && r[j].categoryName == name
  }

  ghost predicate PicksDistinct(r: seq<RecommendedItem>) {
    forall a, b :: 0 <= a < b < |r| ==> r[a].categoryName != r[b].categoryName
  }

  /** A strategy category with a pick adds its entry. */
  lemma PickAdd(categories: Categories, weather: string, items: seq<ClothingItem>,
                done: set<string>, r: seq<RecommendedItem>, name: string, x: ClothingItem)
    requires PickedFor(categories, weather, items, done, r)
    requires name !in done && name in StrategyFor(weather) && FirstIn(categories, name, items) == Some(x)
    ensures PickedFor(categories, weather, items, done + {name}, r + [Recommend(weather, name, x)])
  {
    var e := Recommend(weather, name, x);
    PickAddAmong(categories, weather, items, done, r, name, x, e);
    PickAddCover(categories, weather, items, done, r, name, e);
    PickAddDistinct(done, r, name, e);
  }

  lemma PickAddAmong(categories: Categories, weather: string, items: seq<ClothingItem>,
                     done: set<string>, r: seq<RecommendedItem>, name: string, x: ClothingItem, e: RecommendedItem)
    requires PicksAmong(categories, weather, items, done, r)
    requires name in StrategyFor(weather) && FirstIn(categories, name, items) == Some(x) && e == Recommend(weather, name, x)
    ensures PicksAmong(categories, weather, items, done + {name}, r + [e])
  {
    var r2 := r + [e];
    forall j | 0 <= j < |r2|
      ensures r2[j].categoryName in done + {name} && r2[j].categoryName in StrategyFor(weather)
      ensures Pick(categories, weather, items, r2[j].categoryName) == Some(r2[j])
    {
      if j < |r| {
        assert r2[j] == r[j];
      } else {
        assert r2[j] == e;
      }
    }
  }

  lemma PickAddCover(categories: Categories, weather: string, items: seq<ClothingItem>,
                     done: set<string>, r: seq<RecommendedItem>, name: string, e: RecommendedItem)
    requires PicksCover(categories, weather, items, done, r)
    requires e.categoryName == name
    ensures PicksCover(categories, weather, items, done + {name}, r + [e])
  {
    var r2 := r + [e];
    assert r2[|r|] == e;
    forall n | n in done + {name} && n in StrategyFor(weather) && FirstIn(categories, n, items).Some?
      ensures exists j :: 0 <= j < |r2| && r2[j].categoryName == n
    {
      if n != name {
        var j :| 0 <= j < |r| && r[j].categoryName == n;
        assert r2[j] == r[j];
      }
    }
  }

  lemma PickAddDistinct(done: set<string>, r: seq<RecommendedItem>, name: string, e: RecommendedItem)
    requires PicksDistinct(r) && name !in done && e.categoryName == name
    requires forall j :: 0 <= j < |r| ==> r[j].categoryName in done
    ensures PicksDistinct(r + [e])
  {
    var r2 := r + [e];
    forall a, b | 0 <= a < b < |r2| ensures r2[a].categoryName != r2[b].categoryName {
      assert r2[a] == r[a];
      if b < |r| {
        assert r2[b] == r[b];
      }
    }
  }

  /** A strategy category without a pick adds nothing. */
  lemma PickSkip(categories: Categories, weather: string, items: seq<ClothingItem>,
                 done: set<string>, r: seq<RecommendedItem>, name: string)
    requires PickedFor(categories, weather, items, done, r)
    requires name !in done && name in StrategyFor(weather) && FirstIn(categories, name, items).None?
    ensures PickedFor(categories, weather, items, done + {name}, r)
  {
  }

  /** One step of the grouping loop keeps `Grouped`. */
  lemma GroupStep(categories: Categories, groups: map<string, seq<ClothingItem>>, seen: seq<ClothingItem>, x: ClothingItem)
    requires Grouped(categories, groups, seen)
    ensures x.categoryId !in categories ==> Grouped(categories, groups, seen + [x])
    ensures x.categoryId in categories ==>
              var name := categories[x.categoryId].name;
              Grouped(categories, groups[name := (if name in groups then groups[name] else []) + [x]], seen + [x])
  {
    if x.categoryId in categories {
      var key := categories[x.categoryId].name;
      var g := groups[key := (if key in groups then groups[key] else []) + [x]];
      forall name ensures GroupedAt(categories, g, seen + [x], name) {
        assert GroupedAt(categories, groups, seen, name);
        FirstInSnoc(categories, name, seen, x);
      }
    } else {
      forall name ensures GroupedAt(categories, groups, seen + [x], name) {
        assert GroupedAt(categories, groups, seen, name);
        FirstInSnoc(categories, name, seen, x);
      }
    }
  }

  /** `getTemperatureByWeather`. */
  function TemperatureByWeather(weather: string): (t: real)
    ensures 0.0 <= t <= 25.0
    ensures t == 0.0 <==> weather == "snowy"
    ensures weather !in Enums.WeatherTypes ==> t == 20.0
  {
    if weather == "sunny" then 25.0
    else if weather == "rainy" then 18.0
    else if weather == "cloudy" then 20.0
    else if weather == "snowy" then 0.0
    else if weather == "foggy" then 15.0
    else if weather == "windy" then 15.0
    else 20.0
  }

  /** `getWeatherDescription`. */
  function WeatherDescription(weather: string): (d: string)
    ensures (d == "天气状况良好") <==> weather !in Enums.WeatherTypes
  {
    if weather == "sunny" then "晴朗温暖，适合轻薄衣物"
    else if weather == "rainy" then "阴雨天气，注意防水保暖"
    else if weather == "cloudy" then "多云天气，温度适中"
    else if weather == "snowy" then "雪天寒冷，注意保暖防滑"
    else if weather == "foggy" then "雾天湿润，注意保暖"
    else if weather == "windy" then "大风天气，注意防风保暖"
    else "天气状况良好"
  }

  /** Each weather type has a description of its own. */
  lemma DescriptionsDistinct(a: string, b: string)
    requires a in Enums.WeatherTypes && b in Enums.WeatherTypes && a != b
    ensures WeatherDescription(a) != WeatherDescription(b)
  {
  }

  /** `math.Round`: halves go away from zero. */
  function Round(x: real): (n: int)
    ensures x - 0.5 <= n as real <= x + 0.5
  {
    if x >= 0.0 then (x + 0.5).Floor else -((-x + 0.5).Floor)
  }

  /** The mean confidence rounded to two decimals, 0 for no items. */
  function ConfidenceOf(total: real, n: nat): (c: real) {
    if n == 0 then 0.0 else Round(total / n as real * 100.0) as real / 100.0
  }

  function SumConfidence(r: seq<RecommendedItem>): real {
    if r == [] then 0.0 else SumConfidence(r[..|r| - 1]) + r[|r| - 1].confidence
  }

  /** `calculateConfidence`. */
  method CalculateConfidence(r: seq<RecommendedItem>) returns (c: real)
    ensures c == ConfidenceOf(SumConfidence(r), |r|)
  {
    if |r| == 0 {
      return 0.0;
    }
    var total := 0.0;
    var i := 0;
    while i < |r|
      invariant 0 <= i <= |r| && total == SumConfidence(r[..i])
    {
      assert r[..i + 1][..i] == r[..i];
      total := total + r[i].confidence;
      i := i + 1;
    }
    assert r[..i] == r;
    c := ConfidenceOf(total, |r|);
  }

  lemma {:induction false} SumConfidenceBounds(r: seq<RecommendedItem>)
    requires forall j :: 0 <= j < |r| ==> 0.0 <= r[j].confidence <= 1.0
    ensures 0.0 <= SumConfidence(r) <= |r| as real
  {
    if r != [] {
      SumConfidenceBounds(r[..|r| - 1]);
    }
  }

  /** With confidences between 0 and 1, the rounded mean is between 0 and 1 too. */
  lemma ConfidenceInUnitRange(r: seq<RecommendedItem>)
    requires forall j :: 0 <= j < |r| ==> 0.0 <= r[j].confidence <= 1.0
    ensures 0.0 <= ConfidenceOf(SumConfidence(r), |r|) <= 1.0
  {
    SumConfidenceBounds(r);
    if |r| > 0 {
      var mean := SumConfidence(r) / |r| as real;
      QuotientInUnitRange(SumConfidence(r), |r| as real);
      var n := Round(mean * 100.0);
      assert 0 <= n <= 100;
    }
  }

  lemma QuotientInUnitRange(s: real, n: real)
    requires n > 0.0 && 0.0 <= s <= n
    ensures 0.0 <= s / n <= 1.0
  {
    var q := s / n;
    assert q * n == s;
  }

  /** `generateRecommendationReason`. */
  function RecommendationReason(weather: string, n: nat): (s: string)
    ensures n == 0 <==> s == NoRecommendation
  {
    if n == 0 then NoRecommendation
    else "基于" + WeatherDescription(weather) + "的天气条件，为您推荐了" + Text.NatToString(n) + "件单品的搭配方案"
  }

  datatype WeatherInfo = WeatherInfo(temperature: real, condition: string, description: string)

  /** `OutfitRecommendation` without its time stamp. */
  datatype Recommendation = Recommendation(
    id: nat, items: seq<RecommendedItem>, weather: WeatherInfo, occasion: string,
    confidence: real, reason: string)

  /** `GetOutfitRecommendation`: an unknown weather string and a user with no active
      clothes are refused; otherwise the recommendation for the user's first hundred
      items, newest first, under the default occasion, with id 0 since it is not stored. */
  method GetOutfitRecommendation(clothing: ClothingItemRepository, categories: Categories, userId: nat, weather: string)
    returns (r: Result<Recommendation, string>)
    ensures !Enums.IsValidWeatherType(weather) ==> r == Err(InvalidWeather)
    ensures var wardrobe := Query(clothing.items, clothing.itemTags, userId, PlainRequest(1, WardrobePage)).0;
            && (Enums.IsValidWeatherType(weather) && wardrobe == [] ==> r == Err(EmptyWardrobe))
            && (r.Ok? ==>
                  && Enums.IsValidWeatherType(weather) && wardrobe != []
                  && RecommendationsOf(categories, weather, wardrobe, r.value.items)
                  && r.value.id == 0 && r.value.occasion == DefaultOccasion
                  && r.value.weather == WeatherInfo(TemperatureByWeather(weather), weather, WeatherDescription(weather))
                  && r.value.confidence == ConfidenceOf(SumConfidence(r.value.items), |r.value.items|)
                  && r.value.reason == RecommendationReason(weather, |r.value.items|))
    ensures r.Ok? || r == Err(InvalidWeather) || r == Err(EmptyWardrobe)
  {
    if !Enums.IsValidWeatherType(weather) {
      return Err(InvalidWeather);
    }
    var wardrobe := clothing.GetByUserID(userId, PlainRequest(1, WardrobePage)).0;
    if |wardrobe| == 0 {
      return Err(EmptyWardrobe);
    }
    var items := GenerateRecommendations(categories, wardrobe, weather);
    var confidence := CalculateConfidence(items);
    r := Ok(Recommendation(0, items, WeatherInfo(TemperatureByWeather(weather), weather, WeatherDescription(weather)),
                           DefaultOccasion, confidence, RecommendationReason(weather, |items|)));
  }

  // ---------------------------------------------------------------- rating

  /** `RateOutfit`: a rating outside 1..5, a missing outfit and another user's outfit are
      refused, in that order, and nothing changes; otherwise the rating and its notes are
      saved on that outfit alone. */
  method RateOutfit(store: OutfitStore, userId: nat, outfitId: nat, rating: int, notes: string, now: int)
    returns (err: Option<string>)
    requires store.Valid()
    modifies store
    ensures store.Valid() && store.outfitItems == old(store.outfitItems)
    ensures err.None? <==> Enums.IsValidOutfitRating(rating) && 1 <= outfitId <= |old(store.outfits)|
                           && old(store.outfits)[outfitId - 1].userId == userId
    ensures !Enums.IsValidOutfitRating(rating) ==> err == Some(InvalidRating)
    ensures Enums.IsValidOutfitRating(rating) && !(1 <= outfitId <= |old(store.outfits)|) ==> err == Some(OutfitLookupFailed)
    ensures (Enums.IsValidOutfitRating(rating) && 1 <= outfitId <= |old(store.outfits)|
             && old(store.outfits)[outfitId - 1].userId != userId) ==> err == Some(NotYourOutfit)
    ensures err.Some? ==> store.outfits == old(store.outfits)
    ensures err.None? ==>
              store.outfits == old(store.outfits)[outfitId - 1 :=
                old(store.outfits)[outfitId - 1].(rating := Some(rating), ratingNotes := notes, updatedAt := now)]
  {
    if !Enums.IsValidOutfitRating(rating) {
      return Some(InvalidRating);
    }
    var found := store.GetByID(outfitId);
    if found.None? {
      return Some(OutfitLookupFailed);
    }
    var o := found.value;
    if o.userId != userId {
      return Some(NotYourOutfit);
    }
    store.Update(o.(rating := Some(rating), ratingNotes := notes), now);
    return None;
  }
}
