/** The purchase-record service (server/services/purchase_record_service.go) over the
    purchase-record table (server/repositories/purchase_record_repository.go). Money is
    an exact real and dates are seconds; the clothing table is the item repository's
    sequence of rows. The record carries the fields the service reads and writes,
    `Price` and `Store`, taken to be the columns `PurchasePrice` and `StoreName` of
    server/models/purchase_record.go, which declares no `Price` or `Store` field. The SQL
    aggregations of the statistics are given as the results of their queries. */
module PurchaseService {
  import opened Wrappers
  import opened Seqs
  import Text
  import opened ItemModel
  import opened ItemRepository

  const RecordMissing := "购买记录不存在: record not found"
  const ItemMissing := "衣物不存在: record not found"
  const LinkedItemMissing := "关联的衣物不存在: record not found"
  const CreateDenied := "无权限为此衣物创建购买记录"
  const GetDenied := "无权限访问此购买记录"
  const UpdateDenied := "无权限修改此购买记录"
  const DeleteDenied := "无权限删除此购买记录"
  const AlreadyRecorded := "该衣物已存在购买记录"
  /** The database's answer to a second row for the same item (the unique index on
      `clothing_item_id`). */
  const DuplicateItem := "duplicated key not allowed"

  function CreateFailed(e: string): string { "创建购买记录失败: " + e }

  /** A row of `purchase_records`; `deleted` is GORM's soft-delete mark. */
  datatype PurchaseRow = PurchaseRow(
    id: nat, clothingItemId: nat, price: real, store: string, purchaseDate: int, notes: string,
    deleted: bool, createdAt: int, updatedAt: int)

  datatype CreateRequest = CreateRequest(
    purchasePrice: real, store: string, onlineStore: string, purchaseDate: int, notes: string)

  datatype UpdateRequest = UpdateRequest(
    purchasePrice: Option<real>, purchaseDate: Option<int>, store: Option<string>,
    onlineStore: Option<string>, notes: Option<string>)

  /** `PurchaseRecordDTO`: the original price repeats the price, and the online store,
      payment method, order number, receipt and warranty are empty. */
  datatype PurchaseDTO = PurchaseDTO(
    id: nat, clothingItemId: nat, purchasePrice: real, originalPrice: real, purchaseDate: int,
    store: string, onlineStore: string, paymentMethod: string, orderNumber: string, notes: string,
    receiptUrl: string, warrantyPeriod: int, createdAt: int, updatedAt: int)

  // ---------------------------------------------------------------- the table

  predicate Live(records: seq<PurchaseRow>, id: nat) {
    1 <= id <= |records| && !records[id - 1].deleted
  }

  /** No two rows, deleted or not, are for the same item. */
  predicate OneRowPerItem(records: seq<PurchaseRow>) {
    forall i, j :: 0 <= i < j < |records| ==> records[i].clothingItemId != records[j].clothingItemId
  }

  /** Some row, deleted or not, holds the item's key in the unique index. */
  predicate KeyTaken(records: seq<PurchaseRow>, itemId: nat) {
    exists i :: 0 <= i < |records| && records[i].clothingItemId == itemId
  }

  /** `GetByClothingItemID`: the live row of the item; the soft delete hides a deleted
      one. */
  function LiveRowFor(records: seq<PurchaseRow>, itemId: nat): (r: Option<PurchaseRow>)
    ensures r.Some? ==> r.value in records && r.value.clothingItemId == itemId && !r.value.deleted
    ensures r.None? ==> forall x :: x in records && x.clothingItemId == itemId ==> x.deleted
  {
    if records == [] then None
    else if records[0].clothingItemId == itemId && !records[0].deleted then Some(records[0])
    else LiveRowFor(records[1..], itemId)
  }

  /** The join on `clothing_items`: a live row whose item belongs to the user. */
  predicate OwnedRow(items: seq<ClothingItem>, userId: nat, row: PurchaseRow) {
    !row.deleted && RowOf(items, row.clothingItemId).Some? && RowOf(items, row.clothingItemId).value.userId == userId
  }

  function OwnedBy(items: seq<ClothingItem>, userId: nat): PurchaseRow -> bool {
    (row: PurchaseRow) => OwnedRow(items, userId, row)
  }

  function InRangeBy(items: seq<ClothingItem>, userId: nat, start: int, end: int): PurchaseRow -> bool {
    (row: PurchaseRow) => OwnedRow(items, userId, row) && start <= row.purchaseDate <= end
  }

  /** `store LIKE '%name%'`: the name occurs in the store (wildcards inside the name and
      the collation's case folding are not part of this model). */
  function AtStoreBy(items: seq<ClothingItem>, userId: nat, storeName: string): PurchaseRow -> bool {
    (row: PurchaseRow) => OwnedRow(items, userId, row) && Text.Contains(row.store, storeName)
  }

  function LatestFirst(): (PurchaseRow, PurchaseRow) -> bool {
    (a: PurchaseRow, b: PurchaseRow) => a.purchaseDate >= b.purchaseDate
  }

  /** `GetByUserID`: the user's rows, latest purchase first, at most `limit` when it is
      positive. */
  function ByUser(records: seq<PurchaseRow>, items: seq<ClothingItem>, userId: nat, limit: int): seq<PurchaseRow> {
    Limited(SortWith(LatestFirst(), Filter(OwnedBy(items, userId), records)), limit)
  }

  function ByDateRange(records: seq<PurchaseRow>, items: seq<ClothingItem>, userId: nat, start: int, end: int): seq<PurchaseRow> {
    SortWith(LatestFirst(), Filter(InRangeBy(items, userId, start, end), records))
  }

  function ByStore(records: seq<PurchaseRow>, items: seq<ClothingItem>, userId: nat, storeName: string): seq<PurchaseRow> {
    SortWith(LatestFirst(), Filter(AtStoreBy(items, userId, storeName), records))
  }

  /** Each list holds only rows its filter admits, latest purchase first. */
  lemma QueryRows(p: PurchaseRow -> bool, records: seq<PurchaseRow>, limit: int)
    ensures var r := Limited(SortWith(LatestFirst(), Filter(p, records)), limit);
            && (forall x :: x in r ==> x in records && p(x))
            && (forall i, j :: 0 <= i < j < |r| ==> r[i].purchaseDate >= r[j].purchaseDate)
            && (limit <= 0 ==> multiset(r) == multiset(Filter(p, records)))
  {
    var mine := Filter(p, records);
    var sorted := SortWith(LatestFirst(), mine);
    var r := Limited(sorted, limit);
    SortWithSorted(LatestFirst(), mine);
    forall x | x in r ensures x in records && p(x) {
      assert x in sorted;
      assert x in multiset(mine);
    }
    forall i, j | 0 <= i < j < |r| ensures r[i].purchaseDate >= r[j].purchaseDate {
      assert r[i] == sorted[i] && r[j] == sorted[j];
      assert LatestFirst()(sorted[i], sorted[j]);
    }
  }

  /** `GetByUserID`: the user's live rows, latest purchase first; all of them without a
      limit, and with one as many as it allows, none left out being later than one listed. */
  lemma ByUserRows(records: seq<PurchaseRow>, items: seq<ClothingItem>, userId: nat, limit: int)
    ensures var r := ByUser(records, items, userId, limit);
            && (forall x :: x in r ==> x in records && OwnedRow(items, userId, x))
            && (limit <= 0 ==> forall x :: x in records && OwnedRow(items, userId, x) ==> x in r)
            && (limit <= 0 ==> multiset(r) == multiset(Filter(OwnedBy(items, userId), records)))
            && (var mine := Filter(OwnedBy(items, userId), records);
                limit > 0 ==> |r| == if |mine| <= limit then |mine| else limit)
            && (forall i, j :: 0 <= i < j < |r| ==> r[i].purchaseDate >= r[j].purchaseDate)
            && (forall x :: x in records && OwnedRow(items, userId, x) ==>
                  x in r || forall y :: y in r ==> y.purchaseDate >= x.purchaseDate)
  {
    assert IsTotalPreorder(LatestFirst());
    TopRows(LatestFirst(), OwnedBy(items, userId), records, limit);
  }

  /** `GetByDateRange`: exactly the user's live rows purchased within the bounds, inclusive,
      each as often as in the table, latest purchase first. */
  lemma ByDateRangeRows(records: seq<PurchaseRow>, items: seq<ClothingItem>, userId: nat, start: int, end: int)
    ensures var r := ByDateRange(records, items, userId, start, end);
            && (forall x :: x in r <==> x in records && OwnedRow(items, userId, x) && start <= x.purchaseDate <= end)
            && multiset(r) == multiset(Filter(InRangeBy(items, userId, start, end), records))
            && (forall i, j :: 0 <= i < j < |r| ==> r[i].purchaseDate >= r[j].purchaseDate)
  {
    assert IsTotalPreorder(LatestFirst());
    TopRows(LatestFirst(), InRangeBy(items, userId, start, end), records, 0);
  }

  /** `GetByStore`: exactly the user's live rows whose store contains the name, each as
      often as in the table, latest purchase first. */
  lemma ByStoreRows(records: seq<PurchaseRow>, items: seq<ClothingItem>, userId: nat, storeName: string)
    ensures var r := ByStore(records, items, userId, storeName);
            && (forall x :: x in r <==> x in records && OwnedRow(items, userId, x) && Text.Contains(x.store, storeName))
            && multiset(r) == multiset(Filter(AtStoreBy(items, userId, storeName), records))
            && (forall i, j :: 0 <= i < j < |r| ==> r[i].purchaseDate >= r[j].purchaseDate)
  {
    assert IsTotalPreorder(LatestFirst());
    TopRows(LatestFirst(), AtStoreBy(items, userId, storeName), records, 0);
  }

  /** The table: row `i` has id `i + 1`, and the unique index on the item holds. */
  class PurchaseRecordRepository {
    var records: seq<PurchaseRow>

    ghost predicate Valid()
      reads this
    {
      && (forall i :: 0 <= i < |records| ==> records[i].id == i + 1)
      && OneRowPerItem(records)
    }

    constructor ()
      ensures Valid() && records == []
    {
      records := [];
    }

    /** `Create`: refused by the unique index when any row, even a deleted one, is for
        the same item; otherwise the next id and the creation times. */
    method Create(row: PurchaseRow, now: int) returns (r: Result<nat, string>)
      requires Valid()
      modifies this
      ensures Valid()
      ensures KeyTaken(old(records), row.clothingItemId) ==> r == Err(DuplicateItem) && records == old(records)
      ensures !KeyTaken(old(records), row.clothingItemId) ==>
                && r == Ok(|old(records)| + 1)
                && records == old(records) + [row.(id := |old(records)| + 1, deleted := false, createdAt := now, updatedAt := now)]
    {
      var i := 0;
      while i < |records|
        invariant 0 <= i <= |records|
        invariant forall j :: 0 <= j < i ==> records[j].clothingItemId != row.clothingItemId
      {
        if records[i].clothingItemId == row.clothingItemId {
          return Err(DuplicateItem);
        }
        i := i + 1;
      }
      var id := |records| + 1;
      records := records + [row.(id := id, deleted := false, createdAt := now, updatedAt := now)];
      r := Ok(id);
    }

    /** `Update` (`Save`) of a stored row that keeps its item. */
    method Update(row: PurchaseRow, now: int)
      requires Valid() && 1 <= row.id <= |records| && row.clothingItemId == records[row.id - 1].clothingItemId
      modifies this
      ensures Valid()
      ensures records == old(records)[row.id - 1 := row.(updatedAt := now)]
    {
      records := records[row.id - 1 := row.(updatedAt := now)];
    }

    /** `Delete`: a soft delete of a live row. */
    method Delete(id: nat)
      requires Valid()
      modifies this
      ensures Valid() && |records| == |old(records)|
      ensures Live(old(records), id) ==> records == old(records)[id - 1 := old(records)[id - 1].(deleted := true)]
      ensures !Live(old(records), id) ==> records == old(records)
    {
      if Live(records, id) {
        records := records[id - 1 := records[id - 1].(deleted := true)];
      }
    }
  }

  // ---------------------------------------------------------------- conversions

  /** `convertToDTO`. */
  function ToDTO(row: PurchaseRow): (d: PurchaseDTO)
    ensures d.id == row.id && d.clothingItemId == row.clothingItemId
    ensures d.purchasePrice == row.price && d.originalPrice == row.price
    ensures d.store == row.store && d.purchaseDate == row.purchaseDate && d.notes == row.notes
    ensures d.onlineStore == "" && d.paymentMethod == "" && d.orderNumber == "" && d.receiptUrl == "" && d.warrantyPeriod == 0
  {
    PurchaseDTO(row.id, row.clothingItemId, row.price, row.price, row.purchaseDate, row.store, "", "", "",
                row.notes, "", 0, row.createdAt, row.updatedAt)
  }

  /** The loop that converts a list: one DTO per record, in order. */
  method ConvertList(records: seq<PurchaseRow>) returns (r: seq<PurchaseDTO>)
    ensures |r| == |records|
    ensures forall i :: 0 <= i < |records| ==> r[i] == ToDTO(records[i])
  {
    r := [];
    var i := 0;
    while i < |records|
      invariant 0 <= i <= |records| && |r| == i
      invariant forall j :: 0 <= j < i ==> r[j] == ToDTO(records[j])
    {
      r := r + [ToDTO(records[i])];
      i := i + 1;
    }
  }

  // ---------------------------------------------------------------- operations

  /** The item lookup and owner check of `CreatePurchaseRecord`. */
  function ItemAccess(items: seq<ClothingItem>, userId: nat, itemId: nat): (r: Result<ClothingItem, string>)
    ensures r.Ok? <==> 1 <= itemId <= |items| && items[itemId - 1].userId == userId
    ensures r.Ok? ==> r.value == items[itemId - 1]
    ensures RowOf(items, itemId).None? ==> r == Err(ItemMissing)
    ensures RowOf(items, itemId).Some? && r.Err? ==> r == Err(CreateDenied)
  {
    match RowOf(items, itemId)
    case None => Err(ItemMissing)
    case Some(item) => if item.userId != userId then Err(CreateDenied) else Ok(item)
  }

  /** The store that is written: a non-empty online store wins. */
  function StoreOf(store: string, onlineStore: string): (s: string)
    ensures onlineStore != "" ==> s == onlineStore
    ensures onlineStore == "" ==> s == store
  {
    if onlineStore != "" then onlineStore else store
  }

  /** The row `CreatePurchaseRecord` hands to `Create`. */
  function NewRecord(itemId: nat, req: CreateRequest): PurchaseRow {
    PurchaseRow(0, itemId, req.purchasePrice, StoreOf(req.store, req.onlineStore), req.purchaseDate, req.notes, false, 0, 0)
  }

  /** `CreatePurchaseRecord`: the item must be the user's and have no live record; the
      database then refuses a second row for an item whose record was deleted. */
  method CreatePurchaseRecord(repo: PurchaseRecordRepository, items: seq<ClothingItem>, userId: nat, itemId: nat,
                              req: CreateRequest, now: int) returns (r: Result<PurchaseDTO, string>)
    requires repo.Valid()
    modifies repo
    ensures repo.Valid()
    ensures ItemAccess(items, userId, itemId).Err? ==>
              r == Err(ItemAccess(items, userId, itemId).error) && repo.records == old(repo.records)
    ensures ItemAccess(items, userId, itemId).Ok? && LiveRowFor(old(repo.records), itemId).Some? ==>
              r == Err(AlreadyRecorded) && repo.records == old(repo.records)
    ensures ItemAccess(items, userId, itemId).Ok? && LiveRowFor(old(repo.records), itemId).None? && KeyTaken(old(repo.records), itemId) ==>
              r == Err(CreateFailed(DuplicateItem)) && repo.records == old(repo.records)
    ensures ItemAccess(items, userId, itemId).Ok? && !KeyTaken(old(repo.records), itemId) ==>
              var row := NewRecord(itemId, req).(id := |old(repo.records)| + 1, createdAt := now, updatedAt := now);
              repo.records == old(repo.records) + [row] && r == Ok(ToDTO(row))
  {
    var acc := ItemAccess(items, userId, itemId);
    if acc.Err? {
      return Err(acc.error);
    }
    var existing := LiveRowFor(repo.records, itemId);
    if existing.Some? {
      return Err(AlreadyRecorded);
    }
    var record := PurchaseRow(0, itemId, req.purchasePrice, req.store, req.purchaseDate, req.notes, false, 0, 0);
    if req.onlineStore != "" {
      record := record.(store := req.onlineStore);
    }
    var created := repo.Create(record, now);
    if created.Err? {
      return Err(CreateFailed(created.error));
    }
    r := Ok(ToDTO(record.(id := created.value, createdAt := now, updatedAt := now)));
  }

  /** An item has at most one record: after a successful create, the item's record is
      the one just created, and a second create for it is refused. */
  lemma OneRecordPerItem(records: seq<PurchaseRow>, itemId: nat, row: PurchaseRow)
    requires OneRowPerItem(records) && !KeyTaken(records, itemId) && row.clothingItemId == itemId && !row.deleted
    ensures OneRowPerItem(records + [row])
    ensures LiveRowFor(records + [row], itemId) == Some(row)
  {
    var all := records + [row];
    forall i, j | 0 <= i < j < |all| ensures all[i].clothingItemId != all[j].clothingItemId {
      if j == |records| {
        assert all[i] == records[i];
      } else {
        assert all[i] == records[i] && all[j] == records[j];
      }
    }
    LiveRowForSuffix(records, row);
  }

  lemma {:induction false} LiveRowForSuffix(records: seq<PurchaseRow>, row: PurchaseRow)
    requires !KeyTaken(records, row.clothingItemId) && !row.deleted
    ensures LiveRowFor(records + [row], row.clothingItemId) == Some(row)
  {
    if records != [] {
      assert (records + [row])[1..] == records[1..] + [row];
      assert !KeyTaken(records[1..], row.clothingItemId) by {
        forall i | 0 <= i < |records[1..]| ensures records[1..][i].clothingItemId != row.clothingItemId {
          assert records[1..][i] == records[i + 1];
        }
      }
      assert records[0].clothingItemId != row.clothingItemId;
      LiveRowForSuffix(records[1..], row);
    }
  }

  /** Once an item's record is deleted, no new record can be created for it: the lookup
      no longer sees the old row, but the unique index still does. */
  lemma DeletedRecordBlocksItem(records: seq<PurchaseRow>, id: nat)
    requires OneRowPerItem(records) && Live(records, id)
    ensures var after := records[id - 1 := records[id - 1].(deleted := true)];
            && LiveRowFor(after, records[id - 1].clothingItemId).None?
            && KeyTaken(after, records[id - 1].clothingItemId)
  {
    var after := records[id - 1 := records[id - 1].(deleted := true)];
    var itemId := records[id - 1].clothingItemId;
    assert after[id - 1].clothingItemId == itemId;
    forall x | x in after && x.clothingItemId == itemId ensures x.deleted {
      var k :| 0 <= k < |after| && after[k] == x;
      assert k == id - 1;
    }
  }

  /** The record lookup and the owner check on its item; `denied` is each caller's own
      refusal. */
  function Access(records: seq<PurchaseRow>, items: seq<ClothingItem>, userId: nat, recordId: nat, denied: string)
    : (r: Result<PurchaseRow, string>)
    ensures r.Ok? <==> Live(records, recordId) && OwnedRow(items, userId, records[recordId - 1])
    ensures r.Ok? ==> r.value == records[recordId - 1]
    ensures !Live(records, recordId) ==> r == Err(RecordMissing)
    ensures Live(records, recordId) && RowOf(items, records[recordId - 1].clothingItemId).None? ==> r == Err(LinkedItemMissing)
    ensures Live(records, recordId) && RowOf(items, records[recordId - 1].clothingItemId).Some? && r.Err? ==> r == Err(denied)
  {
    if !Live(records, recordId) then Err(RecordMissing)
    else
      var record := records[recordId - 1];
      match RowOf(items, record.clothingItemId)
      case None => Err(LinkedItemMissing)
      case Some(item) => if item.userId != userId then Err(denied) else Ok(record)
  }

  /** `GetPurchaseRecord`. */
  function GetPurchaseRecord(repo: PurchaseRecordRepository, items: seq<ClothingItem>, userId: nat, recordId: nat)
    : (r: Result<PurchaseDTO, string>)
    reads repo
    ensures r.Ok? <==> Live(repo.records, recordId) && OwnedRow(items, userId, repo.records[recordId - 1])
    ensures r.Ok? ==> r.value == ToDTO(repo.records[recordId - 1])
    ensures r.Err? ==> r.error in {RecordMissing, LinkedItemMissing, GetDenied}
  {
    match Access(repo.records, items, userId, recordId, GetDenied)
    case Err(e) => Err(e)
    case Ok(row) => Ok(ToDTO(row))
  }

  /** `GetPurchaseRecords`. */
  method GetPurchaseRecords(repo: PurchaseRecordRepository, items: seq<ClothingItem>, userId: nat, limit: int)
    returns (r: seq<PurchaseDTO>)
    ensures var rows := ByUser(repo.records, items, userId, limit);
            |r| == |rows| && forall i :: 0 <= i < |rows| ==> r[i] == ToDTO(rows[i])
    ensures limit > 0 ==> |r| <= limit
  {
    r := ConvertList(ByUser(repo.records, items, userId, limit));
  }

  /** The fields an update writes: each given field, and then a non-empty online store
      over the store. */
  function Patched(row: PurchaseRow, req: UpdateRequest): PurchaseRow {
    var store := req.store.GetOr(row.store);
    row.(price := req.purchasePrice.GetOr(row.price),
         purchaseDate := req.purchaseDate.GetOr(row.purchaseDate),
         store := if req.onlineStore.Some? && req.onlineStore.value != "" then req.onlineStore.value else store,
         notes := req.notes.GetOr(row.notes))
  }

  /** The patch changes only the given fields; a non-empty online store overrides a
      given store; the empty request changes nothing. */
  lemma PatchedFields(row: PurchaseRow, req: UpdateRequest)
    ensures var p := Patched(row, req);
            && p.price == (if req.purchasePrice.Some? then req.purchasePrice.value else row.price)
            && p.purchaseDate == (if req.purchaseDate.Some? then req.purchaseDate.value else row.purchaseDate)
            && p.notes == (if req.notes.Some? then req.notes.value else row.notes)
            && (req.onlineStore.Some? && req.onlineStore.value != "" ==> p.store == req.onlineStore.value)
            && ((req.onlineStore.None? || req.onlineStore.value == "") ==> p.store == req.store.GetOr(row.store))
            && p.(price := row.price, purchaseDate := row.purchaseDate, store := row.store, notes := row.notes) == row
    ensures Patched(row, UpdateRequest(None, None, None, None, None)) == row
  {
  }

  /** `UpdatePurchaseRecord`. */
  method UpdatePurchaseRecord(repo: PurchaseRecordRepository, items: seq<ClothingItem>, userId: nat, recordId: nat,
                              req: UpdateRequest, now: int) returns (r: Result<PurchaseDTO, string>)
    requires repo.Valid()
    modifies repo
    ensures repo.Valid()
    ensures var acc := Access(old(repo.records), items, userId, recordId, UpdateDenied);
            && (acc.Err? ==> r == Err(acc.error) && repo.records == old(repo.records))
            && (acc.Ok? ==>
                  var row := Patched(acc.value, req).(updatedAt := now);
                  repo.records == old(repo.records)[recordId - 1 := row] && r == Ok(ToDTO(row)))
  {
    var acc := Access(repo.records, items, userId, recordId, UpdateDenied);
    if acc.Err? {
      return Err(acc.error);
    }
    var record := acc.value;
    if req.purchasePrice.Some? {
      record := record.(price := req.purchasePrice.value);
    }
    if req.purchaseDate.Some? {
      record := record.(purchaseDate := req.purchaseDate.value);
    }
    if req.store.Some? {
      record := record.(store := req.store.value);
    }
    if req.onlineStore.Some? && req.onlineStore.value != "" {
      record := record.(store := req.onlineStore.value);
    }
    if req.notes.Some? {
      record := record.(notes := req.notes.value);
    }
    assert record == Patched(acc.value, req);
    repo.Update(record, now);
    r := Ok(ToDTO(record.(updatedAt := now)));
  }

  /** `DeletePurchaseRecord`. */
  method DeletePurchaseRecord(repo: PurchaseRecordRepository, items: seq<ClothingItem>, userId: nat, recordId: nat)
    returns (err: Option<string>)
    requires repo.Valid()
    modifies repo
    ensures repo.Valid()
    ensures var acc := Access(old(repo.records), items, userId, recordId, DeleteDenied);
            && (err.None? <==> acc.Ok?)
            && (acc.Err? ==> err == Some(acc.error) && repo.records == old(repo.records))
            && (acc.Ok? ==> repo.records == old(repo.records)[recordId - 1 := old(repo.records)[recordId - 1].(deleted := true)])
  {
    var acc := Access(repo.records, items, userId, recordId, DeleteDenied);
    if acc.Err? {
      return Some(acc.error);
    }
    repo.Delete(recordId);
    err := None;
  }

  /** `GetPurchasesByDateRange`, with both bounds already read as times. */
  method GetPurchasesByDateRange(repo: PurchaseRecordRepository, items: seq<ClothingItem>, userId: nat, start: int, end: int)
    returns (r: seq<PurchaseDTO>)
    ensures var rows := ByDateRange(repo.records, items, userId, start, end);
            |r| == |rows| && forall i :: 0 <= i < |rows| ==> r[i] == ToDTO(rows[i])
    ensures forall i :: 0 <= i < |r| ==> start <= r[i].purchaseDate <= end
  {
    var rows := ByDateRange(repo.records, items, userId, start, end);
    QueryRows(InRangeBy(items, userId, start, end), repo.records, 0);
    r := ConvertList(rows);
    forall i | 0 <= i < |r| ensures start <= r[i].purchaseDate <= end {
      assert rows[i] in rows;
    }
  }

  /** `GetPurchasesByStore`. */
  method GetPurchasesByStore(repo: PurchaseRecordRepository, items: seq<ClothingItem>, userId: nat, storeName: string)
    returns (r: seq<PurchaseDTO>)
    ensures var rows := ByStore(repo.records, items, userId, storeName);
            |r| == |rows| && forall i :: 0 <= i < |rows| ==> r[i] == ToDTO(rows[i])
    ensures forall i :: 0 <= i < |r| ==> Text.Contains(r[i].store, storeName)
  {
    var rows := ByStore(repo.records, items, userId, storeName);
    QueryRows(AtStoreBy(items, userId, storeName), repo.records, 0);
    r := ConvertList(rows);
    forall i | 0 <= i < |r| ensures Text.Contains(r[i].store, storeName) {
      assert rows[i] in rows;
    }
  }

  // ---------------------------------------------------------------- statistics

  /** The results of the aggregation queries `GetSpendingStats` runs, in its order. */
  datatype SpendingQueries = SpendingQueries(
    totalSpent: Result<real, string>, averagePrice: Result<real, string>,
    monthly: Result<map<string, real>, string>, byCategory: Result<map<string, real>, string>,
    byStore: Result<map<string, real>, string>)

  datatype SpendingStats = SpendingStats(
    totalSpent: real, monthlySpending: map<string, real>, categorySpending: map<string, real>,
    brandSpending: map<string, real>, averageItemPrice: real, costPerWear: real,
    mostExpensiveItem: Option<nat>, bestValueItems: seq<nat>)

  /** `GetSpendingStats`: the first failing query among total, average, month and
      category is the error; a failing store query leaves an empty map; the cost per wear
      is the total over 100 when the total is positive. */
  function GetSpendingStats(q: SpendingQueries): (r: Result<SpendingStats, string>)
    ensures q.totalSpent.Err? ==> r == Err("获取总支出失败: " + q.totalSpent.error)
    ensures q.totalSpent.Ok? && q.averagePrice.Err? ==> r == Err("获取平均价格失败: " + q.averagePrice.error)
    ensures q.totalSpent.Ok? && q.averagePrice.Ok? && q.monthly.Err? ==> r == Err("获取月度支出失败: " + q.monthly.error)
    ensures q.totalSpent.Ok? && q.averagePrice.Ok? && q.monthly.Ok? && q.byCategory.Err? ==>
              r == Err("获取分类支出失败: " + q.byCategory.error)
    ensures r.Ok? <==> q.totalSpent.Ok? && q.averagePrice.Ok? && q.monthly.Ok? && q.byCategory.Ok?
    ensures r.Ok? ==>
              && r.value.totalSpent == q.totalSpent.value && r.value.averageItemPrice == q.averagePrice.value
              && r.value.monthlySpending == q.monthly.value && r.value.categorySpending == q.byCategory.value
              && r.value.brandSpending == (if q.byStore.Ok? then q.byStore.value else map[])
              && r.value.costPerWear == (if q.totalSpent.value > 0.0 then q.totalSpent.value / 100.0 else 0.0)
              && r.value.costPerWear >= 0.0 && r.value.mostExpensiveItem.None? && r.value.bestValueItems == []
  {
    match q.totalSpent
    case Err(e) => Err("获取总支出失败: " + e)
    case Ok(total) =>
      match q.averagePrice
      case Err(e) => Err("获取平均价格失败: " + e)
      case Ok(average) =>
        match q.monthly
        case Err(e) => Err("获取月度支出失败: " + e)
        case Ok(monthly) =>
          match q.byCategory
          case Err(e) => Err("获取分类支出失败: " + e)
          case Ok(byCategory) =>
            var byStore := match q.byStore case Ok(m) => m case Err(_) => map[];
            var costPerWear := if total > 0.0 then total / 100.0 else 0.0;
            Ok(SpendingStats(total, monthly, byCategory, byStore, average, costPerWear, None, []))
  }

  /** `GetSpendingByMonth` and `GetSpendingByCategory`: the query's map, or its error with
      the operation's prefix. */
  function SpendingBy(query: Result<map<string, real>, string>, prefix: string): (r: Result<map<string, real>, string>)
    ensures query.Ok? ==> r == query
    ensures query.Err? ==> r == Err(prefix + query.error)
  {
    match query
    case Ok(m) => Ok(m)
    case Err(e) => Err(prefix + e)
  }
}
