/** The wear-record service (server/services/wear_record_service.go) over the wear-record
    table (server/repositories/wear_record_repository.go). Times are seconds; the
    clothing table is the item repository's sequence of rows. */
module WearService {
  import opened Wrappers
  import opened Seqs
  import opened ItemModel
  import opened ItemRepository

  const RecordMissing := "穿着记录不存在: record not found"
  const ItemMissing := "衣物不存在: record not found"
  const CreateDenied := "无权操作该衣物"
  const GetDenied := "无权访问该记录"
  const UpdateDenied := "无权修改该记录"
  const DeleteDenied := "无权删除该记录"
  const ItemDenied := "无权访问该衣物"

  /** How many recent records the statistics read. */
  const RecentLimit := 10

  /** A row of `wear_records` with the columns the service reads or writes; `deleted` is
      GORM's soft-delete mark. */
  datatype WearRow = WearRow(
    id: nat, clothingItemId: nat, wearDate: int, occasion: string, notes: string,
    deleted: bool, createdAt: int, updatedAt: int)

  datatype CreateRequest = CreateRequest(wearDate: int, notes: string)

  datatype UpdateRequest = UpdateRequest(wearDate: Option<int>, notes: Option<string>)

  datatype WearDTO = WearDTO(id: nat, clothingItemId: nat, wearDate: int, notes: string, createdAt: int, updatedAt: int)

  /** `WearStatsDTO` without the per-category and per-weather maps and the most-worn
      list, which are always empty. The average is an exact real. */
  datatype WearStats = WearStats(
    totalWears: int, averagePerItem: real, wearsByOccasion: map<string, nat>,
    recentWears: seq<WearDTO>, lastWearDate: Option<int>)

  datatype ComfortAnalysis = ComfortAnalysis(
    averageComfort: real, averageStyle: real, averageAppropriateness: real,
    comfortByCategory: map<string, real>, comfortByWeather: map<string, real>)

  // ---------------------------------------------------------------- the table and its queries

  /** A row that exists and is not soft-deleted. */
  predicate Live(records: seq<WearRow>, id: nat) {
    1 <= id <= |records| && !records[id - 1].deleted
  }

  /** The join on `clothing_items`: a live row whose item belongs to the user. */
  predicate OwnedRow(items: seq<ClothingItem>, userId: nat, row: WearRow) {
    !row.deleted && RowOf(items, row.clothingItemId).Some? && RowOf(items, row.clothingItemId).value.userId == userId
  }

  function OwnedBy(items: seq<ClothingItem>, userId: nat): WearRow -> bool {
    (row: WearRow) => OwnedRow(items, userId, row)
  }

  function OfItemBy(itemId: nat): WearRow -> bool {
    (row: WearRow) => !row.deleted && row.clothingItemId == itemId
  }

  function OnOccasionBy(items: seq<ClothingItem>, userId: nat, occasion: string): WearRow -> bool {
    (row: WearRow) => OwnedRow(items, userId, row) && row.occasion == occasion
  }

  function InRangeBy(items: seq<ClothingItem>, userId: nat, start: int, end: int): WearRow -> bool {
    (row: WearRow) => OwnedRow(items, userId, row) && start <= row.wearDate <= end
  }

  /** The rows the frequency query groups: the user's rows with an occasion. */
  function WithOccasionBy(items: seq<ClothingItem>, userId: nat): WearRow -> bool {
    (row: WearRow) => OwnedRow(items, userId, row) && row.occasion != ""
  }

  function LatestFirst(): (WearRow, WearRow) -> bool {
    (a: WearRow, b: WearRow) => a.wearDate >= b.wearDate
  }

  lemma LatestFirstIsPreorder()
    ensures IsTotalPreorder(LatestFirst())
  {
  }

  /** `GetByUserID`: the user's rows, latest wear first, at most `limit` when it is
      positive. */
  function ByUser(records: seq<WearRow>, items: seq<ClothingItem>, userId: nat, limit: int): seq<WearRow> {
    Limited(SortWith(LatestFirst(), Filter(OwnedBy(items, userId), records)), limit)
  }

  /** `GetByClothingItemID`: the item's rows, latest wear first, at most `limit`. */
  function ByItem(records: seq<WearRow>, itemId: nat, limit: int): seq<WearRow> {
    Limited(SortWith(LatestFirst(), Filter(OfItemBy(itemId), records)), limit)
  }

  /** `GetByOccasion`. */
  function ByOccasion(records: seq<WearRow>, items: seq<ClothingItem>, userId: nat, occasion: string): seq<WearRow> {
    SortWith(LatestFirst(), Filter(OnOccasionBy(items, userId, occasion), records))
  }

  /** `GetByDateRange`, with both bounds already read as times. */
  function ByDateRange(records: seq<WearRow>, items: seq<ClothingItem>, userId: nat, start: int, end: int): seq<WearRow> {
    SortWith(LatestFirst(), Filter(InRangeBy(items, userId, start, end), records))
  }

  /** A query result holds only rows the filter admits, latest first; without a limit it
      holds every admitted row once. */
  lemma SortedQuery(p: WearRow -> bool, records: seq<WearRow>, limit: int)
    ensures var r := Limited(SortWith(LatestFirst(), Filter(p, records)), limit);
            && (forall x :: x in r ==> x in records && p(x))
            && SortedWith(LatestFirst(), r)
            && (limit <= 0 ==> multiset(r) == multiset(Filter(p, records)))
  {
    var mine := Filter(p, records);
    var sorted := SortWith(LatestFirst(), mine);
    var r := Limited(sorted, limit);
    SortWithSorted(LatestFirst(), mine);
    forall x | x in r ensures x in records && p(x) {
      assert x in sorted;
      assert x in multiset(mine);
    }
    forall i, j | 0 <= i < j < |r| ensures LatestFirst()(r[i], r[j]) {
      assert r[i] == sorted[i] && r[j] == sorted[j];
    }
  }

  /** `GetByUserID`: the user's live rows, latest wear first; all of them without a limit,
      and with one as many as it allows, none left out being later than one listed. */
  lemma ByUserRows(records: seq<WearRow>, items: seq<ClothingItem>, userId: nat, limit: int)
    ensures forall x :: x in ByUser(records, items, userId, limit) ==> x in records && OwnedRow(items, userId, x)
    ensures SortedWith(LatestFirst(), ByUser(records, items, userId, limit))
    ensures limit > 0 ==> |ByUser(records, items, userId, limit)| <= limit
    ensures limit <= 0 ==> multiset(ByUser(records, items, userId, limit)) == multiset(Filter(OwnedBy(items, userId), records))
    ensures var mine := Filter(OwnedBy(items, userId), records);
            limit > 0 ==> |ByUser(records, items, userId, limit)| == if |mine| <= limit then |mine| else limit
    ensures forall x :: x in records && OwnedRow(items, userId, x) ==>
              x in ByUser(records, items, userId, limit) ||
              forall y :: y in ByUser(records, items, userId, limit) ==> y.wearDate >= x.wearDate
  {
    SortedQuery(OwnedBy(items, userId), records, limit);
    LatestFirstIsPreorder();
    TopRows(LatestFirst(), OwnedBy(items, userId), records, limit);
    var r := ByUser(records, items, userId, limit);
    forall x | x in records && OwnedRow(items, userId, x) && x !in r
      ensures forall y :: y in r ==> y.wearDate >= x.wearDate
    {
      assert OwnedBy(items, userId)(x);
      forall y | y in r ensures y.wearDate >= x.wearDate {
        assert LatestFirst()(y, x);
      }
    }
  }

  /** `GetByClothingItemID`: the item's live rows, latest wear first; all of them without a
      limit, and with one as many as it allows, none left out being later than one listed. */
  lemma ByItemRows(records: seq<WearRow>, itemId: nat, limit: int)
    ensures var r := ByItem(records, itemId, limit);
            && (forall x :: x in r ==> x in records && !x.deleted && x.clothingItemId == itemId)
            && (limit <= 0 ==> forall x :: x in records && !x.deleted && x.clothingItemId == itemId ==> x in r)
            && (limit <= 0 ==> multiset(r) == multiset(Filter(OfItemBy(itemId), records)))
            && (var all := Filter(OfItemBy(itemId), records);
                limit > 0 ==> |r| == if |all| <= limit then |all| else limit)
            && (forall i, j :: 0 <= i < j < |r| ==> r[i].wearDate >= r[j].wearDate)
            && (forall x :: x in records && !x.deleted && x.clothingItemId == itemId ==>
                  x in r || forall y :: y in r ==> y.wearDate >= x.wearDate)
  {
    LatestFirstIsPreorder();
    TopRows(LatestFirst(), OfItemBy(itemId), records, limit);
  }

  /** `GetByOccasion`: exactly the user's live rows with that occasion, each as often as in
      the table, latest wear first. */
  lemma ByOccasionRows(records: seq<WearRow>, items: seq<ClothingItem>, userId: nat, occasion: string)
    ensures var r := ByOccasion(records, items, userId, occasion);
            && (forall x :: x in r <==> x in records && OwnedRow(items, userId, x) && x.occasion == occasion)
            && multiset(r) == multiset(Filter(OnOccasionBy(items, userId, occasion), records))
            && (forall i, j :: 0 <= i < j < |r| ==> r[i].wearDate >= r[j].wearDate)
  {
    LatestFirstIsPreorder();
    TopRows(LatestFirst(), OnOccasionBy(items, userId, occasion), records, 0);
  }

  /** `GetByDateRange`: exactly the user's live rows worn within the bounds, inclusive, each
      as often as in the table, latest wear first. */
  lemma ByDateRangeRows(records: seq<WearRow>, items: seq<ClothingItem>, userId: nat, start: int, end: int)
    ensures var r := ByDateRange(records, items, userId, start, end);
            && (forall x :: x in r <==> x in records && OwnedRow(items, userId, x) && start <= x.wearDate <= end)
            && multiset(r) == multiset(Filter(InRangeBy(items, userId, start, end), records))
            && (forall i, j :: 0 <= i < j < |r| ==> r[i].wearDate >= r[j].wearDate)
  {
    LatestFirstIsPreorder();
    TopRows(LatestFirst(), InRangeBy(items, userId, start, end), records, 0);
  }

  /** The list is empty only when the user has no live row at all. */
  lemma ByUserEmptyIff(records: seq<WearRow>, items: seq<ClothingItem>, userId: nat, limit: int)
    ensures ByUser(records, items, userId, limit) == [] <==> forall x :: x in records ==> !OwnedRow(items, userId, x)
  {
    var mine := Filter(OwnedBy(items, userId), records);
    var sorted := SortWith(LatestFirst(), mine);
    if exists x :: x in records && OwnedRow(items, userId, x) {
      var x :| x in records && OwnedRow(items, userId, x);
      assert x in mine;
      assert x in multiset(sorted);
      assert |sorted| > 0;
      assert |Limited(sorted, limit)| > 0;
    }
  }

  /** The first row of the user's list is the user's latest wear. */
  lemma ByUserHeadIsLatest(records: seq<WearRow>, items: seq<ClothingItem>, userId: nat, limit: int)
    requires ByUser(records, items, userId, limit) != []
    ensures forall x :: x in records && OwnedRow(items, userId, x) ==> x.wearDate <= ByUser(records, items, userId, limit)[0].wearDate
  {
    var mine := Filter(OwnedBy(items, userId), records);
    var sorted := SortWith(LatestFirst(), mine);
    SortWithSorted(LatestFirst(), mine);
    assert ByUser(records, items, userId, limit)[0] == sorted[0];
    forall x | x in records && OwnedRow(items, userId, x) ensures x.wearDate <= sorted[0].wearDate {
      assert x in mine;
      assert x in multiset(sorted);
      var k :| 0 <= k < |sorted| && sorted[k] == x;
      if k > 0 { assert LatestFirst()(sorted[0], sorted[k]); }
    }
  }

  // ---------------------------------------------------------------- the occasion frequency

  /** `GROUP BY occasion` with `COUNT(*)`: how often each value occurs. */
  function Tally(occasions: seq<string>): (m: map<string, nat>)
    ensures forall k :: k in m <==> k in occasions
  {
    if occasions == [] then map[]
    else
      var m := Tally(occasions[1..]);
      var x := occasions[0];
      assert forall k :: k in occasions <==> k == x || k in occasions[1..];
      m[x := (if x in m then m[x] else 0) + 1]
  }

  /** Each value is counted as often as it occurs. */
  lemma {:induction false} TallyCounts(occasions: seq<string>, k: string)
    requires k in Tally(occasions)
    ensures Tally(occasions)[k] == multiset(occasions)[k]
  {
    if occasions != [] {
      assert occasions == [occasions[0]] + occasions[1..];
      if k in occasions[1..] {
        TallyCounts(occasions[1..], k);
      } else {
        assert multiset(occasions[1..])[k] == 0;
      }
    }
  }

  function Occasions(rows: seq<WearRow>): (r: seq<string>)
    ensures |r| == |rows| && forall i :: 0 <= i < |rows| ==> r[i] == rows[i].occasion
  {
    seq(|rows|, i requires 0 <= i < |rows| => rows[i].occasion)
  }

  /** `GetWearFrequency`: occasion to number of the user's rows with that occasion; rows
      without an occasion are not counted. */
  function Frequency(records: seq<WearRow>, items: seq<ClothingItem>, userId: nat): map<string, nat> {
    Tally(Occasions(Filter(WithOccasionBy(items, userId), records)))
  }

  /** The sum of the values of `m` at the keys `ks`. */
  ghost function SumOver(m: map<string, nat>, ks: set<string>): nat
    requires ks <= m.Keys
  {
    if ks == {} then 0
    else
      var k :| k in ks;
      m[k] + SumOver(m, ks - {k})
  }

  /** The sum does not depend on which key is taken first. */
  lemma {:induction false} SumOverRemove(m: map<string, nat>, ks: set<string>, k: string)
    requires ks <= m.Keys && k in ks
    ensures SumOver(m, ks) == m[k] + SumOver(m, ks - {k})
    decreases |ks|
  {
    var j :| j in ks && SumOver(m, ks) == m[j] + SumOver(m, ks - {j});
    if j != k {
      SumOverRemove(m, ks - {j}, k);
      SumOverRemove(m, ks - {k}, j);
      assert ks - {j} - {k} == ks - {k} - {j};
    }
  }

  /** Maps that agree on the keys have the same sum there. */
  lemma {:induction false} SumOverAgree(m1: map<string, nat>, m2: map<string, nat>, ks: set<string>)
    requires ks <= m1.Keys && ks <= m2.Keys
    requires forall k :: k in ks ==> m1[k] == m2[k]
    ensures SumOver(m1, ks) == SumOver(m2, ks)
    decreases |ks|
  {
    if ks != {} {
      var k :| k in ks;
      SumOverRemove(m1, ks, k);
      SumOverRemove(m2, ks, k);
      SumOverAgree(m1, m2, ks - {k});
    }
  }

  /** The counts of a tally add up to the number of values tallied. */
  lemma {:induction false} TallySum(occasions: seq<string>)
    ensures SumOver(Tally(occasions), Tally(occasions).Keys) == |occasions|
  {
    if occasions != [] {
      var rest := occasions[1..];
      var m := Tally(rest);
      var x := occasions[0];
      var c := if x in m then m[x] else 0;
      var m' := Tally(occasions);
      assert m' == m[x := c + 1];
      TallySum(rest);
      SumOverRemove(m', m'.Keys, x);
      assert m'.Keys - {x} == m.Keys - {x};
      SumOverAgree(m', m, m.Keys - {x});
      if x in m {
        SumOverRemove(m, m.Keys, x);
      } else {
        assert m.Keys - {x} == m.Keys;
      }
    }
  }

  /** The sum of all counts is the number of the user's rows with an occasion. */
  lemma FrequencySum(records: seq<WearRow>, items: seq<ClothingItem>, userId: nat)
    ensures SumOver(Frequency(records, items, userId), Frequency(records, items, userId).Keys)
            == Count(WithOccasionBy(items, userId), records)
  {
    TallySum(Occasions(Filter(WithOccasionBy(items, userId), records)));
    CountIsFilterLength(WithOccasionBy(items, userId), records);
  }

  /** The frequency has a key exactly for each occasion of the user's rows, and counts
      each occasion's rows. */
  lemma FrequencyKeys(records: seq<WearRow>, items: seq<ClothingItem>, userId: nat, occasion: string)
    ensures occasion in Frequency(records, items, userId) <==>
              occasion != "" && exists x :: x in records && OwnedRow(items, userId, x) && x.occasion == occasion
    ensures occasion in Frequency(records, items, userId) ==>
              Frequency(records, items, userId)[occasion] == multiset(Occasions(Filter(WithOccasionBy(items, userId), records)))[occasion]
  {
    var rows := Filter(WithOccasionBy(items, userId), records);
    var occs := Occasions(rows);
    if occasion in Frequency(records, items, userId) {
      var i :| 0 <= i < |occs| && occs[i] == occasion;
      assert rows[i] in rows;
      TallyCounts(occs, occasion);
    }
    if occasion != "" && exists x :: x in records && OwnedRow(items, userId, x) && x.occasion == occasion {
      var x :| x in records && OwnedRow(items, userId, x) && x.occasion == occasion;
      assert x in rows;
      var i :| 0 <= i < |rows| && rows[i] == x;
      assert occs[i] == occasion;
    }
  }

  // ---------------------------------------------------------------- the repository

  /** The table: row `i` has id `i + 1`; a deleted row keeps its place. */
  class WearRecordRepository {
    var records: seq<WearRow>

    ghost predicate Valid()
      reads this
    {
      forall i :: 0 <= i < |records| ==> records[i].id == i + 1
    }

    constructor ()
      ensures Valid() && records == []
    {
      records := [];
    }

    /** `Create`: the next id and the creation times. */
    method Create(row: WearRow, now: int) returns (id: nat)
      requires Valid()
      modifies this
      ensures Valid() && id == |old(records)| + 1
      ensures records == old(records) + [row.(id := id, deleted := false, createdAt := now, updatedAt := now)]
    {
      id := |records| + 1;
      records := records + [row.(id := id, deleted := false, createdAt := now, updatedAt := now)];
    }

    /** `Update` (`Save`) of a stored row, with a new update time. */
    method Update(row: WearRow, now: int)
      requires Valid() && 1 <= row.id <= |records|
      modifies this
      ensures Valid()
      ensures records == old(records)[row.id - 1 := row.(updatedAt := now)]
    {
      records := records[row.id - 1 := row.(updatedAt := now)];
    }

    /** `Delete`: a soft delete of a live row; anything else is left alone. */
    method Delete(id: nat)
      requires Valid()
      modifies this
      ensures Valid() && |records| == |old(records)|
      ensures Live(old(records), id) ==> records == old(records)[id - 1 := old(records)[id - 1].(deleted := true)]
      ensures !Live(old(records), id) ==> records == old(records)
    {
      if Live(records, id) {
        records := records[id - 1 := records[id - 1].(deleted := true)];
      }
    }
  }

  // ---------------------------------------------------------------- conversions

  /** `convertToDTO`: the id, item, wear date, notes and times. */
  function ToDTO(row: WearRow): (d: WearDTO)
    ensures d.id == row.id && d.clothingItemId == row.clothingItemId && d.wearDate == row.wearDate
    ensures d.notes == row.notes && d.createdAt == row.createdAt && d.updatedAt == row.updatedAt
  {
    WearDTO(row.id, row.clothingItemId, row.wearDate, row.notes, row.createdAt, row.updatedAt)
  }

  /** `convertToDTOList`: one DTO per record, at the same index. */
  method ConvertToDTOList(records: seq<WearRow>) returns (r: seq<WearDTO>)
    ensures |r| == |records|
    ensures forall i :: 0 <= i < |records| ==> r[i] == ToDTO(records[i])
  {
    r := [];
    var i := 0;
    while i < |records|
      invariant 0 <= i <= |records| && |r| == i
      invariant forall j :: 0 <= j < i ==> r[j] == ToDTO(records[j])
    {
      r := r + [ToDTO(records[i])];
      i := i + 1;
    }
  }

  // ---------------------------------------------------------------- operations

  /** The item lookup and owner check; `denied` is the caller's own refusal. A
      deactivated item of the user still passes. */
  function ItemAccess(items: seq<ClothingItem>, userId: nat, itemId: nat, denied: string): (r: Result<ClothingItem, string>)
    ensures r.Ok? <==> 1 <= itemId <= |items| && items[itemId - 1].userId == userId
    ensures r.Ok? ==> r.value == items[itemId - 1]
    ensures RowOf(items, itemId).None? ==> r == Err(ItemMissing)
    ensures RowOf(items, itemId).Some? && r.Err? ==> r == Err(denied)
  {
    match RowOf(items, itemId)
    case None => Err(ItemMissing)
    case Some(item) => if item.userId != userId then Err(denied) else Ok(item)
  }

  /** The record lookup and then the check on its item: the live record, when its item
      exists and belongs to the user. */
  function Access(records: seq<WearRow>, items: seq<ClothingItem>, userId: nat, recordId: nat, denied: string)
    : (r: Result<WearRow, string>)
    ensures r.Ok? <==> Live(records, recordId) && OwnedRow(items, userId, records[recordId - 1])
    ensures r.Ok? ==> r.value == records[recordId - 1]
    ensures !Live(records, recordId) ==> r == Err(RecordMissing)
    ensures Live(records, recordId) && r.Err? ==> r == Err(ItemAccess(items, userId, records[recordId - 1].clothingItemId, denied).error)
  {
    if !Live(records, recordId) then Err(RecordMissing)
    else
      var record := records[recordId - 1];
      match ItemAccess(items, userId, record.clothingItemId, denied)
      case Err(e) => Err(e)
      case Ok(_) => Ok(record)
  }

  /** `CreateWearRecord`: for an item of the user, a record with only the wear date and
      the notes of the request. */
  method CreateWearRecord(repo: WearRecordRepository, items: seq<ClothingItem>, userId: nat, itemId: nat,
                          req: CreateRequest, now: int) returns (r: Result<WearDTO, string>)
    requires repo.Valid()
    modifies repo
    ensures repo.Valid()
    ensures var acc := ItemAccess(items, userId, itemId, CreateDenied);
            && (acc.Err? ==> r == Err(acc.error) && repo.records == old(repo.records))
            && (acc.Ok? ==>
                  var row := WearRow(|old(repo.records)| + 1, itemId, req.wearDate, "", req.notes, false, now, now);
                  repo.records == old(repo.records) + [row] && r == Ok(ToDTO(row)))
  {
    var acc := ItemAccess(items, userId, itemId, CreateDenied);
    if acc.Err? {
      return Err(acc.error);
    }
    var record := WearRow(0, itemId, req.wearDate, "", req.notes, false, 0, 0);
    var id := repo.Create(record, now);
    r := Ok(ToDTO(record.(id := id, createdAt := now, updatedAt := now)));
  }

  /** A record created through the service has no occasion, so the frequency, and with
      it the total of the statistics, does not change. */
  lemma CreatedRecordNotCounted(records: seq<WearRow>, items: seq<ClothingItem>, userId: nat, row: WearRow)
    requires row.occasion == ""
    ensures Frequency(records + [row], items, userId) == Frequency(records, items, userId)
  {
    FilterAppend(WithOccasionBy(items, userId), records, [row]);
    assert Filter(WithOccasionBy(items, userId), [row]) == [];
    assert Filter(WithOccasionBy(items, userId), records) + [] == Filter(WithOccasionBy(items, userId), records);
  }

  /** `GetWearRecord`. */
  function GetWearRecord(repo: WearRecordRepository, items: seq<ClothingItem>, userId: nat, recordId: nat)
    : (r: Result<WearDTO, string>)
    reads repo
    ensures r.Ok? <==> Live(repo.records, recordId) && OwnedRow(items, userId, repo.records[recordId - 1])
    ensures r.Ok? ==> r.value == ToDTO(repo.records[recordId - 1])
    ensures r.Err? ==> r.error in {RecordMissing, ItemMissing, GetDenied}
  {
    match Access(repo.records, items, userId, recordId, GetDenied)
    case Err(e) => Err(e)
    case Ok(row) => Ok(ToDTO(row))
  }

  /** `GetWearRecords`. */
  method GetWearRecords(repo: WearRecordRepository, items: seq<ClothingItem>, userId: nat, limit: int)
    returns (r: seq<WearDTO>)
    ensures var rows := ByUser(repo.records, items, userId, limit);
            |r| == |rows| && forall i :: 0 <= i < |rows| ==> r[i] == ToDTO(rows[i])
  {
    r := ConvertToDTOList(ByUser(repo.records, items, userId, limit));
  }

  /** The fields an update writes: the given wear date and notes. */
  function Patched(row: WearRow, req: UpdateRequest): WearRow {
    row.(wearDate := req.wearDate.GetOr(row.wearDate), notes := req.notes.GetOr(row.notes))
  }

  /** The patch changes exactly the given fields; applying it twice is applying it once,
      and the empty request changes nothing. */
  lemma PatchedFields(row: WearRow, req: UpdateRequest)
    ensures var p := Patched(row, req);
            && p.wearDate == (if req.wearDate.Some? then req.wearDate.value else row.wearDate)
            && p.notes == (if req.notes.Some? then req.notes.value else row.notes)
            && p.(wearDate := row.wearDate, notes := row.notes) == row
    ensures Patched(Patched(row, req), req) == Patched(row, req)
    ensures Patched(row, UpdateRequest(None, None)) == row
  {
  }

  /** `UpdateWearRecord`: after the checks only the given fields change. */
  method UpdateWearRecord(repo: WearRecordRepository, items: seq<ClothingItem>, userId: nat, recordId: nat,
                          req: UpdateRequest, now: int) returns (r: Result<WearDTO, string>)
    requires repo.Valid()
    modifies repo
    ensures repo.Valid()
    ensures var acc := Access(old(repo.records), items, userId, recordId, UpdateDenied);
            && (acc.Err? ==> r == Err(acc.error) && repo.records == old(repo.records))
            && (acc.Ok? ==>
                  var row := Patched(acc.value, req).(updatedAt := now);
                  repo.records == old(repo.records)[recordId - 1 := row] && r == Ok(ToDTO(row)))
  {
    var acc := Access(repo.records, items, userId, recordId, UpdateDenied);
    if acc.Err? {
      return Err(acc.error);
    }
    var record := acc.value;
    if req.wearDate.Some? {
      record := record.(wearDate := req.wearDate.value);
    }
    if req.notes.Some? {
      record := record.(notes := req.notes.value);
    }
    repo.Update(record, now);
    r := Ok(ToDTO(record.(updatedAt := now)));
  }

  /** `DeleteWearRecord`: after the checks the row is soft-deleted. */
  method DeleteWearRecord(repo: WearRecordRepository, items: seq<ClothingItem>, userId: nat, recordId: nat)
    returns (err: Option<string>)
    requires repo.Valid()
    modifies repo
    ensures repo.Valid()
    ensures var acc := Access(old(repo.records), items, userId, recordId, DeleteDenied);
            && (err.None? <==> acc.Ok?)
            && (acc.Err? ==> err == Some(acc.error) && repo.records == old(repo.records))
            && (acc.Ok? ==> repo.records == old(repo.records)[recordId - 1 := old(repo.records)[recordId - 1].(deleted := true)])
  {
    var acc := Access(repo.records, items, userId, recordId, DeleteDenied);
    if acc.Err? {
      return Some(acc.error);
    }
    repo.Delete(recordId);
    err := None;
  }

  /** A deleted record is refused to every later lookup, whoever asks. */
  lemma DeletedIsGone(records: seq<WearRow>, items: seq<ClothingItem>, userId: nat, recordId: nat, denied: string)
    requires Live(records, recordId)
    ensures Access(records[recordId - 1 := records[recordId - 1].(deleted := true)], items, userId, recordId, denied)
            == Err(RecordMissing)
  {
  }

  /** `GetWearRecordsByItem`: the item must be the user's; then its rows, latest first. */
  method GetWearRecordsByItem(repo: WearRecordRepository, items: seq<ClothingItem>, userId: nat, itemId: nat, limit: int)
    returns (r: Result<seq<WearDTO>, string>)
    ensures var acc := ItemAccess(items, userId, itemId, ItemDenied);
            && (acc.Err? ==> r == Err(acc.error))
            && (acc.Ok? ==> r.Ok? && var rows := ByItem(repo.records, itemId, limit);
                  |r.value| == |rows| && forall i :: 0 <= i < |rows| ==> r.value[i] == ToDTO(rows[i]))
  {
    var acc := ItemAccess(items, userId, itemId, ItemDenied);
    if acc.Err? {
      return Err(acc.error);
    }
    var dtos := ConvertToDTOList(ByItem(repo.records, itemId, limit));
    r := Ok(dtos);
  }

  /** `GetWearRecordsByDateRange`. */
  method GetWearRecordsByDateRange(repo: WearRecordRepository, items: seq<ClothingItem>, userId: nat, start: int, end: int)
    returns (r: seq<WearDTO>)
    ensures var rows := ByDateRange(repo.records, items, userId, start, end);
            |r| == |rows| && forall i :: 0 <= i < |rows| ==> r[i] == ToDTO(rows[i])
  {
    r := ConvertToDTOList(ByDateRange(repo.records, items, userId, start, end));
  }

  /** `GetWearRecordsByOccasion`. */
  method GetWearRecordsByOccasion(repo: WearRecordRepository, items: seq<ClothingItem>, userId: nat, occasion: string)
    returns (r: seq<WearDTO>)
    ensures var rows := ByOccasion(repo.records, items, userId, occasion);
            |r| == |rows| && forall i :: 0 <= i < |rows| ==> r[i] == ToDTO(rows[i])
  {
    r := ConvertToDTOList(ByOccasion(repo.records, items, userId, occasion));
  }

  /** The loop of `GetWearStats` that adds up the frequency values, in whatever order the
      map yields its keys. */
  method SumFrequency(frequency: map<string, nat>) returns (total: int)
    ensures total == SumOver(frequency, frequency.Keys)
  {
    total := 0;
    var keys := frequency.Keys;
    while keys != {}
      invariant keys <= frequency.Keys
      invariant total + SumOver(frequency, keys) == SumOver(frequency, frequency.Keys)
      decreases |keys|
    {
      var k :| k in keys;
      SumOverRemove(frequency, keys, k);
      total := total + frequency[k];
      keys := keys - {k};
    }
  }

  /** `averagePerItem`: the total over the count, 0 when the count is 0. */
  function AveragePerItem(total: int, count: nat): (a: real)
    ensures count == 0 ==> a == 0.0
    ensures count > 0 ==> a * count as real == total as real
  {
    if count == 0 then 0.0 else total as real / count as real
  }

  /** `GetWearStats`: the total is the number of the user's rows with an occasion; the
      recent list is the latest ten; the average divides the total by the length of the
      recent list (0 when it is empty), not by the number of items; the last wear date
      is the first recent one's. */
  method GetWearStats(repo: WearRecordRepository, items: seq<ClothingItem>, userId: nat) returns (stats: WearStats)
    ensures stats.totalWears == Count(WithOccasionBy(items, userId), repo.records)
    ensures stats.wearsByOccasion == Frequency(repo.records, items, userId)
    ensures var recent := ByUser(repo.records, items, userId, RecentLimit);
            && |stats.recentWears| == |recent| <= RecentLimit
            && (forall i :: 0 <= i < |recent| ==> stats.recentWears[i] == ToDTO(recent[i]))
            && stats.lastWearDate == (if recent == [] then None else Some(recent[0].wearDate))
            && stats.averagePerItem == AveragePerItem(stats.totalWears, |recent|)
  {
    var frequency := Frequency(repo.records, items, userId);
    var recent := ByUser(repo.records, items, userId, RecentLimit);
    var total := SumFrequency(frequency);
    FrequencySum(repo.records, items, userId);
    var average := AveragePerItem(total, |recent|);
    var last: Option<int> := None;
    if |recent| > 0 {
      last := Some(recent[0].wearDate);
    }
    var dtos := ConvertToDTOList(recent);
    stats := WearStats(total, average, frequency, dtos, last);
  }

  /** The last wear date is missing exactly when the user has no live record, and is
      otherwise the latest wear date of any of the user's records. */
  lemma LastWearDateIsLatest(records: seq<WearRow>, items: seq<ClothingItem>, userId: nat)
    ensures var recent := ByUser(records, items, userId, RecentLimit);
            && (recent == [] <==> forall x :: x in records ==> !OwnedRow(items, userId, x))
            && (recent != [] ==> forall x :: x in records && OwnedRow(items, userId, x) ==> x.wearDate <= recent[0].wearDate)
  {
    ByUserEmptyIff(records, items, userId, RecentLimit);
    if ByUser(records, items, userId, RecentLimit) != [] {
      ByUserHeadIsLatest(records, items, userId, RecentLimit);
    }
  }

  /** `GetComfortAnalysis`: zeros and empty maps, whatever the records. */
  function GetComfortAnalysis(userId: nat): (a: ComfortAnalysis)
    ensures a.averageComfort == 0.0 && a.averageStyle == 0.0 && a.averageAppropriateness == 0.0
    ensures a.comfortByCategory == map[] && a.comfortByWeather == map[]
  {
    ComfortAnalysis(0.0, 0.0, 0.0, map[], map[])
  }
}
