/** The maintenance-record service (server/services/maintenance_service.go) over the
    maintenance-record table (server/repositories/maintenance_record_repository.go).
    Times are seconds, money an exact real; the clothing table is the item repository's
    sequence of rows. */
module MaintenanceService {
  import opened Wrappers
  import opened Seqs
  import Enums
  import opened ItemModel
  import opened ItemRepository
  import MaintenanceModel

  const SecondsPerDay := MaintenanceModel.SecondsPerDay

  const RecordLookupFailed := "failed to get maintenance record: record not found"
  const ItemLookupFailed := "failed to get clothing item: record not found"
  const NotYourRecord := "unauthorized: record does not belong to user"
  const UnknownItem := "Unknown Item"

  function InvalidType(kind: string): string {
    "invalid maintenance type: " + kind
  }

  /** A row of `maintenance_records`, with the columns the service reads or writes;
      `deleted` is GORM's soft-delete mark. */
  datatype MaintenanceRow = MaintenanceRow(
    id: nat, clothingItemId: nat, maintenanceType: string, cost: real, maintenanceDate: int,
    serviceProvider: string, notes: string, nextMaintenanceDate: Option<int>,
    reminderSent: bool, deleted: bool, createdAt: int, updatedAt: int)

  datatype CreateRequest = CreateRequest(
    maintenanceType: string, cost: real, maintenanceDate: int, serviceProvider: string,
    description: string, nextMaintenanceDate: Option<int>, notes: string)

  datatype UpdateRequest = UpdateRequest(
    maintenanceType: Option<string>, cost: Option<real>, maintenanceDate: Option<int>,
    serviceProvider: Option<string>, description: Option<string>,
    nextMaintenanceDate: Option<int>, notes: Option<string>)

  datatype RecordDTO = RecordDTO(
    id: nat, clothingItemId: nat, maintenanceType: string, cost: real, maintenanceDate: int,
    serviceProvider: string, description: string, nextMaintenanceDate: Option<int>,
    notes: string, createdAt: int, updatedAt: int)

  datatype Reminder = Reminder(
    id: nat, clothingItemId: nat, clothingItemName: string, maintenanceType: string,
    nextMaintenanceDate: int, daysOverdue: nat, priority: string)

  // ---------------------------------------------------------------- the table

  /** The `BeforeCreate`/`BeforeUpdate` hooks: the next date is recomputed from the type
      and the maintenance date, whatever it held. */
  function Hooked(row: MaintenanceRow): (r: MaintenanceRow)
    ensures r.nextMaintenanceDate.Some? && r.nextMaintenanceDate.value > row.maintenanceDate
    ensures r.nextMaintenanceDate.value - row.maintenanceDate
            == MaintenanceModel.IntervalDays(row.maintenanceType) * SecondsPerDay
    ensures r.(nextMaintenanceDate := row.nextMaintenanceDate) == row
  {
    row.(nextMaintenanceDate := Some(MaintenanceModel.NextDate(row.maintenanceType, row.maintenanceDate)))
  }

  /** A row that exists and is not soft-deleted. */
  predicate Live(records: seq<MaintenanceRow>, id: nat) {
    1 <= id <= |records| && !records[id - 1].deleted
  }

  /** The row of a clothing item, by the join on `clothing_item_id`, belongs to the user. */
  predicate OwnedRow(items: seq<ClothingItem>, userId: nat, row: MaintenanceRow) {
    !row.deleted && RowOf(items, row.clothingItemId).Some? && RowOf(items, row.clothingItemId).value.userId == userId
  }

  function OwnedBy(items: seq<ClothingItem>, userId: nat): MaintenanceRow -> bool {
    (row: MaintenanceRow) => OwnedRow(items, userId, row)
  }

  function ByDateDesc(): (MaintenanceRow, MaintenanceRow) -> bool {
    (a: MaintenanceRow, b: MaintenanceRow) => a.maintenanceDate >= b.maintenanceDate
  }

  /** The sort key of `next_maintenance_date`; the queries that sort by it only return
      rows that have one. */
  function NextKey(row: MaintenanceRow): int {
    if row.nextMaintenanceDate.Some? then row.nextMaintenanceDate.value else 0
  }

  function ByNextAsc(): (MaintenanceRow, MaintenanceRow) -> bool {
    (a: MaintenanceRow, b: MaintenanceRow) => NextKey(a) <= NextKey(b)
  }

  lemma OrdersArePreorders()
    ensures IsTotalPreorder(ByDateDesc()) && IsTotalPreorder(ByNextAsc())
  {
  }

  /** `GetByUserID`: the user's rows, latest maintenance first, at most `limit` when it is
      positive. */
  function Listed(records: seq<MaintenanceRow>, items: seq<ClothingItem>, userId: nat, limit: int): (r: seq<MaintenanceRow>)
    ensures limit > 0 ==> |r| <= limit
  {
    Limited(SortWith(ByDateDesc(), Filter(OwnedBy(items, userId), records)), limit)
  }

  /** Due for a reminder within `days`: a next date no later than `days` days from now,
      and no reminder sent yet. */
  predicate DueWithin(days: int, now: int, row: MaintenanceRow) {
    row.nextMaintenanceDate.Some? && row.nextMaintenanceDate.value <= now + days * SecondsPerDay && !row.reminderSent
  }

  function UpcomingBy(items: seq<ClothingItem>, userId: nat, days: int, now: int): MaintenanceRow -> bool {
    (row: MaintenanceRow) => OwnedRow(items, userId, row) && DueWithin(days, now, row)
  }

  predicate IsOverdue(now: int, row: MaintenanceRow) {
    row.nextMaintenanceDate.Some? && row.nextMaintenanceDate.value < now
  }

  function OverdueBy(items: seq<ClothingItem>, userId: nat, now: int): MaintenanceRow -> bool {
    (row: MaintenanceRow) => OwnedRow(items, userId, row) && IsOverdue(now, row)
  }

  /** `GetUpcoming`: the user's rows due within `days`, soonest first. */
  function Upcoming(records: seq<MaintenanceRow>, items: seq<ClothingItem>, userId: nat, days: int, now: int): seq<MaintenanceRow> {
    SortWith(ByNextAsc(), Filter(UpcomingBy(items, userId, days, now), records))
  }

  /** `GetOverdue`: the user's rows whose next date has passed, oldest first. */
  function Overdue(records: seq<MaintenanceRow>, items: seq<ClothingItem>, userId: nat, now: int): seq<MaintenanceRow> {
    SortWith(ByNextAsc(), Filter(OverdueBy(items, userId, now), records))
  }

  /** The list holds only rows of the user; without a limit it holds every one of them,
      each once; with a limit it holds that many of them, or all if fewer, and any row
      left out was maintained no later than every listed one. */
  lemma ListedRows(records: seq<MaintenanceRow>, items: seq<ClothingItem>, userId: nat, limit: int)
    ensures forall x :: x in Listed(records, items, userId, limit) ==> x in records && OwnedRow(items, userId, x)
    ensures limit <= 0 ==> multiset(Listed(records, items, userId, limit)) == multiset(Filter(OwnedBy(items, userId), records))
    ensures var mine := Filter(OwnedBy(items, userId), records);
            limit > 0 ==> |Listed(records, items, userId, limit)| == if |mine| <= limit then |mine| else limit
    ensures forall x :: x in records && OwnedRow(items, userId, x) ==>
              x in Listed(records, items, userId, limit) ||
              forall y :: y in Listed(records, items, userId, limit) ==> y.maintenanceDate >= x.maintenanceDate
  {
    OrdersArePreorders();
    TopRows(ByDateDesc(), OwnedBy(items, userId), records, limit);
    var r := Listed(records, items, userId, limit);
    forall x | x in records && OwnedRow(items, userId, x) && x !in r
      ensures forall y :: y in r ==> y.maintenanceDate >= x.maintenanceDate
    {
      assert OwnedBy(items, userId)(x);
      forall y | y in r ensures y.maintenanceDate >= x.maintenanceDate {
        assert ByDateDesc()(y, x);
      }
    }
  }

  /** The list is latest maintenance first. */
  lemma ListedLatestFirst(records: seq<MaintenanceRow>, items: seq<ClothingItem>, userId: nat, limit: int)
    ensures SortedWith(ByDateDesc(), Listed(records, items, userId, limit))
  {
    var sorted := SortWith(ByDateDesc(), Filter(OwnedBy(items, userId), records));
    SortWithSorted(ByDateDesc(), Filter(OwnedBy(items, userId), records));
    var r := Listed(records, items, userId, limit);
    assert r == sorted[..|r|];
    forall i, j | 0 <= i < j < |r| ensures ByDateDesc()(r[i], r[j]) {
      assert r[i] == sorted[i] && r[j] == sorted[j];
    }
  }

  /** A row is an upcoming reminder exactly when it is the user's, due within `days` and
      not yet reminded; the list is soonest first. */
  lemma UpcomingRows(records: seq<MaintenanceRow>, items: seq<ClothingItem>, userId: nat, days: int, now: int)
    ensures forall x :: x in Upcoming(records, items, userId, days, now) <==>
                        x in records && OwnedRow(items, userId, x) && DueWithin(days, now, x)
    ensures SortedWith(ByNextAsc(), Upcoming(records, items, userId, days, now))
  {
    var mine := Filter(UpcomingBy(items, userId, days, now), records);
    assert forall x :: x in Upcoming(records, items, userId, days, now) <==> x in multiset(mine);
    SortWithSorted(ByNextAsc(), mine);
  }

  /** A row is overdue exactly when it is the user's and its next date has passed; the
      list is oldest first. */
  lemma OverdueRows(records: seq<MaintenanceRow>, items: seq<ClothingItem>, userId: nat, now: int)
    ensures forall x :: x in Overdue(records, items, userId, now) <==>
                        x in records && OwnedRow(items, userId, x) && IsOverdue(now, x)
    ensures SortedWith(ByNextAsc(), Overdue(records, items, userId, now))
  {
    var mine := Filter(OverdueBy(items, userId, now), records);
    assert forall x :: x in Overdue(records, items, userId, now) <==> x in multiset(mine);
    SortWithSorted(ByNextAsc(), mine);
  }

  /** The table: row `i` has id `i + 1`; a deleted row keeps its place. */
  class MaintenanceRecordRepository {
    var records: seq<MaintenanceRow>

    ghost predicate Valid()
      reads this
    {
      forall i :: 0 <= i < |records| ==> records[i].id == i + 1
    }

    constructor ()
      ensures Valid() && records == []
    {
      records := [];
    }

    /** `Create`: the next id, the creation times, and the create hook. */
    method Create(row: MaintenanceRow, now: int) returns (id: nat)
      requires Valid()
      modifies this
      ensures Valid() && id == |old(records)| + 1
      ensures records == old(records) + [Hooked(row).(id := id, deleted := false, createdAt := now, updatedAt := now)]
    {
      id := |records| + 1;
      records := records + [Hooked(row).(id := id, deleted := false, createdAt := now, updatedAt := now)];
    }

    /** `GetByID` (`First`), which skips soft-deleted rows. */
    function GetByID(id: nat): (r: Option<MaintenanceRow>)
      reads this
      requires Valid()
      ensures r.Some? <==> Live(records, id)
      ensures r.Some? ==> r.value == records[id - 1] && r.value.id == id
    {
      if Live(records, id) then Some(records[id - 1]) else None
    }

    /** `Update` (`Save`) of a stored row: the update hook runs and the update time is
        set. */
    method Update(row: MaintenanceRow, now: int)
      requires Valid() && 1 <= row.id <= |records|
      modifies this
      ensures Valid()
      ensures records == old(records)[row.id - 1 := Hooked(row).(updatedAt := now)]
    {
      records := records[row.id - 1 := Hooked(row).(updatedAt := now)];
    }

    /** `Delete`: a soft delete of a live row; anything else is left alone. */
    method Delete(id: nat)
      requires Valid()
      modifies this
      ensures Valid() && |records| == |old(records)|
      ensures Live(old(records), id) ==> records == old(records)[id - 1 := old(records)[id - 1].(deleted := true)]
      ensures !Live(old(records), id) ==> records == old(records)
    {
      if Live(records, id) {
        records := records[id - 1 := records[id - 1].(deleted := true)];
      }
    }

    /** `MarkReminderSent`: only that live row's flag and update time change; an unknown
        id updates nothing and is no error. */
    method MarkReminderSent(id: nat, now: int)
      requires Valid()
      modifies this
      ensures Valid() && |records| == |old(records)|
      ensures Live(old(records), id) ==>
                records == old(records)[id - 1 := old(records)[id - 1].(reminderSent := true, updatedAt := now)]
      ensures !Live(old(records), id) ==> records == old(records)
    {
      if Live(records, id) {
        records := records[id - 1 := records[id - 1].(reminderSent := true, updatedAt := now)];
      }
    }
  }

  // ---------------------------------------------------------------- conversions

  /** `convertToMaintenanceRecordDTO`: the description is the notes. */
  function ToDTO(row: MaintenanceRow): (d: RecordDTO)
    ensures d.description == row.notes && d.notes == row.notes
    ensures d.id == row.id && d.clothingItemId == row.clothingItemId && d.maintenanceType == row.maintenanceType
    ensures d.nextMaintenanceDate == row.nextMaintenanceDate && d.cost == row.cost
  {
    RecordDTO(row.id, row.clothingItemId, row.maintenanceType, row.cost, row.maintenanceDate,
              row.serviceProvider, row.notes, row.nextMaintenanceDate, row.notes, row.createdAt, row.updatedAt)
  }

  /** `convertToMaintenanceRecordDTOs`. */
  method ConvertToRecordDTOs(records: seq<MaintenanceRow>) returns (r: seq<RecordDTO>)
    ensures |r| == |records|
    ensures forall i :: 0 <= i < |records| ==> r[i] == ToDTO(records[i])
  {
    r := [];
    var i := 0;
    while i < |records|
      invariant 0 <= i <= |records| && |r| == i
      invariant forall j :: 0 <= j < i ==> r[j] == ToDTO(records[j])
    {
      r := r + [ToDTO(records[i])];
      i := i + 1;
    }
  }

  /** Whole days from `a` to `b` when `a <= b` (`int(d.Hours() / 24)`). */
  function WholeDays(a: int, b: int): (d: nat)
    requires a <= b
    ensures d * SecondsPerDay <= b - a < (d + 1) * SecondsPerDay
  {
    (b - a) / SecondsPerDay
  }

  /** The days a next date is overdue: nothing when there is none or it has not passed. */
  function DaysOverdue(next: Option<int>, now: int): (d: nat)
    ensures d > 0 ==> next.Some? && next.value < now
    ensures next.Some? && next.value < now ==> d == WholeDays(next.value, now)
  {
    if next.Some? && next.value < now then WholeDays(next.value, now) else 0
  }

  /** The priority of a reminder. Overdue: more than 30 days urgent, more than 14 high,
      more than 7 medium, else low. Not yet due: within 3 whole days high, within 7
      medium, else low. Without a next date: low. */
  function Priority(next: Option<int>, now: int): (p: string)
    ensures p in {"low", "medium", "high", "urgent"}
    ensures next.None? ==> p == "low"
    ensures next.Some? && next.value < now ==>
              var d := WholeDays(next.value, now);
              p == (if d > 30 then "urgent" else if d > 14 then "high" else if d > 7 then "medium" else "low")
    ensures next.Some? && now <= next.value ==>
              var d := WholeDays(now, next.value);
              p == (if d <= 3 then "high" else if d <= 7 then "medium" else "low")
    ensures p == "urgent" ==> next.Some? && next.value < now
  {
    match next
    case None => "low"
    case Some(date) =>
      if date < now then
        var d := WholeDays(date, now);
        if d > 30 then "urgent" else if d > 14 then "high" else if d > 7 then "medium" else "low"
      else
        var d := WholeDays(now, date);
        if d <= 3 then "high" else if d <= 7 then "medium" else "low"
  }

  function Rank(p: string): nat {
    if p == "urgent" then 3 else if p == "high" then 2 else if p == "medium" then 1 else 0
  }

  lemma WholeDaysMonotone(a: int, b: int, c: int)
    requires a <= b <= c
    ensures WholeDays(b, c) <= WholeDays(a, c) && WholeDays(a, b) <= WholeDays(a, c)
  {
  }

  /** Among overdue dates, an earlier one is at least as urgent. */
  lemma {:induction false} OverduePriorityMonotone(d1: int, d2: int, now: int)
    requires d1 <= d2 < now
    ensures Rank(Priority(Some(d1), now)) >= Rank(Priority(Some(d2), now))
  {
    WholeDaysMonotone(d1, d2, now);
  }

  /** Among dates not yet passed, a sooner one is at least as urgent. */
  lemma {:induction false} UpcomingPriorityMonotone(d1: int, d2: int, now: int)
    requires now <= d1 <= d2
    ensures Rank(Priority(Some(d1), now)) >= Rank(Priority(Some(d2), now))
  {
    WholeDaysMonotone(now, d1, d2);
  }

  /** Across the due date the order is broken: a date due now is high, one passed by a
      second (up to a week) is low. */
  lemma PriorityDropsWhenOverdue(now: int)
    ensures Priority(Some(now), now) == "high"
    ensures Priority(Some(now - 1), now) == "low"
  {
    assert WholeDays(now, now) == 0;
    assert WholeDays(now - 1, now) == 0;
  }

  /** `convertToMaintenanceReminderDTO`: the item's name or "Unknown Item"; the next date
      or now when there is none. */
  function ReminderOf(items: seq<ClothingItem>, row: MaintenanceRow, now: int): (r: Reminder)
    ensures r.id == row.id && r.clothingItemId == row.clothingItemId && r.maintenanceType == row.maintenanceType
    ensures RowOf(items, row.clothingItemId).Some? ==> r.clothingItemName == RowOf(items, row.clothingItemId).value.name
    ensures RowOf(items, row.clothingItemId).None? ==> r.clothingItemName == UnknownItem
    ensures r.nextMaintenanceDate == row.nextMaintenanceDate.GetOr(now)
    ensures r.daysOverdue == DaysOverdue(row.nextMaintenanceDate, now) && r.priority == Priority(row.nextMaintenanceDate, now)
  {
    var name := match RowOf(items, row.clothingItemId) case Some(item) => item.name case None => UnknownItem;
    Reminder(row.id, row.clothingItemId, name, row.maintenanceType, row.nextMaintenanceDate.GetOr(now),
             DaysOverdue(row.nextMaintenanceDate, now), Priority(row.nextMaintenanceDate, now))
  }

  /** `convertToMaintenanceReminderDTOs`. */
  method ConvertToReminderDTOs(items: seq<ClothingItem>, records: seq<MaintenanceRow>, now: int) returns (r: seq<Reminder>)
    ensures |r| == |records|
    ensures forall i :: 0 <= i < |records| ==> r[i] == ReminderOf(items, records[i], now)
  {
    r := [];
    var i := 0;
    while i < |records|
      invariant 0 <= i <= |records| && |r| == i
      invariant forall j :: 0 <= j < i ==> r[j] == ReminderOf(items, records[j], now)
    {
      r := r + [ReminderOf(items, records[i], now)];
      i := i + 1;
    }
  }

  // ---------------------------------------------------------------- operations

  /** The row `CreateMaintenanceRecord` hands to `Create`: the request's description is
      not stored, and its next date is kept only until the create hook replaces it. */
  function NewRecord(itemId: nat, req: CreateRequest): MaintenanceRow {
    MaintenanceRow(0, itemId, req.maintenanceType, req.cost, req.maintenanceDate, req.serviceProvider,
                   req.notes, req.nextMaintenanceDate, false, false, 0, 0)
  }

  /** What is stored for a request: whatever next date the request gives, the stored one
      is the type's interval after the maintenance date; the description makes no
      difference. */
  lemma StoredNextDate(itemId: nat, req: CreateRequest, id: nat, now: int, next: Option<int>, description: string)
    ensures var row := Hooked(NewRecord(itemId, req));
            && row.nextMaintenanceDate == Some(MaintenanceModel.NextDate(req.maintenanceType, req.maintenanceDate))
            && row == Hooked(NewRecord(itemId, req.(nextMaintenanceDate := next, description := description)))
            && row.clothingItemId == itemId && row.notes == req.notes && !row.reminderSent
  {
  }

  /** `CreateMaintenanceRecord`: an invalid type is refused before anything is written.
      The item id is not checked against the clothing table or the caller. */
  method CreateMaintenanceRecord(repo: MaintenanceRecordRepository, itemId: nat, req: CreateRequest, now: int)
    returns (r: Result<RecordDTO, string>)
    requires repo.Valid()
    modifies repo
    ensures repo.Valid()
    ensures !Enums.IsValidMaintenanceType(req.maintenanceType) ==>
              r == Err(InvalidType(req.maintenanceType)) && repo.records == old(repo.records)
    ensures Enums.IsValidMaintenanceType(req.maintenanceType) ==>
              var row := Hooked(NewRecord(itemId, req)).(id := |old(repo.records)| + 1, createdAt := now, updatedAt := now);
              && repo.records == old(repo.records) + [row]
              && r == Ok(ToDTO(row))
  {
    if !Enums.IsValidMaintenanceType(req.maintenanceType) {
      return Err(InvalidType(req.maintenanceType));
    }
    var record := NewRecord(itemId, req);
    if req.nextMaintenanceDate.Some? {
      record := record.(nextMaintenanceDate := req.nextMaintenanceDate);
    }
    var id := repo.Create(record, now);
    r := Ok(ToDTO(Hooked(record).(id := id, deleted := false, createdAt := now, updatedAt := now)));
  }

  /** The record lookup and `validateRecordOwnership`: the live record, when the clothing
      item it refers to exists and belongs to the user. */
  function Access(records: seq<MaintenanceRow>, items: seq<ClothingItem>, userId: nat, recordId: nat): (r: Result<MaintenanceRow, string>)
    ensures r.Ok? <==> Live(records, recordId) && OwnedRow(items, userId, records[recordId - 1])
    ensures r.Ok? ==> r.value == records[recordId - 1]
    ensures !Live(records, recordId) ==> r == Err(RecordLookupFailed)
    ensures Live(records, recordId) && RowOf(items, records[recordId - 1].clothingItemId).None? ==> r == Err(ItemLookupFailed)
    ensures (Live(records, recordId) && RowOf(items, records[recordId - 1].clothingItemId).Some?
             && RowOf(items, records[recordId - 1].clothingItemId).value.userId != userId) ==> r == Err(NotYourRecord)
  {
    if !Live(records, recordId) then Err(RecordLookupFailed)
    else
      var record := records[recordId - 1];
      match RowOf(items, record.clothingItemId)
      case None => Err(ItemLookupFailed)
      case Some(item) => if item.userId != userId then Err(NotYourRecord) else Ok(record)
  }

  /** `GetMaintenanceRecord`. */
  function GetMaintenanceRecord(repo: MaintenanceRecordRepository, items: seq<ClothingItem>, userId: nat, recordId: nat)
    : (r: Result<RecordDTO, string>)
    reads repo
    ensures r.Ok? <==> Access(repo.records, items, userId, recordId).Ok?
    ensures r.Ok? ==> r.value == ToDTO(repo.records[recordId - 1]) && r.value.id == repo.records[recordId - 1].id
    ensures r.Err? ==> r.error in {RecordLookupFailed, ItemLookupFailed, NotYourRecord}
  {
    match Access(repo.records, items, userId, recordId)
    case Err(e) => Err(e)
    case Ok(row) => Ok(ToDTO(row))
  }

  /** `GetMaintenanceRecords`. */
  method GetMaintenanceRecords(repo: MaintenanceRecordRepository, items: seq<ClothingItem>, userId: nat, limit: int)
    returns (r: seq<RecordDTO>)
    ensures var rows := Listed(repo.records, items, userId, limit);
            |r| == |rows| && forall i :: 0 <= i < |rows| ==> r[i] == ToDTO(rows[i])
    ensures limit > 0 ==> |r| <= limit
  {
    r := ConvertToRecordDTOs(Listed(repo.records, items, userId, limit));
  }

  /** The fields an update writes: each given field takes the request's value; the
      description is ignored. */
  function Patched(row: MaintenanceRow, req: UpdateRequest): MaintenanceRow {
    row.(maintenanceType := req.maintenanceType.GetOr(row.maintenanceType),
         cost := req.cost.GetOr(row.cost),
         maintenanceDate := req.maintenanceDate.GetOr(row.maintenanceDate),
         serviceProvider := req.serviceProvider.GetOr(row.serviceProvider),
         notes := req.notes.GetOr(row.notes),
         nextMaintenanceDate := if req.nextMaintenanceDate.Some? then req.nextMaintenanceDate else row.nextMaintenanceDate)
  }

  /** The patch changes exactly the given fields; patching twice is patching once, and
      the empty request changes nothing. */
  lemma PatchedFields(row: MaintenanceRow, req: UpdateRequest)
    ensures var p := Patched(row, req);
            && (req.maintenanceType.Some? ==> p.maintenanceType == req.maintenanceType.value)
            && (req.maintenanceType.None? ==> p.maintenanceType == row.maintenanceType)
            && (req.cost.Some? ==> p.cost == req.cost.value) && (req.cost.None? ==> p.cost == row.cost)
            && (req.notes.Some? ==> p.notes == req.notes.value) && (req.notes.None? ==> p.notes == row.notes)
            && p.id == row.id && p.clothingItemId == row.clothingItemId && p.reminderSent == row.reminderSent
            && p.createdAt == row.createdAt && p.deleted == row.deleted
    ensures Patched(Patched(row, req), req) == Patched(row, req)
    ensures Patched(row, UpdateRequest(None, None, None, None, None, None, None)) == row
  {
  }

  /** What an update saves does not depend on the requested next date or description:
      the update hook recomputes the date from the (possibly new) type and maintenance
      date. */
  lemma SavedIgnoresNextDate(row: MaintenanceRow, req: UpdateRequest, next: Option<int>, description: Option<string>)
    ensures Hooked(Patched(row, req)) == Hooked(Patched(row, req.(nextMaintenanceDate := next, description := description)))
    ensures Hooked(Patched(row, req)).nextMaintenanceDate
            == Some(MaintenanceModel.NextDate(Patched(row, req).maintenanceType, Patched(row, req).maintenanceDate))
  {
  }

  /** `UpdateMaintenanceRecord`: after the owner check the fields are set one by one; an
      invalid new type stops the update before anything is saved. */
  method UpdateMaintenanceRecord(repo: MaintenanceRecordRepository, items: seq<ClothingItem>, userId: nat,
                                 recordId: nat, req: UpdateRequest, now: int) returns (r: Result<RecordDTO, string>)
    requires repo.Valid()
    modifies repo
    ensures repo.Valid()
    ensures var acc := Access(old(repo.records), items, userId, recordId);
            && (acc.Err? ==> r == Err(acc.error) && repo.records == old(repo.records))
            && (acc.Ok? && req.maintenanceType.Some? && !Enums.IsValidMaintenanceType(req.maintenanceType.value) ==>
                  r == Err(InvalidType(req.maintenanceType.value)) && repo.records == old(repo.records))
            && (acc.Ok? && (req.maintenanceType.None? || Enums.IsValidMaintenanceType(req.maintenanceType.value)) ==>
                  var row := Hooked(Patched(acc.value, req)).(updatedAt := now);
                  && repo.records == old(repo.records)[recordId - 1 := row]
                  && r == Ok(ToDTO(row)))
  {
    var acc := Access(repo.records, items, userId, recordId);
    if acc.Err? {
      return Err(acc.error);
    }
    var record := acc.value;
    if req.maintenanceType.Some? {
      if !Enums.IsValidMaintenanceType(req.maintenanceType.value) {
        return Err(InvalidType(req.maintenanceType.value));
      }
      record := record.(maintenanceType := req.maintenanceType.value);
    }
    if req.cost.Some? {
      record := record.(cost := req.cost.value);
    }
    if req.maintenanceDate.Some? {
      record := record.(maintenanceDate := req.maintenanceDate.value);
    }
    if req.serviceProvider.Some? {
      record := record.(serviceProvider := req.serviceProvider.value);
    }
    if req.notes.Some? {
      record := record.(notes := req.notes.value);
    }
    if req.nextMaintenanceDate.Some? {
      record := record.(nextMaintenanceDate := req.nextMaintenanceDate);
    }
    assert record == Patched(acc.value, req);
    repo.Update(record, now);
    r := Ok(ToDTO(Hooked(record).(updatedAt := now)));
  }

  /** `DeleteMaintenanceRecord`: after the owner check the row is soft-deleted. */
  method DeleteMaintenanceRecord(repo: MaintenanceRecordRepository, items: seq<ClothingItem>, userId: nat, recordId: nat)
    returns (err: Option<string>)
    requires repo.Valid()
    modifies repo
    ensures repo.Valid()
    ensures var acc := Access(old(repo.records), items, userId, recordId);
            && (err.None? <==> acc.Ok?)
            && (acc.Err? ==> err == Some(acc.error) && repo.records == old(repo.records))
            && (acc.Ok? ==> repo.records == old(repo.records)[recordId - 1 := old(repo.records)[recordId - 1].(deleted := true)])
  {
    var acc := Access(repo.records, items, userId, recordId);
    if acc.Err? {
      return Some(acc.error);
    }
    repo.Delete(recordId);
    err := None;
  }

  /** A deleted record is gone for every later lookup. */
  lemma DeletedIsGone(records: seq<MaintenanceRow>, items: seq<ClothingItem>, userId: nat, recordId: nat, other: nat)
    requires Live(records, recordId)
    ensures Access(records[recordId - 1 := records[recordId - 1].(deleted := true)], items, other, recordId) == Err(RecordLookupFailed)
  {
  }

  /** `GetUpcomingMaintenance`: the reminders of the rows due within `days`. */
  method GetUpcomingMaintenance(repo: MaintenanceRecordRepository, items: seq<ClothingItem>, userId: nat, days: int, now: int)
    returns (r: seq<Reminder>)
    ensures var rows := Upcoming(repo.records, items, userId, days, now);
            |r| == |rows| && forall i :: 0 <= i < |rows| ==> r[i] == ReminderOf(items, rows[i], now)
  {
    r := ConvertToReminderDTOs(items, Upcoming(repo.records, items, userId, days, now), now);
  }

  /** `GetOverdueMaintenance`: the reminders of the overdue rows; each has a next date
      before now, no "low" unless within a week, and its whole days overdue. */
  method GetOverdueMaintenance(repo: MaintenanceRecordRepository, items: seq<ClothingItem>, userId: nat, now: int)
    returns (r: seq<Reminder>)
    ensures var rows := Overdue(repo.records, items, userId, now);
            |r| == |rows| && forall i :: 0 <= i < |rows| ==> r[i] == ReminderOf(items, rows[i], now)
    ensures forall i :: 0 <= i < |r| ==> r[i].nextMaintenanceDate < now
    ensures forall i :: 0 <= i < |r| ==> (r[i].priority == "low" <==> r[i].daysOverdue <= 7)
  {
    var rows := Overdue(repo.records, items, userId, now);
    OverdueRows(repo.records, items, userId, now);
    r := ConvertToReminderDTOs(items, rows, now);
    forall i | 0 <= i < |r|
      ensures r[i].nextMaintenanceDate < now
      ensures r[i].priority == "low" <==> r[i].daysOverdue <= 7
    {
      assert rows[i] in rows;
    }
  }

  /** `MarkReminderSent`: no ownership check; any live row may be marked. */
  method MarkReminderSent(repo: MaintenanceRecordRepository, recordId: nat, now: int) returns (err: Option<string>)
    requires repo.Valid()
    modifies repo
    ensures repo.Valid() && err.None?
    ensures Live(old(repo.records), recordId) ==>
              repo.records == old(repo.records)[recordId - 1 := old(repo.records)[recordId - 1].(reminderSent := true, updatedAt := now)]
    ensures !Live(old(repo.records), recordId) ==> repo.records == old(repo.records)
  {
    repo.MarkReminderSent(recordId, now);
    err := None;
  }

  /** A marked row no longer comes up as upcoming, but stays overdue. */
  lemma MarkedLeavesUpcoming(records: seq<MaintenanceRow>, items: seq<ClothingItem>, userId: nat, days: int, now: int,
                             recordId: nat, at: int)
    requires Live(records, recordId)
    ensures var marked := records[recordId - 1 := records[recordId - 1].(reminderSent := true, updatedAt := at)];
            && records[recordId - 1].(reminderSent := true, updatedAt := at) !in Upcoming(marked, items, userId, days, now)
            && (IsOverdue(now, records[recordId - 1]) && OwnedRow(items, userId, records[recordId - 1]) ==>
                  records[recordId - 1].(reminderSent := true, updatedAt := at) in Overdue(marked, items, userId, now))
  {
    var marked := records[recordId - 1 := records[recordId - 1].(reminderSent := true, updatedAt := at)];
    UpcomingRows(marked, items, userId, days, now);
    OverdueRows(marked, items, userId, now);
    assert marked[recordId - 1] in marked;
  }
}
