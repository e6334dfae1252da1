/** The two-pass category seeding shared by server/models/category_seeds.go and
    server/database/categories.go, over an in-memory `clothing_categories` table. A query
    `First` finds the row with the lowest position; `name` carries a unique index, so a
    create fails when the name is already taken. */
module CategorySeeding {
  import opened Wrappers
  import opened Seqs
  import CategoryModel

  type Row = CategoryModel.ClothingCategory

  /** A seed entry; a root has the empty `parentName`. */
  datatype SeedCategory = SeedCategory(name: string, description: string, parentName: string,
                                       icon: string, sortOrder: int)

  /** `WHERE name = ? AND parent_id IS NULL`, first match: the id of that row. */
  function FindRoot(rows: seq<Row>, name: string): Option<nat> {
    if rows == [] then None
    else if rows[0].name == name && rows[0].parentId.None? then Some(rows[0].id)
    else FindRoot(rows[1..], name)
  }

  /** The root found is the first row with that name and no parent; None means there is
      no such row. */
  lemma {:induction false} FindRootFirst(rows: seq<Row>, name: string)
    ensures FindRoot(rows, name).None? <==>
              forall i :: 0 <= i < |rows| ==> !(rows[i].name == name && rows[i].parentId.None?)
    ensures FindRoot(rows, name).Some? ==>
              exists i :: 0 <= i < |rows| && rows[i].name == name && rows[i].parentId.None?
                          && rows[i].id == FindRoot(rows, name).value
                          && forall j :: 0 <= j < i ==> !(rows[j].name == name && rows[j].parentId.None?)
  {
    if rows != [] && !(rows[0].name == name && rows[0].parentId.None?) {
      FindRootFirst(rows[1..], name);
      assert forall i :: 1 <= i < |rows| ==> rows[i] == rows[1..][i - 1];
      if FindRoot(rows, name).Some? {
        var i :| 0 <= i < |rows[1..]| && rows[1..][i].name == name && rows[1..][i].parentId.None?
                 && rows[1..][i].id == FindRoot(rows, name).value
                 && forall j :: 0 <= j < i ==> !(rows[1..][j].name == name && rows[1..][j].parentId.None?);
        assert rows[i + 1] == rows[1..][i];
      }
    }
  }

  /** Rows added later do not change which root is found first. */
  lemma {:induction false} FindRootStable(rows: seq<Row>, extra: seq<Row>, name: string)
    requires FindRoot(rows, name).Some?
    ensures FindRoot(rows + extra, name) == FindRoot(rows, name)
  {
    if !(rows[0].name == name && rows[0].parentId.None?) {
      assert (rows + extra)[1..] == rows[1..] + extra;
      FindRootStable(rows[1..], extra, name);
    }
  }

  /** `WHERE name = ? AND parent_id = ?` finds a row. */
  predicate HasChild(rows: seq<Row>, name: string, parentId: nat) {
    exists i :: 0 <= i < |rows| && rows[i].name == name && rows[i].parentId == Some(parentId)
  }

  predicate NameTaken(rows: seq<Row>, name: string) {
    exists i :: 0 <= i < |rows| && rows[i].name == name
  }

  predicate IsRootSeedName(seeds: seq<SeedCategory>, name: string) {
    exists k :: 0 <= k < |seeds| && seeds[k].parentName == "" && seeds[k].name == name
  }

  /** The active row created from a seed. */
  function RowOf(seed: SeedCategory, id: nat, parentId: Option<nat>): (r: Row)
    ensures r.isActive && r.id == id && r.parentId == parentId && r.name == seed.name
  {
    CategoryModel.ClothingCategory(id, seed.name, seed.description, parentId, seed.icon, seed.sortOrder, true)
  }

  /** `row` was made from some seed: a root from a root seed, a child from a child seed
      whose parent is a root seed, linked to the first root row of that name. */
  ghost predicate CreatedFrom(seeds: seq<SeedCategory>, rows: seq<Row>, row: Row) {
    exists k :: 0 <= k < |seeds| && row == RowOf(seeds[k], row.id, row.parentId)
                && if seeds[k].parentName == "" then row.parentId.None?
                   else IsRootSeedName(seeds, seeds[k].parentName)
                        && row.parentId.Some? && FindRoot(rows, seeds[k].parentName) == row.parentId
  }

  lemma CreatedFromStable(seeds: seq<SeedCategory>, rows: seq<Row>, extra: seq<Row>, row: Row)
    requires CreatedFrom(seeds, rows, row)
    ensures CreatedFrom(seeds, rows + extra, row)
  {
    var k :| 0 <= k < |seeds| && row == RowOf(seeds[k], row.id, row.parentId)
             && if seeds[k].parentName == "" then row.parentId.None?
                else IsRootSeedName(seeds, seeds[k].parentName)
                     && row.parentId.Some? && FindRoot(rows, seeds[k].parentName) == row.parentId;
    if seeds[k].parentName != "" {
      FindRootStable(rows, extra, seeds[k].parentName);
    }
  }

  /** Every root seed has a root row, and every child seed whose parent is a root seed has a
      row under the first root row of its parent's name. */
  predicate Seeded(rows: seq<Row>, seeds: seq<SeedCategory>) {
    && (forall k :: 0 <= k < |seeds| && seeds[k].parentName == "" ==> FindRoot(rows, seeds[k].name).Some?)
    && (forall k :: 0 <= k < |seeds| && seeds[k].parentName != "" && IsRootSeedName(seeds, seeds[k].parentName) ==>
          FindRoot(rows, seeds[k].parentName).Some?
          && HasChild(rows, seeds[k].name, FindRoot(rows, seeds[k].parentName).value))
  }

  /** Seed `k` has its row: a root row of its name, or a row of its name under the first
      root row of its parent's name. */
  predicate InPlace(rows: seq<Row>, seeds: seq<SeedCategory>, k: nat)
    requires k < |seeds|
  {
    if seeds[k].parentName == "" then FindRoot(rows, seeds[k].name).Some?
    else FindRoot(rows, seeds[k].parentName).Some?
         && HasChild(rows, seeds[k].name, FindRoot(rows, seeds[k].parentName).value)
  }

  /** Some seed lacks its row while another row holds its name, so the unique index on
      `name` refuses its create: the only way a seeding pass fails. */
  predicate Blocked(rows: seq<Row>, seeds: seq<SeedCategory>) {
    exists k :: 0 <= k < |seeds| && NameTaken(rows, seeds[k].name) && !InPlace(rows, seeds, k)
  }

  predicate NamesDistinct(s: seq<SeedCategory>) {
    forall i, j :: 0 <= i < j < |s| ==> s[i].name != s[j].name
  }

  /** No row of the table carries the name of a seed. */
  predicate NoneTaken(rows: seq<Row>, seeds: seq<SeedCategory>) {
    forall k :: 0 <= k < |seeds| ==> !NameTaken(rows, seeds[k].name)
  }

  /** Seeding a table that holds none of the seeds' names, with no name seeded twice, is
      never blocked: a row that carries a seed's name was made from that very seed and is
      in its place. */
  lemma FreshNeverBlocked(seeds: seq<SeedCategory>, start: seq<Row>, rows: seq<Row>)
    requires NamesDistinct(seeds) && NoneTaken(start, seeds)
    requires start <= rows && NewRowsFrom(seeds, start, rows)
    ensures !Blocked(rows, seeds)
  {
    forall k | 0 <= k < |seeds| && NameTaken(rows, seeds[k].name) ensures InPlace(rows, seeds, k) {
      var x :| 0 <= x < |rows| && rows[x].name == seeds[k].name;
      assert forall i :: 0 <= i < |start| ==> start[i] == rows[i];
      assert !NameTaken(start, seeds[k].name);
      assert x >= |start|;
      assert CreatedFrom(seeds, rows, rows[x]);
      var k' :| 0 <= k' < |seeds| && rows[x] == RowOf(seeds[k'], rows[x].id, rows[x].parentId)
                && if seeds[k'].parentName == "" then rows[x].parentId.None?
                   else IsRootSeedName(seeds, seeds[k'].parentName)
                        && rows[x].parentId.Some? && FindRoot(rows, seeds[k'].parentName) == rows[x].parentId;
      assert seeds[k'].name == seeds[k].name;
      assert k' == k;
      if seeds[k].parentName == "" {
        FindRootFirst(rows, seeds[k].name);
      } else {
        assert HasChild(rows, seeds[k].name, rows[x].parentId.value);
      }
    }
  }

  /** No root row follows a child row. */
  predicate RootsFirst(rows: seq<Row>) {
    forall i, j :: 0 <= i < j < |rows| && rows[j].parentId.None? ==> rows[i].parentId.None?
  }

  class CategoryStore {
    var rows: seq<Row>
    var nextId: nat

    constructor (rows: seq<Row>, nextId: nat)
      ensures this.rows == rows && this.nextId == nextId
    {
      this.rows := rows;
      this.nextId := nextId;
    }

    /** `db.Create`: refused when the name is taken, else appended under a fresh id. */
    method Create(seed: SeedCategory, parentId: Option<nat>) returns (id: Option<nat>)
      modifies this
      ensures NameTaken(old(rows), seed.name) ==> id.None? && rows == old(rows) && nextId == old(nextId)
      ensures !NameTaken(old(rows), seed.name) ==>
                id == Some(old(nextId)) && rows == old(rows) + [RowOf(seed, old(nextId), parentId)]
                && nextId == old(nextId) + 1
    {
      if exists i :: 0 <= i < |rows| && rows[i].name == seed.name {
        id := None;
      } else {
        id := Some(nextId);
        rows := rows + [RowOf(seed, nextId, parentId)];
        nextId := nextId + 1;
      }
    }
  }

  /** A root row appended when none of that name existed is the one found from then on. */
  lemma {:induction false} FindRootAppendNew(rows: seq<Row>, row: Row)
    requires FindRoot(rows, row.name).None? && row.parentId.None?
    ensures FindRoot(rows + [row], row.name) == Some(row.id)
  {
    if rows != [] {
      assert (rows + [row])[1..] == rows[1..] + [row];
      FindRootAppendNew(rows[1..], row);
    }
  }

  /** `categoryMap` maps root seed names to the first root row of that name. */
  ghost predicate MapFaithful(rows: seq<Row>, seeds: seq<SeedCategory>, categoryMap: map<string, nat>) {
    forall n :: n in categoryMap ==> FindRoot(rows, n) == Some(categoryMap[n]) && IsRootSeedName(seeds, n)
  }

  /** The rows after `start` were all made from seeds. */
  ghost predicate NewRowsFrom(seeds: seq<SeedCategory>, start: seq<Row>, rows: seq<Row>) {
    forall x :: |start| <= x < |rows| ==> CreatedFrom(seeds, rows, rows[x])
  }

  /** The facts about earlier rows that survive an append. */
  lemma AppendKeeps(seeds: seq<SeedCategory>, start: seq<Row>, before: seq<Row>, row: Row,
                    categoryMap: map<string, nat>)
    requires start <= before && NewRowsFrom(seeds, start, before) && MapFaithful(before, seeds, categoryMap)
    ensures forall x :: |start| <= x < |before| ==> CreatedFrom(seeds, before + [row], (before + [row])[x])
    ensures MapFaithful(before + [row], seeds, categoryMap)
    ensures forall name: string, p: nat :: HasChild(before, name, p) ==> HasChild(before + [row], name, p)
  {
    forall x | |start| <= x < |before|
      ensures CreatedFrom(seeds, before + [row], (before + [row])[x])
    {
      assert (before + [row])[x] == before[x];
      CreatedFromStable(seeds, before, [row], before[x]);
    }
    forall n | n in categoryMap ensures FindRoot(before + [row], n) == Some(categoryMap[n]) {
      FindRootStable(before, [row], n);
    }
    forall name: string, p: nat | HasChild(before, name, p) ensures HasChild(before + [row], name, p) {
      var i :| 0 <= i < |before| && before[i].name == name && before[i].parentId == Some(p);
      assert (before + [row])[i] == before[i];
    }
  }

  /** What holds after the first pass has looked at `seeds[..i]`. */
  ghost predicate RootsInv(seeds: seq<SeedCategory>, start: seq<Row>, rows: seq<Row>,
                           categoryMap: map<string, nat>, i: nat) {
    && i <= |seeds|
    && start <= rows && NewRowsFrom(seeds, start, rows)
    && (forall x :: |start| <= x < |rows| ==> rows[x].parentId.None?)
    && MapFaithful(rows, seeds, categoryMap)
    && (forall k :: 0 <= k < i && seeds[k].parentName == "" ==> seeds[k].name in categoryMap)
    && (Seeded(start, seeds) ==> rows == start)
  }

  /** A root seed with no root row gets one. */
  lemma RootCreated(seeds: seq<SeedCategory>, start: seq<Row>, before: seq<Row>,
                    categoryMap: map<string, nat>, i: nat, id: nat)
    requires RootsInv(seeds, start, before, categoryMap, i) && i < |seeds| && seeds[i].parentName == ""
    requires FindRoot(before, seeds[i].name).None?
    ensures RootsInv(seeds, start, before + [RowOf(seeds[i], id, None)],
                     categoryMap[seeds[i].name := id], i + 1)
  {
    var row := RowOf(seeds[i], id, None);
    var rows := before + [row];
    AppendKeeps(seeds, start, before, row, categoryMap);
    FindRootAppendNew(before, row);
    assert CreatedFrom(seeds, rows, rows[|before|]) by {
      assert rows[|before|] == RowOf(seeds[i], id, None);
    }
  }

  /** A root seed that already has a root row is only recorded in the map. */
  lemma RootFound(seeds: seq<SeedCategory>, start: seq<Row>, rows: seq<Row>,
                  categoryMap: map<string, nat>, i: nat)
    requires RootsInv(seeds, start, rows, categoryMap, i) && i < |seeds| && seeds[i].parentName == ""
    requires FindRoot(rows, seeds[i].name).Some?
    ensures RootsInv(seeds, start, rows, categoryMap[seeds[i].name := FindRoot(rows, seeds[i].name).value], i + 1)
  {
  }

  /** The first pass: a root row for every root seed that has none, and the name→id map. */
  method SeedRoots(store: CategoryStore, seeds: seq<SeedCategory>) returns (ok: bool, categoryMap: map<string, nat>)
    modifies store
    ensures old(store.rows) <= store.rows && NewRowsFrom(seeds, old(store.rows), store.rows)
    ensures forall x :: |old(store.rows)| <= x < |store.rows| ==> store.rows[x].parentId.None?
    ensures ok ==> MapFaithful(store.rows, seeds, categoryMap)
    ensures ok ==> forall n :: IsRootSeedName(seeds, n) ==> n in categoryMap
    ensures !ok ==> Blocked(store.rows, seeds)
    ensures Seeded(old(store.rows), seeds) ==> ok && store.rows == old(store.rows)
  {
    ghost var start := store.rows;
    categoryMap := map[];
    var i := 0;
    while i < |seeds|
      invariant RootsInv(seeds, start, store.rows, categoryMap, i)
    {
      var seed := seeds[i];
      if seed.parentName == "" {
        var found := FindRoot(store.rows, seed.name);
        if found.None? {
          ghost var before := store.rows;
          var id := store.Create(seed, None);
          if id.None? {
            assert NameTaken(store.rows, seeds[i].name) && !InPlace(store.rows, seeds, i);
            return false, categoryMap;
          }
          RootCreated(seeds, start, before, categoryMap, i, id.value);
          categoryMap := categoryMap[seed.name := id.value];
        } else {
          RootFound(seeds, start, store.rows, categoryMap, i);
          categoryMap := categoryMap[seed.name := found.value];
        }
      }
      i := i + 1;
    }
    ok := true;
  }

  /** What holds after the second pass has looked at `seeds[..j]`. */
  ghost predicate ChildrenInv(seeds: seq<SeedCategory>, start: seq<Row>, mid: seq<Row>, rows: seq<Row>,
                              categoryMap: map<string, nat>, j: nat) {
    && j <= |seeds|
    && mid <= rows && NewRowsFrom(seeds, start, rows)
    && (forall x :: |mid| <= x < |rows| ==> rows[x].parentId.Some?)
    && MapFaithful(rows, seeds, categoryMap)
    && (forall k :: 0 <= k < j && seeds[k].parentName != "" && IsRootSeedName(seeds, seeds[k].parentName) ==>
          seeds[k].parentName in categoryMap && HasChild(rows, seeds[k].name, categoryMap[seeds[k].parentName]))
    && (Seeded(mid, seeds) ==> rows == mid)
  }

  lemma ChildCreated(seeds: seq<SeedCategory>, start: seq<Row>, mid: seq<Row>, before: seq<Row>,
                     categoryMap: map<string, nat>, j: nat, id: nat)
    requires start <= mid
    requires ChildrenInv(seeds, start, mid, before, categoryMap, j) && j < |seeds|
    requires seeds[j].parentName != "" && seeds[j].parentName in categoryMap
    requires !HasChild(before, seeds[j].name, categoryMap[seeds[j].parentName])
    ensures ChildrenInv(seeds, start, mid, before + [RowOf(seeds[j], id, Some(categoryMap[seeds[j].parentName]))],
                        categoryMap, j + 1)
  {
    var p := categoryMap[seeds[j].parentName];
    var row := RowOf(seeds[j], id, Some(p));
    var rows := before + [row];
    AppendKeeps(seeds, start, before, row, categoryMap);
    assert CreatedFrom(seeds, rows, rows[|before|]) by {
      assert rows[|before|] == RowOf(seeds[j], id, Some(p));
    }
    assert HasChild(rows, seeds[j].name, p) by {
      assert rows[|before|] == row;
    }
  }

  /** The second pass: a child row for every child seed whose parent is in the map and that
      has no row under that parent yet; other child seeds are skipped. */
  method SeedChildren(store: CategoryStore, seeds: seq<SeedCategory>, categoryMap: map<string, nat>,
                      ghost start: seq<Row>) returns (ok: bool)
    requires start <= store.rows && NewRowsFrom(seeds, start, store.rows)
    requires MapFaithful(store.rows, seeds, categoryMap)
    requires forall n :: IsRootSeedName(seeds, n) ==> n in categoryMap
    modifies store
    ensures old(store.rows) <= store.rows && NewRowsFrom(seeds, start, store.rows)
    ensures forall x :: |old(store.rows)| <= x < |store.rows| ==> store.rows[x].parentId.Some?
    ensures ok ==> Seeded(store.rows, seeds)
    ensures !ok ==> Blocked(store.rows, seeds)
    ensures Seeded(old(store.rows), seeds) ==> ok && store.rows == old(store.rows)
  {
    ghost var mid := store.rows;
    var j := 0;
    while j < |seeds|
      invariant ChildrenInv(seeds, start, mid, store.rows, categoryMap, j)
    {
      var seed := seeds[j];
      if seed.parentName != "" && seed.parentName in categoryMap {
        var parentId := categoryMap[seed.parentName];
        if !HasChild(store.rows, seed.name, parentId) {
          ghost var before := store.rows;
          var id := store.Create(seed, Some(parentId));
          if id.None? {
            assert FindRoot(store.rows, seeds[j].parentName) == Some(parentId);
            assert NameTaken(store.rows, seeds[j].name) && !InPlace(store.rows, seeds, j);
            return false;
          }
          ChildCreated(seeds, start, mid, before, categoryMap, j, id.value);
        }
      }
      j := j + 1;
    }
    ok := true;
  }

  /** Both passes. Rows are only appended; each new row is an active row made from a seed,
      and no new root follows a new child. On success every seed is in place, and a table
      that already held every seed is left as it was. */
  method SeedCategories(store: CategoryStore, seeds: seq<SeedCategory>) returns (ok: bool)
    modifies store
    ensures old(store.rows) <= store.rows
    ensures forall x :: |old(store.rows)| <= x < |store.rows| ==> CreatedFrom(seeds, store.rows, store.rows[x])
    ensures RootsFirst(store.rows[|old(store.rows)|..])
    ensures ok ==> Seeded(store.rows, seeds)
    ensures !ok ==> Blocked(store.rows, seeds)
    ensures NamesDistinct(seeds) && NoneTaken(old(store.rows), seeds) ==> ok
    ensures Seeded(old(store.rows), seeds) ==> ok && store.rows == old(store.rows)
  {
    ghost var start := store.rows;
    var categoryMap;
    ok, categoryMap := SeedRoots(store, seeds);
    if ok {
      ghost var mid := store.rows;
      ok := SeedChildren(store, seeds, categoryMap, start);
      ghost var added := store.rows[|start|..];
      assert forall x :: 0 <= x < |added| ==> (added[x].parentId.None? <==> x < |mid| - |start|);
    }
    if NamesDistinct(seeds) && NoneTaken(start, seeds) {
      FreshNeverBlocked(seeds, start, store.rows);
    }
  }

  /** The entries of `all` whose parent is `parentName`, by a loop that appends. */
  method CategoriesByParent(all: seq<SeedCategory>, parentName: string) returns (r: seq<SeedCategory>)
    ensures r == Filter((c: SeedCategory) => c.parentName == parentName, all)
  {
    r := [];
    var i := 0;
    while i < |all|
      invariant 0 <= i <= |all|
      invariant r == Filter((c: SeedCategory) => c.parentName == parentName, all[..i])
    {
      assert all[..i + 1] == all[..i] + [all[i]];
      FilterAppend((c: SeedCategory) => c.parentName == parentName, all[..i], [all[i]]);
      if all[i].parentName == parentName {
        r := r + [all[i]];
      }
      i := i + 1;
    }
    assert all[..i] == all;
  }
}

/** The system categories of server/models/category_seeds.go: six roots, then the children
    of each root in turn. */
module SystemCategorySeeds {
  import opened Seqs
  import opened CategorySeeding

  /** The six roots */
  const Roots: seq<SeedCategory> := [
    SeedCategory("上衣", "各类上身衣物", "", "👕", 1),
    SeedCategory("下装", "各类下身衣物", "", "👖", 2),
    SeedCategory("鞋子", "各类鞋履", "", "👟", 3),
    SeedCategory("配饰", "各类配饰用品", "", "👜", 4),
    SeedCategory("内衣", "贴身衣物", "", "🩲", 5),
    SeedCategory("外套", "各类外套", "", "🧥", 6)
  ]

  /** The children of 上衣. */
  const TopsChildren: seq<SeedCategory> := [
    SeedCategory("T恤", "短袖T恤衫", "上衣", "👕", 1),
    SeedCategory("衬衫", "各类衬衫", "上衣", "👔", 2),
    SeedCategory("毛衣", "针织毛衣", "上衣", "🧶", 3),
    SeedCategory("背心", "无袖背心", "上衣", "🎽", 4),
    SeedCategory("吊带", "吊带上衣", "上衣", "👙", 5),
    SeedCategory("卫衣", "休闲卫衣", "上衣", "👘", 6)
  ]

  /** The children of 下装. */
  const BottomsChildren: seq<SeedCategory> := [
    SeedCategory("牛仔裤", "各类牛仔裤", "下装", "👖", 1),
    SeedCategory("休闲裤", "休闲长裤", "下装", "👖", 2),
    SeedCategory("西裤", "正装西裤", "下装", "👔", 3),
    SeedCategory("短裤", "各类短裤", "下装", "🩳", 4),
    SeedCategory("裙子", "各类裙装", "下装", "👗", 5),
    SeedCategory("运动裤", "运动长裤", "下装", "🏃", 6)
  ]

  /** The children of 鞋子. */
  const ShoesChildren: seq<SeedCategory> := [
    SeedCategory("运动鞋", "各类运动鞋", "鞋子", "👟", 1),
    SeedCategory("皮鞋", "正装皮鞋", "鞋子", "👞", 2),
    SeedCategory("靴子", "各类靴子", "鞋子", "👢", 3),
    SeedCategory("凉鞋", "夏季凉鞋", "鞋子", "👡", 4),
    SeedCategory("拖鞋", "居家拖鞋", "鞋子", "🩴", 5),
    SeedCategory("高跟鞋", "女式高跟鞋", "鞋子", "👠", 6)
  ]

  /** The children of 配饰. */
  const AccessoriesChildren: seq<SeedCategory> := [
    SeedCategory("包包", "各类包袋", "配饰", "👜", 1),
    SeedCategory("帽子", "各类帽子", "配饰", "👒", 2),
    SeedCategory("围巾", "围巾丝巾", "配饰", "🧣", 3),
    SeedCategory("手表", "各类手表", "配饰", "⌚", 4),
    SeedCategory("首饰", "项链耳环等", "配饰", "💍", 5),
    SeedCategory("眼镜", "眼镜墨镜", "配饰", "👓", 6),
    SeedCategory("腰带", "各类腰带", "配饰", "👔", 7)
  ]

  /** The children of 内衣. */
  const UnderwearChildren: seq<SeedCategory> := [
    SeedCategory("内裤", "各类内裤", "内衣", "🩲", 1),
    SeedCategory("文胸", "女式文胸", "内衣", "👙", 2),
    SeedCategory("保暖内衣", "保暖内衣", "内衣", "🧥", 3),
    SeedCategory("袜子", "各类袜子", "内衣", "🧦", 4)
  ]

  /** The children of 外套. */
  const OuterwearChildren: seq<SeedCategory> := [
    SeedCategory("夹克", "各类夹克", "外套", "🧥", 1),
    SeedCategory("大衣", "长款大衣", "外套", "🧥", 2),
    SeedCategory("羽绒服", "保暖羽绒服", "外套", "🧥", 3),
    SeedCategory("西装", "正装西装", "外套", "🤵", 4),
    SeedCategory("风衣", "时尚风衣", "外套", "🧥", 5),
    SeedCategory("开衫", "针织开衫", "外套", "🧶", 6)
  ]

  const RootNames: seq<string> := ["上衣", "下装", "鞋子", "配饰", "内衣", "外套"]

  const Children: seq<SeedCategory> :=
    TopsChildren + BottomsChildren + ShoesChildren + AccessoriesChildren + UnderwearChildren + OuterwearChildren

  /** `GetSystemCategories`. */
  const SystemCategories: seq<SeedCategory> := Roots + Children

  predicate NamesDisjoint(a: seq<SeedCategory>, b: seq<SeedCategory>) {
    forall i, j :: 0 <= i < |a| && 0 <= j < |b| ==> a[i].name != b[j].name
  }

  lemma NamesDistinctAppend(a: seq<SeedCategory>, b: seq<SeedCategory>)
    requires NamesDistinct(a) && NamesDistinct(b) && NamesDisjoint(a, b)
    ensures NamesDistinct(a + b)
  {
    var s := a + b;
    forall i, j | 0 <= i < j < |s| ensures s[i].name != s[j].name {
      if j < |a| {
        assert s[i] == a[i] && s[j] == a[j];
      } else if i >= |a| {
        assert s[i] == b[i - |a|] && s[j] == b[j - |a|];
      } else {
        assert s[i] == a[i] && s[j] == b[j - |a|];
      }
    }
  }

  /** Names are disjoint from `c` on both sides of a concatenation. */
  lemma NamesDisjointAppend(a: seq<SeedCategory>, b: seq<SeedCategory>, c: seq<SeedCategory>)
    requires NamesDisjoint(a, c) && NamesDisjoint(b, c)
    ensures NamesDisjoint(a + b, c)
  {
    var s := a + b;
    forall i, j | 0 <= i < |s| && 0 <= j < |c| ensures s[i].name != c[j].name {
      if i < |a| {
        assert s[i] == a[i];
      } else {
        assert s[i] == b[i - |a|];
      }
    }
  }

  // Distinctness of the literal names, one group or one pair of groups per lemma.

  lemma RootsDistinct()
    ensures NamesDistinct(Roots)
  {
  }

  lemma TopsDistinct()
    ensures NamesDistinct(TopsChildren)
  {
  }

  lemma BottomsDistinct()
    ensures NamesDistinct(BottomsChildren)
  {
  }

  lemma ShoesDistinct()
    ensures NamesDistinct(ShoesChildren)
  {
  }

  lemma AccessoriesDistinct()
    ensures NamesDistinct(AccessoriesChildren)
  {
  }

  lemma UnderwearDistinct()
    ensures NamesDistinct(UnderwearChildren)
  {
  }

  lemma OuterwearDistinct()
    ensures NamesDistinct(OuterwearChildren)
  {
  }

  lemma RootsTopsDisjoint()
    ensures NamesDisjoint(Roots, TopsChildren)
  {
  }

  lemma RootsBottomsDisjoint()
    ensures NamesDisjoint(Roots, BottomsChildren)
  {
  }

  lemma RootsShoesDisjoint()
    ensures NamesDisjoint(Roots, ShoesChildren)
  {
  }

  lemma RootsAccessoriesDisjoint()
    ensures NamesDisjoint(Roots, AccessoriesChildren)
  {
  }

  lemma RootsUnderwearDisjoint()
    ensures NamesDisjoint(Roots, UnderwearChildren)
  {
  }

  lemma RootsOuterwearDisjoint()
    ensures NamesDisjoint(Roots, OuterwearChildren)
  {
  }

  lemma TopsBottomsDisjoint()
    ensures NamesDisjoint(TopsChildren, BottomsChildren)
  {
  }

  lemma TopsShoesDisjoint()
    ensures NamesDisjoint(TopsChildren, ShoesChildren)
  {
  }

  lemma TopsAccessoriesDisjoint()
    ensures NamesDisjoint(TopsChildren, AccessoriesChildren)
  {
  }

  lemma TopsUnderwearDisjoint()
    ensures NamesDisjoint(TopsChildren, UnderwearChildren)
  {
  }

  lemma TopsOuterwearDisjoint()
    ensures NamesDisjoint(TopsChildren, OuterwearChildren)
  {
  }

  lemma BottomsShoesDisjoint()
    ensures NamesDisjoint(BottomsChildren, ShoesChildren)
  {
  }

  lemma BottomsAccessoriesDisjoint()
    ensures NamesDisjoint(BottomsChildren, AccessoriesChildren)
  {
  }

  lemma BottomsUnderwearDisjoint()
    ensures NamesDisjoint(BottomsChildren, UnderwearChildren)
  {
  }

  lemma BottomsOuterwearDisjoint()
    ensures NamesDisjoint(BottomsChildren, OuterwearChildren)
  {
  }

  lemma ShoesAccessoriesDisjoint()
    ensures NamesDisjoint(ShoesChildren, AccessoriesChildren)
  {
  }

  lemma ShoesUnderwearDisjoint()
    ensures NamesDisjoint(ShoesChildren, UnderwearChildren)
  {
  }

  lemma ShoesOuterwearDisjoint()
    ensures NamesDisjoint(ShoesChildren, OuterwearChildren)
  {
  }

  lemma AccessoriesUnderwearDisjoint()
    ensures NamesDisjoint(AccessoriesChildren, UnderwearChildren)
  {
  }

  lemma AccessoriesOuterwearDisjoint()
    ensures NamesDisjoint(AccessoriesChildren, OuterwearChildren)
  {
  }

  lemma UnderwearOuterwearDisjoint()
    ensures NamesDisjoint(UnderwearChildren, OuterwearChildren)
  {
  }

  lemma UpToTopsDistinct()
    ensures NamesDistinct(Roots + TopsChildren)
  {
    RootsDistinct();
    TopsDistinct();
    RootsTopsDisjoint();
    NamesDistinctAppend(Roots, TopsChildren);
  }

  lemma UpToBottomsDistinct()
    ensures NamesDistinct(Roots + TopsChildren + BottomsChildren)
  {
    UpToTopsDistinct();
    BottomsDistinct();
    RootsBottomsDisjoint();
    TopsBottomsDisjoint();
    NamesDisjointAppend(Roots, TopsChildren, BottomsChildren);
    NamesDistinctAppend(Roots + TopsChildren, BottomsChildren);
  }

  lemma UpToShoesDistinct()
    ensures NamesDistinct(Roots + TopsChildren + BottomsChildren + ShoesChildren)
  {
    UpToBottomsDistinct();
    ShoesDistinct();
    RootsShoesDisjoint();
    TopsShoesDisjoint();
    BottomsShoesDisjoint();
    NamesDisjointAppend(Roots, TopsChildren, ShoesChildren);
    NamesDisjointAppend(Roots + TopsChildren, BottomsChildren, ShoesChildren);
    NamesDistinctAppend(Roots + TopsChildren + BottomsChildren, ShoesChildren);
  }

  lemma UpToAccessoriesDistinct()
    ensures NamesDistinct(Roots + TopsChildren + BottomsChildren + ShoesChildren + AccessoriesChildren)
  {
    UpToShoesDistinct();
    AccessoriesDistinct();
    RootsAccessoriesDisjoint();
    TopsAccessoriesDisjoint();
    BottomsAccessoriesDisjoint();
    ShoesAccessoriesDisjoint();
    NamesDisjointAppend(Roots, TopsChildren, AccessoriesChildren);
    NamesDisjointAppend(Roots + TopsChildren, BottomsChildren, AccessoriesChildren);
    NamesDisjointAppend(Roots + TopsChildren + BottomsChildren, ShoesChildren, AccessoriesChildren);
    NamesDistinctAppend(Roots + TopsChildren + BottomsChildren + ShoesChildren, AccessoriesChildren);
  }

  lemma UpToUnderwearDistinct()
    ensures NamesDistinct(Roots + TopsChildren + BottomsChildren + ShoesChildren + AccessoriesChildren + UnderwearChildren)
  {
    UpToAccessoriesDistinct();
    UnderwearDistinct();
    RootsUnderwearDisjoint();
    TopsUnderwearDisjoint();
    BottomsUnderwearDisjoint();
    ShoesUnderwearDisjoint();
    AccessoriesUnderwearDisjoint();
    NamesDisjointAppend(Roots, TopsChildren, UnderwearChildren);
    NamesDisjointAppend(Roots + TopsChildren, BottomsChildren, UnderwearChildren);
    NamesDisjointAppend(Roots + TopsChildren + BottomsChildren, ShoesChildren, UnderwearChildren);
    NamesDisjointAppend(Roots + TopsChildren + BottomsChildren + ShoesChildren, AccessoriesChildren, UnderwearChildren);
    NamesDistinctAppend(Roots + TopsChildren + BottomsChildren + ShoesChildren + AccessoriesChildren, UnderwearChildren);
  }

  lemma UpToOuterwearDistinct()
    ensures NamesDistinct(Roots + TopsChildren + BottomsChildren + ShoesChildren + AccessoriesChildren + UnderwearChildren + OuterwearChildren)
  {
    UpToUnderwearDistinct();
    OuterwearDistinct();
    RootsOuterwearDisjoint();
    TopsOuterwearDisjoint();
    BottomsOuterwearDisjoint();
    ShoesOuterwearDisjoint();
    AccessoriesOuterwearDisjoint();
    UnderwearOuterwearDisjoint();
    NamesDisjointAppend(Roots, TopsChildren, OuterwearChildren);
    NamesDisjointAppend(Roots + TopsChildren, BottomsChildren, OuterwearChildren);
    NamesDisjointAppend(Roots + TopsChildren + BottomsChildren, ShoesChildren, OuterwearChildren);
    NamesDisjointAppend(Roots + TopsChildren + BottomsChildren + ShoesChildren, AccessoriesChildren, OuterwearChildren);
    NamesDisjointAppend(Roots + TopsChildren + BottomsChildren + ShoesChildren + AccessoriesChildren, UnderwearChildren, OuterwearChildren);
    NamesDistinctAppend(Roots + TopsChildren + BottomsChildren + ShoesChildren + AccessoriesChildren + UnderwearChildren, OuterwearChildren);
  }

  /** No two system categories share a name. */
  lemma SystemCategoryNamesDistinct()
    ensures NamesDistinct(SystemCategories)
  {
    UpToOuterwearDistinct();
    assert SystemCategories == Roots + TopsChildren + BottomsChildren + ShoesChildren + AccessoriesChildren + UnderwearChildren + OuterwearChildren;
  }

  /** Every entry of `g` is a child of a root in `RootNames`. */
  predicate ChildrenOfRoots(g: seq<SeedCategory>) {
    forall i :: 0 <= i < |g| ==> g[i].parentName != "" && g[i].parentName in RootNames
  }

  lemma ChildrenOfRootsAppend(a: seq<SeedCategory>, b: seq<SeedCategory>)
    requires ChildrenOfRoots(a) && ChildrenOfRoots(b)
    ensures ChildrenOfRoots(a + b)
  {
    forall i | 0 <= i < |a + b| ensures (a + b)[i].parentName != "" && (a + b)[i].parentName in RootNames {
      if i < |a| { assert (a + b)[i] == a[i]; } else { assert (a + b)[i] == b[i - |a|]; }
    }
  }

  lemma AllChildrenOfRoots()
    ensures ChildrenOfRoots(Children) && |Children| == 35
  {
    assert ChildrenOfRoots(TopsChildren) && ChildrenOfRoots(BottomsChildren) && ChildrenOfRoots(ShoesChildren);
    assert ChildrenOfRoots(AccessoriesChildren) && ChildrenOfRoots(UnderwearChildren) && ChildrenOfRoots(OuterwearChildren);
    ChildrenOfRootsAppend(TopsChildren, BottomsChildren);
    ChildrenOfRootsAppend(TopsChildren + BottomsChildren, ShoesChildren);
    ChildrenOfRootsAppend(TopsChildren + BottomsChildren + ShoesChildren, AccessoriesChildren);
    ChildrenOfRootsAppend(TopsChildren + BottomsChildren + ShoesChildren + AccessoriesChildren, UnderwearChildren);
    ChildrenOfRootsAppend(TopsChildren + BottomsChildren + ShoesChildren + AccessoriesChildren + UnderwearChildren,
                          OuterwearChildren);
  }

  lemma RootsAreRoots()
    ensures forall i :: 0 <= i < |Roots| ==> Roots[i].parentName == "" && Roots[i].name == RootNames[i]
    ensures |Roots| == 6
  {
  }

  /** Entry `i` of the list is entry `i` of the roots or entry `i - 6` of the children. */
  lemma SystemCategoriesIndex(i: int)
    requires 0 <= i < |SystemCategories|
    ensures |SystemCategories| == 41
    ensures i < 6 ==> SystemCategories[i] == Roots[i]
    ensures i >= 6 ==> SystemCategories[i] == Children[i - 6]
  {
    RootsAreRoots();
    AllChildrenOfRoots();
  }

  /** Exactly the first six entries are roots, named as in `RootNames`, and every other
      entry is a child of one of them. */
  lemma SystemCategoriesShape()
    ensures |SystemCategories| == 41
    ensures forall i :: 0 <= i < |SystemCategories| ==> (SystemCategories[i].parentName == "" <==> i < 6)
    ensures forall i :: 0 <= i < 6 ==> SystemCategories[i].name == RootNames[i]
    ensures forall i :: 6 <= i < |SystemCategories| ==> SystemCategories[i].parentName in RootNames
  {
    RootsAreRoots();
    AllChildrenOfRoots();
    forall i | 0 <= i < |SystemCategories|
      ensures (SystemCategories[i].parentName == "" <==> i < 6)
      ensures i < 6 ==> SystemCategories[i].name == RootNames[i]
      ensures i >= 6 ==> SystemCategories[i].parentName in RootNames
    {
      SystemCategoriesIndex(i);
    }
  }

  /** The root seed names are exactly `RootNames`. */
  lemma RootSeedNames(n: string)
    ensures IsRootSeedName(SystemCategories, n) <==> n in RootNames
  {
    SystemCategoriesShape();
    if n in RootNames {
      var k :| 0 <= k < 6 && RootNames[k] == n;
      assert SystemCategories[k].parentName == "" && SystemCategories[k].name == n;
    }
  }

  /** `GetSystemCategoriesByParent`. */
  method GetSystemCategoriesByParent(parentName: string) returns (r: seq<SeedCategory>)
    ensures r == Filter((c: SeedCategory) => c.parentName == parentName, SystemCategories)
  {
    r := CategoriesByParent(SystemCategories, parentName);
  }

  lemma FilterRootsFirst(roots: seq<SeedCategory>, children: seq<SeedCategory>)
    requires forall i :: 0 <= i < |roots| ==> roots[i].parentName == ""
    requires forall i :: 0 <= i < |children| ==> children[i].parentName != ""
    ensures Filter((c: SeedCategory) => c.parentName == "", roots + children) == roots
  {
    var p := (c: SeedCategory) => c.parentName == "";
    FilterAppend(p, roots, children);
    FilterAll(p, roots);
    FilterNone(p, children);
  }

  /** The empty parent name selects exactly the six roots, in order. */
  lemma RootsByEmptyParent()
    ensures Filter((c: SeedCategory) => c.parentName == "", SystemCategories) == Roots
  {
    RootsAreRoots();
    AllChildrenOfRoots();
    FilterRootsFirst(Roots, Children);
  }

  /** `SeedSystemCategories`: the shared two passes over the system categories. */
  method SeedSystemCategories(store: CategoryStore) returns (ok: bool)
    modifies store
    ensures old(store.rows) <= store.rows
    ensures forall x :: |old(store.rows)| <= x < |store.rows| ==>
              CreatedFrom(SystemCategories, store.rows, store.rows[x])
    ensures RootsFirst(store.rows[|old(store.rows)|..])
    ensures ok ==> Seeded(store.rows, SystemCategories)
    ensures !ok ==> Blocked(store.rows, SystemCategories)
    ensures NoneTaken(old(store.rows), SystemCategories) ==> ok
    ensures Seeded(old(store.rows), SystemCategories) ==> ok && store.rows == old(store.rows)
  {
    SystemCategoryNamesDistinct();
    ok := SeedCategories(store, SystemCategories);
  }
}

/** The category seeds of server/database/categories.go: the same table as the model's
    system categories, written out a second time, and the same two-pass seeding. */
module DatabaseCategorySeeds {
  import opened Seqs
  import opened CategorySeeding
  import S = SystemCategorySeeds

  /** The six roots */
  const DbRoots: seq<SeedCategory> := [
    SeedCategory("上衣", "各类上身衣物", "", "👕", 1),
    SeedCategory("下装", "各类下身衣物", "", "👖", 2),
    SeedCategory("鞋子", "各类鞋履", "", "👟", 3),
    SeedCategory("配饰", "各类配饰用品", "", "👜", 4),
    SeedCategory("内衣", "贴身衣物", "", "🩲", 5),
    SeedCategory("外套", "各类外套", "", "🧥", 6)
  ]

  /** The children of 上衣. */
  const DbTopsChildren: seq<SeedCategory> := [
    SeedCategory("T恤", "短袖T恤衫", "上衣", "👕", 1),
    SeedCategory("衬衫", "各类衬衫", "上衣", "👔", 2),
    SeedCategory("毛衣", "针织毛衣", "上衣", "🧶", 3),
    SeedCategory("背心", "无袖背心", "上衣", "🎽", 4),
    SeedCategory("吊带", "吊带上衣", "上衣", "👙", 5),
    SeedCategory("卫衣", "休闲卫衣", "上衣", "👘", 6)
  ]

  /** The children of 下装. */
  const DbBottomsChildren: seq<SeedCategory> := [
    SeedCategory("牛仔裤", "各类牛仔裤", "下装", "👖", 1),
    SeedCategory("休闲裤", "休闲长裤", "下装", "👖", 2),
    SeedCategory("西裤", "正装西裤", "下装", "👔", 3),
    SeedCategory("短裤", "各类短裤", "下装", "🩳", 4),
    SeedCategory("裙子", "各类裙装", "下装", "👗", 5),
    SeedCategory("运动裤", "运动长裤", "下装", "🏃", 6)
  ]

  /** The children of 鞋子. */
  const DbShoesChildren: seq<SeedCategory> := [
    SeedCategory("运动鞋", "各类运动鞋", "鞋子", "👟", 1),
    SeedCategory("皮鞋", "正装皮鞋", "鞋子", "👞", 2),
    SeedCategory("靴子", "各类靴子", "鞋子", "👢", 3),
    SeedCategory("凉鞋", "夏季凉鞋", "鞋子", "👡", 4),
    SeedCategory("拖鞋", "居家拖鞋", "鞋子", "🩴", 5),
    SeedCategory("高跟鞋", "女式高跟鞋", "鞋子", "👠", 6)
  ]

  /** The children of 配饰. */
  const DbAccessoriesChildren: seq<SeedCategory> := [
    SeedCategory("包包", "各类包袋", "配饰", "👜", 1),
    SeedCategory("帽子", "各类帽子", "配饰", "👒", 2),
    SeedCategory("围巾", "围巾丝巾", "配饰", "🧣", 3),
    SeedCategory("手表", "各类手表", "配饰", "⌚", 4),
    SeedCategory("首饰", "项链耳环等", "配饰", "💍", 5),
    SeedCategory("眼镜", "眼镜墨镜", "配饰", "👓", 6),
    SeedCategory("腰带", "各类腰带", "配饰", "👔", 7)
  ]

  /** The children of 内衣. */
  const DbUnderwearChildren: seq<SeedCategory> := [
    SeedCategory("内裤", "各类内裤", "内衣", "🩲", 1),
    SeedCategory("文胸", "女式文胸", "内衣", "👙", 2),
    SeedCategory("保暖内衣", "保暖内衣", "内衣", "🧥", 3),
    SeedCategory("袜子", "各类袜子", "内衣", "🧦", 4)
  ]

  /** The children of 外套. */
  const DbOuterwearChildren: seq<SeedCategory> := [
    SeedCategory("夹克", "各类夹克", "外套", "🧥", 1),
    SeedCategory("大衣", "长款大衣", "外套", "🧥", 2),
    SeedCategory("羽绒服", "保暖羽绒服", "外套", "🧥", 3),
    SeedCategory("西装", "正装西装", "外套", "🤵", 4),
    SeedCategory("风衣", "时尚风衣", "外套", "🧥", 5),
    SeedCategory("开衫", "针织开衫", "外套", "🧶", 6)
  ]

  /** `GetCategorySeeds`. */
  const CategorySeeds: seq<SeedCategory> :=
    DbRoots + DbTopsChildren + DbBottomsChildren + DbShoesChildren + DbAccessoriesChildren
    + DbUnderwearChildren + DbOuterwearChildren

  /** Both copies of the table hold the same entries in the same order. */
  lemma SameAsSystemCategories()
    ensures CategorySeeds == S.SystemCategories
  {
    assert DbRoots == S.Roots;
    assert DbTopsChildren == S.TopsChildren;
    assert DbBottomsChildren == S.BottomsChildren;
    assert DbShoesChildren == S.ShoesChildren;
    assert DbAccessoriesChildren == S.AccessoriesChildren;
    assert DbUnderwearChildren == S.UnderwearChildren;
    assert DbOuterwearChildren == S.OuterwearChildren;
  }

  /** Six roots first, every later entry a child of one of them, no name twice. */
  lemma CategorySeedsShape()
    ensures |CategorySeeds| == 41
    ensures forall i :: 0 <= i < |CategorySeeds| ==> (CategorySeeds[i].parentName == "" <==> i < 6)
    ensures forall i :: 6 <= i < |CategorySeeds| ==> CategorySeeds[i].parentName in S.RootNames
    ensures forall i, j :: 0 <= i < j < |CategorySeeds| ==> CategorySeeds[i].name != CategorySeeds[j].name
  {
    SameAsSystemCategories();
    S.SystemCategoriesShape();
    S.SystemCategoryNamesDistinct();
  }

  /** `GetCategoriesByParent`. */
  method GetCategoriesByParent(parentName: string) returns (r: seq<SeedCategory>)
    ensures r == Filter((c: SeedCategory) => c.parentName == parentName, CategorySeeds)
  {
    r := CategoriesByParent(CategorySeeds, parentName);
  }

  /** `SeedCategories`: the two passes over the category seeds. */
  method SeedDatabaseCategories(store: CategoryStore) returns (ok: bool)
    modifies store
    ensures old(store.rows) <= store.rows
    ensures forall x :: |old(store.rows)| <= x < |store.rows| ==>
              CreatedFrom(CategorySeeds, store.rows, store.rows[x])
    ensures RootsFirst(store.rows[|old(store.rows)|..])
    ensures ok ==> Seeded(store.rows, CategorySeeds)
    ensures !ok ==> Blocked(store.rows, CategorySeeds)
    ensures NoneTaken(old(store.rows), CategorySeeds) ==> ok
    ensures Seeded(old(store.rows), CategorySeeds) ==> ok && store.rows == old(store.rows)
  {
    CategorySeedsShape();
    ok := SeedCategories(store, CategorySeeds);
  }
}

/** The system tags of server/models/tag_seeds.go, their seeding into `clothing_tags` and
    the by-type filter. */
module TagSeeds {
  import opened Wrappers
  import opened Seqs
  import TagModel

  type Tag = TagModel.ClothingTag

  datatype SeedTag = SeedTag(name: string, kind: string, description: string, color: string,
                             icon: string, sortOrder: int)

  const SeasonTags: seq<SeedTag> := [
    SeedTag("春季", "season", "适合春季穿着", "#90EE90", "🌸", 1),
    SeedTag("夏季", "season", "适合夏季穿着", "#FFD700", "☀️", 2),
    SeedTag("秋季", "season", "适合秋季穿着", "#DEB887", "🍂", 3),
    SeedTag("冬季", "season", "适合冬季穿着", "#87CEEB", "❄️", 4)
  ]

  const OccasionTags: seq<SeedTag> := [
    SeedTag("休闲", "occasion", "日常休闲场合", "#98FB98", "🏠", 1),
    SeedTag("正式", "occasion", "正式商务场合", "#4682B4", "💼", 2),
    SeedTag("运动", "occasion", "运动健身场合", "#FF6347", "🏃", 3),
    SeedTag("派对", "occasion", "聚会派对场合", "#FF69B4", "🎉", 4),
    SeedTag("工作", "occasion", "工作办公场合", "#708090", "🏢", 5),
    SeedTag("约会", "occasion", "约会浪漫场合", "#FFB6C1", "💕", 6),
    SeedTag("旅行", "occasion", "旅行出游场合", "#20B2AA", "✈️", 7)
  ]

  const StyleTags: seq<SeedTag> := [
    SeedTag("简约", "style", "简约现代风格", "#F5F5F5", "⚪", 1),
    SeedTag("复古", "style", "复古怀旧风格", "#D2691E", "📻", 2),
    SeedTag("街头", "style", "街头潮流风格", "#FF4500", "🛹", 3),
    SeedTag("优雅", "style", "优雅精致风格", "#DDA0DD", "👑", 4),
    SeedTag("运动风", "style", "运动休闲风格", "#32CD32", "⚽", 5),
    SeedTag("商务", "style", "商务专业风格", "#2F4F4F", "📊", 6),
    SeedTag("甜美", "style", "甜美可爱风格", "#FFB6C1", "🎀", 7),
    SeedTag("朋克", "style", "朋克摇滚风格", "#000000", "🎸", 8)
  ]

  const ColorTags: seq<SeedTag> := [
    SeedTag("基础色", "color", "黑白灰等基础色", "#808080", "⚫", 1),
    SeedTag("亮色", "color", "鲜艳明亮色彩", "#FF0000", "🔴", 2),
    SeedTag("暗色", "color", "深沉暗淡色彩", "#2F2F2F", "⚫", 3),
    SeedTag("中性色", "color", "中性自然色彩", "#8FBC8F", "🟤", 4)
  ]

  const MaterialTags: seq<SeedTag> := [
    SeedTag("棉质", "material", "纯棉材质", "#F0E68C", "🌿", 1),
    SeedTag("丝质", "material", "真丝材质", "#DDA0DD", "✨", 2),
    SeedTag("羊毛", "material", "羊毛材质", "#F5DEB3", "🐑", 3),
    SeedTag("皮革", "material", "真皮材质", "#8B4513", "🦬", 4),
    SeedTag("牛仔", "material", "牛仔布料", "#4169E1", "👖", 5),
    SeedTag("聚酯纤维", "material", "化纤材质", "#B0C4DE", "🧵", 6)
  ]

  const BrandTags: seq<SeedTag> := [
    SeedTag("奢侈品牌", "brand", "高端奢侈品牌", "#FFD700", "💎", 1),
    SeedTag("快时尚", "brand", "快时尚品牌", "#FF69B4", "⚡", 2),
    SeedTag("设计师品牌", "brand", "独立设计师品牌", "#9370DB", "🎨", 3),
    SeedTag("运动品牌", "brand", "专业运动品牌", "#32CD32", "🏃", 4)
  ]

  /** `GetSystemTags`: the six groups in turn. */
  const SystemTags: seq<SeedTag> := SeasonTags + OccasionTags + StyleTags + ColorTags + MaterialTags + BrandTags

  /** The filter's test: the entry has type `kind`. */
  function KindIs(kind: string): SeedTag -> bool {
    (t: SeedTag) => t.kind == kind
  }

  predicate OfKind(g: seq<SeedTag>, kind: string) {
    forall i :: 0 <= i < |g| ==> g[i].kind == kind
  }

  predicate NamesDistinct(s: seq<SeedTag>) {
    forall i, j :: 0 <= i < j < |s| ==> s[i].name != s[j].name
  }

  predicate NamesDisjoint(a: seq<SeedTag>, b: seq<SeedTag>) {
    forall i, j :: 0 <= i < |a| && 0 <= j < |b| ==> a[i].name != b[j].name
  }

  lemma NamesDistinctAppend(a: seq<SeedTag>, b: seq<SeedTag>)
    requires NamesDistinct(a) && NamesDistinct(b) && NamesDisjoint(a, b)
    ensures NamesDistinct(a + b)
  {
    var s := a + b;
    forall i, j | 0 <= i < j < |s| ensures s[i].name != s[j].name {
      if j < |a| {
        assert s[i] == a[i] && s[j] == a[j];
      } else if i >= |a| {
        assert s[i] == b[i - |a|] && s[j] == b[j - |a|];
      } else {
        assert s[i] == a[i] && s[j] == b[j - |a|];
      }
    }
  }

  /** Names are disjoint from `c` on both sides of a concatenation. */
  lemma NamesDisjointAppend(a: seq<SeedTag>, b: seq<SeedTag>, c: seq<SeedTag>)
    requires NamesDisjoint(a, c) && NamesDisjoint(b, c)
    ensures NamesDisjoint(a + b, c)
  {
    var s := a + b;
    forall i, j | 0 <= i < |s| && 0 <= j < |c| ensures s[i].name != c[j].name {
      if i < |a| {
        assert s[i] == a[i];
      } else {
        assert s[i] == b[i - |a|];
      }
    }
  }

  /** Names are disjoint from a concatenation when they are from both parts. */
  lemma NamesDisjointAppendRight(a: seq<SeedTag>, b: seq<SeedTag>, c: seq<SeedTag>)
    requires NamesDisjoint(a, b) && NamesDisjoint(a, c)
    ensures NamesDisjoint(a, b + c)
  {
    var s := b + c;
    forall i, j | 0 <= i < |a| && 0 <= j < |s| ensures a[i].name != s[j].name {
      if j < |b| {
        assert s[j] == b[j];
      } else {
        assert s[j] == c[j - |b|];
      }
    }
  }

  /** Three groups whose names are distinct within each and disjoint across each pair
      have distinct names together. */
  lemma ThreeDistinct(a: seq<SeedTag>, b: seq<SeedTag>, c: seq<SeedTag>)
    requires NamesDistinct(a) && NamesDistinct(b) && NamesDistinct(c)
    requires NamesDisjoint(a, b) && NamesDisjoint(a, c) && NamesDisjoint(b, c)
    ensures NamesDistinct(a + b + c)
  {
    NamesDistinctAppend(a, b);
    NamesDisjointAppend(a, b, c);
    NamesDistinctAppend(a + b, c);
  }

  // Distinctness of the literal names, one group or one pair of groups per lemma.

  lemma SeasonDistinct()
    ensures NamesDistinct(SeasonTags)
  {
  }

  lemma OccasionDistinct()
    ensures NamesDistinct(OccasionTags)
  {
  }

  lemma StyleDistinct()
    ensures NamesDistinct(StyleTags)
  {
  }

  lemma ColorDistinct()
    ensures NamesDistinct(ColorTags)
  {
  }

  lemma MaterialDistinct()
    ensures NamesDistinct(MaterialTags)
  {
  }

  lemma BrandDistinct()
    ensures NamesDistinct(BrandTags)
  {
  }

  lemma SeasonOccasionDisjoint()
    ensures NamesDisjoint(SeasonTags, OccasionTags)
  {
  }

  lemma SeasonStyleDisjoint()
    ensures NamesDisjoint(SeasonTags, StyleTags)
  {
  }

  lemma SeasonColorDisjoint()
    ensures NamesDisjoint(SeasonTags, ColorTags)
  {
  }

  lemma SeasonMaterialDisjoint()
    ensures NamesDisjoint(SeasonTags, MaterialTags)
  {
  }

  lemma SeasonBrandDisjoint()
    ensures NamesDisjoint(SeasonTags, BrandTags)
  {
  }

  lemma OccasionStyleDisjoint()
    ensures NamesDisjoint(OccasionTags, StyleTags)
  {
  }

  lemma OccasionColorDisjoint()
    ensures NamesDisjoint(OccasionTags, ColorTags)
  {
  }

  lemma OccasionMaterialDisjoint()
    ensures NamesDisjoint(OccasionTags, MaterialTags)
  {
  }

  lemma OccasionBrandDisjoint()
    ensures NamesDisjoint(OccasionTags, BrandTags)
  {
  }

  lemma StyleColorDisjoint()
    ensures NamesDisjoint(StyleTags, ColorTags)
  {
  }

  lemma StyleMaterialDisjoint()
    ensures NamesDisjoint(StyleTags, MaterialTags)
  {
  }

  lemma StyleBrandDisjoint()
    ensures NamesDisjoint(StyleTags, BrandTags)
  {
  }

  lemma ColorMaterialDisjoint()
    ensures NamesDisjoint(ColorTags, MaterialTags)
  {
  }

  lemma ColorBrandDisjoint()
    ensures NamesDisjoint(ColorTags, BrandTags)
  {
  }

  lemma MaterialBrandDisjoint()
    ensures NamesDisjoint(MaterialTags, BrandTags)
  {
  }

  lemma FirstThreeDistinct()
    ensures NamesDistinct(SeasonTags + OccasionTags + StyleTags)
  {
    SeasonDistinct();
    OccasionDistinct();
    StyleDistinct();
    SeasonOccasionDisjoint();
    SeasonStyleDisjoint();
    OccasionStyleDisjoint();
    ThreeDistinct(SeasonTags, OccasionTags, StyleTags);
  }

  lemma LastThreeDistinct()
    ensures NamesDistinct(ColorTags + MaterialTags + BrandTags)
  {
    ColorDistinct();
    MaterialDistinct();
    BrandDistinct();
    ColorMaterialDisjoint();
    ColorBrandDisjoint();
    MaterialBrandDisjoint();
    ThreeDistinct(ColorTags, MaterialTags, BrandTags);
  }

  lemma GroupsDisjoint()
    ensures NamesDisjoint(SeasonTags + OccasionTags + StyleTags, ColorTags + MaterialTags + BrandTags)
  {
    var right := ColorTags + MaterialTags + BrandTags;
    SeasonColorDisjoint();
    SeasonMaterialDisjoint();
    SeasonBrandDisjoint();
    OccasionColorDisjoint();
    OccasionMaterialDisjoint();
    OccasionBrandDisjoint();
    StyleColorDisjoint();
    StyleMaterialDisjoint();
    StyleBrandDisjoint();
    AcrossDisjoint(SeasonTags);
    AcrossDisjoint(OccasionTags);
    AcrossDisjoint(StyleTags);
    NamesDisjointAppend(SeasonTags, OccasionTags, right);
    NamesDisjointAppend(SeasonTags + OccasionTags, StyleTags, right);
  }

  /** A group disjoint from each of the last three is disjoint from all of them. */
  lemma AcrossDisjoint(g: seq<SeedTag>)
    requires NamesDisjoint(g, ColorTags) && NamesDisjoint(g, MaterialTags) && NamesDisjoint(g, BrandTags)
    ensures NamesDisjoint(g, ColorTags + MaterialTags + BrandTags)
  {
    NamesDisjointAppendRight(g, ColorTags, MaterialTags);
    NamesDisjointAppendRight(g, ColorTags + MaterialTags, BrandTags);
  }

  /** No two system tags share a name, so in particular none within a type. */
  lemma SystemTagNamesDistinct()
    ensures NamesDistinct(SystemTags)
    ensures forall i, j :: 0 <= i < j < |SystemTags| && SystemTags[i].kind == SystemTags[j].kind ==>
              SystemTags[i].name != SystemTags[j].name
  {
    FirstThreeDistinct();
    LastThreeDistinct();
    GroupsDisjoint();
    NamesDistinctAppend(SeasonTags + OccasionTags + StyleTags, ColorTags + MaterialTags + BrandTags);
    assert SystemTags == (SeasonTags + OccasionTags + StyleTags) + (ColorTags + MaterialTags + BrandTags);
  }

  lemma GroupKinds()
    ensures OfKind(SeasonTags, "season") && OfKind(OccasionTags, "occasion") && OfKind(StyleTags, "style")
    ensures OfKind(ColorTags, "color") && OfKind(MaterialTags, "material") && OfKind(BrandTags, "brand")
    ensures |SeasonTags| == 4 && |OccasionTags| == 7 && |StyleTags| == 8
    ensures |ColorTags| == 4 && |MaterialTags| == 6 && |BrandTags| == 4
  {
  }

  lemma FilterGroup(g: seq<SeedTag>, groupKind: string, kind: string)
    requires OfKind(g, groupKind)
    ensures Filter(KindIs(kind), g) == if groupKind == kind then g else []
  {
    if groupKind == kind {
      FilterAll(KindIs(kind), g);
    } else {
      FilterNone(KindIs(kind), g);
    }
  }

  lemma FilterSixGroups(p: SeedTag -> bool, a: seq<SeedTag>, b: seq<SeedTag>, c: seq<SeedTag>,
                        d: seq<SeedTag>, e: seq<SeedTag>, f: seq<SeedTag>)
    ensures Filter(p, a + b + c + d + e + f)
         == Filter(p, a) + Filter(p, b) + Filter(p, c) + Filter(p, d) + Filter(p, e) + Filter(p, f)
  {
    FilterAppend(p, a, b);
    FilterAppend(p, a + b, c);
    FilterAppend(p, a + b + c, d);
    FilterAppend(p, a + b + c + d, e);
    FilterAppend(p, a + b + c + d + e, f);
  }

  lemma ByKindOfGroups(a: seq<SeedTag>, b: seq<SeedTag>, c: seq<SeedTag>, d: seq<SeedTag>,
                       e: seq<SeedTag>, f: seq<SeedTag>, kind: string)
    requires OfKind(a, "season") && OfKind(b, "occasion") && OfKind(c, "style")
    requires OfKind(d, "color") && OfKind(e, "material") && OfKind(f, "brand")
    ensures Filter(KindIs(kind), a + b + c + d + e + f) ==
              match kind
              case "season" => a
              case "occasion" => b
              case "style" => c
              case "color" => d
              case "material" => e
              case "brand" => f
              case _ => []
  {
    var p := KindIs(kind);
    FilterSixGroups(p, a, b, c, d, e, f);
    FilterGroup(a, "season", kind);
    FilterGroup(b, "occasion", kind);
    FilterGroup(c, "style", kind);
    FilterGroup(d, "color", kind);
    FilterGroup(e, "material", kind);
    FilterGroup(f, "brand", kind);
    SixGroups(a, b, c, d, e, f, kind, Filter(p, a), Filter(p, b), Filter(p, c), Filter(p, d),
              Filter(p, e), Filter(p, f));
  }

  /** The case split of `ByKindOfGroups` over the six filtered groups. */
  lemma SixGroups(a: seq<SeedTag>, b: seq<SeedTag>, c: seq<SeedTag>, d: seq<SeedTag>,
                  e: seq<SeedTag>, f: seq<SeedTag>, kind: string,
                  fa: seq<SeedTag>, fb: seq<SeedTag>, fc: seq<SeedTag>, fd: seq<SeedTag>,
                  fe: seq<SeedTag>, ff: seq<SeedTag>)
    requires fa == (if kind == "season" then a else []) && fb == (if kind == "occasion" then b else [])
    requires fc == (if kind == "style" then c else []) && fd == (if kind == "color" then d else [])
    requires fe == (if kind == "material" then e else []) && ff == (if kind == "brand" then f else [])
    ensures fa + fb + fc + fd + fe + ff ==
              match kind
              case "season" => a
              case "occasion" => b
              case "style" => c
              case "color" => d
              case "material" => e
              case "brand" => f
              case _ => []
  {
    var none: seq<SeedTag> := [];
    match kind
    case "season" => assert fa + fb + fc + fd + fe + ff == a + none + none + none + none + none;
    case "occasion" => assert fa + fb + fc + fd + fe + ff == none + b + none + none + none + none;
    case "style" => assert fa + fb + fc + fd + fe + ff == none + none + c + none + none + none;
    case "color" => assert fa + fb + fc + fd + fe + ff == none + none + none + d + none + none;
    case "material" => assert fa + fb + fc + fd + fe + ff == none + none + none + none + e + none;
    case "brand" => assert fa + fb + fc + fd + fe + ff == none + none + none + none + none + f;
    case _ => assert fa + fb + fc + fd + fe + ff == none + none + none + none + none + none;
  }

  /** The entries of a type are exactly that type's group, in order; custom and unknown
      types have none. */
  lemma SystemTagsByKind(kind: string)
    ensures Filter(KindIs(kind), SystemTags) ==
              match kind
              case "season" => SeasonTags
              case "occasion" => OccasionTags
              case "style" => StyleTags
              case "color" => ColorTags
              case "material" => MaterialTags
              case "brand" => BrandTags
              case _ => []
  {
    GroupKinds();
    ByKindOfGroups(SeasonTags, OccasionTags, StyleTags, ColorTags, MaterialTags, BrandTags, kind);
  }

  /** Every type used is one of the model's valid tag types, and none is custom. */
  lemma SystemTagKindsValid()
    ensures forall i :: 0 <= i < |SystemTags| ==>
              TagModel.IsValidTagType(SystemTags[i].kind) && SystemTags[i].kind != "custom"
  {
    forall i | 0 <= i < |SystemTags|
      ensures TagModel.IsValidTagType(SystemTags[i].kind) && SystemTags[i].kind != "custom"
    {
      assert SystemTags[i].kind in {"season", "occasion", "style", "color", "material", "brand"} by {
        SystemTagsByKind(SystemTags[i].kind);
        var p := KindIs(SystemTags[i].kind);
        assert SystemTags[i] in Filter(p, SystemTags);
      }
    }
  }

  /** `GetSystemTagsByType`: the loop below over the system tags. */
  method GetSystemTagsByType(kind: string) returns (r: seq<SeedTag>)
    ensures r == Filter(KindIs(kind), SystemTags)
  {
    r := TagsOfKind(SystemTags, kind);
  }

  /** The loop of `GetSystemTagsByType`, appending each tag of the kind in order. */
  method TagsOfKind(tags: seq<SeedTag>, kind: string) returns (r: seq<SeedTag>)
    ensures r == Filter(KindIs(kind), tags)
  {
    r := [];
    var i := 0;
    while i < |tags|
      invariant 0 <= i <= |tags|
      invariant r == Filter(KindIs(kind), tags[..i])
    {
      assert tags[..i + 1] == tags[..i] + [tags[i]];
      FilterAppend(KindIs(kind), tags[..i], [tags[i]]);
      if tags[i].kind == kind {
        r := r + [tags[i]];
      }
      i := i + 1;
    }
    assert tags[..i] == tags;
  }

  /** The row created for a seed: a system tag, active, with no owner. */
  function TagOf(seed: SeedTag, id: nat): (t: Tag)
    ensures t.isSystem && t.isActive && t.userId.None? && t.id == id
    ensures t.name == seed.name && t.kind == seed.kind && t.sortOrder == seed.sortOrder
  {
    TagModel.ClothingTag(id, seed.name, seed.kind, seed.description, seed.color, seed.icon, true, true,
                         seed.sortOrder, None)
  }

  /** `WHERE name = ? AND type = ? AND is_system = ?` finds a row. */
  predicate HasSystemTag(rows: seq<Tag>, name: string, kind: string) {
    exists i :: 0 <= i < |rows| && rows[i].name == name && rows[i].kind == kind && rows[i].isSystem
  }

  class TagStore {
    var rows: seq<Tag>
    var nextId: nat

    constructor (rows: seq<Tag>, nextId: nat)
      ensures this.rows == rows && this.nextId == nextId
    {
      this.rows := rows;
      this.nextId := nextId;
    }

    /** `db.Create`; the table has no unique index on its names. */
    method Create(seed: SeedTag) returns (id: nat)
      modifies this
      ensures id == old(nextId) && nextId == old(nextId) + 1
      ensures rows == old(rows) + [TagOf(seed, id)]
    {
      id := nextId;
      rows := rows + [TagOf(seed, id)];
      nextId := nextId + 1;
    }
  }

  /** Every seed has a system row of its name and type. */
  predicate AllSeeded(rows: seq<Tag>, seeds: seq<SeedTag>) {
    forall k :: 0 <= k < |seeds| ==> HasSystemTag(rows, seeds[k].name, seeds[k].kind)
  }

  /** The seeding loop over `seeds`. Rows are only appended; each new row is the system
      tag of some seed and had no system row of its name and type before it; afterwards
      every seed is present, and a table that already held them all is left as it was. */
  method SeedTags(store: TagStore, seeds: seq<SeedTag>)
    modifies store
    ensures old(store.rows) <= store.rows
    ensures forall x :: |old(store.rows)| <= x < |store.rows| ==>
              exists k :: 0 <= k < |seeds| && store.rows[x] == TagOf(seeds[k], store.rows[x].id)
    ensures forall x :: |old(store.rows)| <= x < |store.rows| ==>
              !HasSystemTag(store.rows[..x], store.rows[x].name, store.rows[x].kind)
    ensures AllSeeded(store.rows, seeds)
    ensures AllSeeded(old(store.rows), seeds) ==> store.rows == old(store.rows)
  {
    ghost var start := store.rows;
    var i := 0;
    while i < |seeds|
      invariant 0 <= i <= |seeds|
      invariant start <= store.rows
      invariant forall x :: |start| <= x < |store.rows| ==>
                  exists k :: 0 <= k < |seeds| && store.rows[x] == TagOf(seeds[k], store.rows[x].id)
      invariant forall x :: |start| <= x < |store.rows| ==>
                  !HasSystemTag(store.rows[..x], store.rows[x].name, store.rows[x].kind)
      invariant forall k :: 0 <= k < i ==> HasSystemTag(store.rows, seeds[k].name, seeds[k].kind)
      invariant AllSeeded(start, seeds) ==> store.rows == start
    {
      var seed := seeds[i];
      if !HasSystemTag(store.rows, seed.name, seed.kind) {
        ghost var before := store.rows;
        var id := store.Create(seed);
        assert store.rows[..|before|] == before;
        forall k | 0 <= k < i ensures HasSystemTag(store.rows, seeds[k].name, seeds[k].kind) {
          var x :| 0 <= x < |before| && before[x].name == seeds[k].name && before[x].kind == seeds[k].kind
                   && before[x].isSystem;
          assert store.rows[x] == before[x];
        }
        forall x | |start| <= x < |store.rows|
          ensures !HasSystemTag(store.rows[..x], store.rows[x].name, store.rows[x].kind)
        {
          if x < |before| {
            assert store.rows[..x] == before[..x] && store.rows[x] == before[x];
          }
        }
        assert store.rows[|before|] == TagOf(seeds[i], id);
        assert HasSystemTag(store.rows, seed.name, seed.kind) by {
          assert store.rows[|before|].name == seed.name;
        }
      }
      i := i + 1;
    }
  }

  /** `SeedSystemTags`: the loop over the system tags. */
  method SeedSystemTags(store: TagStore)
    modifies store
    ensures old(store.rows) <= store.rows
    ensures forall x :: |old(store.rows)| <= x < |store.rows| ==>
              store.rows[x].isSystem && store.rows[x].isActive
              && exists k :: 0 <= k < |SystemTags| && store.rows[x] == TagOf(SystemTags[k], store.rows[x].id)
    ensures forall x :: |old(store.rows)| <= x < |store.rows| ==>
              !HasSystemTag(store.rows[..x], store.rows[x].name, store.rows[x].kind)
    ensures AllSeeded(store.rows, SystemTags)
    ensures AllSeeded(old(store.rows), SystemTags) ==> store.rows == old(store.rows)
  {
    SeedTags(store, SystemTags);
  }
}
