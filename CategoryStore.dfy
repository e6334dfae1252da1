/** The category service's operations against the category table: the ancestor path, the
    reads that attach it, and the guarded create, update and delete
    (server/services/clothing_category_service.go:86-308, and the same code in
    server/services/category_service.go:72-295). The table is a map from id to row, the
    active item count per category is a second map, and the rows `GetAll` and
    `GetRootCategories` fetch are parameters. */
module CategoryStore {
  import opened Wrappers
  import Text
  import CategoryModel
  import opened CategoryService

  type Table = map<nat, Category>

  // ---------------------------------------------------------------------------------------
  // The parent chain and the path along it.

  /** Following `ParentID` links from `k` stops within `n` lookups: at an id with no row,
      or at a row with no parent. */
  ghost predicate EndsWithin(table: Table, k: nat, n: nat)
    decreases n
  {
    k !in table || table[k].parentId.None?
    || (n > 0 && EndsWithin(table, table[k].parentId.value, n - 1))
  }

  /** The parent chain from `k` ends at all: the path loop from `k` terminates. */
  ghost predicate Ends(table: Table, k: nat) {
    exists n: nat :: EndsWithin(table, k, n)
  }

  /** Where the chain stops: no parent, or a parent id with no row. */
  predicate IsTop(table: Table, k: nat)
    requires k in table
  {
    table[k].parentId.None? || table[k].parentId.value !in table
  }

  /** The ancestors of `k` that have rows, furthest first (`k` itself not included). */
  function Above(table: Table, k: nat, n: nat): (r: seq<nat>)
    requires k in table && EndsWithin(table, k, n)
    ensures forall j :: 0 <= j < |r| ==> r[j] in table
    decreases n
  {
    if IsTop(table, k) then []
    else Above(table, table[k].parentId.value, n - 1) + [table[k].parentId.value]
  }

  /** The names of the rows `ids`, in order. */
  function Names(table: Table, ids: seq<nat>): (r: seq<string>)
    requires forall j :: 0 <= j < |ids| ==> ids[j] in table
    ensures |r| == |ids|
    ensures forall j :: 0 <= j < |ids| ==> r[j] == table[ids[j]].name
  {
    seq(|ids|, j requires 0 <= j < |ids| => table[ids[j]].name)
  }

  /** The chain from the furthest reachable ancestor down to `k`. */
  function Chain(table: Table, k: nat, n: nat): (r: seq<nat>)
    requires k in table && EndsWithin(table, k, n)
    ensures forall j :: 0 <= j < |r| ==> r[j] in table
  {
    Above(table, k, n) + [k]
  }

  function PathWithin(table: Table, k: nat, n: nat): string
    requires k in table && EndsWithin(table, k, n)
  {
    Text.Join(Names(table, Chain(table, k, n)), PathSeparator)
  }

  lemma {:induction false} EndsWithinMore(table: Table, k: nat, n: nat, n': nat)
    requires EndsWithin(table, k, n) && n <= n'
    ensures EndsWithin(table, k, n')
    decreases n
  {
    if k in table && table[k].parentId.Some? {
      EndsWithinMore(table, table[k].parentId.value, n - 1, n' - 1);
    }
  }

  /** The ancestors do not depend on the bound used to show that the chain ends. */
  lemma {:induction false} AboveAnyBound(table: Table, k: nat, n: nat, n': nat)
    requires k in table && EndsWithin(table, k, n) && EndsWithin(table, k, n')
    ensures Above(table, k, n) == Above(table, k, n')
    decreases n
  {
    if !IsTop(table, k) {
      AboveAnyBound(table, table[k].parentId.value, n - 1, n' - 1);
    }
  }

  /** `GetCategoryPath`'s result: the names along the chain, root first, joined by " > ". */
  ghost function Path(table: Table, k: nat): string
    requires k in table && Ends(table, k)
  {
    var n: nat :| EndsWithin(table, k, n);
    PathWithin(table, k, n)
  }

  lemma PathIs(table: Table, k: nat, n: nat)
    requires k in table && EndsWithin(table, k, n)
    ensures Ends(table, k) && Path(table, k) == PathWithin(table, k, n)
  {
    forall n': nat | EndsWithin(table, k, n') ensures Above(table, k, n') == Above(table, k, n) {
      AboveAnyBound(table, k, n', n);
    }
  }

  lemma JoinCons(x: string, xs: seq<string>, sep: string)
    requires xs != []
    ensures Text.Join([x] + xs, sep) == x + sep + Text.Join(xs, sep)
  {
    assert ([x] + xs)[1..] == xs;
  }

  lemma {:induction false} JoinSnoc(xs: seq<string>, y: string, sep: string)
    requires xs != []
    ensures Text.Join(xs + [y], sep) == Text.Join(xs, sep) + sep + y
    decreases |xs|
  {
    if |xs| == 1 {
      assert xs + [y] == [xs[0]] + [y];
      JoinCons(xs[0], [y], sep);
    } else {
      assert xs + [y] == [xs[0]] + (xs[1..] + [y]);
      JoinCons(xs[0], xs[1..] + [y], sep);
      JoinSnoc(xs[1..], y, sep);
      assert xs == [xs[0]] + xs[1..];
      JoinCons(xs[0], xs[1..], sep);
    }
  }

  /** A category at the top of its chain (no parent, or a parent with no row) has its own
      name as path. */
  lemma PathOfTop(table: Table, k: nat)
    requires k in table && IsTop(table, k)
    ensures Ends(table, k) && Path(table, k) == table[k].name
  {
    assert EndsWithin(table, k, 1);
    PathIs(table, k, 1);
    assert Chain(table, k, 1) == [k];
  }

  /** Otherwise the path is the parent's path, " > ", and the category's name. */
  lemma PathOfChild(table: Table, k: nat)
    requires k in table && !IsTop(table, k) && Ends(table, k)
    ensures Ends(table, table[k].parentId.value)
    ensures Path(table, k) == Path(table, table[k].parentId.value) + PathSeparator + table[k].name
  {
    var n: nat :| EndsWithin(table, k, n);
    var p := table[k].parentId.value;
    PathIs(table, k, n);
    PathIs(table, p, n - 1);
    var ids := Chain(table, p, n - 1);
    assert Chain(table, k, n) == ids + [k];
    assert Names(table, ids + [k]) == Names(table, ids) + [table[k].name];
    JoinSnoc(Names(table, ids), table[k].name, PathSeparator);
  }

  /** The chain starts at the furthest reachable ancestor and ends at `k`; each entry's
      parent is the next entry. */
  lemma {:induction false} ChainShape(table: Table, k: nat, n: nat)
    requires k in table && EndsWithin(table, k, n)
    ensures var c := Chain(table, k, n);
            && IsTop(table, c[0]) && c[|c| - 1] == k
            && forall j :: 0 <= j < |c| - 1 ==> table[c[j + 1]].parentId == Some(c[j])
    decreases n
  {
    if !IsTop(table, k) {
      var p := table[k].parentId.value;
      ChainShape(table, p, n - 1);
      assert Chain(table, k, n) == Chain(table, p, n - 1) + [k];
    }
  }

  /** Two rows that name each other as parent: the path loop from either never ends. */
  lemma {:induction false} TwoCycleNeverEnds(table: Table, a: nat, b: nat, n: nat)
    requires a in table && b in table
    requires table[a].parentId == Some(b) && table[b].parentId == Some(a)
    ensures !EndsWithin(table, a, n) && !EndsWithin(table, b, n)
    decreases n
  {
    if n > 0 {
      TwoCycleNeverEnds(table, a, b, n - 1);
    }
  }

  /** The parent of a row that has one has a chain that ends when the row's does. */
  lemma EndsAtParent(table: Table, k: nat)
    requires k in table && Ends(table, k)
    ensures table[k].parentId.Some? ==> Ends(table, table[k].parentId.value)
  {
    if table[k].parentId.Some? {
      var n: nat :| EndsWithin(table, k, n);
      if n == 0 {
        assert false;
      }
      assert EndsWithin(table, table[k].parentId.value, n - 1);
    }
  }

  /** The `ParentName` `GetCategory` and `GetAllCategories` attach: the parent's path when
      the parent has a row, and "" when there is no parent or the lookup fails. */
  ghost function ParentPath(table: Table, c: Category): string
    requires c.parentId.Some? ==> Ends(table, c.parentId.value)
  {
    if c.parentId.Some? && c.parentId.value in table then Path(table, c.parentId.value) else ""
  }

  /** For a row below the top of its chain, its own path is the attached `ParentName`,
      " > ", and its name. */
  lemma ParentPathPrefixesPath(table: Table, k: nat)
    requires k in table && !IsTop(table, k) && Ends(table, k)
    ensures Ends(table, table[k].parentId.value)
    ensures Path(table, k) == ParentPath(table, table[k]) + PathSeparator + table[k].name
  {
    PathOfChild(table, k);
  }

  datatype CategoryStats = CategoryStats(categoryName: string, count: nat)

  datatype CreateRequest = CreateRequest(name: string, description: string, parentId: Option<nat>,
                                         icon: string, sortOrder: int)

  /** `UpdateCategoryDTO`: every field optional; a `ParentID` of 0 clears the parent. */
  datatype UpdateRequest = UpdateRequest(name: Option<string>, description: Option<string>,
                                         parentId: Option<nat>, icon: Option<string>,
                                         sortOrder: Option<int>, isActive: Option<bool>)

  /** Another row than `id` already carries `name` (the unique index on `name` covers
      inactive rows too). */
  predicate NameTaken(table: Table, name: string, id: nat) {
    exists k :: k in table && k != id && table[k].name == name
  }

  /** The row `UpdateCategory` saves: each provided field replaces the stored one. */
  function Patch(c: Category, req: UpdateRequest): (r: Category)
    ensures r.id == c.id
    ensures r.name == req.name.GetOr(c.name) && r.description == req.description.GetOr(c.description)
    ensures r.icon == req.icon.GetOr(c.icon) && r.sortOrder == req.sortOrder.GetOr(c.sortOrder)
    ensures r.isActive == req.isActive.GetOr(c.isActive)
    ensures req.parentId.None? ==> r.parentId == c.parentId
    ensures req.parentId == Some(0) ==> r.parentId.None?
    ensures req.parentId.Some? && req.parentId.value != 0 ==> r.parentId == req.parentId
  {
    var name := if req.name.Some? then req.name.value else c.name;
    var description := if req.description.Some? then req.description.value else c.description;
    var parentId := if req.parentId.None? then c.parentId
                    else if req.parentId.value == 0 then None
                    else req.parentId;
    var icon := if req.icon.Some? then req.icon.value else c.icon;
    var sortOrder := if req.sortOrder.Some? then req.sortOrder.value else c.sortOrder;
    var isActive := if req.isActive.Some? then req.isActive.value else c.isActive;
    CategoryModel.ClothingCategory(c.id, name, description, parentId, icon, sortOrder, isActive)
  }

  /** The field-by-field assignments of `UpdateCategory`. */
  method ApplyPatch(c: Category, req: UpdateRequest) returns (category: Category)
    ensures category == Patch(c, req)
  {
    category := c;
    if req.name.Some? {
      category := category.(name := req.name.value);
    }
    if req.description.Some? {
      category := category.(description := req.description.value);
    }
    if req.parentId.Some? {
      if req.parentId.value == 0 {
        category := category.(parentId := None);
      } else {
        category := category.(parentId := req.parentId);
      }
    }
    if req.icon.Some? {
      category := category.(icon := req.icon.value);
    }
    if req.sortOrder.Some? {
      category := category.(sortOrder := req.sortOrder.value);
    }
    if req.isActive.Some? {
      category := category.(isActive := req.isActive.value);
    }
  }

  /** The outcome of `UpdateCategory` up to the save: the guards in source order, then the
      patched row. */
  function UpdateOutcome(table: Table, id: nat, req: UpdateRequest): Result<Category, string> {
    if id !in table then Err(NotFound)
    else if req.parentId.Some? && req.parentId.value != 0 && req.parentId.value == id then Err(SelfParent)
    else if req.parentId.Some? && req.parentId.value != 0 && req.parentId.value !in table then Err(ParentMissing)
    else
      var row := Patch(table[id], req);
      if NameTaken(table, row.name, id) then Err(DuplicateName) else Ok(row)
  }

  /** The path loop's invariant: `path` joins the names of `acc`, the chain from `cur`
      down to `k`, and the rest of the chain lies above `cur`. */
  ghost predicate PathLoop(table: Table, k: nat, n: nat, cur: nat, m: nat, acc: seq<nat>, path: string) {
    && k in table && EndsWithin(table, k, n)
    && cur in table && EndsWithin(table, cur, m)
    && (forall j :: 0 <= j < |acc| ==> acc[j] in table)
    && acc != [] && acc[0] == cur
    && Chain(table, k, n) == Above(table, cur, m) + acc
    && path == Text.Join(Names(table, acc), PathSeparator)
  }

  lemma PathLoopStep(table: Table, k: nat, n: nat, cur: nat, m: nat, acc: seq<nat>, path: string)
    requires PathLoop(table, k, n, cur, m, acc, path) && !IsTop(table, cur)
    ensures var p := table[cur].parentId.value;
            PathLoop(table, k, n, p, m - 1, [p] + acc, table[p].name + PathSeparator + path)
  {
    var p := table[cur].parentId.value;
    assert m > 0 && EndsWithin(table, p, m - 1);
    var above := Above(table, p, m - 1);
    assert Above(table, cur, m) == above + [p];
    assert (above + [p]) + acc == above + ([p] + acc);
    NamesCons(table, p, acc);
    JoinCons(table[p].name, Names(table, acc), PathSeparator);
  }

  lemma NamesCons(table: Table, x: nat, xs: seq<nat>)
    requires x in table && forall j :: 0 <= j < |xs| ==> xs[j] in table
    ensures Names(table, [x] + xs) == [table[x].name] + Names(table, xs)
  {
    var l, r := Names(table, [x] + xs), [table[x].name] + Names(table, xs);
    assert |l| == |r|;
    forall j | 0 <= j < |l| ensures l[j] == r[j] {
      if j > 0 {
        assert ([x] + xs)[j] == xs[j - 1];
      }
    }
  }

  lemma PathLoopEnd(table: Table, k: nat, n: nat, cur: nat, m: nat, acc: seq<nat>, path: string)
    requires PathLoop(table, k, n, cur, m, acc, path) && IsTop(table, cur)
    ensures Ends(table, k) && path == Path(table, k)
  {
    assert Chain(table, k, n) == acc;
    PathIs(table, k, n);
  }

  /** The category table and the active item count per category. */
  class CategoryRepository {
    var table: Table
    var itemCounts: map<nat, nat>
    /** The next auto-increment id. */
    var nextId: nat

    /** Rows are keyed by their id; ids and the parent ids rows name are below `nextId`,
        and 0 is never an id. */
    ghost predicate Valid()
      reads this
    {
      && 0 < nextId
      && forall k :: k in table ==>
           && table[k].id == k && 0 < k < nextId
           && (table[k].parentId.Some? ==> table[k].parentId.value < nextId)
    }

    constructor (itemCounts: map<nat, nat>)
      ensures Valid() && table == map[] && this.itemCounts == itemCounts && nextId == 1
    {
      table := map[];
      this.itemCounts := itemCounts;
      nextId := 1;
    }

    /** `GetCategoryItemCount`: the active items of a category, 0 when it has none. */
    function ItemCount(id: nat): (n: nat)
      reads this
      ensures id in itemCounts ==> n == itemCounts[id]
      ensures id !in itemCounts ==> n == 0
    {
      if id in itemCounts then itemCounts[id] else 0
    }

    /** `GetCategoryPath`: a missing row is an error; otherwise the loop prepends each
        ancestor's name until a row has no parent or the parent lookup fails. */
    method GetCategoryPath(categoryId: nat) returns (r: Result<string, string>)
      requires Ends(table, categoryId)
      ensures categoryId !in table ==> r == Err(NotFound)
      ensures categoryId in table ==> r == Ok(Path(table, categoryId))
    {
      if categoryId !in table {
        return Err(NotFound);
      }
      ghost var n: nat :| EndsWithin(table, categoryId, n);
      var category := table[categoryId];
      var path := category.name;
      ghost var cur, m, acc := categoryId, n, [categoryId];
      while category.parentId.Some?
        invariant PathLoop(table, categoryId, n, cur, m, acc, path) && category == table[cur]
        decreases m
      {
        var parentId := category.parentId.value;
        if parentId !in table {
          break;
        }
        PathLoopStep(table, categoryId, n, cur, m, acc, path);
        path := table[parentId].name + PathSeparator + path;
        category := table[parentId];
        cur, m, acc := parentId, m - 1, [parentId] + acc;
      }
      PathLoopEnd(table, categoryId, n, cur, m, acc, path);
      return Ok(path);
    }

    /** What `GetCategory` returns for a row: its fields, the parent's path as
        `ParentName` and its item count. */
    ghost function View(id: nat): CategoryDTO
      reads this
      requires id in table && Ends(table, id)
    {
      EndsAtParent(table, id);
      ToDTO(table[id]).(parentName := ParentPath(table, table[id]), itemCount := ItemCount(id))
    }

    /** `GetCategory`: the row's fields, the parent's path as `ParentName` and the item
        count. */
    method GetCategory(categoryId: nat) returns (r: Result<CategoryDTO, string>)
      requires Ends(table, categoryId)
      ensures categoryId !in table ==> r == Err(NotFound)
      ensures categoryId in table ==> r == Ok(View(categoryId))
    {
      if categoryId !in table {
        return Err(NotFound);
      }
      var category := table[categoryId];
      var dto := ToDTO(category);
      EndsAtParent(table, categoryId);
      if category.parentId.Some? {
        var parentPath := GetCategoryPath(category.parentId.value);
        if parentPath.Ok? {
          dto := dto.(parentName := parentPath.value);
        }
      }
      dto := dto.(itemCount := ItemCount(categoryId));
      return Ok(dto);
    }

    /** `GetAllCategories` over the rows the repository fetched: one DTO per row, in order,
        with the parent's path as `ParentName` and no item count. */
    method GetAllCategories(rows: seq<Category>) returns (r: seq<CategoryDTO>)
      requires forall j :: 0 <= j < |rows| && rows[j].parentId.Some? ==> Ends(table, rows[j].parentId.value)
      ensures |r| == |rows|
      ensures forall j :: 0 <= j < |rows| ==> r[j] == ToDTO(rows[j]).(parentName := ParentPath(table, rows[j]))
    {
      r := [];
      var i := 0;
      while i < |rows|
        invariant 0 <= i <= |rows| && |r| == i
        invariant forall j :: 0 <= j < i ==> r[j] == ToDTO(rows[j]).(parentName := ParentPath(table, rows[j]))
      {
        var category := rows[i];
        var response := ToDTO(category);
        if category.parentId.Some? {
          var parentPath := GetCategoryPath(category.parentId.value);
          if parentPath.Ok? {
            response := response.(parentName := parentPath.value);
          }
        }
        r := r + [response];
        i := i + 1;
      }
    }

    /** `GetRootCategories` over the rows the repository fetched: the plain DTO of each,
        in order. */
    method GetRootCategories(rows: seq<Category>) returns (r: seq<CategoryDTO>)
      ensures |r| == |rows|
      ensures forall j :: 0 <= j < |rows| ==> r[j] == ToDTO(rows[j])
    {
      r := [];
      var i := 0;
      while i < |rows|
        invariant 0 <= i <= |rows| && |r| == i
        invariant forall j :: 0 <= j < i ==> r[j] == ToDTO(rows[j])
      {
        r := r + [ToDTO(rows[i])];
        i := i + 1;
      }
    }

    /** `GetCategoryStats` over the rows the repository fetched: name and item count of
        each, in order. */
    method GetCategoryStats(rows: seq<Category>) returns (stats: seq<CategoryStats>)
      ensures |stats| == |rows|
      ensures forall j :: 0 <= j < |rows| ==> stats[j] == CategoryStats(rows[j].name, ItemCount(rows[j].id))
    {
      stats := [];
      var i := 0;
      while i < |rows|
        invariant 0 <= i <= |rows| && |stats| == i
        invariant forall j :: 0 <= j < i ==> stats[j] == CategoryStats(rows[j].name, ItemCount(rows[j].id))
      {
        var count := ItemCount(rows[i].id);
        stats := stats + [CategoryStats(rows[i].name, count)];
        i := i + 1;
      }
    }

    /** `CreateCategory`: a given parent must have a row; the new row is active and takes
        the next id; the result is `GetCategory` of it. */
    method CreateCategory(req: CreateRequest) returns (r: Result<CategoryDTO, string>)
      requires Valid()
      requires req.parentId.Some? ==> Ends(table, req.parentId.value)
      modifies this
      ensures Valid() && itemCounts == old(itemCounts)
      ensures CreateOutcome(old(table), old(nextId), req).Err? ==>
                && r == Err(CreateOutcome(old(table), old(nextId), req).error)
                && table == old(table) && nextId == old(nextId)
      ensures CreateOutcome(old(table), old(nextId), req).Ok? ==>
                && table == old(table)[old(nextId) := NewRow(old(nextId), req)]
                && nextId == old(nextId) + 1
                && Ends(table, old(nextId)) && r == Ok(View(old(nextId)))
    {
      if req.parentId.Some? && req.parentId.value !in table {
        return Err(ParentMissing);
      }
      var category := NewRow(nextId, req);
      if NameTaken(table, category.name, nextId) {
        return Err(DuplicateName);
      }
      var id := nextId;
      InsertKeepsEnds(table, id, category);
      table := table[id := category];
      nextId := nextId + 1;
      r := GetCategory(id);
    }

    /** `UpdateCategory`: the guards, the patch and the save, then `GetCategory` of the
        saved row, which returns only when the saved row's parent chain ends. */
    method UpdateCategory(categoryId: nat, req: UpdateRequest) returns (r: Result<CategoryDTO, string>)
      requires Valid()
      requires UpdateOutcome(table, categoryId, req).Ok? ==>
                 Ends(table[categoryId := UpdateOutcome(table, categoryId, req).value], categoryId)
      modifies this
      ensures Valid() && itemCounts == old(itemCounts) && nextId == old(nextId)
      ensures UpdateOutcome(old(table), categoryId, req).Err? ==>
                r == Err(UpdateOutcome(old(table), categoryId, req).error) && table == old(table)
      ensures UpdateOutcome(old(table), categoryId, req).Ok? ==>
                && table == old(table)[categoryId := UpdateOutcome(old(table), categoryId, req).value]
                && Ends(table, categoryId) && r == Ok(View(categoryId))
    {
      if categoryId !in table {
        return Err(NotFound);
      }
      var category := table[categoryId];
      if req.parentId.Some? && req.parentId.value != 0 {
        if req.parentId.value == categoryId {
          return Err(SelfParent);
        }
        if req.parentId.value !in table {
          return Err(ParentMissing);
        }
      }
      category := ApplyPatch(category, req);
      if NameTaken(table, category.name, categoryId) {
        return Err(DuplicateName);
      }
      table := table[categoryId := category];
      r := GetCategory(categoryId);
    }

    /** `DeleteCategory`: refused while an active row names the category as parent or it
        has active items; otherwise the row is kept and only marked inactive (a missing
        row is no error). */
    method DeleteCategory(categoryId: nat) returns (err: Option<string>)
      requires Valid()
      modifies this
      ensures Valid() && itemCounts == old(itemCounts) && nextId == old(nextId)
      ensures ActiveChildren(old(table), categoryId) != {} ==> err == Some(HasChildren) && table == old(table)
      ensures ActiveChildren(old(table), categoryId) == {} && ItemCount(categoryId) > 0 ==>
                err == Some(HasItems) && table == old(table)
      ensures ActiveChildren(old(table), categoryId) == {} && ItemCount(categoryId) == 0 ==>
                err == None && table == SoftDeleted(old(table), categoryId)
    {
      var children := ActiveChildren(table, categoryId);
      if |children| > 0 {
        return Some(HasChildren);
      }
      var count := ItemCount(categoryId);
      if count > 0 {
        return Some(HasItems);
      }
      if categoryId in table {
        table := table[categoryId := table[categoryId].(isActive := false)];
      }
      return None;
    }
  }

  /** The ids of the active rows naming `id` as parent (`GetChildCategories`). */
  function ActiveChildren(table: Table, id: nat): (r: set<nat>)
    ensures forall k :: k in r <==> k in table && table[k].isActive && table[k].parentId == Some(id)
  {
    set k | k in table && table[k].isActive && table[k].parentId == Some(id)
  }

  /** The table after the repository's `Delete`: `is_active` cleared on that row. */
  function SoftDeleted(table: Table, id: nat): (r: Table)
    ensures r.Keys == table.Keys
    ensures forall k :: k in table && k != id ==> r[k] == table[k]
    ensures id in table ==> r[id] == table[id].(isActive := false)
  {
    if id in table then table[id := table[id].(isActive := false)] else table
  }

  /** The row `CreateCategory` inserts under `id`. */
  function NewRow(id: nat, req: CreateRequest): (r: Category)
    ensures r.id == id && r.isActive && r.parentId == req.parentId && r.name == req.name
  {
    CategoryModel.ClothingCategory(id, req.name, req.description, req.parentId, req.icon, req.sortOrder, true)
  }

  /** The outcome of `CreateCategory` up to the insert: a missing parent, then a taken
      name, else the new row. */
  function CreateOutcome(table: Table, id: nat, req: CreateRequest): Result<Category, string> {
    if req.parentId.Some? && req.parentId.value !in table then Err(ParentMissing)
    else if NameTaken(table, req.name, id) then Err(DuplicateName)
    else Ok(NewRow(id, req))
  }

  /** Inserting a row under an id no row names as parent: the new row's chain ends when its
      parent's does. */
  lemma InsertKeepsEnds(table: Table, x: nat, row: Category)
    requires x !in table
    requires forall k :: k in table && table[k].parentId.Some? ==> table[k].parentId.value != x
    requires row.parentId.Some? ==> row.parentId.value in table && Ends(table, row.parentId.value)
    ensures Ends(table[x := row], x)
  {
    if row.parentId.Some? {
      var p := row.parentId.value;
      var n: nat :| EndsWithin(table, p, n);
      InsertKeepsChain(table, x, row, p, n);
      assert EndsWithin(table[x := row], x, n + 1);
    } else {
      assert EndsWithin(table[x := row], x, 0);
    }
  }

  /** ... and leaves every other chain as it was. */
  lemma {:induction false} InsertKeepsChain(table: Table, x: nat, row: Category, k: nat, n: nat)
    requires x !in table && k != x
    requires forall k :: k in table && table[k].parentId.Some? ==> table[k].parentId.value != x
    requires EndsWithin(table, k, n)
    ensures EndsWithin(table[x := row], k, n)
    decreases n
  {
    if k in table && table[k].parentId.Some? {
      InsertKeepsChain(table, x, row, table[k].parentId.value, n - 1);
    }
  }

  /** Two tables with the same ids and the same parent links. */
  predicate SameLinks(t: Table, t': Table) {
    && t.Keys == t'.Keys
    && forall k :: k in t ==> t'[k].parentId == t[k].parentId
  }

  /** Chains only follow parent links. */
  lemma {:induction false} SameLinksSameChain(t: Table, t': Table, k: nat, n: nat)
    requires SameLinks(t, t') && EndsWithin(t, k, n)
    ensures EndsWithin(t', k, n)
    ensures k in t ==> Above(t', k, n) == Above(t, k, n)
    decreases n
  {
    if k in t && t[k].parentId.Some? {
      SameLinksSameChain(t, t', t[k].parentId.value, n - 1);
    }
  }

  /** A soft delete keeps the row, so every path stays as it was, through inactive rows
      too. */
  lemma SoftDeleteKeepsPaths(table: Table, id: nat, k: nat)
    requires k in table && Ends(table, k)
    ensures Ends(SoftDeleted(table, id), k)
    ensures Path(SoftDeleted(table, id), k) == Path(table, k)
  {
    var t' := SoftDeleted(table, id);
    var n: nat :| EndsWithin(table, k, n);
    SameLinksSameChain(table, t', k, n);
    PathIs(table, k, n);
    PathIs(t', k, n);
    var c := Chain(table, k, n);
    assert Names(t', c) == Names(table, c);
  }

  // ---------------------------------------------------------------------------------------
  // Longer cycles. `UpdateCategory` refuses only the category itself as new parent, so a
  // descendant can become the parent; the re-read that follows then never returns.

  /** `a` is `k` itself or one of its ancestors, reached within `n` lookups. */
  ghost predicate ReachesWithin(table: Table, k: nat, a: nat, n: nat)
    decreases n
  {
    k == a
    || (n > 0 && k in table && table[k].parentId.Some?
        && ReachesWithin(table, table[k].parentId.value, a, n - 1))
  }

  ghost predicate Reaches(table: Table, k: nat, a: nat) {
    exists n: nat :: ReachesWithin(table, k, a, n)
  }

  /** Every parent chain in the table ends. */
  ghost predicate AllChainsEnd(table: Table) {
    forall k: nat :: Ends(table, k)
  }

  lemma UpdateCanCloseCycle()
    ensures var top := CategoryModel.ClothingCategory(1, "上衣", "", None, "", 1, true);
            var shirt := CategoryModel.ClothingCategory(2, "T恤", "", Some(1), "", 1, true);
            var table := map[1 := top, 2 := shirt];
            var req := UpdateRequest(None, None, Some(2), None, None, None);
            && AllChainsEnd(table)
            && UpdateOutcome(table, 1, req) == Ok(top.(parentId := Some(2)))
            && !Ends(table[1 := top.(parentId := Some(2))], 1)
            && CheckedUpdateOutcome(table, 1, req) == Err(CycleParent)
  {
    var top := CategoryModel.ClothingCategory(1, "上衣", "", None, "", 1, true);
    var shirt := CategoryModel.ClothingCategory(2, "T恤", "", Some(1), "", 1, true);
    var table := map[1 := top, 2 := shirt];
    var req := UpdateRequest(None, None, Some(2), None, None, None);
    forall k: nat ensures Ends(table, k) {
      assert EndsWithin(table, k, 1);
    }
    assert Patch(top, req) == top.(parentId := Some(2));
    assert !NameTaken(table, "上衣", 1) by {
      assert forall k :: k in table && k != 1 ==> k == 2;
    }
    var t' := table[1 := top.(parentId := Some(2))];
    forall n: nat ensures !EndsWithin(t', 1, n) {
      TwoCycleNeverEnds(t', 1, 2, n);
    }
    assert ReachesWithin(table, 2, 1, 1);
  }

  const CycleParent := "不能将分类移到自己的子分类下"

  /** `UpdateOutcome` with one more guard after the missing-parent check: a new parent
      whose chain reaches the category itself is refused. */
  ghost function CheckedUpdateOutcome(table: Table, id: nat, req: UpdateRequest): Result<Category, string> {
    if id !in table then Err(NotFound)
    else if req.parentId.Some? && req.parentId.value != 0 && req.parentId.value == id then Err(SelfParent)
    else if req.parentId.Some? && req.parentId.value != 0 && req.parentId.value !in table then Err(ParentMissing)
    else if req.parentId.Some? && req.parentId.value != 0 && Reaches(table, req.parentId.value, id) then Err(CycleParent)
    else
      var row := Patch(table[id], req);
      if NameTaken(table, row.name, id) then Err(DuplicateName) else Ok(row)
  }

  /** With the extra guard, an update of a table whose chains all end leaves a table whose
      chains all end, so the re-read and every later path lookup return. */
  lemma CheckedUpdateKeepsChainsEnding(table: Table, id: nat, req: UpdateRequest)
    requires AllChainsEnd(table) && CheckedUpdateOutcome(table, id, req).Ok?
    ensures CheckedUpdateOutcome(table, id, req) == UpdateOutcome(table, id, req)
    ensures AllChainsEnd(table[id := CheckedUpdateOutcome(table, id, req).value])
  {
    var row := Patch(table[id], req);
    var t' := table[id := row];
    var big: nat;
    if row.parentId.None? {
      big := 0;
      assert EndsWithin(t', id, big);
    } else if req.parentId.None? {
      assert SameLinks(table, t');
      assert Ends(table, id);
      var n: nat :| EndsWithin(table, id, n);
      SameLinksSameChain(table, t', id, n);
      big := n;
    } else {
      var p := req.parentId.value;
      assert Ends(table, p);
      var n: nat :| EndsWithin(table, p, n);
      assert !ReachesWithin(table, p, id, n);
      AvoidingChain(table, id, row, p, n);
      big := n + 1;
      assert EndsWithin(t', id, big);
    }
    forall k: nat ensures Ends(t', k) {
      assert Ends(table, k);
      var m: nat :| EndsWithin(table, k, m);
      ReparentEnds(table, id, row, big, k, m);
    }
  }

  /** A chain that never passes through `id` is unaffected by changing the row `id`. */
  lemma {:induction false} AvoidingChain(table: Table, id: nat, row: Category, k: nat, n: nat)
    requires id in table && EndsWithin(table, k, n) && !ReachesWithin(table, k, id, n)
    ensures EndsWithin(table[id := row], k, n)
    decreases n
  {
    if k in table && table[k].parentId.Some? {
      AvoidingChain(table, id, row, table[k].parentId.value, n - 1);
    }
  }

  /** Once the changed row's own chain ends within `big` lookups, every chain that ended
      before ends, within `big` more. */
  lemma {:induction false} ReparentEnds(table: Table, id: nat, row: Category, big: nat, k: nat, m: nat)
    requires id in table && EndsWithin(table[id := row], id, big) && EndsWithin(table, k, m)
    ensures EndsWithin(table[id := row], k, m + big)
    decreases m
  {
    var t' := table[id := row];
    if k == id {
      EndsWithinMore(t', id, big, m + big);
    } else if k in table && table[k].parentId.Some? {
      ReparentEnds(table, id, row, big, table[k].parentId.value, m - 1);
    }
  }
}
