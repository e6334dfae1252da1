/** Option and Result, used wherever the system returns "a value or an error". */
module Wrappers {

  datatype Option<+T> = None | Some(value: T) {
    function GetOr(default: T): T {
      match this
      case Some(v) => v
      case None => default
    }
  }

  datatype Result<+T, +E> = Ok(value: T) | Err(error: E) {
    predicate IsFailure() { Err? }
  }
}

/** Generic sequence helpers shared by the client and server models. */
module Seqs {

  /** The elements of `s` that satisfy `p`, in their original order
      (JavaScript's `Array.prototype.filter`, a Go loop that appends). */
  function Filter<T>(p: T -> bool, s: seq<T>): (r: seq<T>)
    ensures |r| <= |s|
    ensures forall i :: 0 <= i < |r| ==> r[i] in s && p(r[i])
    ensures forall i :: 0 <= i < |s| && p(s[i]) ==> s[i] in r
  {
    if s == [] then []
    else (if p(s[0]) then [s[0]] else []) + Filter(p, s[1..])
  }

  /** Filtering distributes over concatenation: it keeps the relative order of what it keeps. */
  lemma {:induction false} FilterAppend<T>(p: T -> bool, a: seq<T>, b: seq<T>)
    ensures Filter(p, a + b) == Filter(p, a) + Filter(p, b)
  {
    if a == [] {
      assert a + b == b;
    } else {
      assert (a + b)[1..] == a[1..] + b;
      FilterAppend(p, a[1..], b);
    }
  }

  /** A filter that rejects nothing returns its input unchanged. */
  lemma {:induction false} FilterAll<T>(p: T -> bool, s: seq<T>)
    requires forall i :: 0 <= i < |s| ==> p(s[i])
    ensures Filter(p, s) == s
  {
    if s != [] {
      FilterAll(p, s[1..]);
    }
  }

  /** A filter that keeps nothing returns the empty sequence. */
  lemma {:induction false} FilterNone<T>(p: T -> bool, s: seq<T>)
    requires forall i :: 0 <= i < |s| ==> !p(s[i])
    ensures Filter(p, s) == []
  {
    if s != [] {
      FilterNone(p, s[1..]);
    }
  }

  /** Filtering keeps each element exactly as often as it occurs, when it is kept at all. */
  lemma {:induction false} FilterMultiset<T>(p: T -> bool, s: seq<T>, x: T)
    ensures multiset(Filter(p, s))[x] == if p(x) then multiset(s)[x] else 0
  {
    if s != [] {
      FilterMultiset(p, s[1..], x);
      assert s == [s[0]] + s[1..];
    }
  }

  /** Number of elements of `s` satisfying `p`. */
  function Count<T>(p: T -> bool, s: seq<T>): (n: nat)
    ensures n <= |s|
  {
    if s == [] then 0 else (if p(s[0]) then 1 else 0) + Count(p, s[1..])
  }

  lemma {:induction false} CountIsFilterLength<T>(p: T -> bool, s: seq<T>)
    ensures Count(p, s) == |Filter(p, s)|
  {
    if s != [] {
      CountIsFilterLength(p, s[1..]);
    }
  }

  /** `s` without its element at index `i` (JavaScript's `filter((_, j) => j !== i)`);
      an index outside the sequence removes nothing. */
  function RemoveAt<T>(s: seq<T>, i: int): (r: seq<T>)
    ensures 0 <= i < |s| ==> |r| == |s| - 1
    ensures 0 <= i < |s| ==> forall j :: 0 <= j < |r| ==> r[j] == if j < i then s[j] else s[j + 1]
    ensures !(0 <= i < |s|) ==> r == s
  {
    if 0 <= i < |s| then s[..i] + s[i + 1..] else s
  }

  /** The first `n` elements, or all of them when there are fewer (`slice(0, n)`). */
  function Take<T>(s: seq<T>, n: nat): (r: seq<T>)
    ensures |r| == if |s| <= n then |s| else n
    ensures forall j :: 0 <= j < |r| ==> r[j] == s[j]
  {
    if |s| <= n then s else s[..n]
  }

  /** `LIMIT limit` when it is positive: a prefix; otherwise everything. */
  function Limited<T>(s: seq<T>, limit: int): (r: seq<T>)
    ensures limit > 0 ==> |r| <= limit
    ensures limit <= 0 ==> r == s
    ensures |r| <= |s| && r == s[..|r|]
  {
    if limit > 0 then Take(s, limit) else s
  }

  /** A loop that returns true at the first element equal to `x` (Go's `for _, v := range s
      { if v == x { return true } }; return false`). */
  function Mem<T(==)>(s: seq<T>, x: T): (b: bool)
    ensures b <==> x in s
  {
    if s == [] then false else if s[0] == x then true else Mem(s[1..], x)
  }

  /** Such a search does not depend on the order of the list it scans. */
  lemma MemIgnoresOrder<T>(a: seq<T>, b: seq<T>, x: T)
    requires multiset(a) == multiset(b)
    ensures Mem(a, x) == Mem(b, x)
  {
    assert x in a <==> x in multiset(a);
    assert x in b <==> x in multiset(b);
  }

  // ---------------------------------------------------------------- stable insertion sort

  /** `le` is a total preorder: any two elements compare, and comparison chains. */
  ghost predicate IsTotalPreorder<T(!new)>(le: (T, T) -> bool) {
    && (forall a: T, b: T :: le(a, b) || le(b, a))
    && (forall a: T, b: T, c: T :: le(a, b) && le(b, c) ==> le(a, c))
  }

  predicate SortedWith<T>(le: (T, T) -> bool, s: seq<T>) {
    forall i, j :: 0 <= i < j < |s| ==> le(s[i], s[j])
  }

  /** Puts `x` in front of the first element it may precede. */
  function InsertWith<T>(le: (T, T) -> bool, x: T, s: seq<T>): (r: seq<T>)
    ensures multiset(r) == multiset(s) + multiset{x}
    ensures forall i :: 0 <= i < |r| ==> r[i] == x || r[i] in s
  {
    if s == [] then [x]
    else if le(x, s[0]) then [x] + s
    else
      assert s == [s[0]] + s[1..];
      [s[0]] + InsertWith(le, x, s[1..])
  }

  /** Insertion sort: elements that compare equal keep their original order, as in a
      stable sort (JavaScript's `Array.prototype.sort`, SQL `ORDER BY` on distinct keys). */
  function SortWith<T>(le: (T, T) -> bool, s: seq<T>): (r: seq<T>)
    ensures multiset(r) == multiset(s) && |r| == |s|
  {
    if s == [] then []
    else
      assert s == [s[0]] + s[1..];
      InsertWith(le, s[0], SortWith(le, s[1..]))
  }

  lemma SortedWithCons<T>(le: (T, T) -> bool, a: T, t: seq<T>)
    requires SortedWith(le, t) && forall k :: 0 <= k < |t| ==> le(a, t[k])
    ensures SortedWith(le, [a] + t)
  {
    var r := [a] + t;
    forall i, j | 0 <= i < j < |r| ensures le(r[i], r[j]) {
      assert r[j] == t[j - 1];
      if i > 0 { assert r[i] == t[i - 1]; }
    }
  }

  lemma {:induction false} InsertWithSorted<T(!new)>(le: (T, T) -> bool, x: T, s: seq<T>)
    requires IsTotalPreorder(le) && SortedWith(le, s)
    ensures SortedWith(le, InsertWith(le, x, s))
  {
    if s != [] && !le(x, s[0]) {
      var tail := s[1..];
      assert SortedWith(le, tail);
      InsertWithSorted(le, x, tail);
      var t := InsertWith(le, x, tail);
      assert le(s[0], x);
      forall j | 0 <= j < |t| ensures le(s[0], t[j]) {
        if t[j] != x {
          var k :| 0 <= k < |tail| && tail[k] == t[j];
          assert s[k + 1] == tail[k];
        }
      }
      SortedWithCons(le, s[0], t);
    } else if s != [] {
      forall k | 0 <= k < |s| ensures le(x, s[k]) {
        if k > 0 { assert le(s[0], s[k]); }
      }
      SortedWithCons(le, x, s);
    }
  }

  /** The sorted sequence is ordered by `le`. */
  lemma {:induction false} SortWithSorted<T(!new)>(le: (T, T) -> bool, s: seq<T>)
    requires IsTotalPreorder(le)
    ensures SortedWith(le, SortWith(le, s))
  {
    if s != [] {
      SortWithSorted(le, s[1..]);
      InsertWithSorted(le, s[0], SortWith(le, s[1..]));
    }
  }

  /** A sequence already in order is left as it is. */
  lemma {:induction false} SortWithKeepsSorted<T>(le: (T, T) -> bool, s: seq<T>)
    requires SortedWith(le, s)
    ensures SortWith(le, s) == s
  {
    if s != [] {
      assert SortedWith(le, s[1..]);
      SortWithKeepsSorted(le, s[1..]);
      if |s| > 1 {
        assert le(s[0], s[1]);
      }
    }
  }

  /** A query that filters, sorts and limits (`WHERE … ORDER BY … LIMIT`): its rows pass
      the filter and are in order; without a limit they are every passing row, each as
      often as in the table; with one they are as many as the limit allows, and a passing
      row left out sorts after every row listed. */
  lemma TopRows<T(!new)>(le: (T, T) -> bool, p: T -> bool, s: seq<T>, limit: int)
    requires IsTotalPreorder(le)
    ensures var all := Filter(p, s);
            var r := Limited(SortWith(le, all), limit);
            && (forall x :: x in r ==> x in s && p(x))
            && SortedWith(le, r)
            && (limit <= 0 ==> multiset(r) == multiset(all))
            && (limit <= 0 ==> forall x :: x in s && p(x) ==> x in r)
            && (limit > 0 ==> |r| == if |all| <= limit then |all| else limit)
            && (forall x :: x in s && p(x) ==> x in r || forall y :: y in r ==> le(y, x))
  {
    var all := Filter(p, s);
    var sorted := SortWith(le, all);
    var r := Limited(sorted, limit);
    SortWithSorted(le, all);
    forall x | x in r ensures x in s && p(x) {
      assert x in sorted;
      assert x in multiset(all);
    }
    forall x | limit <= 0 && x in s && p(x) ensures x in r {
      assert x in multiset(all);
    }
    forall x | x in s && p(x) ensures x in r || forall y :: y in r ==> le(y, x) {
      assert x in multiset(sorted);
      var k :| 0 <= k < |sorted| && sorted[k] == x;
      if k < |r| {
        assert r[k] == x;
      } else {
        forall y | y in r ensures le(y, x) {
          var i :| 0 <= i < |r| && r[i] == y;
          assert sorted[i] == y;
        }
      }
    }
  }

  /** Sum of a sequence of integers. */
  function Sum(s: seq<int>): int {
    if s == [] then 0 else s[0] + Sum(s[1..])
  }

  lemma {:induction false} SumAppend(a: seq<int>, b: seq<int>)
    ensures Sum(a + b) == Sum(a) + Sum(b)
  {
    if a == [] {
      assert a + b == b;
    } else {
      assert (a + b)[1..] == a[1..] + b;
      SumAppend(a[1..], b);
    }
  }
}

/** Strings as sequences of characters (Unicode scalar values). Case mapping follows
    ASCII: the mapping of other letters is not part of this model. White space is that
    of the runtime whose library is being modelled. */
module Text {

  /** The two runtimes whose notion of white space the model meets: JavaScript's
      `trim`, `parseInt` and regular-expression `\s` (the WhiteSpace and LineTerminator
      characters of ECMA-262), and Go's `unicode.IsSpace` behind `strings.TrimSpace`. */
  datatype Runtime = JavaScript | Go

  /** White space of the given runtime: the ASCII space, tab, line feed, vertical tab,
      form feed and carriage return, and the ranges of `WideRange` beyond them. */
  predicate IsSpace(rt: Runtime, c: char) {
    c == ' ' || ('\t' <= c <= '\r') || (c as int >= 0x85 && InWideRanges(rt, c as int, 0))
  }

  const WideRangeCount := 8

  /** The code-point ranges of white space beyond ASCII. Both runtimes take the
      no-break space, the Unicode space separators and the line and paragraph separators;
      only JavaScript takes U+FEFF and only Go takes U+0085. */
  function WideRange(rt: Runtime, k: nat): (r: (int, int))
    requires k < WideRangeCount
    ensures 0x85 <= r.0 <= r.1 <= 0xFEFF
  {
    if k == 0 then (0xA0, 0xA0)
    else if k == 1 then (0x1680, 0x1680)
    else if k == 2 then (0x2000, 0x200A)
    else if k == 3 then (0x2028, 0x2029)
    else if k == 4 then (0x202F, 0x202F)
    else if k == 5 then (0x205F, 0x205F)
    else if k == 6 then (0x3000, 0x3000)
    else if rt == JavaScript then (0xFEFF, 0xFEFF)
    else (0x85, 0x85)
  }

  /** Whether code point `n` lies in one of the ranges from the `k`-th on, looked up one
      range at a time. */
  predicate InWideRanges(rt: Runtime, n: int, k: nat)
    decreases WideRangeCount - k
  {
    k < WideRangeCount && (WideRange(rt, k).0 <= n <= WideRange(rt, k).1 || InWideRanges(rt, n, k + 1))
  }

  /** Every range lies within U+0085 to U+FEFF. */
  lemma {:induction false} InWideRangesBounds(rt: Runtime, n: int, k: nat)
    requires InWideRanges(rt, n, k)
    ensures 0x85 <= n <= 0xFEFF
    decreases WideRangeCount - k
  {
    if !(WideRange(rt, k).0 <= n <= WideRange(rt, k).1) {
      InWideRangesBounds(rt, n, k + 1);
    }
  }

  /** No character beyond U+FFFF is white space. */
  lemma AstralNotSpace(rt: Runtime, c: char)
    requires c as int > 0xFFFF
    ensures !IsSpace(rt, c)
  {
    if InWideRanges(rt, c as int, 0) {
      InWideRangesBounds(rt, c as int, 0);
    }
  }

  /** The ideographic space U+3000 is white space for both runtimes. */
  lemma IdeographicSpaceIsSpace(rt: Runtime)
    ensures IsSpace(rt, '\U{3000}')
  {
    assert InWideRanges(rt, 0x3000, 6);
    assert InWideRanges(rt, 0x3000, 4);
    assert InWideRanges(rt, 0x3000, 2);
    assert InWideRanges(rt, 0x3000, 0);
  }

  /** JavaScript's `length`: UTF-16 code units, two for a character beyond U+FFFF. */
  function Utf16Length(s: string): (n: nat)
    ensures |s| <= n <= 2 * |s|
  {
    if |s| == 0 then 0 else (if s[0] as int > 0xFFFF then 2 else 1) + Utf16Length(s[1..])
  }

  /** The UTF-16 length is the number of characters exactly when no character lies
      beyond U+FFFF. */
  lemma {:induction false} Utf16LengthIsLength(s: string)
    ensures Utf16Length(s) == |s| <==> forall i :: 0 <= i < |s| ==> s[i] as int <= 0xFFFF
  {
    if s != [] {
      Utf16LengthIsLength(s[1..]);
      assert forall i :: 1 <= i < |s| ==> s[i] == s[1..][i - 1];
    }
  }

  predicate IsDigit(c: char) { '0' <= c <= '9' }

  function LowerChar(c: char): (d: char)
    ensures 'A' <= c <= 'Z' ==> d as int == c as int + 32
    ensures !('A' <= c <= 'Z') ==> d == c
  {
    if 'A' <= c <= 'Z' then (c as int + 32) as char else c
  }

  /** `toLowerCase` / `strings.ToLower` on the ASCII letters. */
  function Lower(s: string): (r: string)
    ensures |r| == |s|
    ensures forall i :: 0 <= i < |s| ==> r[i] == LowerChar(s[i])
  {
    seq(|s|, i requires 0 <= i < |s| => LowerChar(s[i]))
  }

  /** Lexicographic order of code points: -1, 0 or 1 (`localeCompare` without locale rules,
      Go's string comparison). */
  function StrCmp(a: string, b: string): (c: int)
    ensures -1 <= c <= 1
  {
    if a == [] && b == [] then 0
    else if a == [] then -1
    else if b == [] then 1
    else if a[0] < b[0] then -1
    else if a[0] > b[0] then 1
    else StrCmp(a[1..], b[1..])
  }

  lemma {:induction false} StrCmpAntisymmetric(a: string, b: string)
    ensures StrCmp(a, b) == -StrCmp(b, a)
  {
    if a != [] && b != [] && a[0] == b[0] {
      StrCmpAntisymmetric(a[1..], b[1..]);
    }
  }

  lemma {:induction false} StrCmpZeroIff(a: string, b: string)
    ensures StrCmp(a, b) == 0 <==> a == b
  {
    if a != [] && b != [] && a[0] == b[0] {
      StrCmpZeroIff(a[1..], b[1..]);
      assert a == [a[0]] + a[1..] && b == [b[0]] + b[1..];
    }
  }

  lemma {:induction false} StrCmpTransitive(a: string, b: string, c: string)
    requires StrCmp(a, b) <= 0 && StrCmp(b, c) <= 0
    ensures StrCmp(a, c) <= 0
  {
    if a != [] && b != [] && c != [] && a[0] == b[0] == c[0] {
      StrCmpTransitive(a[1..], b[1..], c[1..]);
    }
  }

  predicate StartsWith(s: string, prefix: string) {
    |prefix| <= |s| && s[..|prefix|] == prefix
  }

  /** `sub` occurs in `s` at position `i`. */
  predicate OccursAt(s: string, sub: string, i: int) {
    0 <= i && i + |sub| <= |s| && s[i..i + |sub|] == sub
  }

  /** `s.includes(sub)` / `strings.Contains(s, sub)`, by scanning from the left. */
  function Contains(s: string, sub: string): (b: bool)
    decreases |s|
  {
    StartsWith(s, sub) || (|s| > 0 && Contains(s[1..], sub))
  }

  /** The scan finds `sub` exactly when it occurs at some position. */
  lemma {:induction false} ContainsIff(s: string, sub: string)
    ensures Contains(s, sub) <==> exists i :: OccursAt(s, sub, i)
    decreases |s|
  {
    if StartsWith(s, sub) {
      assert OccursAt(s, sub, 0);
    } else if |s| > 0 {
      ContainsIff(s[1..], sub);
      if Contains(s[1..], sub) {
        var i :| OccursAt(s[1..], sub, i);
        assert s[1..][i..i + |sub|] == s[i + 1..i + 1 + |sub|];
        assert OccursAt(s, sub, i + 1);
      }
      if exists i :: OccursAt(s, sub, i) {
        var i :| OccursAt(s, sub, i);
        if i > 0 {
          assert s[1..][i - 1..i - 1 + |sub|] == s[i..i + |sub|];
          assert OccursAt(s[1..], sub, i - 1);
        }
      }
    }
  }

  /** The empty string occurs in every string. */
  lemma EmptyContained(s: string)
    ensures Contains(s, "")
  {
    assert StartsWith(s, "");
  }

  function TrimStart(rt: Runtime, s: string): (r: string)
    ensures |r| <= |s| && r == s[|s| - |r|..]
  {
    if |s| > 0 && IsSpace(rt, s[0]) then TrimStart(rt, s[1..]) else s
  }

  /** `TrimStart` stops at a character that is not white space. */
  lemma {:induction false} TrimStartStops(rt: Runtime, s: string)
    ensures TrimStart(rt, s) == [] || !IsSpace(rt, TrimStart(rt, s)[0])
  {
    if |s| > 0 && IsSpace(rt, s[0]) {
      TrimStartStops(rt, s[1..]);
    }
  }

  /** What `TrimStart` cuts off is white space. */
  lemma {:induction false} TrimStartCut(rt: Runtime, s: string)
    ensures forall i :: 0 <= i < |s| - |TrimStart(rt, s)| ==> IsSpace(rt, s[i])
  {
    if |s| > 0 && IsSpace(rt, s[0]) {
      TrimStartCut(rt, s[1..]);
      forall i | 1 <= i < |s| - |TrimStart(rt, s)| ensures IsSpace(rt, s[i]) {
        assert s[i] == s[1..][i - 1];
      }
    }
  }

  function TrimEnd(rt: Runtime, s: string): (r: string)
    ensures |r| <= |s| && r == s[..|r|]
  {
    if |s| > 0 && IsSpace(rt, s[|s| - 1]) then TrimEnd(rt, s[..|s| - 1]) else s
  }

  /** `TrimEnd` stops at a character that is not white space. */
  lemma {:induction false} TrimEndStops(rt: Runtime, s: string)
    ensures var r := TrimEnd(rt, s); r == [] || !IsSpace(rt, r[|r| - 1])
  {
    if |s| > 0 && IsSpace(rt, s[|s| - 1]) {
      TrimEndStops(rt, s[..|s| - 1]);
    }
  }

  /** What `TrimEnd` cuts off is white space. */
  lemma {:induction false} TrimEndCut(rt: Runtime, s: string)
    ensures forall i :: |TrimEnd(rt, s)| <= i < |s| ==> IsSpace(rt, s[i])
  {
    if |s| > 0 && IsSpace(rt, s[|s| - 1]) {
      TrimEndCut(rt, s[..|s| - 1]);
      forall i | |TrimEnd(rt, s)| <= i < |s| - 1 ensures IsSpace(rt, s[i]) {
        assert s[i] == s[..|s| - 1][i];
      }
    }
  }

  /** `trim()` for JavaScript, `strings.TrimSpace` for Go. */
  function Trim(rt: Runtime, s: string): (r: string)
  {
    TrimEnd(rt, TrimStart(rt, s))
  }

  /** The trimmed string is a piece of the original with no white space at either end,
      and everything cut off was white space. */
  lemma TrimProperties(rt: Runtime, s: string)
    ensures var r, k := Trim(rt, s), |s| - |TrimStart(rt, s)|;
      && (r == [] || (!IsSpace(rt, r[0]) && !IsSpace(rt, r[|r| - 1])))
      && 0 <= k <= |s| - |r| && s[k..k + |r|] == r
      && (forall i :: 0 <= i < k ==> IsSpace(rt, s[i]))
      && (forall i :: k + |r| <= i < |s| ==> IsSpace(rt, s[i]))
  {
    TrimPiece(rt, s);
    TrimTail(rt, s);
    TrimStartCut(rt, s);
    var t := TrimStart(rt, s);
    var r := TrimEnd(rt, t);
    TrimStartStops(rt, s);
    TrimEndStops(rt, t);
    if r != [] {
      assert r[0] == t[0];
    }
  }

  /** The trimmed string sits in the original right after the leading white space. */
  lemma TrimPiece(rt: Runtime, s: string)
    ensures var r, k := Trim(rt, s), |s| - |TrimStart(rt, s)|;
      0 <= k <= |s| - |r| && s[k..k + |r|] == r
  {
    var t, r := TrimStart(rt, s), Trim(rt, s);
    TrimIsPrefix(rt, s);
    SliceOfSuffix(s, t, r);
  }

  /** A prefix `r` of a suffix `t` of `s` is the slice of `s` where `t` starts. */
  lemma SliceOfSuffix<T>(s: seq<T>, t: seq<T>, r: seq<T>)
    requires |t| <= |s| && t == s[|s| - |t|..] && |r| <= |t| && r == t[..|r|]
    ensures 0 <= |s| - |t| <= |s| - |r| && s[|s| - |t|..|s| - |t| + |r|] == r
  {
  }

  /** The trimmed string is a prefix of the string with its leading white space cut. */
  lemma TrimIsPrefix(rt: Runtime, s: string)
    ensures |Trim(rt, s)| <= |TrimStart(rt, s)| && Trim(rt, s) == TrimStart(rt, s)[..|Trim(rt, s)|]
  {
    var t := TrimStart(rt, s);
    assert Trim(rt, s) == TrimEnd(rt, t);
  }

  /** Everything after the trimmed string is white space. */
  lemma TrimTail(rt: Runtime, s: string)
    ensures var r, k := Trim(rt, s), |s| - |TrimStart(rt, s)|;
      forall i :: k + |r| <= i < |s| ==> IsSpace(rt, s[i])
  {
    var t := TrimStart(rt, s);
    var r := TrimEnd(rt, t);
    var k := |s| - |t|;
    TrimEndCut(rt, t);
    assert t == s[k..];
    forall i | k + |r| <= i < |s| ensures IsSpace(rt, s[i]) {
      assert |r| <= i - k < |t|;
      assert s[i] == t[i - k];
    }
  }

  /** A string is empty after trimming exactly when it is all white space. */
  lemma TrimEmptyIff(rt: Runtime, s: string)
    ensures Trim(rt, s) == [] <==> forall i :: 0 <= i < |s| ==> IsSpace(rt, s[i])
  {
    var t := TrimStart(rt, s);
    TrimStartCut(rt, s);
    TrimTail(rt, s);
    TrimStartStops(rt, s);
    if Trim(rt, s) != [] {
      assert !IsSpace(rt, t[0]);
      assert t[0] == s[|s| - |t|];
    }
  }

  /** Trimming twice is trimming once. */
  lemma TrimIdempotent(rt: Runtime, s: string)
    ensures Trim(rt, Trim(rt, s)) == Trim(rt, s)
  {
    var t := TrimStart(rt, s);
    var r := TrimEnd(rt, t);
    TrimStartStops(rt, s);
    TrimEndStops(rt, t);
    if r != [] {
      assert r[0] == t[0];
      assert TrimStart(rt, r) == r;
      assert TrimEnd(rt, r) == r;
    }
  }

  /** `strings.Split(s, sep)` for a one-character separator: the fields between separators.
      Always at least one field; the empty string gives one empty field. */
  function Split(s: string, sep: char): (r: seq<string>)
    ensures |r| >= 1
    decreases |s|
  {
    if |s| == 0 then [""]
    else
      var rest := Split(s[1..], sep);
      if s[0] == sep then [""] + rest else [[s[0]] + rest[0]] + rest[1..]
  }

  function CountChar(s: string, c: char): nat {
    if |s| == 0 then 0 else (if s[0] == c then 1 else 0) + CountChar(s[1..], c)
  }

  /** Joining fields with a separator (`strings.Join`). */
  function Join(parts: seq<string>, sep: string): string {
    if |parts| == 0 then ""
    else if |parts| == 1 then parts[0]
    else parts[0] + sep + Join(parts[1..], sep)
  }

  /** There is one more field than there are separators, no field holds a separator,
      and joining the fields back gives the original string. */
  lemma {:induction false} SplitProperties(s: string, sep: char)
    ensures |Split(s, sep)| == CountChar(s, sep) + 1
    ensures forall i :: 0 <= i < |Split(s, sep)| ==> sep !in Split(s, sep)[i]
    ensures Join(Split(s, sep), [sep]) == s
    decreases |s|
  {
    if |s| > 0 {
      SplitProperties(s[1..], sep);
      var rest := Split(s[1..], sep);
      if s[0] == sep {
        assert Split(s, sep) == [""] + rest;
        assert Join([""] + rest, [sep]) == "" + [sep] + Join(rest, [sep]);
        assert s == [s[0]] + s[1..];
      } else {
        var r := Split(s, sep);
        assert r == [[s[0]] + rest[0]] + rest[1..];
        forall i | 0 <= i < |r| ensures sep !in r[i] {
          if i > 0 { assert r[i] == rest[i]; }
        }
        if |rest| == 1 {
          assert Join(r, [sep]) == [s[0]] + rest[0];
        } else {
          assert r[1..] == rest[1..];
          assert Join(rest, [sep]) == rest[0] + [sep] + Join(rest[1..], [sep]);
          assert Join(r, [sep]) == [s[0]] + rest[0] + [sep] + Join(rest[1..], [sep]);
        }
        assert s == [s[0]] + s[1..];
      }
    }
  }

  /** Value of a string of decimal digits. */
  function DigitsValue(s: string): nat
    requires AllDigits(s)
  {
    if |s| == 0 then 0
    else
      var d := s[|s| - 1] as int - '0' as int;
      assert IsDigit(s[|s| - 1]);
      DigitsValue(s[..|s| - 1]) * 10 + d
  }

  predicate AllDigits(s: string) {
    forall i :: 0 <= i < |s| ==> IsDigit(s[i])
  }

  function DigitChar(d: nat): (c: char)
    requires d < 10
    ensures IsDigit(c) && c as int - '0' as int == d
  {
    ('0' as int + d) as char
  }

  /** Decimal representation without leading zeros (`strconv.Itoa`, `String(n)`, `toString()`). */
  function NatToString(n: nat): (s: string)
    ensures |s| >= 1 && AllDigits(s)
    ensures |s| > 1 ==> s[0] != '0'
  {
    if n < 10 then [DigitChar(n)] else NatToString(n / 10) + [DigitChar(n % 10)]
  }

  /** Reading back the decimal form of `n` gives `n`. */
  lemma {:induction false} NatToStringRoundTrip(n: nat)
    ensures DigitsValue(NatToString(n)) == n
  {
    if n >= 10 {
      NatToStringRoundTrip(n / 10);
      var s := NatToString(n);
      assert s[..|s| - 1] == NatToString(n / 10);
    }
  }

  /** Distinct numbers have distinct decimal forms. */
  lemma NatToStringInjective(m: nat, n: nat)
    requires NatToString(m) == NatToString(n)
    ensures m == n
  {
    NatToStringRoundTrip(m);
    NatToStringRoundTrip(n);
  }

  /** Decimal representation of an integer with a leading '-' when negative. */
  function IntToString(n: int): string {
    if n < 0 then "-" + NatToString(-n) else NatToString(n)
  }
}

/** Go's integer division and remainder, which truncate toward zero. */
module GoInt {

  function Abs(a: int): nat { if a < 0 then -a else a }

  /** `a / b` on Go integers. */
  function Div(a: int, b: int): (q: int)
    requires b != 0
    ensures a >= 0 && b > 0 ==> q == a / b
  {
    var q := Abs(a) / Abs(b);
    if (a < 0) == (b < 0) then q else -q
  }

  /** `a % b` on Go integers: the remainder has the sign of `a` and the magnitude of
      `|a| % |b|`. */
  function Mod(a: int, b: int): (r: int)
    requires b != 0
    ensures a >= 0 && b > 0 ==> r == a % b
    ensures Abs(r) < Abs(b)
    ensures a >= 0 ==> r >= 0
    ensures a < 0 ==> r <= 0
  {
    if a >= 0 then Abs(a) % Abs(b) else -(Abs(a) % Abs(b))
  }

  /** Go's quotient and remainder recompose the dividend. */
  lemma DivMod(a: int, b: int)
    requires b != 0
    ensures a == Div(a, b) * b + Mod(a, b)
  {
    var x: int, y: int := Abs(a), Abs(b);
    var k := x / y;
    assert x == k * y + x % y;
    if a >= 0 && b > 0 {
      assert Div(a, b) * b == k * y;
    } else if a >= 0 {
      assert Div(a, b) * b == -k * -y == k * y;
    } else if b > 0 {
      assert Div(a, b) * b == -k * y == -(k * y);
    } else {
      assert Div(a, b) * b == k * -y == -(k * y);
    }
  }

  /** `p` is the ceiling of `total / size`: the fewest pages of `size` that hold `total`. */
  predicate IsCeil(p: int, total: int, size: int) {
    p >= 0 && p * size >= total && (p == 0 || (p - 1) * size < total)
  }
}
