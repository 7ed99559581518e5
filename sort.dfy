/** Reordering of matched records by the text of a key descendant (sort.py).
    The list is sorted in place by a stable comparison sort; a descending
    sort swaps the comparator's arguments instead of reversing the list, so
    records with equal keys keep their input order in both directions. */
module Sorting {
  import opened Xml

  // ---------------------------------------------------------------------
  // Keys and their order
  // ---------------------------------------------------------------------

  function LowerChar(c: char): char {
    if 'A' <= c <= 'Z' then (c as int + 32) as char else c
  }

  /** `str.lower()` on ASCII text. */
  function Lower(s: string): string {
    seq(|s|, i requires 0 <= i < |s| => LowerChar(s[i]))
  }

  /** Lower-casing keeps the length, leaves no ASCII capital behind, keeps
      every other character, and a second lower-casing changes nothing. */
  lemma LowerFolds(s: string)
    ensures |Lower(s)| == |s|
    ensures forall i :: 0 <= i < |s| ==> !('A' <= Lower(s)[i] <= 'Z')
    ensures forall i :: 0 <= i < |s| && !('A' <= s[i] <= 'Z') ==> Lower(s)[i] == s[i]
    ensures Lower(Lower(s)) == Lower(s)
  {
  }

  /** Python string comparison: lexicographic by character. */
  predicate Lt(a: string, b: string) {
    if a == [] then b != []
    else if b == [] then false
    else if a[0] != b[0] then a[0] < b[0]
    else Lt(a[1..], b[1..])
  }

  lemma {:induction false} LtIrreflexive(a: string)
    ensures !Lt(a, a)
  {
    if a != [] {
      LtIrreflexive(a[1..]);
    }
  }

  lemma {:induction false} LtTransitive(a: string, b: string, c: string)
    requires Lt(a, b) && Lt(b, c)
    ensures Lt(a, c)
  {
    if a != [] && a[0] == b[0] && b[0] == c[0] {
      LtTransitive(a[1..], b[1..], c[1..]);
    }
  }

  lemma {:induction false} LtTotal(a: string, b: string)
    requires a != b
    ensures Lt(a, b) || Lt(b, a)
  {
    if a != [] && b != [] && a[0] == b[0] {
      assert a == [a[0]] + a[1..] && b == [b[0]] + b[1..];
      LtTotal(a[1..], b[1..]);
    }
  }

  /** "Not less than" is transitive. */
  lemma NotLtChain(a: string, b: string, c: string)
    requires !Lt(a, b) && !Lt(b, c)
    ensures !Lt(a, c)
  {
    if Lt(a, c) {
      if a == b {
      } else {
        LtTotal(a, b);
        LtTransitive(b, a, c);
      }
    }
  }

  /** The record has a descendant tagged `key`. */
  predicate HasKey(r: Node, key: string) {
    FindText(r, ".//" + key).Some?
  }

  /** The lower-cased text of the record's first `key` descendant. */
  function KeyText(r: Node, key: string): string {
    Lower(FindText(r, ".//" + key).GetOr(""))
  }

  /** The sort key of every record, as a function value. */
  function KeyFn(key: string): Node -> string {
    (r: Node) => KeyText(r, key)
  }

  /** The comparator says `x` goes strictly before `y`. */
  predicate Before(x: Node, y: Node, kf: Node -> string, reverse: bool) {
    if reverse then Lt(kf(y), kf(x)) else Lt(kf(x), kf(y))
  }

  /** Along `s` no record goes strictly before an earlier one: keys are
      non-decreasing, or non-increasing when `reverse`. */
  predicate Ordered(s: seq<Node>, kf: Node -> string, reverse: bool) {
    forall i, j :: 0 <= i < j < |s| ==> !Before(s[j], s[i], kf, reverse)
  }

  lemma BeforeIrreflexive(x: Node, y: Node, kf: Node -> string, reverse: bool)
    requires Before(x, y, kf, reverse)
    ensures kf(x) != kf(y)
  {
    if kf(x) == kf(y) {
      LtIrreflexive(kf(x));
    }
  }

  lemma BeforeAsymmetric(x: Node, y: Node, kf: Node -> string, reverse: bool)
    requires Before(x, y, kf, reverse)
    ensures !Before(y, x, kf, reverse)
  {
    if Before(y, x, kf, reverse) {
      LtTransitive(kf(x), kf(y), kf(x));
      LtIrreflexive(kf(x));
    }
  }

  /** If `x` does not go before `y` and `y` does not go before `z`, then `x`
      does not go before `z`. */
  lemma BeforeChain(x: Node, y: Node, z: Node, kf: Node -> string, reverse: bool)
    requires !Before(x, y, kf, reverse) && !Before(y, z, kf, reverse)
    ensures !Before(x, z, kf, reverse)
  {
    if reverse {
      NotLtChain(kf(z), kf(y), kf(x));
    } else {
      NotLtChain(kf(x), kf(y), kf(z));
    }
  }

  // ---------------------------------------------------------------------
  // The stable sort, as a function
  // ---------------------------------------------------------------------

  /** `x` placed after the last record of `s` that it does not go strictly
      before; the search runs from the back. */
  function InsertSorted(x: Node, s: seq<Node>, kf: Node -> string, reverse: bool): (r: seq<Node>)
    ensures |r| == |s| + 1
  {
    if s == [] || !Before(x, s[|s| - 1], kf, reverse) then s + [x]
    else InsertSorted(x, s[..|s| - 1], kf, reverse) + [s[|s| - 1]]
  }

  /** The list as Python's stable `list.sort` leaves it. */
  function StableSort(s: seq<Node>, kf: Node -> string, reverse: bool): (r: seq<Node>)
    ensures |r| == |s|
  {
    if s == [] then []
    else InsertSorted(s[|s| - 1], StableSort(s[..|s| - 1], kf, reverse), kf, reverse)
  }

  lemma {:induction false} InsertPermutes(x: Node, s: seq<Node>, kf: Node -> string, reverse: bool)
    ensures multiset(InsertSorted(x, s, kf, reverse)) == multiset(s) + multiset{x}
  {
    if s != [] && Before(x, s[|s| - 1], kf, reverse) {
      InsertPermutes(x, s[..|s| - 1], kf, reverse);
      assert s == s[..|s| - 1] + [s[|s| - 1]];
    }
  }

  /** The sorted list is a permutation of the input. */
  lemma {:induction false} StableSortPermutes(s: seq<Node>, kf: Node -> string, reverse: bool)
    ensures multiset(StableSort(s, kf, reverse)) == multiset(s)
  {
    if s != [] {
      StableSortPermutes(s[..|s| - 1], kf, reverse);
      InsertPermutes(s[|s| - 1], StableSort(s[..|s| - 1], kf, reverse), kf, reverse);
      assert s == s[..|s| - 1] + [s[|s| - 1]];
    }
  }

  lemma {:induction false} InsertOrdered(x: Node, s: seq<Node>, kf: Node -> string, reverse: bool)
    requires Ordered(s, kf, reverse)
    ensures Ordered(InsertSorted(x, s, kf, reverse), kf, reverse)
  {
    var r := InsertSorted(x, s, kf, reverse);
    if s == [] {
    } else if !Before(x, s[|s| - 1], kf, reverse) {
      forall i, j | 0 <= i < j < |r| ensures !Before(r[j], r[i], kf, reverse) {
        if j == |s| {
          if i < |s| - 1 {
            BeforeChain(x, s[|s| - 1], s[i], kf, reverse);
          }
        }
      }
    } else {
      var front := s[..|s| - 1];
      var last := s[|s| - 1];
      InsertOrdered(x, front, kf, reverse);
      var q := InsertSorted(x, front, kf, reverse);
      InsertPermutes(x, front, kf, reverse);
      BeforeAsymmetric(x, last, kf, reverse);
      forall i, j | 0 <= i < j < |r| ensures !Before(r[j], r[i], kf, reverse) {
        if j == |r| - 1 {
          assert r[j] == last && r[i] == q[i];
          assert q[i] in multiset(q);
          if q[i] != x {
            assert q[i] in multiset(front);
            var k :| 0 <= k < |front| && front[k] == q[i];
            assert s[k] == q[i];
          }
        } else {
          assert r[i] == q[i] && r[j] == q[j];
        }
      }
    }
  }

  /** Along the sorted list no record goes before an earlier one. */
  lemma {:induction false} StableSortOrdered(s: seq<Node>, kf: Node -> string, reverse: bool)
    ensures Ordered(StableSort(s, kf, reverse), kf, reverse)
  {
    if s != [] {
      StableSortOrdered(s[..|s| - 1], kf, reverse);
      InsertOrdered(s[|s| - 1], StableSort(s[..|s| - 1], kf, reverse), kf, reverse);
    }
  }

  /** An ascending sort leaves the lower-cased keys non-decreasing. */
  lemma AscendingKeys(s: seq<Node>, kf: Node -> string, i: int, j: int)
    requires 0 <= i < j < |s|
    ensures var r := StableSort(s, kf, false);
      kf(r[i]) == kf(r[j]) || Lt(kf(r[i]), kf(r[j]))
  {
    var r := StableSort(s, kf, false);
    StableSortOrdered(s, kf, false);
    assert !Before(r[j], r[i], kf, false);
    if kf(r[i]) != kf(r[j]) {
      LtTotal(kf(r[i]), kf(r[j]));
    }
  }

  /** A descending sort leaves the lower-cased keys non-increasing. */
  lemma DescendingKeys(s: seq<Node>, kf: Node -> string, i: int, j: int)
    requires 0 <= i < j < |s|
    ensures var r := StableSort(s, kf, true);
      kf(r[i]) == kf(r[j]) || Lt(kf(r[j]), kf(r[i]))
  {
    var r := StableSort(s, kf, true);
    StableSortOrdered(s, kf, true);
    assert !Before(r[j], r[i], kf, true);
    if kf(r[i]) != kf(r[j]) {
      LtTotal(kf(r[i]), kf(r[j]));
    }
  }

  /** The records of `s` whose key text is `k`, in order. */
  function WithKey(s: seq<Node>, kf: Node -> string, k: string): seq<Node> {
    if s == [] then []
    else WithKey(s[..|s| - 1], kf, k) + (if kf(s[|s| - 1]) == k then [s[|s| - 1]] else [])
  }

  lemma {:induction false} InsertStable(x: Node, s: seq<Node>, kf: Node -> string, reverse: bool, k: string)
    ensures WithKey(InsertSorted(x, s, kf, reverse), kf, k)
         == WithKey(s, kf, k) + (if kf(x) == k then [x] else [])
  {
    var r := InsertSorted(x, s, kf, reverse);
    if s == [] || !Before(x, s[|s| - 1], kf, reverse) {
      assert r[..|r| - 1] == s;
    } else {
      var front, last := s[..|s| - 1], s[|s| - 1];
      InsertStable(x, front, kf, reverse, k);
      BeforeIrreflexive(x, last, kf, reverse);
      assert r[..|r| - 1] == InsertSorted(x, front, kf, reverse);
    }
  }

  /** Stability: for every key value, the records carrying it appear in the
      sorted list in the same order as in the input. */
  lemma {:induction false} StableSortStable(s: seq<Node>, kf: Node -> string, reverse: bool, k: string)
    ensures WithKey(StableSort(s, kf, reverse), kf, k) == WithKey(s, kf, k)
  {
    if s != [] {
      StableSortStable(s[..|s| - 1], kf, reverse, k);
      InsertStable(s[|s| - 1], StableSort(s[..|s| - 1], kf, reverse), kf, reverse, k);
    }
  }

  /** Lists of zero or one record come back unchanged. */
  lemma ShortListUnchanged(s: seq<Node>, kf: Node -> string, reverse: bool)
    requires |s| <= 1
    ensures StableSort(s, kf, reverse) == s
  {
    if |s| == 1 {
      assert s[..0] == [];
    }
  }

  // ---------------------------------------------------------------------
  // Sort.sort: in place on the caller's list
  // ---------------------------------------------------------------------

  /** One step of the backwards search: when `x` goes strictly before
      `sorted[j - 1]`, that record moves behind the insertion point. */
  lemma InsertStep(x: Node, sorted: seq<Node>, j: int, kf: Node -> string, reverse: bool)
    requires 0 < j <= |sorted| && Before(x, sorted[j - 1], kf, reverse)
    ensures InsertSorted(x, sorted[..j], kf, reverse) + sorted[j..]
         == InsertSorted(x, sorted[..j - 1], kf, reverse) + sorted[j - 1..]
  {
    assert sorted[..j][..j - 1] == sorted[..j - 1];
    assert sorted[j - 1..] == [sorted[j - 1]] + sorted[j..];
  }

  /** Moves `a[i]` back past every record of the sorted prefix `a[..i]` that
      it goes strictly before. */
  method InsertLast(a: array<Node>, i: int, kf: Node -> string, reverse: bool)
    requires 0 <= i < a.Length
    modifies a
    ensures a[..i + 1] == InsertSorted(old(a[i]), old(a[..i]), kf, reverse)
    ensures a[i + 1..] == old(a[i + 1..])
  {
    var x := a[i];
    ghost var sorted := a[..i];
    ghost var rest := a[i + 1..];
    var j := i;
    while j > 0 && Before(x, a[j - 1], kf, reverse)
      invariant 0 <= j <= i
      invariant a[..j] == sorted[..j]
      invariant a[j + 1..i + 1] == sorted[j..]
      invariant a[i + 1..] == rest
      invariant InsertSorted(x, sorted, kf, reverse)
             == InsertSorted(x, sorted[..j], kf, reverse) + sorted[j..]
    {
      assert a[j - 1] == sorted[j - 1];
      InsertStep(x, sorted, j, kf, reverse);
      a[j] := a[j - 1];
      j := j - 1;
    }
    assert InsertSorted(x, sorted[..j], kf, reverse) == sorted[..j] + [x];
    a[j] := x;
    assert a[..i + 1] == sorted[..j] + [x] + sorted[j..];
  }

  /** Insertion sort of `a` under the order `kf` and `reverse` give. */
  method InsertionSort(a: array<Node>, kf: Node -> string, reverse: bool)
    modifies a
    ensures a[..] == StableSort(old(a[..]), kf, reverse)
  {
    var n := a.Length;
    ghost var input := a[..];
    if n <= 1 {
      ShortListUnchanged(input, kf, reverse);
      return;
    }
    var i := 1;
    assert a[..1] == StableSort(input[..1], kf, reverse) by {
      ShortListUnchanged(input[..1], kf, reverse);
    }
    while i < n
      invariant 1 <= i <= n
      invariant a[..i] == StableSort(input[..i], kf, reverse)
      invariant a[i..] == input[i..]
    {
      ghost var pre := a[..];
      assert input[..i + 1][..i] == input[..i];
      assert pre[i] == input[i] && pre[..i] == StableSort(input[..i], kf, reverse);
      InsertLast(a, i, kf, reverse);
      assert a[..i + 1] == StableSort(input[..i + 1], kf, reverse);
      assert a[i + 1..] == pre[i + 1..] == input[i + 1..];
      i := i + 1;
    }
    assert input[..n] == input;
  }

  /** `Sort.sort(datalist, key, reverse)`: sorts `datalist` in place by the
      lower-cased text of each record's first `key` descendant and returns the
      same list. Every comparison looks up the key of both records, so a list
      of two or more records must give every record a key descendant. */
  method Sort(datalist: array<Node>, key: string, reverse: bool) returns (r: array<Node>)
    requires datalist.Length > 1 ==> forall i :: 0 <= i < datalist.Length ==> HasKey(datalist[i], key)
    modifies datalist
    ensures r == datalist
    ensures datalist[..] == StableSort(old(datalist[..]), KeyFn(key), reverse)
  {
    if datalist.Length > 1 {
      InsertionSort(datalist, KeyFn(key), reverse);
    } else {
      ShortListUnchanged(datalist[..], KeyFn(key), reverse);
    }
    r := datalist;
  }
}
