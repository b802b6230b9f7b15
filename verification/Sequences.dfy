/** Sequence vocabulary: mapping, filtering, sorting and the byte order of strings.
    The sort stands for the library's `sort_unstable_by`: on keys that do not repeat,
    every correct sort returns the sequence computed here (SortIsUnique). */
module Sequences {
  import opened Numbers
  import opened Wrappers

  type Text = seq<byte>

  // ---------- map and filter_map ----------

  function Map<T, U>(f: T -> U, s: seq<T>): (r: seq<U>)
    ensures |r| == |s|
    ensures forall i :: 0 <= i < |s| ==> r[i] == f(s[i])
  {
    seq(|s|, i requires 0 <= i < |s| => f(s[i]))
  }

  function FilterMap<T, U>(f: T -> Option<U>, s: seq<T>): (r: seq<U>)
    ensures |r| <= |s|
  {
    if s == [] then []
    else (if f(s[0]).Some? then [f(s[0]).value] else []) + FilterMap(f, s[1..])
  }

  lemma {:induction false} FilterMapConcat<T, U>(f: T -> Option<U>, a: seq<T>, b: seq<T>)
    ensures FilterMap(f, a + b) == FilterMap(f, a) + FilterMap(f, b)
  {
    if a == [] {
      assert a + b == b;
    } else {
      assert (a + b)[1..] == a[1..] + b && (a + b)[0] == a[0];
      FilterMapConcat(f, a[1..], b);
      var head := if f(a[0]).Some? then [f(a[0]).value] else [];
      assert FilterMap(f, a) == head + FilterMap(f, a[1..]);
      assert FilterMap(f, a + b) == head + FilterMap(f, a[1..] + b);
      assert head + (FilterMap(f, a[1..]) + FilterMap(f, b)) == (head + FilterMap(f, a[1..])) + FilterMap(f, b);
    }
  }

  lemma {:induction false} FilterMapMembers<T, U>(f: T -> Option<U>, s: seq<T>)
    ensures forall u :: u in FilterMap(f, s) <==> exists i :: 0 <= i < |s| && f(s[i]) == Some(u)
  {
    if s != [] {
      FilterMapMembers(f, s[1..]);
      forall u ensures u in FilterMap(f, s) <==> exists i :: 0 <= i < |s| && f(s[i]) == Some(u) {
        if i :| 0 <= i < |s| && f(s[i]) == Some(u) {
          assert i > 0 ==> s[1..][i - 1] == s[i];
        }
        if u in FilterMap(f, s[1..]) {
          var i :| 0 <= i < |s[1..]| && f(s[1..][i]) == Some(u);
          assert s[i + 1] == s[1..][i];
        }
      }
    }
  }

  /** Collecting results: all values, or the first error. */
  function TryMap<T, U>(f: T -> Result<U>, s: seq<T>): (r: Result<seq<U>>)
    ensures r.Ok? ==> |r.value| == |s| && forall i :: 0 <= i < |s| ==> f(s[i]) == Ok(r.value[i])
    ensures (forall i :: 0 <= i < |s| ==> f(s[i]).Ok?) ==> r.Ok?
  {
    if s == [] then Ok([])
    else
      var first :- f(s[0]);
      var rest :- TryMap(f, s[1..]);
      Ok([first] + rest)
  }

  predicate Distinct<T(==)>(s: seq<T>) {
    forall i, j :: 0 <= i < j < |s| ==> s[i] != s[j]
  }

  lemma {:induction false} DistinctCount<T>(s: seq<T>)
    requires Distinct(s)
    ensures forall x :: x in s ==> multiset(s)[x] == 1
  {
    if s != [] {
      var x := s[0];
      assert s == [x] + s[1..];
      assert x !in s[1..];
      DistinctCount(s[1..]);
    }
  }

  lemma {:induction false} CountDistinct<T>(s: seq<T>)
    requires forall x :: x in s ==> multiset(s)[x] <= 1
    ensures Distinct(s)
  {
    if s != [] {
      assert s == [s[0]] + s[1..];
      assert multiset(s)[s[0]] == 1 + multiset(s[1..])[s[0]];
      assert s[0] !in s[1..];
      forall x | x in s[1..] ensures multiset(s[1..])[x] <= 1 {
        assert x in s;
      }
      CountDistinct(s[1..]);
    }
  }

  // ---------- sorting ----------

  ghost predicate TotalPreorder<T(!new)>(leq: (T, T) -> bool) {
    && (forall x, y :: leq(x, y) || leq(y, x))
    && (forall x, y, z :: leq(x, y) && leq(y, z) ==> leq(x, z))
  }

  ghost predicate Sorted<T>(leq: (T, T) -> bool, s: seq<T>) {
    forall i, j :: 0 <= i < j < |s| ==> leq(s[i], s[j])
  }

  /** No two different members compare as equal, so there is one way to order them. */
  ghost predicate Decided<T>(leq: (T, T) -> bool, s: seq<T>) {
    forall x, y :: x in s && y in s && leq(x, y) && leq(y, x) ==> x == y
  }

  function Insert<T>(leq: (T, T) -> bool, x: T, s: seq<T>): (r: seq<T>)
    ensures |r| == |s| + 1
    ensures multiset(r) == multiset(s) + multiset{x}
  {
    if s == [] then [x]
    else if leq(x, s[0]) then [x] + s
    else
      assert s == [s[0]] + s[1..];
      [s[0]] + Insert(leq, x, s[1..])
  }

  function SortBy<T>(leq: (T, T) -> bool, s: seq<T>): (r: seq<T>)
    ensures |r| == |s|
    ensures multiset(r) == multiset(s)
  {
    if s == [] then []
    else
      assert s == [s[0]] + s[1..];
      Insert(leq, s[0], SortBy(leq, s[1..]))
  }

  lemma {:induction false} MembersOfMultiset<T>(a: seq<T>, b: seq<T>)
    requires multiset(a) == multiset(b)
    ensures |a| == |b|
    ensures forall x :: x in a <==> x in b
    ensures Distinct(a) ==> Distinct(b)
  {
    assert |multiset(a)| == |a| && |multiset(b)| == |b|;
    forall x ensures x in a <==> x in b {
      assert x in a <==> x in multiset(a);
      assert x in b <==> x in multiset(b);
    }
    if Distinct(a) {
      DistinctCount(a);
      CountDistinct(b);
    }
  }

  lemma {:induction false} InsertSorted<T(!new)>(leq: (T, T) -> bool, x: T, s: seq<T>)
    requires TotalPreorder(leq) && Sorted(leq, s)
    ensures Sorted(leq, Insert(leq, x, s))
  {
    if s != [] && !leq(x, s[0]) {
      InsertSorted(leq, x, s[1..]);
      var t := Insert(leq, x, s[1..]);
      forall y | y in t ensures leq(s[0], y) {
        assert y in multiset(t);
        assert y == x || y in s[1..];
      }
    }
  }

  lemma {:induction false} SortSorts<T(!new)>(leq: (T, T) -> bool, s: seq<T>)
    requires TotalPreorder(leq)
    ensures Sorted(leq, SortBy(leq, s))
  {
    if s != [] {
      SortSorts(leq, s[1..]);
      InsertSorted(leq, s[0], SortBy(leq, s[1..]));
    }
  }

  lemma {:induction false} SortedHeadsAgree<T>(leq: (T, T) -> bool, a: seq<T>, b: seq<T>)
    requires multiset(a) == multiset(b) && a != [] && b != []
    requires Sorted(leq, a) && Sorted(leq, b) && Decided(leq, a)
    ensures a[0] == b[0]
  {
    MembersOfMultiset(a, b);
    assert a[0] in b && b[0] in a;
    var i :| 0 <= i < |b| && b[i] == a[0];
    var j :| 0 <= j < |a| && a[j] == b[0];
    assert i > 0 ==> leq(b[0], b[i]);
    assert j > 0 ==> leq(a[0], a[j]);
  }

  /** Two sorted arrangements of the same members are the same sequence. */
  lemma {:induction false} SortIsUnique<T>(leq: (T, T) -> bool, a: seq<T>, b: seq<T>)
    requires multiset(a) == multiset(b)
    requires Sorted(leq, a) && Sorted(leq, b) && Decided(leq, a)
    ensures a == b
  {
    assert |multiset(a)| == |a| && |multiset(b)| == |b|;
    if a != [] {
      SortedHeadsAgree(leq, a, b);
      assert a == [a[0]] + a[1..] && b == [b[0]] + b[1..];
      assert multiset(a[1..]) == multiset(a) - multiset{a[0]};
      assert multiset(b[1..]) == multiset(b) - multiset{a[0]};
      assert forall x :: x in a[1..] ==> x in a;
      SortIsUnique(leq, a[1..], b[1..]);
    }
  }

  /** Sorting forgets the order of its input. */
  lemma {:induction false} SortForgetsOrder<T(!new)>(leq: (T, T) -> bool, a: seq<T>, b: seq<T>)
    requires TotalPreorder(leq) && multiset(a) == multiset(b) && Decided(leq, a)
    ensures SortBy(leq, a) == SortBy(leq, b)
  {
    SortSorts(leq, a);
    SortSorts(leq, b);
    MembersOfMultiset(a, SortBy(leq, a));
    SortIsUnique(leq, SortBy(leq, a), SortBy(leq, b));
  }

  lemma {:induction false} SortKeepsSorted<T(!new)>(leq: (T, T) -> bool, s: seq<T>)
    requires TotalPreorder(leq) && Sorted(leq, s) && Decided(leq, s)
    ensures SortBy(leq, s) == s
  {
    SortSorts(leq, s);
    SortIsUnique(leq, s, SortBy(leq, s));
  }

  /** A sort by key commutes with any map that preserves the key order. */
  lemma {:induction false} SortCommutesWithMap<T(!new), U>(
      leqT: (T, T) -> bool, leqU: (U, U) -> bool, f: T -> U, s: seq<T>)
    requires forall x, y :: leqT(x, y) == leqU(f(x), f(y))
    ensures Map(f, SortBy(leqT, s)) == SortBy(leqU, Map(f, s))
  {
    if s != [] {
      var x, tail := s[0], SortBy(leqT, s[1..]);
      SortCommutesWithMap(leqT, leqU, f, s[1..]);
      InsertCommutesWithMap(leqT, leqU, f, x, tail);
      MapCons(f, s);
      var t := Map(f, s[1..]);
      calc {
        SortBy(leqU, Map(f, s));
        SortBy(leqU, [f(x)] + t);
        { assert ([f(x)] + t)[1..] == t; }
        Insert(leqU, f(x), SortBy(leqU, t));
        Map(f, SortBy(leqT, s));
      }
    }
  }

  lemma {:induction false} MapCons<T, U>(f: T -> U, s: seq<T>)
    requires s != []
    ensures Map(f, s) == [f(s[0])] + Map(f, s[1..])
  {
  }

  lemma {:induction false} InsertCommutesWithMap<T(!new), U>(
      leqT: (T, T) -> bool, leqU: (U, U) -> bool, f: T -> U, x: T, s: seq<T>)
    requires forall x, y :: leqT(x, y) == leqU(f(x), f(y))
    ensures Map(f, Insert(leqT, x, s)) == Insert(leqU, f(x), Map(f, s))
  {
    if s == [] {
      assert Map(f, []) == [] && Map(f, [x]) == [f(x)];
    } else {
      MapCons(f, s);
      MapCons(f, Insert(leqT, x, s));
      var tail := Map(f, s[1..]);
      assert ([f(s[0])] + tail)[1..] == tail;
      if leqT(x, s[0]) {
        assert ([x] + s)[1..] == s;
      } else {
        assert ([s[0]] + Insert(leqT, x, s[1..]))[1..] == Insert(leqT, x, s[1..]);
        InsertCommutesWithMap(leqT, leqU, f, x, s[1..]);
      }
    }
  }

  predicate StrictlyIncreasing(s: seq<int>) {
    forall i, j :: 0 <= i < j < |s| ==> s[i] < s[j]
  }

  // ---------- strings in byte order ----------

  /** The order of Rust strings: bytewise, a proper prefix first. */
  predicate TextLess(a: Text, b: Text) {
    if b == [] then false
    else if a == [] then true
    else a[0] < b[0] || (a[0] == b[0] && TextLess(a[1..], b[1..]))
  }

  predicate TextLeq(a: Text, b: Text) {
    a == b || TextLess(a, b)
  }

  lemma {:induction false} TextTrichotomy(a: Text, b: Text)
    ensures TextLess(a, b) || a == b || TextLess(b, a)
    ensures TextLess(a, b) ==> a != b && !TextLess(b, a)
  {
    if a != [] && b != [] {
      assert a == [a[0]] + a[1..] && b == [b[0]] + b[1..];
      TextTrichotomy(a[1..], b[1..]);
    }
  }

  lemma {:induction false} TextTransitive(a: Text, b: Text, c: Text)
    requires TextLess(a, b) && TextLess(b, c)
    ensures TextLess(a, c)
  {
    if a != [] && a[0] == b[0] == c[0] {
      TextTransitive(a[1..], b[1..], c[1..]);
    }
  }

  lemma {:induction false} TextOrder()
    ensures TotalPreorder(TextLeq)
  {
    forall a: Text, b: Text ensures TextLeq(a, b) || TextLeq(b, a) {
      TextTrichotomy(a, b);
    }
    forall a: Text, b: Text, c: Text | TextLeq(a, b) && TextLeq(b, c) ensures TextLeq(a, c) {
      if a != b && b != c { TextTransitive(a, b, c); }
    }
  }

  /** The bytes of an ASCII literal. */
  function Ascii(s: string): (r: Text)
    ensures |r| == |s|
    ensures forall i :: 0 <= i < |s| ==> r[i] == s[i] as int % 256
  {
    seq(|s|, i requires 0 <= i < |s| => s[i] as int % 256)
  }
}
