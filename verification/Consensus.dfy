/** What at least two thirds of the sources agree on. Values are counted in ordered maps and
    kept when their count reaches the requirement. */
module Consensus {
  import opened Wrappers
  import opened Numbers
  import opened Sequences
  import opened Model

  // ---------- counting ----------

  /** How many members satisfy a predicate. */
  function CountIf<T>(p: T -> bool, s: seq<T>): (n: nat)
    ensures n <= |s|
  {
    if s == [] then 0 else CountIf(p, s[..|s| - 1]) + (if p(s[|s| - 1]) then 1 else 0)
  }

  lemma {:induction false} DisjointCounts<T>(p: T -> bool, q: T -> bool, s: seq<T>)
    requires forall x :: x in s ==> !(p(x) && q(x))
    ensures CountIf(p, s) + CountIf(q, s) <= |s|
  {
    if s != [] {
      var n := |s| - 1;
      assert s[n] in s && forall x :: x in s[..n] ==> x in s;
      DisjointCounts(p, q, s[..n]);
    }
  }

  /** One key of an ordered count map. */
  datatype Tallied<K> = Tallied(key: K, count: nat)

  type Less<!K> = (K, K) -> bool

  ghost predicate StrictOrder<K(!new)>(less: Less<K>) {
    && (forall x, y :: less(x, y) || x == y || less(y, x))
    && (forall x :: !less(x, x))
    && (forall x, y, z :: less(x, y) && less(y, z) ==> less(x, z))
  }

  ghost predicate Increasing<K>(less: Less<K>, counts: seq<Tallied<K>>) {
    forall i, j :: 0 <= i < j < |counts| ==> less(counts[i].key, counts[j].key)
  }

  /** `*counts.entry(key).or_default() += 1` on a map kept in key order. */
  function Bump<K(==)>(less: Less<K>, counts: seq<Tallied<K>>, key: K): seq<Tallied<K>> {
    if counts == [] then [Tallied(key, 1)]
    else if counts[0].key == key then [Tallied(key, counts[0].count + 1)] + counts[1..]
    else if less(key, counts[0].key) then [Tallied(key, 1)] + counts
    else [counts[0]] + Bump(less, counts[1..], key)
  }

  function Tally<K(==)>(less: Less<K>, values: seq<K>): seq<Tallied<K>> {
    if values == [] then []
    else Bump(less, Tally(less, values[..|values| - 1]), values[|values| - 1])
  }

  method CountValues<K(==)>(less: Less<K>, values: seq<K>) returns (counts: seq<Tallied<K>>)
    ensures counts == Tally(less, values)
  {
    counts := [];
    for i := 0 to |values|
      invariant counts == Tally(less, values[..i])
    {
      assert values[..i + 1][..i] == values[..i];
      counts := Bump(less, counts, values[i]);
    }
    assert values[..|values|] == values;
  }

  function CountAt<K(==)>(counts: seq<Tallied<K>>, key: K): nat {
    if counts == [] then 0 else if counts[0].key == key then counts[0].count else CountAt(counts[1..], key)
  }

  ghost predicate Counting<K>(less: Less<K>, counts: seq<Tallied<K>>) {
    Increasing(less, counts) && forall i :: 0 <= i < |counts| ==> counts[i].count > 0
  }

  lemma {:induction false} BumpAdds<K(!new)>(less: Less<K>, counts: seq<Tallied<K>>, key: K, other: K)
    requires StrictOrder(less) && Counting(less, counts)
    ensures CountAt(Bump(less, counts, key), other) == CountAt(counts, other) + (if other == key then 1 else 0)
  {
    if counts != [] {
      var head, tail := counts[0], counts[1..];
      if head.key == key {
        assert ([Tallied(key, head.count + 1)] + tail)[1..] == tail;
      } else if less(key, head.key) {
        assert ([Tallied(key, 1)] + counts)[1..] == counts;
        AbsentBelow(less, counts, key);
      } else {
        BumpAdds(less, tail, key, other);
        var rest := Bump(less, tail, key);
        assert ([head] + rest)[1..] == rest;
      }
    }
  }

  lemma {:induction false} AbsentBelow<K(!new)>(less: Less<K>, counts: seq<Tallied<K>>, key: K)
    requires StrictOrder(less) && forall t :: t in counts ==> less(key, t.key)
    ensures CountAt(counts, key) == 0
  {
    if counts != [] {
      assert counts[0] in counts && forall t :: t in counts[1..] ==> t in counts;
      AbsentBelow(less, counts[1..], key);
    }
  }

  lemma {:induction false} BumpKeepsOrder<K(!new)>(less: Less<K>, counts: seq<Tallied<K>>, key: K)
    requires StrictOrder(less) && Counting(less, counts)
    ensures Counting(less, Bump(less, counts, key))
    ensures forall t :: t in Bump(less, counts, key) ==> t.key == key || t in counts
  {
    if counts != [] {
      var head, tail := counts[0], counts[1..];
      if head.key != key && !less(key, head.key) {
        BumpKeepsOrder(less, tail, key);
        var rest := Bump(less, tail, key);
        forall j | 0 <= j < |rest| ensures less(head.key, rest[j].key) {
          assert rest[j] in rest;
        }
      }
    }
  }

  /** The count map says exactly how often each value occurs, in strict key order. */
  lemma {:induction false} TallyIsExact<K(!new)>(less: Less<K>, values: seq<K>, key: K)
    requires StrictOrder(less)
    ensures Counting(less, Tally(less, values))
    ensures CountAt(Tally(less, values), key) == multiset(values)[key]
  {
    if values != [] {
      var n := |values| - 1;
      TallyIsExact(less, values[..n], key);
      assert values == values[..n] + [values[n]];
      BumpAdds(less, Tally(less, values[..n]), values[n], key);
      BumpKeepsOrder(less, Tally(less, values[..n]), values[n]);
    }
  }

  // ---------- keeping what enough sources share ----------

  function KeepAbove<K>(counts: seq<Tallied<K>>, required: nat): (r: seq<K>)
    ensures |r| <= |counts|
  {
    if counts == [] then []
    else (if counts[0].count >= required then [counts[0].key] else []) + KeepAbove(counts[1..], required)
  }

  ghost predicate KeysIncrease<K>(less: Less<K>, keys: seq<K>) {
    forall i, j :: 0 <= i < j < |keys| ==> less(keys[i], keys[j])
  }

  lemma {:induction false} KeptAbove<K(!new)>(less: Less<K>, counts: seq<Tallied<K>>, required: nat)
    requires StrictOrder(less) && Counting(less, counts)
    ensures KeysIncrease(less, KeepAbove(counts, required))
    ensures forall k :: k in KeepAbove(counts, required) <==> CountAt(counts, k) > 0 && CountAt(counts, k) >= required
  {
    if counts != [] {
      var head, tail := counts[0], counts[1..];
      KeptAbove(less, tail, required);
      assert forall t :: t in tail ==> less(head.key, t.key);
      AbsentBelow(less, tail, head.key);
      var rest := KeepAbove(tail, required);
      forall j | 0 <= j < |rest| ensures less(head.key, rest[j]) {
        assert rest[j] in rest;
        CountedIsMember(tail, rest[j]);
      }
    }
  }

  lemma {:induction false} CountedIsMember<K>(counts: seq<Tallied<K>>, key: K)
    requires CountAt(counts, key) > 0
    ensures Tallied(key, CountAt(counts, key)) in counts
  {
    if counts[0].key != key {
      CountedIsMember(counts[1..], key);
    }
  }

  /** The values that occur often enough, in key order. */
  function Agreed<K(==)>(less: Less<K>, values: seq<K>, required: nat): seq<K> {
    KeepAbove(Tally(less, values), required)
  }

  lemma {:induction false} AgreedIsExact<K(!new)>(less: Less<K>, values: seq<K>, required: nat)
    requires StrictOrder(less)
    ensures KeysIncrease(less, Agreed(less, values, required))
    ensures forall k :: k in Agreed(less, values, required) <==> k in values && multiset(values)[k] >= required
  {
    forall k ensures k in Agreed(less, values, required) <==> k in values && multiset(values)[k] >= required {
      TallyIsExact(less, values, k);
      KeptAbove(less, Tally(less, values), required);
    }
    if values == [] { } else { TallyIsExact(less, values, values[0]); }
    KeptAbove(less, Tally(less, values), required);
  }

  // ---------- ordered collections of strings ----------

  lemma {:induction false} TextIsOrdered()
    ensures StrictOrder(TextLess)
  {
    forall x: Text, y: Text ensures (TextLess(x, y) || x == y || TextLess(y, x)) && !TextLess(x, x) {
      TextTrichotomy(x, y);
      TextTrichotomy(x, x);
    }
    forall x: Text, y: Text, z: Text | TextLess(x, y) && TextLess(y, z) ensures TextLess(x, z) {
      TextTransitive(x, y, z);
    }
  }

  predicate PairLess(a: TextPair, b: TextPair) {
    TextLess(a.key, b.key) || (a.key == b.key && TextLess(a.value, b.value))
  }

  lemma {:induction false} PairIsOrdered()
    ensures StrictOrder(PairLess)
  {
    TextIsOrdered();
  }

  /** Insertion into a `BTreeMap<String, String>`; a later value replaces an earlier one. */
  function InsertPair(s: seq<TextPair>, p: TextPair): seq<TextPair> {
    if s == [] then [p]
    else if s[0].key == p.key then [p] + s[1..]
    else if TextLess(p.key, s[0].key) then [p] + s
    else [s[0]] + InsertPair(s[1..], p)
  }

  lemma {:induction false} InsertPairKeeps(s: seq<TextPair>, p: TextPair)
    requires IsTextMap(s)
    ensures IsTextMap(InsertPair(s, p))
    ensures forall x :: x in InsertPair(s, p) ==> x == p || x in s
  {
    hide TextLess;
    TextIsOrdered();
    if s != [] && s[0].key != p.key && !TextLess(p.key, s[0].key) {
      InsertPairKeeps(s[1..], p);
      var rest := InsertPair(s[1..], p);
      forall j | 0 <= j < |rest| ensures TextLess(s[0].key, rest[j].key) {
        assert rest[j] in rest;
      }
    }
  }

  /** `collect` into an ordered map. */
  function CollectMap(pairs: seq<TextPair>): TextMap {
    if pairs == [] then []
    else
      var rest := CollectMap(pairs[..|pairs| - 1]);
      InsertPairKeeps(rest, pairs[|pairs| - 1]);
      InsertPair(rest, pairs[|pairs| - 1])
  }

  lemma {:induction false} InsertGreatestPair(s: seq<TextPair>, p: TextPair)
    requires forall x :: x in s ==> TextLess(x.key, p.key)
    ensures InsertPair(s, p) == s + [p]
  {
    hide TextLess;
    if s != [] {
      TextIsOrdered();
      assert s[0] in s && forall x :: x in s[1..] ==> x in s;
      InsertGreatestPair(s[1..], p);
      assert s == [s[0]] + s[1..];
    }
  }

  /** Pairs already in key order, each key once, are collected as they are. */
  lemma {:induction false} CollectDistinctKeys(pairs: seq<TextPair>)
    requires IsTextMap(pairs)
    ensures CollectMap(pairs) == pairs
  {
    hide TextLess, InsertPair;
    if pairs != [] {
      var n := |pairs| - 1;
      CollectDistinctKeys(pairs[..n]);
      InsertGreatestPair(pairs[..n], pairs[n]);
      assert pairs == pairs[..n] + [pairs[n]];
    }
  }

  // ---------- values by source ----------

  /** All values that the sources contribute, source by source. */
  function Gather<T, K>(f: T -> seq<K>, sources: seq<T>): seq<K> {
    if sources == [] then [] else Gather(f, sources[..|sources| - 1]) + f(sources[|sources| - 1])
  }

  function Contains<T, K(==)>(f: T -> seq<K>, key: K): T -> bool {
    s => key in f(s)
  }

  /** When no source repeats a value, a value's count is the number of sources that hold it. */
  lemma {:induction false} CountIsSources<T, K>(f: T -> seq<K>, sources: seq<T>, key: K)
    requires forall s :: s in sources ==> Distinct(f(s))
    ensures multiset(Gather(f, sources))[key] == CountIf(Contains(f, key), sources)
  {
    if sources != [] {
      var n := |sources| - 1;
      assert forall s :: s in sources[..n] ==> s in sources;
      CountIsSources(f, sources[..n], key);
      assert sources[n] in sources;
      DistinctCount(f(sources[n]));
    }
  }

  /** The nested counting loops over the sources and their values. */
  method CountBySource<T, K(==)>(less: Less<K>, f: T -> seq<K>, sources: seq<T>) returns (counts: seq<Tallied<K>>)
    ensures counts == Tally(less, Gather(f, sources))
  {
    hide Bump;
    counts := [];
    for i := 0 to |sources|
      invariant counts == Tally(less, Gather(f, sources[..i]))
    {
      assert sources[..i + 1][..i] == sources[..i];
      var before, values := Gather(f, sources[..i]), f(sources[i]);
      assert before + values[..0] == before;
      for j := 0 to |values|
        invariant counts == Tally(less, before + values[..j])
      {
        assert (before + values[..j + 1])[..|before| + j] == before + values[..j];
        counts := Bump(less, counts, values[j]);
      }
      assert values[..|values|] == values;
    }
    assert sources[..|sources|] == sources;
  }

  /** A value is agreed on exactly when enough sources hold it. */
  lemma {:induction false} AgreedBySources<T, K(!new)>(less: Less<K>, f: T -> seq<K>, sources: seq<T>,
      required: nat, key: K)
    requires StrictOrder(less) && forall s :: s in sources ==> Distinct(f(s))
    ensures key in Agreed(less, Gather(f, sources), required) <==>
      CountIf(Contains(f, key), sources) > 0 && CountIf(Contains(f, key), sources) >= required
    ensures KeysIncrease(less, Agreed(less, Gather(f, sources), required))
  {
    AgreedIsExact(less, Gather(f, sources), required);
    CountIsSources(f, sources, key);
  }

  // ---------- the consensus operations on atom bodies ----------

  function ConsensusRequired(count: nat, policy: Policy): nat
    requires policy.consensusDenominator > 0
  {
    CeilDiv(count * policy.consensusNumerator, policy.consensusDenominator)
  }

  /** Two thirds, rounded up, is always more than half. */
  lemma {:induction false} RequiredIsMajority(count: nat)
    requires count > 0
    ensures count < 2 * ConsensusRequired(count, POC_V1)
    ensures 0 < ConsensusRequired(count, POC_V1) <= count
  {
  }

  function NonEmpty(values: seq<Text>): (r: seq<Text>)
    ensures forall v :: v in r <==> v in values && v != []
    ensures Distinct(values) ==> Distinct(r)
  {
    if values == [] then []
    else
      var n := |values| - 1;
      assert values == values[..n] + [values[n]];
      var rest := NonEmpty(values[..n]);
      assert Distinct(values) ==> values[n] !in values[..n] && values[n] !in rest;
      if values[n] == [] then rest else rest + [values[n]]
  }

  type Body = MemoryAtomBody

  /** The non-empty value of an optional field. */
  function Stated(field: Body -> Option<Text>): Body -> seq<Text> {
    b => if field(b).Some? && field(b).value != [] then [field(b).value] else []
  }

  /** The distinct non-empty strings of a list field, in order. */
  function DistinctStated(field: Body -> seq<Text>): Body -> seq<Text> {
    b => Agreed(TextLess, NonEmpty(field(b)), 1)
  }

  function KeysStated(field: Body -> TextSet): Body -> seq<Text> {
    b => NonEmpty(field(b))
  }

  function PairsStated(field: Body -> TextMap): Body -> seq<TextPair> {
    b => field(b)
  }

  function ConsensusOptional(field: Body -> Option<Text>, bodies: seq<Body>, required: nat): Option<Text> {
    var agreed := Agreed(TextLess, Gather(Stated(field), bodies), required);
    if agreed == [] then None else Some(agreed[0])
  }

  function ConsensusBodyStrings(field: Body -> seq<Text>, bodies: seq<Body>, required: nat): seq<Text> {
    Agreed(TextLess, Gather(DistinctStated(field), bodies), required)
  }

  function ConsensusSet(field: Body -> TextSet, bodies: seq<Body>, required: nat): (r: TextSet) {
    TextIsOrdered();
    AgreedIsExact(TextLess, Gather(KeysStated(field), bodies), required);
    Agreed(TextLess, Gather(KeysStated(field), bodies), required)
  }

  function ConsensusMap(field: Body -> TextMap, bodies: seq<Body>, required: nat): TextMap {
    CollectMap(Agreed(PairLess, Gather(PairsStated(field), bodies), required))
  }

  // ---------- what they keep ----------

  /** At most one value of an optional field reaches the consensus, so the order in which the
      counts are visited never decides. */
  lemma {:induction false} OptionalIsUnique(field: Body -> Option<Text>, bodies: seq<Body>, value: Text)
    requires bodies != []
    ensures ConsensusOptional(field, bodies, ConsensusRequired(|bodies|, POC_V1)) == Some(value) <==>
      value != [] && CountIf((b: Body) => field(b) == Some(value), bodies) >= ConsensusRequired(|bodies|, POC_V1)
  {
    hide Agreed, CountIf, ConsensusRequired, TextLess;
    var required := ConsensusRequired(|bodies|, POC_V1);
    var agreed := Agreed(TextLess, Gather(Stated(field), bodies), required);
    RequiredIsMajority(|bodies|);
    TextIsOrdered();
    AgreedBySources(TextLess, Stated(field), bodies, required, value);
    if value != [] {
      SameCount(Contains(Stated(field), value), (b: Body) => field(b) == Some(value), bodies);
    } else {
      NoCount(Contains(Stated(field), value), bodies);
    }
    if agreed != [] {
      AgreedBySources(TextLess, Stated(field), bodies, required, agreed[0]);
      if value != agreed[0] {
        DisjointCounts(Contains(Stated(field), value), Contains(Stated(field), agreed[0]), bodies);
      }
    }
  }

  lemma {:induction false} SameCount<T>(p: T -> bool, q: T -> bool, s: seq<T>)
    requires forall x :: x in s ==> p(x) == q(x)
    ensures CountIf(p, s) == CountIf(q, s)
  {
    if s != [] {
      var n := |s| - 1;
      assert s[n] in s && forall x :: x in s[..n] ==> x in s;
      SameCount(p, q, s[..n]);
    }
  }

  lemma {:induction false} NoCount<T>(p: T -> bool, s: seq<T>)
    requires forall x :: x in s ==> !p(x)
    ensures CountIf(p, s) == 0
  {
    if s != [] {
      var n := |s| - 1;
      assert s[n] in s && forall x :: x in s[..n] ==> x in s;
      NoCount(p, s[..n]);
    }
  }

  lemma {:induction false} IncreasingIsDistinct(keys: seq<Text>)
    requires KeysIncrease(TextLess, keys)
    ensures Distinct(keys)
  {
    hide TextLess;
    TextIsOrdered();
  }

  /** A string is kept exactly when enough different sources contain it, however often each does. */
  lemma {:induction false} BodyStringsAreExact(field: Body -> seq<Text>, bodies: seq<Body>, required: nat, value: Text)
    requires required > 0
    ensures value in ConsensusBodyStrings(field, bodies, required) <==>
      value != [] && CountIf((b: Body) => value in field(b), bodies) >= required
    ensures KeysIncrease(TextLess, ConsensusBodyStrings(field, bodies, required))
  {
    hide TextLess, CountIf, Agreed;
    TextIsOrdered();
    forall b | b in bodies ensures Distinct(DistinctStated(field)(b)) {
      AgreedIsExact(TextLess, NonEmpty(field(b)), 1);
      IncreasingIsDistinct(Agreed(TextLess, NonEmpty(field(b)), 1));
    }
    AgreedBySources(TextLess, DistinctStated(field), bodies, required, value);
    forall b | b in bodies ensures Contains(DistinctStated(field), value)(b) == (value != [] && value in field(b)) {
      AgreedIsExact(TextLess, NonEmpty(field(b)), 1);
      CountOfMember(NonEmpty(field(b)), value);
    }
    if value != [] {
      SameCount(Contains(DistinctStated(field), value), (b: Body) => value in field(b), bodies);
    } else {
      NoCount(Contains(DistinctStated(field), value), bodies);
    }
  }

  lemma {:induction false} CountOfMember(values: seq<Text>, v: Text)
    ensures v in values <==> multiset(values)[v] >= 1
  {
    assert v in values <==> v in multiset(values);
  }

  /** A key is kept exactly when enough sources carry it. */
  lemma {:induction false} SetIsExact(field: Body -> TextSet, bodies: seq<Body>, required: nat, value: Text)
    requires required > 0
    ensures value in ConsensusSet(field, bodies, required) <==>
      value != [] && CountIf((b: Body) => value in field(b), bodies) >= required
  {
    hide TextLess, CountIf, Agreed;
    TextIsOrdered();
    forall b | b in bodies ensures Distinct(KeysStated(field)(b)) {
      IncreasingIsDistinct(field(b));
    }
    AgreedBySources(TextLess, KeysStated(field), bodies, required, value);
    if value != [] {
      SameCount(Contains(KeysStated(field), value), (b: Body) => value in field(b), bodies);
    } else {
      NoCount(Contains(KeysStated(field), value), bodies);
    }
  }

  lemma {:induction false} MapIsDistinct(m: TextMap)
    ensures Distinct<TextPair>(m)
    ensures forall p, q :: p in m && q in m && p.key == q.key ==> p == q
  {
    hide TextLess;
    TextIsOrdered();
  }

  /** No two values of one key are both kept, so collecting into a map loses nothing: a pair is
      kept exactly when enough sources map the key to that value. */
  lemma {:induction false} MapIsExact(field: Body -> TextMap, bodies: seq<Body>, pair: TextPair)
    requires bodies != []
    ensures var required := ConsensusRequired(|bodies|, POC_V1);
      pair in ConsensusMap(field, bodies, required) <==> CountIf((b: Body) => pair in field(b), bodies) >= required
    ensures var required := ConsensusRequired(|bodies|, POC_V1);
      ConsensusMap(field, bodies, required) == Agreed(PairLess, Gather(PairsStated(field), bodies), required)
  {
    hide TextLess, CountIf, Agreed, ConsensusRequired, CollectMap, PairLess;
    var required := ConsensusRequired(|bodies|, POC_V1);
    RequiredIsMajority(|bodies|);
    var agreed := Agreed(PairLess, Gather(PairsStated(field), bodies), required);
    AgreedPairs(field, bodies, required);
    AgreedKeysOnce(field, bodies, required);
    CollectDistinctKeys(agreed);
    AgreedBySources(PairLess, PairsStated(field), bodies, required, pair);
    SameCount(Contains(PairsStated(field), pair), (b: Body) => pair in field(b), bodies);
  }

  lemma {:induction false} AgreedPairs(field: Body -> TextMap, bodies: seq<Body>, required: nat)
    ensures StrictOrder(PairLess)
    ensures forall b :: b in bodies ==> Distinct(PairsStated(field)(b))
    ensures KeysIncrease(PairLess, Agreed(PairLess, Gather(PairsStated(field), bodies), required))
  {
    PairIsOrdered();
    AgreedIsExact(PairLess, Gather(PairsStated(field), bodies), required);
    forall b | b in bodies ensures Distinct(PairsStated(field)(b)) {
      MapIsDistinct(field(b));
    }
  }

  lemma {:induction false} AgreedKeysOnce(field: Body -> TextMap, bodies: seq<Body>, required: nat)
    requires |bodies| < 2 * required
    ensures IsTextMap(Agreed(PairLess, Gather(PairsStated(field), bodies), required))
  {
    hide TextLess, CountIf, Agreed;
    var agreed := Agreed(PairLess, Gather(PairsStated(field), bodies), required);
    AgreedPairs(field, bodies, required);
    forall i, j | 0 <= i < j < |agreed| ensures TextLess(agreed[i].key, agreed[j].key) {
      var p, q := agreed[i], agreed[j];
      assert PairLess(p, q);
      if p.key == q.key {
        AgreedBySources(PairLess, PairsStated(field), bodies, required, p);
        AgreedBySources(PairLess, PairsStated(field), bodies, required, q);
        assert p != q;
        forall b | b in bodies ensures !(Contains(PairsStated(field), p)(b) && Contains(PairsStated(field), q)(b)) {
          MapIsDistinct(field(b));
        }
        DisjointCounts(Contains(PairsStated(field), p), Contains(PairsStated(field), q), bodies);
      }
    }
  }
}
