/** The additive size model of episode bodies: a body over any range of events costs a base,
    fixed by the request and by whether a predecessor is named, plus the bytes of its events. */
module EpisodeSizes {
  import opened Wrappers
  import opened Numbers
  import opened Sequences
  import opened Digests
  import opened Canonical
  import opened CanonicalSize
  import opened Model
  import opened ModelValues
  import opened Validation
  import opened EpisodePlan
  import opened Episodes

  // ---------- bytes per event ----------

  function PartSize<T>(part: Option<T>, of: T -> Value): nat {
    match part case None => 0 case Some(v) => 8 + Size(of(v))
  }

  /** A framed digest takes 81 bytes: two length prefixes, a tag and 64 characters. */
  function EventSize(e: EpisodeEvent): nat {
    81 + PartSize(e.observation, ObservationValue) + PartSize(e.interpretation, InterpretationValue)
      + PartSize(e.belief, BeliefValue) + PartSize(e.decision, DecisionValue) + PartSize(e.action, ActionValue)
  }

  function EventsSize(events: seq<EpisodeEvent>): nat {
    if events == [] then 0 else EventSize(events[0]) + EventsSize(events[1..])
  }

  lemma {:induction false} EventsSizeConcat(a: seq<EpisodeEvent>, b: seq<EpisodeEvent>)
    ensures EventsSize(a + b) == EventsSize(a) + EventsSize(b)
  {
    if a == [] {
      assert a + b == b;
    } else {
      assert (a + b)[1..] == a[1..] + b;
      EventsSizeConcat(a[1..], b);
    }
  }

  lemma {:induction false} EncodedSizeIsSize(v: Value)
    requires EncodedSize(v).Ok?
    ensures EncodedSize(v).value == Size(v)
  {
    SizeIsExact(v);
  }

  lemma {:induction false} FramedPartIsSize<T>(part: Option<T>, of: T -> Value)
    requires FramedPart(part, of).Ok?
    ensures FramedPart(part, of).value == PartSize(part, of)
  {
    if part.Some? {
      EncodedSizeIsSize(of(part.value));
    }
  }

  lemma {:induction false} EventBytesAreSize(e: EpisodeEvent, digest: Digest)
    requires EventBodyBytes(e, digest).Ok?
    ensures EventBodyBytes(e, digest).value == EventSize(e)
  {
    EncodedSizeIsSize(DigestValue(digest));
    FramedPartIsSize(e.observation, ObservationValue);
    FramedPartIsSize(e.interpretation, InterpretationValue);
    FramedPartIsSize(e.belief, BeliefValue);
    FramedPartIsSize(e.decision, DecisionValue);
    FramedPartIsSize(e.action, ActionValue);
  }

  function SubstantiveCount(events: seq<EpisodeEvent>): nat {
    if events == [] then 0
    else SubstantiveCount(events[..|events| - 1]) + (if events[|events| - 1].Substantive() then 1 else 0)
  }

  /** Every prefix sum is the size of that prefix, and digests and counts line up. */
  lemma {:induction false} PreparedSums(events: seq<EpisodeEvent>, hash: Hash)
    requires Prepared(events, hash).Ok?
    ensures forall i :: 0 <= i <= |events| ==> LineUp(events, hash, i)
  {
    if events == [] {
      assert events[..0] == [];
    } else {
      var n := |events| - 1;
      PrefixIsKept(events, hash);
      PreparedSums(events[..n], hash);
      LastSum(events, hash);
      forall i | 0 <= i <= n ensures LineUp(events, hash, i) {
        LineUpExtends(events, hash, i);
      }
    }
  }

  lemma {:induction false} LineUpExtends(events: seq<EpisodeEvent>, hash: Hash, i: nat)
    requires Prepared(events, hash).Ok? && i < |events|
    requires Prepared(events[..|events| - 1], hash).Ok? && LineUp(events[..|events| - 1], hash, i)
    ensures LineUp(events, hash, i)
  {
    PrefixIsKept(events, hash);
    assert events[..i] == events[..|events| - 1][..i];
  }

  ghost predicate DigestAt(events: seq<EpisodeEvent>, hash: Hash, i: nat)
    requires i < |events| && Prepared(events, hash).Ok?
  {
    EventDigest(events[i], hash) == Ok(Prepared(events, hash).value.digests[i])
  }

  /** Each prepared digest is the digest of its event. */
  lemma {:induction false} PreparedDigests(events: seq<EpisodeEvent>, hash: Hash, i: nat)
    requires Prepared(events, hash).Ok? && i < |events|
    ensures DigestAt(events, hash, i)
  {
    hide Extend;
    var n := |events| - 1;
    PrefixIsKept(events, hash);
    if i < n {
      PreparedDigests(events[..n], hash, i);
      DigestAtExtends(events, hash, i);
    }
  }

  lemma {:induction false} DigestAtExtends(events: seq<EpisodeEvent>, hash: Hash, i: nat)
    requires Prepared(events, hash).Ok? && i < |events| - 1
    requires Prepared(events[..|events| - 1], hash).Ok? && DigestAt(events[..|events| - 1], hash, i)
    ensures DigestAt(events, hash, i)
  {
    PrefixIsKept(events, hash);
  }

  lemma {:induction false} PrefixIsKept(events: seq<EpisodeEvent>, hash: Hash)
    requires Prepared(events, hash).Ok? && events != []
    ensures var n := |events| - 1;
      var p, q := Prepared(events[..n], hash), Prepared(events, hash).value;
      && p.Ok?
      && q.sums.bytes[..n + 1] == p.value.sums.bytes
      && q.sums.substantive[..n + 1] == p.value.sums.substantive
      && q.digests[..n] == p.value.digests
      && EventDigest(events[n], hash) == Ok(q.digests[n])
  {
  }

  lemma {:induction false} LastSum(events: seq<EpisodeEvent>, hash: Hash)
    requires Prepared(events, hash).Ok? && events != []
    requires LineUp(events[..|events| - 1], hash, |events| - 1)
    ensures LineUp(events, hash, |events|)
  {
    hide EventBodyBytes, EventDigest;
    var n := |events| - 1;
    var before := Prepared(events[..n], hash).value;
    EventBytesAreSize(events[n], EventDigest(events[n], hash).value);
    EventsSizeConcat(events[..n], [events[n]]);
    assert EventsSize([events[n]]) == EventSize(events[n]) by {
      assert [events[n]][1..] == [];
    }
    assert events[..n + 1] == events == events[..n] + [events[n]];
    assert events[..n][..n] == events[..n];
    assert Extend(before, events[n], hash) == Prepared(events, hash);
  }

  /** The sums at boundary `i` describe the first `i` events. */
  ghost predicate LineUp(events: seq<EpisodeEvent>, hash: Hash, i: nat)
    requires i <= |events| && Prepared(events, hash).Ok?
  {
    var sums := Prepared(events, hash).value.sums;
    sums.bytes[i] == EventsSize(events[..i]) && sums.substantive[i] == SubstantiveCount(events[..i])
  }

  /** The sums of prepared events are monotone, as the planner needs. */
  lemma {:induction false} PreparedSumsValid(events: seq<EpisodeEvent>, hash: Hash)
    requires Prepared(events, hash).Ok?
    ensures Prepared(events, hash).value.sums.Valid()
  {
    hide Extend, EventsSize, SubstantiveCount, EventSize;
    PreparedSums(events, hash);
    var sums := Prepared(events, hash).value.sums;
    forall i, j | 0 <= i <= j <= |events|
      ensures sums.bytes[i] <= sums.bytes[j] && sums.substantive[i] <= sums.substantive[j]
    {
      assert events[..j] == events[..i] + events[i..j];
      assert LineUp(events, hash, i) && LineUp(events, hash, j);
      EventsSizeConcat(events[..i], events[i..j]);
      CountMonotone(events, i, j);
    }
  }

  lemma {:induction false} CountMonotone(events: seq<EpisodeEvent>, i: nat, j: nat)
    requires i <= j <= |events|
    ensures SubstantiveCount(events[..i]) <= SubstantiveCount(events[..j])
    ensures (exists k :: i <= k < j && events[k].Substantive()) ==>
      SubstantiveCount(events[..i]) < SubstantiveCount(events[..j])
    decreases j - i
  {
    if i < j {
      CountMonotone(events, i, j - 1);
      assert events[..j][..j - 1] == events[..j - 1];
    }
  }

  lemma {:induction false} RangeBytes(events: seq<EpisodeEvent>, hash: Hash, start: nat, end: nat)
    requires Prepared(events, hash).Ok? && start <= end <= |events|
    ensures var sums := Prepared(events, hash).value.sums;
      sums.bytes[end] as int == sums.bytes[start] as int + EventsSize(events[start..end])
  {
    PreparedSums(events, hash);
    assert events[..end] == events[..start] + events[start..end];
    assert LineUp(events, hash, start) && LineUp(events, hash, end);
    EventsSizeConcat(events[..start], events[start..end]);
  }

  // ---------- lists inside the body ----------

  /** The records of one kind, framed in their list, cost what the events account for them. */
  lemma {:induction false} CollectedSize<T>(get: EpisodeEvent -> Option<T>, of: T -> Value, events: seq<EpisodeEvent>)
    ensures SizeItems(Map(of, FilterMap(get, events))) == PartsSize(get, of, events)
  {
    if events != [] {
      CollectedSize(get, of, events[1..]);
      var rest := FilterMap(get, events[1..]);
      if get(events[0]).Some? {
        var first := get(events[0]).value;
        assert Map(of, [first] + rest) == [of(first)] + Map(of, rest);
        assert ([of(first)] + Map(of, rest))[1..] == Map(of, rest);
      } else {
        assert FilterMap(get, events) == rest;
      }
    }
  }

  function PartsSize<T>(get: EpisodeEvent -> Option<T>, of: T -> Value, events: seq<EpisodeEvent>): nat {
    if events == [] then 0 else PartSize(get(events[0]), of) + PartsSize(get, of, events[1..])
  }

  lemma {:induction false} DigestListSize(digests: seq<Digest>)
    ensures SizeItems(Map(DigestValue, digests)) == 81 * |digests|
  {
    if digests != [] {
      DigestListSize(digests[1..]);
      assert Map(DigestValue, digests)[1..] == Map(DigestValue, digests[1..]);
    }
  }

  /** Per event, the five record lists and the digest list grow by the event's size. */
  lemma {:induction false} ListsAddUp(events: seq<EpisodeEvent>)
    ensures EventsSize(events) == 81 * |events|
      + PartsSize(ObservationOf, ObservationValue, events) + PartsSize(InterpretationOf, InterpretationValue, events)
      + PartsSize(BeliefOf, BeliefValue, events) + PartsSize(DecisionOf, DecisionValue, events)
      + PartsSize(ActionOf, ActionValue, events)
  {
    if events != [] {
      ListsAddUp(events[1..]);
    }
  }

  function RelationsSize(relations: seq<Relation>): nat {
    if relations == [] then 0 else 8 + Size(RelationValue(relations[0])) + RelationsSize(relations[1..])
  }

  lemma {:induction false} RelationListSize(relations: seq<Relation>)
    ensures SizeItems(Map(RelationValue, relations)) == RelationsSize(relations)
  {
    if relations != [] {
      RelationListSize(relations[1..]);
      assert Map(RelationValue, relations)[1..] == Map(RelationValue, relations[1..]);
    }
  }

  lemma {:induction false} InsertRelationSize(r: Relation, relations: seq<Relation>)
    ensures RelationsSize(Insert(RelationLeq, r, relations)) == 8 + Size(RelationValue(r)) + RelationsSize(relations)
  {
    if relations == [] {
    } else if RelationLeq(r, relations[0]) {
      assert ([r] + relations)[1..] == relations;
    } else {
      InsertRelationSize(r, relations[1..]);
      var tail := Insert(RelationLeq, r, relations[1..]);
      assert ([relations[0]] + tail)[1..] == tail;
    }
  }

  lemma {:induction false} SortRelationsSize(relations: seq<Relation>)
    ensures RelationsSize(SortBy(RelationLeq, relations)) == RelationsSize(relations)
  {
    if relations != [] {
      SortRelationsSize(relations[1..]);
      InsertRelationSize(relations[0], SortBy(RelationLeq, relations[1..]));
    }
  }

  lemma {:induction false} RelationsSizeConcat(a: seq<Relation>, b: seq<Relation>)
    ensures RelationsSize(a + b) == RelationsSize(a) + RelationsSize(b)
  {
    if a == [] {
      assert a + b == b;
    } else {
      assert (a + b)[1..] == a[1..] + b;
      RelationsSizeConcat(a[1..], b);
    }
  }

  /** Naming a predecessor adds one relation of a fixed size, whichever predecessor it is. */
  const CONTINUES_RELATION_SIZE: nat := 150

  lemma {:induction false} EpisodeRelationsSize(request: SealRequest, continues: Option<AtomId>)
    ensures SizeItems(Map(RelationValue, EpisodeRelations(request, continues))) ==
      RelationsSize(FilterMap(KeptRelation, request.relations))
        + (if continues.Some? then CONTINUES_RELATION_SIZE else 0)
  {
    var kept := FilterMap(KeptRelation, request.relations);
    var all := if continues.Some? then kept + [Relation(Continues, continues.value)] else kept;
    RelationListSize(EpisodeRelations(request, continues));
    SortRelationsSize(all);
    if continues.Some? {
      var added := Relation(Continues, continues.value);
      RelationsSizeConcat(kept, [added]);
      ContinuesSize(added);
    }
  }

  lemma {:induction false} ContinuesSize(r: Relation)
    requires r.kind == Continues
    ensures 8 + Size(RelationValue(r)) == CONTINUES_RELATION_SIZE
    ensures RelationsSize([r]) == CONTINUES_RELATION_SIZE
  {
    var kind, target := Named("kind", KindValue(Continues)), Named("target", DigestValue(r.target));
    TwoEntries(kind, target);
  }

  // ---------- the whole body ----------

  function EntrySize(e: Entry): nat {
    16 + |e.key| + Size(e.value)
  }

  lemma {:induction false} TwoEntries(a: Entry, b: Entry)
    ensures SizeEntries([a, b]) == EntrySize(a) + EntrySize(b)
  {
    assert [a, b][1..] == [b] && [b][1..] == [];
    assert SizeEntries([b]) == EntrySize(b);
  }

  lemma {:induction false} ThreeEntries(a: Entry, b: Entry, c: Entry)
    ensures SizeEntries([a, b, c]) == EntrySize(a) + EntrySize(b) + EntrySize(c)
  {
    TwoEntries(b, c);
    assert [a, b, c][1..] == [b, c];
  }

  lemma {:induction false} FourEntries(a: Entry, b: Entry, c: Entry, d: Entry)
    ensures SizeEntries([a, b, c, d]) == EntrySize(a) + EntrySize(b) + EntrySize(c) + EntrySize(d)
  {
    ThreeEntries(b, c, d);
    assert [a, b, c, d][1..] == [b, c, d];
  }

  lemma {:induction false} FiveEntries(a: Entry, b: Entry, c: Entry, d: Entry, e: Entry)
    ensures SizeEntries([a, b, c, d, e]) == EntrySize(a) + EntrySize(b) + EntrySize(c) + EntrySize(d) + EntrySize(e)
  {
    FourEntries(b, c, d, e);
    assert [a, b, c, d, e][1..] == [b, c, d, e];
  }

  /** Lists of records inside a body, without list headers. */
  function RecordsSize(b: MemoryAtomBody): nat {
    SizeItems(Map(ObservationValue, b.observations)) + SizeItems(Map(InterpretationValue, b.interpretations))
      + SizeItems(Map(BeliefValue, b.beliefs)) + SizeItems(Map(DecisionValue, b.decisions))
      + SizeItems(Map(ActionValue, b.actions))
  }

  lemma {:induction false} RecordEntriesSize(b: MemoryAtomBody)
    ensures SizeEntries(RecordEntries(b)) == 175 + RecordsSize(b)
  {
    var e := RecordEntries(b);
    FiveEntries(e[0], e[1], e[2], e[3], e[4]);
  }

  lemma {:induction false} IntervalSize(i: TimeInterval)
    ensures Size(IntervalValue(i)) == 122
  {
    var e := IntervalValue(i).entries;
    ThreeEntries(e[0], e[1], e[2]);
  }

  lemma {:induction false} ProvenanceSize(p: Provenance)
    ensures Size(ProvenanceValue(p)) == 189 + |p.producer| + SizeItems(Map(DigestValue, p.sourceEventDigests))
  {
    var e := ProvenanceValue(p).entries;
    ThreeEntries(e[0], e[1], e[2]);
  }

  function EpisodePayloadBytes(continued: bool): nat {
    if continued then 260 else 188
  }

  /** An episode payload's size depends on nothing but whether it names a predecessor. */
  lemma {:induction false} EpisodePayloadSize(p: MemoryPayload)
    requires p.Episode?
    ensures Size(PayloadValue(p)) == EpisodePayloadBytes(p.continues.Some?)
  {
    var outer := PayloadValue(p).entries;
    var e := outer[1].value.entries;
    ThreeEntries(e[0], e[1], e[2]);
    TwoEntries(outer[0], outer[1]);
  }

  lemma {:induction false} ClosureEntriesSize(b: MemoryAtomBody)
    requires b.payload.Episode?
    ensures SizeEntries(ClosureEntries(b)) ==
      418 + |b.provenance.producer| + SizeItems(Map(DigestValue, b.provenance.sourceEventDigests))
      + SizeItems(Map(RelationValue, b.relations)) + EpisodePayloadBytes(b.payload.continues.Some?)
  {
    var e := ClosureEntries(b);
    FourEntries(e[0], e[1], e[2], e[3]);
    IntervalSize(b.interval);
    ProvenanceSize(b.provenance);
    EpisodePayloadSize(b.payload);
  }

  lemma {:induction false} EpisodeBodySize(b: MemoryAtomBody)
    requires b.payload.Episode?
    ensures Size(BodyValue(b)) == 602 + SizeEntries(FixedEntries(b)) + RecordsSize(b)
      + |b.provenance.producer| + SizeItems(Map(DigestValue, b.provenance.sourceEventDigests))
      + SizeItems(Map(RelationValue, b.relations)) + EpisodePayloadBytes(b.payload.continues.Some?)
  {
    SizeEntriesConcat(FixedEntries(b), RangeEntries(b));
    SizeEntriesConcat(RecordEntries(b), ClosureEntries(b));
    RecordEntriesSize(b);
    ClosureEntriesSize(b);
  }

  /** What every body of a chain costs before its events. */
  function BaseSize(buffer: EpisodeBuffer, request: SealRequest, continued: bool): nat {
    602 + SizeEntries(SharedEntries(buffer, request)) + |Ascii("naome-memory-core/seal_episode")|
      + RelationsSize(FilterMap(KeptRelation, request.relations))
      + (if continued then CONTINUES_RELATION_SIZE else 0) + EpisodePayloadBytes(continued)
  }

  /** The entries that are the same in every body of a chain. */
  function SharedEntries(buffer: EpisodeBuffer, request: SealRequest): seq<Entry> {
    var probe := EpisodeEvent(0, 0, buffer.scope, None, None, None, None, None);
    FixedEntries(BuildEpisodeBody(buffer, request, 0, [probe], [], 0, 0, None).value)
  }

  lemma {:induction false} FixedEntriesAreShared(buffer: EpisodeBuffer, request: SealRequest, policyDigest: Digest,
                              events: seq<EpisodeEvent>, digests: seq<Digest>, startedAtUs: u64, endedAtUs: u64,
                              continues: Option<AtomId>)
    requires events != []
    ensures FixedEntries(BuildEpisodeBody(
        buffer, request, policyDigest, events, digests, startedAtUs, endedAtUs, continues).value)
      == SharedEntries(buffer, request)
  {
    var probe := EpisodeEvent(0, 0, buffer.scope, None, None, None, None, None);
    var a := BuildEpisodeBody(buffer, request, policyDigest, events, digests, startedAtUs, endedAtUs, continues).value;
    var b := BuildEpisodeBody(buffer, request, 0, [probe], [], 0, 0, None).value;
    assert HeadEntries(a) == HeadEntries(b);
    assert StateEntries(a) == StateEntries(b);
    assert KeyEntries(a) == KeyEntries(b);
    assert RetentionEntries(a) == RetentionEntries(b);
  }

  /** The size of a body built over any events: the base plus the size of the events. It does
      not depend on the times, the policy digest, or which predecessor is named. */
  lemma {:induction false} BodySizeIsAdditive(buffer: EpisodeBuffer, request: SealRequest, policyDigest: Digest,
                           events: seq<EpisodeEvent>, digests: seq<Digest>, startedAtUs: u64, endedAtUs: u64,
                           continues: Option<AtomId>)
    requires events != [] && |digests| == |events|
    ensures Size(BodyValue(BuildEpisodeBody(
        buffer, request, policyDigest, events, digests, startedAtUs, endedAtUs, continues).value))
      == BaseSize(buffer, request, continues.Some?) + EventsSize(events)
  {
    var body := BuildEpisodeBody(buffer, request, policyDigest, events, digests, startedAtUs, endedAtUs,
      continues).value;
    EpisodeBodySize(body);
    FixedEntriesAreShared(buffer, request, policyDigest, events, digests, startedAtUs, endedAtUs, continues);
    DigestListSize(digests);
    EpisodeRelationsSize(request, continues);
    RecordsAddUp(body, events);
  }

  lemma {:induction false} BodyIsBuilt(buffer: EpisodeBuffer, request: SealRequest, policyDigest: Digest,
                           events: seq<EpisodeEvent>, digests: seq<Digest>, startedAtUs: u64, endedAtUs: u64,
                           continues: Option<AtomId>)
    requires events != []
    ensures BuildEpisodeBody(buffer, request, policyDigest, events, digests, startedAtUs, endedAtUs, continues).Ok?
  {
  }

  lemma {:induction false} RecordsAddUp(b: MemoryAtomBody, events: seq<EpisodeEvent>)
    requires b.observations == FilterMap(ObservationOf, events)
    requires b.interpretations == FilterMap(InterpretationOf, events)
    requires b.beliefs == FilterMap(BeliefOf, events)
    requires b.decisions == FilterMap(DecisionOf, events)
    requires b.actions == FilterMap(ActionOf, events)
    ensures RecordsSize(b) + 81 * |events| == EventsSize(events)
  {
    ListsAddUp(events);
    CollectedSize(ObservationOf, ObservationValue, events);
    CollectedSize(InterpretationOf, InterpretationValue, events);
    CollectedSize(BeliefOf, BeliefValue, events);
    CollectedSize(DecisionOf, DecisionValue, events);
    CollectedSize(ActionOf, ActionValue, events);
  }
}
