/** What equal canonical bytes say about two semantic bodies: they consolidate the same sources. */
module AtomIdentity {
  import opened Wrappers
  import opened Sequences
  import opened Digests
  import opened Canonical
  import opened Model
  import opened ModelValues
  import opened Validation

  ghost predicate NoKey(entries: seq<Entry>, key: Text) {
    forall e :: e in entries ==> e.key != key
  }

  lemma {:induction false} NoKeyConcat(a: seq<Entry>, b: seq<Entry>, key: Text)
    requires NoKey(a, key) && NoKey(b, key)
    ensures NoKey(a + b, key)
  {
  }

  lemma {:induction false} HeadHasNoPayload(b: MemoryAtomBody)
    ensures NoKey(HeadEntries(b), Ascii("payload"))
  {
    assert Ascii("payload")[0] != Ascii("trigger")[0];
  }

  lemma {:induction false} StateHasNoPayload(b: MemoryAtomBody)
    ensures NoKey(StateEntries(b), Ascii("payload"))
  {
    assert Ascii("payload")[0] != Ascii("outcome")[0];
  }

  lemma {:induction false} KeysHaveNoPayload(b: MemoryAtomBody)
    ensures NoKey(KeyEntries(b), Ascii("payload"))
  {
  }

  lemma {:induction false} RetentionHasNoPayload(b: MemoryAtomBody)
    ensures NoKey(RetentionEntries(b), Ascii("payload"))
  {
  }

  lemma {:induction false} RecordsHaveNoPayload(b: MemoryAtomBody)
    ensures NoKey(RecordEntries(b), Ascii("payload"))
  {
    assert Ascii("payload")[0] != Ascii("beliefs")[0] && Ascii("payload")[0] != Ascii("actions")[0];
  }

  lemma {:induction false} ClosureEndsInPayload(b: MemoryAtomBody)
    ensures |ClosureEntries(b)| == 4
    ensures NoKey(ClosureEntries(b)[..3], Ascii("payload"))
    ensures ClosureEntries(b) == ClosureEntries(b)[..3] + [Named("payload", PayloadValue(b.payload))]
  {
  }

  /** The payload is the only member of that name. */
  lemma {:induction false} PayloadKeyIsLast(b: MemoryAtomBody)
    ensures var entries := FixedEntries(b) + RangeEntries(b);
      |entries| > 0 && entries[|entries| - 1] == Named("payload", PayloadValue(b.payload))
      && NoKey(entries[..|entries| - 1], Ascii("payload"))
  {
    hide NoKey, HeadEntries, StateEntries, KeyEntries, RetentionEntries, RecordEntries, ClosureEntries;
    var key := Ascii("payload");
    HeadHasNoPayload(b);
    StateHasNoPayload(b);
    KeysHaveNoPayload(b);
    RetentionHasNoPayload(b);
    RecordsHaveNoPayload(b);
    ClosureEndsInPayload(b);
    var closure := ClosureEntries(b)[..3];
    NoKeyConcat(HeadEntries(b), StateEntries(b), key);
    NoKeyConcat(HeadEntries(b) + StateEntries(b), KeyEntries(b), key);
    NoKeyConcat(HeadEntries(b) + StateEntries(b) + KeyEntries(b), RetentionEntries(b), key);
    NoKeyConcat(FixedEntries(b), RecordEntries(b), key);
    NoKeyConcat(FixedEntries(b) + RecordEntries(b), closure, key);
    var entries := FixedEntries(b) + RangeEntries(b);
    assert entries == FixedEntries(b) + RecordEntries(b) + closure + [Named("payload", PayloadValue(b.payload))];
    assert entries[..|entries| - 1] == FixedEntries(b) + RecordEntries(b) + closure;
  }

  /** Equal object encodings agree on a member that only one entry of the second names. */
  lemma {:induction false} OnlyMember(a: seq<Entry>, b: seq<Entry>, i: nat, k: nat)
    requires Encode(Object(a)).Some? && Encode(Object(a)) == Encode(Object(b)) && i < |a| && k < |b|
    requires forall j :: 0 <= j < |b| && b[j].key == a[i].key ==> j == k
    ensures Encode(a[i].value).Some? && Encode(a[i].value) == Encode(b[k].value)
  {
    var j := ObjectMember(a, b, i);
  }

  lemma {:induction false} SamePayloadBytes(a: MemoryAtomBody, b: MemoryAtomBody)
    requires AtomBytes(a).Ok? && AtomBytes(a) == AtomBytes(b)
    ensures Encode(PayloadValue(a.payload)).Some? && Encode(PayloadValue(a.payload)) == Encode(PayloadValue(b.payload))
  {
    hide FixedEntries, RangeEntries, Encode, PayloadValue;
    PayloadKeyIsLast(a);
    PayloadKeyIsLast(b);
    var ea, eb := FixedEntries(a) + RangeEntries(a), FixedEntries(b) + RangeEntries(b);
    forall j | 0 <= j < |eb| - 1 ensures eb[j].key != Ascii("payload") {
      assert eb[j] == eb[..|eb| - 1][j];
    }
    OnlyMember(ea, eb, |ea| - 1, |eb| - 1);
  }

  /** Lists of digests with the same bytes are the same list. */
  lemma {:induction false} SameDigestLists(a: seq<Digest>, b: seq<Digest>)
    requires Encode(ListOf(a, DigestValue)).Some?
    requires Encode(ListOf(a, DigestValue)) == Encode(ListOf(b, DigestValue))
    ensures a == b
  {
    var va, vb := ListOf(a, DigestValue), ListOf(b, DigestValue);
    ListIsKeyed(a);
    ListIsKeyed(b);
    EncodingIsInjective(va, vb);
    SameDenotedLists(a, b);
  }

  lemma {:induction false} ListIsKeyed(a: seq<Digest>)
    ensures WellKeyed(ListOf(a, DigestValue))
  {
  }

  lemma {:induction false} DenotedList(a: seq<Digest>)
    ensures |DenoteItems(Map(DigestValue, a))| == |a|
    ensures a != [] ==>
      DenoteItems(Map(DigestValue, a)) == [StrTree(Hex(a[0]))] + DenoteItems(Map(DigestValue, a[1..]))
  {
    hide Hex;
    if a != [] {
      MapCons(DigestValue, a);
      var rest := Map(DigestValue, a[1..]);
      assert ([DigestValue(a[0])] + rest)[1..] == rest;
    }
  }

  lemma {:induction false} SameDenotedLists(a: seq<Digest>, b: seq<Digest>)
    requires DenoteItems(Map(DigestValue, a)) == DenoteItems(Map(DigestValue, b))
    ensures a == b
  {
    hide DenoteItems, Hex;
    DenotedList(a);
    DenotedList(b);
    if a != [] {
      var ra, rb := DenoteItems(Map(DigestValue, a[1..])), DenoteItems(Map(DigestValue, b[1..]));
      var da := DenoteItems(Map(DigestValue, a));
      assert da[0] == StrTree(Hex(a[0])) == StrTree(Hex(b[0]));
      HexInjective(a[0], b[0]);
      assert da[1..] == ra && da[1..] == rb;
      SameDenotedLists(a[1..], b[1..]);
      assert a == [a[0]] + a[1..] && b == [b[0]] + b[1..];
    }
  }

  /** Semantic bodies with the same canonical bytes have the same sources. */
  lemma {:induction false} BytesDetermineSources(a: MemoryAtomBody, b: MemoryAtomBody)
    requires a.payload.Semantic? && b.payload.Semantic?
    requires AtomBytes(a).Ok? && AtomBytes(a) == AtomBytes(b)
    ensures a.payload.sourceIds == b.payload.sourceIds
  {
    hide Encode, DigestValue, ScoreValue, BodyValue;
    SamePayloadBytes(a, b);
    var pa, pb := PayloadValue(a.payload).entries, PayloadValue(b.payload).entries;
    assert pb[0].key[0] != pa[1].key[0];
    OnlyMember(pa, pb, 1, 1);
    SourcesFirst(a.payload, b.payload);
  }

  lemma {:induction false} SourcesFirst(a: MemoryPayload, b: MemoryPayload)
    requires a.Semantic? && b.Semantic?
    requires Encode(PayloadValue(a).entries[1].value).Some?
    requires Encode(PayloadValue(a).entries[1].value) == Encode(PayloadValue(b).entries[1].value)
    ensures a.sourceIds == b.sourceIds
  {
    hide Encode, DigestValue, ScoreValue;
    var da, db := PayloadValue(a).entries[1].value.entries, PayloadValue(b).entries[1].value.entries;
    forall j | 1 <= j < |db| ensures db[j].key != da[0].key {
      assert |db[j].key| != |Ascii("source_ids")| || db[j].key[1] != da[0].key[1];
    }
    OnlyMember(da, db, 0, 0);
    SameDigestLists(a.sourceIds, b.sourceIds);
  }
}
