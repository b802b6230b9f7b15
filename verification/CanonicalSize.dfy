/** The additive byte-size model of the canonical encoding. */
module CanonicalSize {
  import opened Wrappers
  import opened Numbers
  import opened Sequences
  import opened Canonical

  /** The number of bytes the encoding of `v` takes. */
  function Size(v: Value): (r: nat)
    ensures r > 0
    decreases v, 1
  {
    match v
    case Null => 1
    case Bool(_) => 1
    case Integer(_) => 9
    case Float => 1
    case Str(text) => 9 + |text|
    case Array(items) => 9 + SizeItems(items)
    case Object(entries) => 9 + SizeEntries(entries)
  }

  function SizeItems(items: seq<Value>): nat
    decreases items, 0
  {
    if items == [] then 0 else 8 + Size(items[0]) + SizeItems(items[1..])
  }

  function SizeEntries(entries: seq<Entry>): nat
    decreases entries, 0
  {
    if entries == [] then 0
    else 16 + |entries[0].key| + Size(entries[0].value) + SizeEntries(entries[1..])
  }

  function SizeFields(fields: seq<Field>): nat {
    if fields == [] then 0 else 16 + |fields[0].key| + |fields[0].bytes| + SizeFields(fields[1..])
  }

  /** No floats, and every integer fits `u64` or `i64`. */
  predicate Representable(v: Value)
    decreases v
  {
    match v
    case Integer(n) => -TWO63 <= n < TWO64
    case Float => false
    case Array(items) => forall i :: 0 <= i < |items| ==> Representable(items[i])
    case Object(entries) => forall i :: 0 <= i < |entries| ==> Representable(entries[i].value)
    case _ => true
  }

  // ---------- the model is exact ----------

  lemma {:induction false} InsertKeepsSize(f: Field, fields: seq<Field>)
    ensures SizeFields(Insert(FieldLeq, f, fields)) == SizeFields([f]) + SizeFields(fields)
  {
    if fields == [] {
    } else if FieldLeq(f, fields[0]) {
      assert ([f] + fields)[1..] == fields;
    } else {
      InsertKeepsSize(f, fields[1..]);
      assert ([fields[0]] + Insert(FieldLeq, f, fields[1..]))[1..] == Insert(FieldLeq, f, fields[1..]);
    }
  }

  lemma {:induction false} SortKeepsSize(fields: seq<Field>)
    ensures SizeFields(SortBy(FieldLeq, fields)) == SizeFields(fields)
  {
    if fields != [] {
      SortKeepsSize(fields[1..]);
      InsertKeepsSize(fields[0], SortBy(FieldLeq, fields[1..]));
    }
  }

  lemma {:induction false} FramedLength(fields: seq<Field>)
    ensures FrameFields(fields).Some? ==> |FrameFields(fields).value| == SizeFields(fields)
    ensures SizeFields(fields) < TWO64 ==> FrameFields(fields).Some?
  {
    if fields != [] {
      FramedLength(fields[1..]);
    }
  }

  /** An encoding that exists has exactly the modelled size. */
  lemma {:induction false} SizeIsExact(v: Value)
    requires Encode(v).Some?
    ensures |Encode(v).value| == Size(v)
    decreases v, 1
  {
    match v
    case Array(items) => SizeOfItems(items);
    case Object(entries) =>
      SizeOfEntries(entries);
      var fields := EncodeFields(entries).value;
      SortKeepsSize(fields);
      FramedLength(SortBy(FieldLeq, fields));
    case _ =>
  }

  lemma {:induction false} SizeOfItems(items: seq<Value>)
    requires EncodeItems(items).Some?
    ensures |EncodeItems(items).value| == SizeItems(items)
    decreases items, 0
  {
    if items != [] {
      SizeIsExact(items[0]);
      SizeOfItems(items[1..]);
    }
  }

  lemma {:induction false} SizeOfEntries(entries: seq<Entry>)
    requires EncodeFields(entries).Some?
    ensures SizeFields(EncodeFields(entries).value) == SizeEntries(entries)
    decreases entries, 0
  {
    if entries != [] {
      SizeIsExact(entries[0].value);
      SizeOfEntries(entries[1..]);
      var rest := EncodeFields(entries[1..]).value;
      assert ([Field(entries[0].key, Encode(entries[0].value).value)] + rest)[1..] == rest;
    }
  }

  /** A representable value below the length limit has an encoding. */
  lemma {:induction false} SmallValuesEncode(v: Value)
    requires Representable(v) && Size(v) < TWO64
    ensures Encode(v).Some?
    decreases v, 1
  {
    match v
    case Array(items) =>
      SmallItemsEncode(items);
      ItemsBoundCount(items);
    case Object(entries) =>
      SmallEntriesEncode(entries);
      EntriesBoundCount(entries);
      var fields := EncodeFields(entries).value;
      SizeOfEntries(entries);
      SortKeepsSize(fields);
      FramedLength(SortBy(FieldLeq, fields));
    case _ =>
  }

  lemma {:induction false} SmallItemsEncode(items: seq<Value>)
    requires SizeItems(items) < TWO64 && forall i :: 0 <= i < |items| ==> Representable(items[i])
    ensures EncodeItems(items).Some?
    decreases items, 0
  {
    if items != [] {
      SmallValuesEncode(items[0]);
      SizeIsExact(items[0]);
      SmallItemsEncode(items[1..]);
    }
  }

  lemma {:induction false} SmallEntriesEncode(entries: seq<Entry>)
    requires SizeEntries(entries) < TWO64 && forall i :: 0 <= i < |entries| ==> Representable(entries[i].value)
    ensures EncodeFields(entries).Some?
    decreases entries, 0
  {
    if entries != [] {
      SmallValuesEncode(entries[0].value);
      SmallEntriesEncode(entries[1..]);
    }
  }

  lemma {:induction false} ItemsBoundCount(items: seq<Value>)
    ensures |items| <= SizeItems(items)
  {
    if items != [] {
      ItemsBoundCount(items[1..]);
    }
  }

  lemma {:induction false} EntriesBoundCount(entries: seq<Entry>)
    ensures |entries| <= SizeEntries(entries)
  {
    if entries != [] {
      EntriesBoundCount(entries[1..]);
    }
  }

  // ---------- the size an encoded value reports ----------

  /** `encoded_size_bytes` on the value of a structure. */
  function EncodedSize(v: Value): Result<u64> {
    var bytes :- Encode(v).OkOr(CanonicalEncoding);
    if |bytes| < TWO64 then Ok(|bytes|) else Err(CanonicalEncoding)
  }

  /** For a representable value the reported size is the modelled one, and reporting fails
      exactly when that size does not fit a `u64`. */
  lemma {:induction false} EncodedSizeIsModel(v: Value)
    requires Representable(v)
    ensures EncodedSize(v) == if Size(v) < TWO64 then Ok(Size(v)) else Err(CanonicalEncoding)
  {
    if Encode(v).Some? {
      SizeIsExact(v);
    }
    if Size(v) < TWO64 {
      SmallValuesEncode(v);
    }
  }

  // ---------- sizes add up ----------

  lemma {:induction false} SizeEntriesConcat(a: seq<Entry>, b: seq<Entry>)
    ensures SizeEntries(a + b) == SizeEntries(a) + SizeEntries(b)
  {
    if a == [] {
      assert a + b == b;
    } else {
      assert (a + b)[1..] == a[1..] + b;
      SizeEntriesConcat(a[1..], b);
    }
  }
}
