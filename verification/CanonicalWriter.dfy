/** The encoder as it runs: recursive calls that append to an output buffer. */
module CanonicalWriter {
  import opened Wrappers
  import opened Numbers
  import opened Sequences
  import opened Canonical

  /** A growable byte vector. */
  class ByteBuffer {
    var bytes: seq<byte>

    constructor ()
      ensures bytes == []
    {
      bytes := [];
    }

    method Append(more: seq<byte>)
      modifies this
      ensures bytes == old(bytes) + more
    {
      bytes := bytes + more;
    }

    /** Length prefix, then the bytes. Nothing is written when the length does not fit. */
    method WriteFrame(payload: seq<byte>) returns (ok: bool)
      modifies this
      ensures ok <==> Frame(payload).Some?
      ensures bytes == if ok then old(bytes) + Frame(payload).value else old(bytes)
    {
      ok := |payload| < TWO64;
      if ok {
        Append(BigEndian(|payload|));
        Append(payload);
      }
    }
  }

  /** Appends the encoding of `value`. On failure the buffer keeps what it held and may
      hold a partial encoding after it. */
  method WriteValue(value: Value, output: ByteBuffer) returns (ok: bool)
    modifies output
    ensures ok <==> Encode(value).Some?
    ensures ok ==> output.bytes == old(output.bytes) + Encode(value).value
    ensures old(output.bytes) <= output.bytes
    decreases value, 4
  {
    ghost var before := output.bytes;
    match value
    case Null =>
      output.Append([0]);
      ok := true;
    case Bool(flag) =>
      output.Append(if flag then [2] else [1]);
      ok := true;
    case Integer(n) =>
      ok := EncodeInteger(n).Some?;
      if ok {
        output.Append(EncodeInteger(n).value);
      }
    case Float =>
      ok := false;
    case Str(text) =>
      output.Append([5]);
      ok := output.WriteFrame(text);
      assert ok ==> output.bytes == before + ([5] + Frame(text).value);
    case Array(_) =>
      ok := WriteArray(value, output);
    case Object(_) =>
      ok := WriteObject(value, output);
  }

  method WriteArray(value: Value, output: ByteBuffer) returns (ok: bool)
    requires value.Array?
    modifies output
    ensures ok <==> Encode(value).Some?
    ensures ok ==> output.bytes == old(output.bytes) + Encode(value).value
    ensures old(output.bytes) <= output.bytes
    decreases value, 2
  {
    hide Encode, EncodeItems, BigEndian;
    output.Append([6]);
    if |value.items| >= TWO64 {
      TooMany(value);
      return false;
    }
    output.Append(BigEndian(|value.items|));
    ok := WriteItems(value, output);
    ArrayAsWritten(value.items);
  }

  method WriteItems(parent: Value, output: ByteBuffer) returns (ok: bool)
    requires parent.Array?
    modifies output
    ensures ok <==> EncodeItems(parent.items).Some?
    ensures ok ==> output.bytes == old(output.bytes) + EncodeItems(parent.items).value
    ensures old(output.bytes) <= output.bytes
    decreases parent, 1
  {
    NoItems();
    hide FramedValue, EncodeItems;
    var items := parent.items;
    ghost var done: seq<byte> := [];
    assert items[0..] == items;
    assert EncodeItems(items).Some? ==> done + EncodeItems(items).value == EncodeItems(items).value;
    for i := 0 to |items|
      invariant output.bytes == old(output.bytes) + done
      invariant EncodeItems(items) == Prepend(done, EncodeItems(items[i..]))
    {
      ItemsStep(items[i..], done);
      assert items[i..][1..] == items[i + 1..];
      ok := WriteFramedValue(parent, items[i], output);
      if !ok {
        return false;
      }
      done := done + FramedValue(items[i]).value;
    }
    ok := true;
  }

  lemma {:induction false} TooMany(value: Value)
    requires value.Array? && |value.items| >= TWO64
    ensures Encode(value).None?
  {
  }

  lemma {:induction false} NoItems()
    ensures EncodeItems([]) == Some([])
  {
  }

  lemma {:induction false} ArrayAsWritten(items: seq<Value>)
    requires |items| < TWO64
    ensures Encode(Array(items)) == Prepend([6] + BigEndian(|items|), EncodeItems(items))
  {
  }

  function FramedValue(v: Value): Option<seq<byte>> {
    var encoded :- Encode(v);
    Frame(encoded)
  }

  function FramedEntry(entry: Entry): Option<seq<byte>> {
    var key :- Frame(entry.key);
    var value :- FramedValue(entry.value);
    Some(key + value)
  }

  /** A member of `parent`, encoded into a buffer of its own and then framed. */
  method WriteFramedValue(ghost parent: Value, member: Value, output: ByteBuffer) returns (ok: bool)
    requires member in (if parent.Array? then parent.items else []) ||
      (parent.Object? && exists e :: e in parent.entries && e.value == member)
    modifies output
    ensures ok <==> FramedValue(member).Some?
    ensures ok ==> output.bytes == old(output.bytes) + FramedValue(member).value
    ensures !ok ==> output.bytes == old(output.bytes)
    decreases parent, 0
  {
    var encoded := new ByteBuffer();
    ok := WriteValue(member, encoded);
    if ok {
      assert encoded.bytes == Encode(member).value;
      ok := output.WriteFrame(encoded.bytes);
    }
  }

  method WriteEntry(ghost parent: Value, entry: Entry, output: ByteBuffer) returns (ok: bool)
    requires parent.Object? && entry in parent.entries
    modifies output
    ensures ok <==> FramedEntry(entry).Some?
    ensures ok ==> output.bytes == old(output.bytes) + FramedEntry(entry).value
    ensures old(output.bytes) <= output.bytes
    decreases parent, 1
  {
    hide FramedValue, Frame;
    ok := output.WriteFrame(entry.key);
    if ok {
      ok := WriteFramedValue(parent, entry.value, output);
    }
  }

  ghost function Prepend(done: seq<byte>, rest: Option<seq<byte>>): Option<seq<byte>> {
    if rest.Some? then Some(done + rest.value) else None
  }

  /** The entries in key order, each written as framed key and framed encoding. */
  method WriteObject(value: Value, output: ByteBuffer) returns (ok: bool)
    requires value.Object?
    modifies output
    ensures ok <==> Encode(value).Some?
    ensures ok ==> output.bytes == old(output.bytes) + Encode(value).value
    ensures old(output.bytes) <= output.bytes
    decreases value, 3
  {
    output.Append([7]);
    if |value.entries| >= TWO64 {
      return false;
    }
    output.Append(BigEndian(|value.entries|));
    ObjectAsWritten(value.entries);
    var order := KeyOrder(value.entries);
    ok := WriteEntries(value, order, output);
  }

  method WriteEntries(ghost parent: Value, order: seq<Entry>, output: ByteBuffer) returns (ok: bool)
    requires parent.Object? && forall e :: e in order ==> e in parent.entries
    modifies output
    ensures ok <==> WrittenEntries(order).Some?
    ensures ok ==> output.bytes == old(output.bytes) + WrittenEntries(order).value
    ensures old(output.bytes) <= output.bytes
    decreases parent, 2
  {
    NoEntries();
    hide FramedEntry, WrittenEntries;
    ghost var done: seq<byte> := [];
    assert order[0..] == order;
    assert WrittenEntries(order).Some? ==> done + WrittenEntries(order).value == WrittenEntries(order).value;
    for i := 0 to |order|
      invariant output.bytes == old(output.bytes) + done
      invariant WrittenEntries(order) == Prepend(done, WrittenEntries(order[i..]))
    {
      WrittenEntriesStep(order[i..], done);
      assert order[i..][1..] == order[i + 1..];
      ok := WriteEntry(parent, order[i], output);
      if !ok {
        return false;
      }
      done := done + FramedEntry(order[i]).value;
    }
    ok := true;
  }

  lemma {:induction false} NoEntries()
    ensures WrittenEntries([]) == Some([])
  {
  }

  ghost function WrittenEntries(order: seq<Entry>): Option<seq<byte>> {
    var fields :- EncodeFields(order);
    FrameFields(fields)
  }

  lemma {:induction false} ItemsStep(items: seq<Value>, done: seq<byte>)
    requires items != []
    ensures Prepend(done, EncodeItems(items)) ==
      if FramedValue(items[0]).Some?
      then Prepend(done + FramedValue(items[0]).value, EncodeItems(items[1..]))
      else None
  {
    if EncodeItems(items).Some? {
      var framed, rest := FramedValue(items[0]).value, EncodeItems(items[1..]).value;
      assert done + (framed + rest) == done + framed + rest;
    }
  }

  lemma {:induction false} WrittenEntriesStep(order: seq<Entry>, done: seq<byte>)
    requires order != []
    ensures Prepend(done, WrittenEntries(order)) ==
      if FramedEntry(order[0]).Some?
      then Prepend(done + FramedEntry(order[0]).value, WrittenEntries(order[1..]))
      else None
  {
    if Encode(order[0].value).Some? && EncodeFields(order[1..]).Some? {
      var rest := EncodeFields(order[1..]).value;
      assert ([Field(order[0].key, Encode(order[0].value).value)] + rest)[1..] == rest;
      if WrittenEntries(order).Some? {
        var entry, tail := FramedEntry(order[0]).value, FrameFields(rest).value;
        assert done + (entry + tail) == done + entry + tail;
      }
    }
  }

  function KeyOrder(entries: seq<Entry>): (r: seq<Entry>)
    ensures forall e :: e in r ==> e in entries
  {
    MembersOfMultiset(entries, SortBy(EntryLeq, entries));
    SortBy(EntryLeq, entries)
  }

  /** Sorting the entries and then encoding them, or the other way round, is the same. */
  lemma {:induction false} SortedFields(entries: seq<Entry>)
    ensures EncodeFields(SortBy(EntryLeq, entries)) ==
      if EncodeFields(entries).Some? then Some(SortBy(FieldLeq, EncodeFields(entries).value)) else None
  {
    var order := SortBy(EntryLeq, entries);
    MembersOfMultiset(entries, order);
    FieldsExist(entries);
    FieldsExist(order);
    if EncodeFields(entries).Some? {
      forall i | 0 <= i < |order| ensures Encode(order[i].value).Some? {
        assert order[i] in entries;
      }
      FieldsAreMapped(entries);
      FieldsAreMapped(order);
      SortCommutesWithMap(EntryLeq, FieldLeq, FieldOf, entries);
    } else {
      var i :| 0 <= i < |entries| && Encode(entries[i].value).None?;
      assert entries[i] in order;
    }
  }

  lemma {:induction false} ObjectAsWritten(entries: seq<Entry>)
    requires |entries| < TWO64
    ensures Encode(Object(entries)) ==
      Prepend([7] + BigEndian(|entries|), WrittenEntries(KeyOrder(entries)))
  {
    hide SortBy, EncodeFields, FrameFields, BigEndian;
    SortedFields(entries);
    assert KeyOrder(entries) == SortBy(EntryLeq, entries);
  }

  function FieldOf(entry: Entry): Field {
    var encoded := Encode(entry.value);
    Field(entry.key, if encoded.Some? then encoded.value else [])
  }

  lemma {:induction false} FieldsAreMapped(entries: seq<Entry>)
    requires EncodeFields(entries).Some?
    ensures EncodeFields(entries).value == Map(FieldOf, entries)
  {
    EncodeFieldsAt(entries);
  }

  /** `canonical_binary`: the finished bytes, or an encoding error. */
  method CanonicalBinary(value: Value) returns (r: Result<seq<byte>>)
    ensures r == Encode(value).OkOr(CanonicalEncoding)
  {
    var output := new ByteBuffer();
    var ok := WriteValue(value, output);
    assert ok ==> output.bytes == Encode(value).value;
    r := if ok then Ok(output.bytes) else Err(CanonicalEncoding);
  }
}
