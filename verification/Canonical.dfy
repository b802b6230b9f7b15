/** The authority encoding behind every content address: a tagged, length-framed binary
    tree whose object entries are written in key order. */
module Canonical {
  import opened Wrappers
  import opened Numbers
  import opened Sequences

  /** A serialized value. `entries` holds an object's members in the order they are
      visited; integers outside the 64-bit ranges and floats have no encoding. */
  datatype Value =
    | Null
    | Bool(flag: bool)
    | Integer(number: int)
    | Float
    | Str(text: Text)
    | Array(items: seq<Value>)
    | Object(entries: seq<Entry>)

  datatype Entry = Entry(key: Text, value: Value)

  /** An entry whose value is already encoded. */
  datatype Field = Field(key: Text, bytes: seq<byte>)

  predicate EntryLeq(a: Entry, b: Entry) {
    TextLeq(a.key, b.key)
  }

  predicate FieldLeq(a: Field, b: Field) {
    TextLeq(a.key, b.key)
  }

  // ---------- the encoding ----------

  function Frame(bytes: seq<byte>): Option<seq<byte>> {
    if |bytes| < TWO64 then Some(BigEndian(|bytes|) + bytes) else None
  }

  function EncodeInteger(n: int): Option<seq<byte>> {
    if 0 <= n < TWO64 then Some([3] + BigEndian(n))
    else if -TWO63 <= n < 0 then Some([4] + BigEndian(n + TWO64))
    else None
  }

  function Encode(v: Value): Option<seq<byte>>
    decreases v, 1
  {
    match v
    case Null => Some([0])
    case Bool(flag) => Some(if flag then [2] else [1])
    case Integer(n) => EncodeInteger(n)
    case Float => None
    case Str(text) =>
      var framed :- Frame(text);
      Some([5] + framed)
    case Array(items) =>
      if |items| >= TWO64 then None
      else
        var body :- EncodeItems(items);
        Some([6] + BigEndian(|items|) + body)
    case Object(entries) =>
      if |entries| >= TWO64 then None
      else
        var fields :- EncodeFields(entries);
        var body :- FrameFields(SortBy(FieldLeq, fields));
        Some([7] + BigEndian(|entries|) + body)
  }

  function EncodeItems(items: seq<Value>): Option<seq<byte>>
    decreases items, 0
  {
    if items == [] then Some([])
    else
      var first :- Encode(items[0]);
      var framed :- Frame(first);
      var rest :- EncodeItems(items[1..]);
      Some(framed + rest)
  }

  /** Each entry with its value encoded, still in visiting order. */
  function EncodeFields(entries: seq<Entry>): (r: Option<seq<Field>>)
    ensures r.Some? ==> |r.value| == |entries|
    decreases entries, 0
  {
    if entries == [] then Some([])
    else
      var first :- Encode(entries[0].value);
      var rest :- EncodeFields(entries[1..]);
      Some([Field(entries[0].key, first)] + rest)
  }

  function FrameFields(fields: seq<Field>): Option<seq<byte>> {
    if fields == [] then Some([])
    else
      var key :- Frame(fields[0].key);
      var value :- Frame(fields[0].bytes);
      var rest :- FrameFields(fields[1..]);
      Some(key + value + rest)
  }

  // ---------- what a value means ----------

  /** A value with the visiting order of object entries forgotten. */
  datatype Tree =
    | NullTree
    | BoolTree(flag: bool)
    | IntegerTree(number: int)
    | FloatTree
    | StrTree(text: Text)
    | ArrayTree(items: seq<Tree>)
    | ObjectTree(members: map<Text, Tree>)

  function Denote(v: Value): Tree
    decreases v, 1
  {
    match v
    case Null => NullTree
    case Bool(flag) => BoolTree(flag)
    case Integer(n) => IntegerTree(n)
    case Float => FloatTree
    case Str(text) => StrTree(text)
    case Array(items) => ArrayTree(DenoteItems(items))
    case Object(entries) => ObjectTree(DenoteEntries(entries))
  }

  function DenoteItems(items: seq<Value>): (r: seq<Tree>)
    ensures |r| == |items|
    decreases items, 0
  {
    if items == [] then [] else [Denote(items[0])] + DenoteItems(items[1..])
  }

  function DenoteEntries(entries: seq<Entry>): (r: map<Text, Tree>)
    ensures forall k :: k in r <==> exists i :: 0 <= i < |entries| && entries[i].key == k
    decreases entries, 0
  {
    if entries == [] then map[]
    else
      var rest := DenoteEntries(entries[1..]);
      assert forall i :: 1 <= i < |entries| ==> entries[i] == entries[1..][i - 1];
      rest[entries[0].key := Denote(entries[0].value)]
  }

  predicate DistinctKeys(entries: seq<Entry>) {
    forall i, j :: 0 <= i < j < |entries| ==> entries[i].key != entries[j].key
  }

  /** Every object in the value has distinct keys, as a serde map guarantees. */
  predicate WellKeyed(v: Value)
    decreases v
  {
    match v
    case Array(items) => forall i :: 0 <= i < |items| ==> WellKeyed(items[i])
    case Object(entries) =>
      && DistinctKeys(entries)
      && forall i :: 0 <= i < |entries| ==> WellKeyed(entries[i].value)
    case _ => true
  }

  // ---------- decomposing equal encodings ----------

  lemma {:induction false} FramePrefix(a: seq<byte>, b: seq<byte>, x: seq<byte>, y: seq<byte>)
    requires Frame(a).Some? && Frame(b).Some?
    requires Frame(a).value + x == Frame(b).value + y
    ensures a == b && x == y
  {
    var s := Frame(a).value + x;
    assert s[..8] == BigEndian(|a|) && s[..8] == BigEndian(|b|);
    BigEndianInjective(|a|, |b|);
    assert s[8..8 + |a|] == a && s[8..8 + |a|] == b;
    assert s[8 + |a|..] == x && s[8 + |a|..] == y;
  }

  lemma {:induction false} FrameFieldsInjective(a: seq<Field>, b: seq<Field>)
    requires |a| == |b| && FrameFields(a).Some? && FrameFields(a) == FrameFields(b)
    ensures a == b
  {
    if a != [] {
      var ka, va, ra := Frame(a[0].key).value, Frame(a[0].bytes).value, FrameFields(a[1..]).value;
      var kb, vb, rb := Frame(b[0].key).value, Frame(b[0].bytes).value, FrameFields(b[1..]).value;
      assert ka + va + ra == ka + (va + ra) && kb + vb + rb == kb + (vb + rb);
      FramePrefix(a[0].key, b[0].key, va + ra, vb + rb);
      FramePrefix(a[0].bytes, b[0].bytes, ra, rb);
      FrameFieldsInjective(a[1..], b[1..]);
    }
  }

  lemma {:induction false} TaggedCount(tag: byte, m: u64, n: u64, x: seq<byte>, y: seq<byte>)
    requires [tag] + BigEndian(m) + x == [tag] + BigEndian(n) + y
    ensures m == n && x == y
  {
    var s := [tag] + BigEndian(m) + x;
    assert s[1..9] == BigEndian(m) && s[1..9] == BigEndian(n);
    BigEndianInjective(m, n);
    assert s[9..] == x && s[9..] == y;
  }

  lemma {:induction false} EncodeFieldsAt(entries: seq<Entry>)
    requires EncodeFields(entries).Some?
    ensures forall i :: 0 <= i < |entries| ==>
      && Encode(entries[i].value).Some?
      && EncodeFields(entries).value[i] == Field(entries[i].key, Encode(entries[i].value).value)
  {
    if entries != [] {
      EncodeFieldsAt(entries[1..]);
      assert forall i :: 1 <= i < |entries| ==> entries[i] == entries[1..][i - 1];
    }
  }

  /** Equal object encodings come from the same encoded entries, whatever the visiting orders. */
  lemma {:induction false} ObjectFields(a: seq<Entry>, b: seq<Entry>)
    requires Encode(Object(a)).Some? && Encode(Object(a)) == Encode(Object(b))
    ensures EncodeFields(a).Some? && EncodeFields(b).Some?
    ensures multiset(EncodeFields(a).value) == multiset(EncodeFields(b).value)
  {
    var fa, fb := EncodeFields(a).value, EncodeFields(b).value;
    var sa, sb := SortBy(FieldLeq, fa), SortBy(FieldLeq, fb);
    TaggedCount(7, |a|, |b|, FrameFields(sa).value, FrameFields(sb).value);
    FrameFieldsInjective(sa, sb);
  }

  /** Equal object encodings agree, key by key, on the encodings of the members. */
  lemma {:induction false} ObjectMember(a: seq<Entry>, b: seq<Entry>, i: nat) returns (j: nat)
    requires Encode(Object(a)).Some? && Encode(Object(a)) == Encode(Object(b)) && i < |a|
    ensures j < |b| && a[i].key == b[j].key
    ensures Encode(a[i].value).Some? && Encode(a[i].value) == Encode(b[j].value)
  {
    ObjectFields(a, b);
    EncodeFieldsAt(a);
    EncodeFieldsAt(b);
    var fa, fb := EncodeFields(a).value, EncodeFields(b).value;
    MembersOfMultiset(fa, fb);
    assert fa[i] in fb;
    j :| 0 <= j < |fb| && fb[j] == fa[i];
  }

  lemma {:induction false} ArrayMembers(a: seq<Value>, b: seq<Value>)
    requires |a| == |b| && EncodeItems(a).Some? && EncodeItems(a) == EncodeItems(b)
    ensures forall i :: 0 <= i < |a| ==> Encode(a[i]).Some? && Encode(a[i]) == Encode(b[i])
  {
    if a != [] {
      FramePrefix(Encode(a[0]).value, Encode(b[0]).value, EncodeItems(a[1..]).value, EncodeItems(b[1..]).value);
      ArrayMembers(a[1..], b[1..]);
      assert forall i :: 1 <= i < |a| ==> a[i] == a[1..][i - 1] && b[i] == b[1..][i - 1];
    }
  }

  lemma {:induction false} IntegerInjective(m: int, n: int)
    requires EncodeInteger(m).Some? && EncodeInteger(m) == EncodeInteger(n)
    ensures m == n
  {
    var s := EncodeInteger(m).value;
    assert s[0] == if m >= 0 then 3 else 4;
    assert s[0] == if n >= 0 then 3 else 4;
    var p, q := if m >= 0 then m else m + TWO64, if n >= 0 then n else n + TWO64;
    assert s[1..] == BigEndian(p) && s[1..] == BigEndian(q);
    BigEndianInjective(p, q);
  }

  lemma {:induction false} EncodeTag(v: Value)
    requires Encode(v).Some?
    ensures |Encode(v).value| > 0
    ensures Encode(v).value[0] == match v
      case Null => 0 case Bool(flag) => (if flag then 2 else 1)
      case Integer(n) => (if n >= 0 then 3 else 4) case Float => 8
      case Str(_) => 5 case Array(_) => 6 case Object(_) => 7
  {
  }

  // ---------- meaning, member by member ----------

  lemma {:induction false} DenoteItemsAt(items: seq<Value>)
    ensures forall i :: 0 <= i < |items| ==> DenoteItems(items)[i] == Denote(items[i])
  {
    if items != [] {
      DenoteItemsAt(items[1..]);
      assert forall i :: 1 <= i < |items| ==> items[i] == items[1..][i - 1];
    }
  }

  lemma {:induction false} DenoteEntriesAt(entries: seq<Entry>)
    requires DistinctKeys(entries)
    ensures forall i :: 0 <= i < |entries| ==>
      entries[i].key in DenoteEntries(entries) && DenoteEntries(entries)[entries[i].key] == Denote(entries[i].value)
  {
    if entries != [] {
      assert forall i :: 1 <= i < |entries| ==> entries[i] == entries[1..][i - 1];
      DenoteEntriesAt(entries[1..]);
    }
  }

  // ---------- injectivity ----------

  /** Equal bytes imply equal values. */
  lemma {:induction false} EncodingIsInjective(v: Value, w: Value)
    requires WellKeyed(v) && WellKeyed(w)
    requires Encode(v).Some? && Encode(v) == Encode(w)
    ensures Denote(v) == Denote(w)
    decreases v, 1
  {
    EncodeTag(v);
    EncodeTag(w);
    if v.Integer? {
      IntegerInjective(v.number, w.number);
    } else if v.Str? {
      var s := Encode(v).value;
      assert s[1..] == Frame(v.text).value && s[1..] == Frame(w.text).value;
      FramePrefix(v.text, w.text, [], []);
    } else if v.Array? {
      ArraysAreInjective(v, w);
    } else if v.Object? {
      ObjectsAreInjective(v, w);
    }
  }

  lemma {:induction false} ArraysAreInjective(v: Value, w: Value)
    requires WellKeyed(v) && WellKeyed(w) && v.Array? && w.Array?
    requires Encode(v).Some? && Encode(v) == Encode(w)
    ensures Denote(v) == Denote(w)
    decreases v, 0
  {
    TaggedCount(6, |v.items|, |w.items|, EncodeItems(v.items).value, EncodeItems(w.items).value);
    ArrayMembers(v.items, w.items);
    DenoteItemsAt(v.items);
    DenoteItemsAt(w.items);
    forall i | 0 <= i < |v.items| ensures Denote(v.items[i]) == Denote(w.items[i]) {
      EncodingIsInjective(v.items[i], w.items[i]);
    }
  }

  lemma {:induction false} ObjectsAreInjective(v: Value, w: Value)
    requires WellKeyed(v) && WellKeyed(w) && v.Object? && w.Object?
    requires Encode(v).Some? && Encode(v) == Encode(w)
    ensures Denote(v) == Denote(w)
    decreases v, 0
  {
    var a, b := v.entries, w.entries;
    forall i | 0 <= i < |a| ensures HoldsMember(b, a[i].key, Denote(a[i].value)) {
      var j := ObjectMember(a, b, i);
      EncodingIsInjective(a[i].value, b[j].value);
    }
    forall j | 0 <= j < |b| ensures HoldsKey(a, b[j].key) {
      var i := ObjectMember(b, a, j);
    }
    MembersDecideObject(a, b);
  }

  ghost predicate HoldsKey(entries: seq<Entry>, key: Text) {
    exists i :: 0 <= i < |entries| && entries[i].key == key
  }

  ghost predicate HoldsMember(entries: seq<Entry>, key: Text, meaning: Tree) {
    exists i :: 0 <= i < |entries| && entries[i].key == key && Denote(entries[i].value) == meaning
  }

  ghost predicate HoldsEncoding(entries: seq<Entry>, key: Text, encoding: Option<seq<byte>>) {
    exists i :: 0 <= i < |entries| && entries[i].key == key && Encode(entries[i].value) == encoding
  }

  lemma {:induction false} MembersDecideObject(a: seq<Entry>, b: seq<Entry>)
    requires DistinctKeys(a) && DistinctKeys(b)
    requires forall i :: 0 <= i < |a| ==> HoldsMember(b, a[i].key, Denote(a[i].value))
    requires forall j :: 0 <= j < |b| ==> HoldsKey(a, b[j].key)
    ensures DenoteEntries(a) == DenoteEntries(b)
  {
    DenoteEntriesAt(a);
    DenoteEntriesAt(b);
    hide DenoteEntries;
    var ma, mb := DenoteEntries(a), DenoteEntries(b);
    forall k | k in ma ensures k in mb && ma[k] == mb[k] {
      var i :| 0 <= i < |a| && a[i].key == k;
      assert HoldsMember(b, a[i].key, Denote(a[i].value));
    }
    forall k | k in mb ensures k in ma {
      var j :| 0 <= j < |b| && b[j].key == k;
      assert HoldsKey(a, b[j].key);
    }
  }

  // ---------- independence of the visiting order ----------

  /** Values that mean the same encode the same: the order in which an object's entries
      are visited never reaches the bytes. */
  lemma {:induction false} EncodingForgetsOrder(v: Value, w: Value)
    requires WellKeyed(v) && WellKeyed(w) && Denote(v) == Denote(w)
    ensures Encode(v) == Encode(w)
    decreases v, 1
  {
    if v.Array? {
      DenoteItemsAt(v.items);
      DenoteItemsAt(w.items);
      forall i | 0 <= i < |v.items| ensures Encode(v.items[i]) == Encode(w.items[i]) {
        assert Denote(v.items[i]) == DenoteItems(v.items)[i];
        EncodingForgetsOrder(v.items[i], w.items[i]);
      }
      SameItems(v.items, w.items);
    } else if v.Object? {
      KeyCount(v.entries);
      KeyCount(w.entries);
      EntriesFoundInSecond(v, w);
      EntriesFoundInFirst(v, w);
      SameEntries(v.entries, w.entries);
    }
  }

  lemma {:induction false} EntriesFoundInSecond(v: Value, w: Value)
    requires WellKeyed(v) && WellKeyed(w) && v.Object? && w.Object? && Denote(v) == Denote(w)
    ensures forall i :: 0 <= i < |v.entries| ==>
      HoldsEncoding(w.entries, v.entries[i].key, Encode(v.entries[i].value))
    decreases v, 0
  {
    var a, b := v.entries, w.entries;
    DenoteEntriesAt(a);
    DenoteEntriesAt(b);
    forall i | 0 <= i < |a| ensures HoldsEncoding(b, a[i].key, Encode(a[i].value)) {
      assert a[i].key in DenoteEntries(b);
      var j :| 0 <= j < |b| && b[j].key == a[i].key;
      EncodingForgetsOrder(a[i].value, b[j].value);
    }
  }

  lemma {:induction false} EntriesFoundInFirst(v: Value, w: Value)
    requires WellKeyed(v) && WellKeyed(w) && v.Object? && w.Object? && Denote(v) == Denote(w)
    ensures forall j :: 0 <= j < |w.entries| ==>
      HoldsEncoding(v.entries, w.entries[j].key, Encode(w.entries[j].value))
    decreases v, 0
  {
    var a, b := v.entries, w.entries;
    DenoteEntriesAt(a);
    DenoteEntriesAt(b);
    forall j | 0 <= j < |b| ensures HoldsEncoding(a, b[j].key, Encode(b[j].value)) {
      assert b[j].key in DenoteEntries(a);
      var i :| 0 <= i < |a| && a[i].key == b[j].key;
      EncodingForgetsOrder(a[i].value, b[j].value);
    }
  }

  lemma {:induction false} SameItems(a: seq<Value>, b: seq<Value>)
    requires |a| == |b| && forall i :: 0 <= i < |a| ==> Encode(a[i]) == Encode(b[i])
    ensures EncodeItems(a) == EncodeItems(b)
  {
    if a != [] {
      assert Encode(a[0]) == Encode(b[0]);
      forall i | 0 <= i < |a[1..]| ensures Encode(a[1..][i]) == Encode(b[1..][i]) {
        assert a[1..][i] == a[i + 1] && b[1..][i] == b[i + 1];
      }
      SameItems(a[1..], b[1..]);
    }
  }

  lemma {:induction false} FieldsExist(entries: seq<Entry>)
    ensures EncodeFields(entries).Some? <==> forall i :: 0 <= i < |entries| ==> Encode(entries[i].value).Some?
  {
    if entries != [] {
      FieldsExist(entries[1..]);
      assert forall i :: 1 <= i < |entries| ==> entries[i] == entries[1..][i - 1];
    }
  }

  lemma {:induction false} SameEntries(a: seq<Entry>, b: seq<Entry>)
    requires DistinctKeys(a) && DistinctKeys(b) && |a| == |b|
    requires forall i :: 0 <= i < |a| ==> HoldsEncoding(b, a[i].key, Encode(a[i].value))
    requires forall j :: 0 <= j < |b| ==> HoldsEncoding(a, b[j].key, Encode(b[j].value))
    ensures Encode(Object(a)) == Encode(Object(b))
  {
    if EncodeFields(a).Some? {
      EncodableWithin(a, b);
      SameFieldsSorted(a, b);
    } else if EncodeFields(b).Some? {
      EncodableWithin(b, a);
    }
  }

  lemma {:induction false} EncodableWithin(a: seq<Entry>, b: seq<Entry>)
    requires EncodeFields(a).Some?
    requires forall j :: 0 <= j < |b| ==> HoldsEncoding(a, b[j].key, Encode(b[j].value))
    ensures EncodeFields(b).Some?
  {
    FieldsExist(a);
    FieldsExist(b);
    forall j | 0 <= j < |b| ensures Encode(b[j].value).Some? {
      assert HoldsEncoding(a, b[j].key, Encode(b[j].value));
    }
  }

  lemma {:induction false} SameFieldsSorted(a: seq<Entry>, b: seq<Entry>)
    requires DistinctKeys(a) && DistinctKeys(b)
    requires EncodeFields(a).Some? && EncodeFields(b).Some?
    requires forall i :: 0 <= i < |a| ==> HoldsEncoding(b, a[i].key, Encode(a[i].value))
    requires forall j :: 0 <= j < |b| ==> HoldsEncoding(a, b[j].key, Encode(b[j].value))
    ensures SortBy(FieldLeq, EncodeFields(a).value) == SortBy(FieldLeq, EncodeFields(b).value)
  {
    var fa, fb := EncodeFields(a).value, EncodeFields(b).value;
    EncodeFieldsAt(a);
    EncodeFieldsAt(b);
    forall i | 0 <= i < |fa| ensures fa[i] in fb {
      assert HoldsEncoding(b, a[i].key, Encode(a[i].value));
    }
    forall j | 0 <= j < |fb| ensures fb[j] in fa {
      assert HoldsEncoding(a, b[j].key, Encode(b[j].value));
    }
    SameFields(fa, fb);
    FieldOrder();
    SortForgetsOrder(FieldLeq, fa, fb);
  }

  lemma {:induction false} KeyCount(entries: seq<Entry>)
    requires DistinctKeys(entries)
    ensures |DenoteEntries(entries)| == |entries|
  {
    if entries != [] {
      KeyCount(entries[1..]);
      assert forall i :: 1 <= i < |entries| ==> entries[i] == entries[1..][i - 1];
      assert entries[0].key !in DenoteEntries(entries[1..]);
    }
  }

  /** Two field lists with distinct keys and the same members are permutations. */
  lemma {:induction false} SameFields(a: seq<Field>, b: seq<Field>)
    requires forall i, j :: 0 <= i < j < |a| ==> a[i].key != a[j].key
    requires forall i, j :: 0 <= i < j < |b| ==> b[i].key != b[j].key
    requires forall i :: 0 <= i < |a| ==> a[i] in b
    requires forall j :: 0 <= j < |b| ==> b[j] in a
    ensures multiset(a) == multiset(b)
    ensures Decided(FieldLeq, a)
  {
    DistinctCount(a);
    DistinctCount(b);
    forall f ensures multiset(a)[f] == multiset(b)[f] {
      assert f in a <==> f in multiset(a);
      assert f in b <==> f in multiset(b);
    }
    forall x, y | x in a && y in a && FieldLeq(x, y) && FieldLeq(y, x) ensures x == y {
      TextTrichotomy(x.key, y.key);
    }
  }

  lemma {:induction false} FieldOrder()
    ensures TotalPreorder(FieldLeq)
  {
    TextOrder();
    forall x: Field, y: Field ensures FieldLeq(x, y) || FieldLeq(y, x) {
      assert TextLeq(x.key, y.key) || TextLeq(y.key, x.key);
    }
    forall x: Field, y: Field, z: Field | FieldLeq(x, y) && FieldLeq(y, z) ensures FieldLeq(x, z) {
      assert TextLeq(x.key, y.key) && TextLeq(y.key, z.key);
    }
  }

  /** The encoding identifies a value exactly: same bytes if and only if same tree. */
  lemma {:induction false} SameBytesIffSameTree(v: Value, w: Value)
    requires WellKeyed(v) && WellKeyed(w) && Encode(v).Some?
    ensures Encode(v) == Encode(w) <==> Denote(v) == Denote(w)
  {
    if Encode(v) == Encode(w) {
      EncodingIsInjective(v, w);
    }
    if Denote(v) == Denote(w) {
      EncodingForgetsOrder(v, w);
    }
  }
}
