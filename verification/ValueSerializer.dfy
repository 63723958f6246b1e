/**
The serializer behind diagnostic data: a tree becomes a JSON value in which byte arrays that are
fields of maps or structs appear as hexadecimal text.
*/
module ValueSerializer {
  import opened Options
  import opened Text

  /**
  What a serialized value presents to a serializer. Options and newtype structs are transparent, unit
  variants are text, tuples are sequences and structs are maps. A key is absent when it is not a text, the
  number of a float when it is not finite.
  */
  datatype Data =
    | Null
    | Boolean(bit: bool)
    | Signed(value: int)
    | Unsigned(size: nat)
    | Float(number: Option<string>)
    | Str(text: string)
    | ByteString(bytes: Bytes)
    | Sequence(items: seq<Data>)
    | Mapping(fields: seq<Field>)
    | NewtypeVariant(name: string, payload: Data)
    | TupleVariant(name: string, items: seq<Data>)
    | StructVariant(name: string, fields: seq<Field>)

  datatype Field = Field(key: Option<string>, value: Data)

  datatype Value =
    | JNull
    | JBool(bit: bool)
    | JInt(value: int)
    | JFloat(text: string)
    | JString(text: string)
    | JArray(items: seq<Value>)
    | JObject(fields: map<string, Value>)

  const I64_MIN: int := -0x8000_0000_0000_0000
  const I64_END: int := 0x8000_0000_0000_0000
  const U64_END: int := 0x1_0000_0000_0000_0000

  // ----- The byte array test

  predicate IsByte(d: Data) {
    (d.Signed? && 0 <= d.value < 256) || (d.Unsigned? && d.size < 256)
  }

  function ByteOf(d: Data): Byte
    requires IsByte(d)
  {
    if d.Signed? then d.value else d.size
  }

  /** The bytes that the plain JSON form of the value reads back as, if it does. */
  function AsBytes(d: Data): Option<Bytes> {
    match d
    case ByteString(b) => Some(b)
    case Sequence(items) =>
      if forall i :: 0 <= i < |items| ==> IsByte(items[i])
      then Some(seq(|items|, i requires 0 <= i < |items| && IsByte(items[i]) => ByteOf(items[i])))
      else None
    case _ => None
  }

  // ----- Serialization

  function ToValue(d: Data): Option<Value>
    decreases d, 0
  {
    match d
    case Null => Some(JNull)
    case Boolean(b) => Some(JBool(b))
    case Signed(v) => if I64_MIN <= v < I64_END then Some(JInt(v)) else None
    case Unsigned(v) => if v < U64_END then Some(JInt(v)) else None
    case Float(f) => Some(if f.Some? then JFloat(f.value) else JNull)
    case Str(t) => Some(JString(t))
    case ByteString(b) => Some(JString(HexEncode(b)))
    case Sequence(items) =>
      var r := ToValues(items);
      if r.None? then None else Some(JArray(r.value))
    case Mapping(fields) =>
      var r := ToFields(fields, true);
      if r.None? then None else Some(JObject(r.value))
    case NewtypeVariant(name, payload) =>
      var r := ToValue(payload);
      if r.None? then None else Some(JObject(map[name := r.value]))
    case TupleVariant(name, items) =>
      var r := ToValues(items);
      if r.None? then None else Some(JObject(map[name := JArray(r.value)]))
    case StructVariant(name, fields) =>
      var r := ToFields(fields, false);
      if r.None? then None else Some(JObject(map[name := JObject(r.value)]))
  }

  function ToValues(items: seq<Data>): Option<seq<Value>>
    decreases items, 0
  {
    if items == [] then Some([])
    else
      var before, last := ToValues(items[..|items| - 1]), ToValue(items[|items| - 1]);
      if before.None? || last.None? then None else Some(before.value + [last.value])
  }

  /** The value of a map or struct field: hexadecimal text if it is a byte array. */
  function FieldValue(d: Data): Option<Value>
    decreases d, 1
  {
    if AsBytes(d).Some? then Some(JString(HexEncode(AsBytes(d).value))) else ToValue(d)
  }

  /** Inserts the fields in order; `test` is off for the fields of struct variants. */
  function ToFields(fields: seq<Field>, test: bool): Option<map<string, Value>>
    decreases fields, 0
  {
    if fields == [] then Some(map[])
    else
      var before, f := ToFields(fields[..|fields| - 1], test), fields[|fields| - 1];
      var v := Stored(f, test);
      if before.None? || f.key.None? || v.None? then None else Some(before.value[f.key.value := v.value])
  }

  /** What a field is stored as. */
  function Stored(f: Field, test: bool): Option<Value>
    decreases f, 0
  {
    if test then FieldValue(f.value) else ToValue(f.value)
  }

  // ----- Normal form

  predicate IsByteArray(v: Value) {
    v.JArray? && forall i :: 0 <= i < |v.items| ==> v.items[i].JInt? && 0 <= v.items[i].value < 256
  }

  /** No field of an object, at any depth, is a byte array. */
  predicate Normal(v: Value) {
    match v
    case JArray(items) => forall i :: 0 <= i < |items| ==> Normal(items[i])
    case JObject(fields) => forall k :: k in fields ==> !IsByteArray(fields[k]) && Normal(fields[k])
    case _ => true
  }

  lemma {:induction false} ToValuesEach(items: seq<Data>)
    requires ToValues(items).Some?
    ensures |ToValues(items).value| == |items|
    ensures forall i :: 0 <= i < |items| ==> ToValue(items[i]) == Some(ToValues(items).value[i])
  {
    if items != [] {
      ToValuesEach(items[..|items| - 1]);
    }
  }

  lemma ByteSurvives(d: Data)
    requires ToValue(d).Some?
    ensures IsByte(d) <==> ToValue(d).value.JInt? && 0 <= ToValue(d).value.value < 256
  {
  }

  /** Serializing neither creates nor destroys byte arrays, byte strings aside. */
  lemma ByteArraySurvives(d: Data)
    requires ToValue(d).Some? && !d.ByteString?
    ensures IsByteArray(ToValue(d).value) <==> AsBytes(d).Some?
  {
    if d.Sequence? {
      ToValuesEach(d.items);
      forall i | 0 <= i < |d.items|
        ensures IsByte(d.items[i]) <==> ToValue(d).value.items[i].JInt? && 0 <= ToValue(d).value.items[i].value < 256
      {
        ByteSurvives(d.items[i]);
      }
    }
  }

  lemma FieldIsNoByteArray(d: Data)
    requires FieldValue(d).Some?
    ensures !IsByteArray(FieldValue(d).value)
  {
    if AsBytes(d).None? {
      ByteArraySurvives(d);
    }
  }

  /** The text that stands for a byte array has all its bytes. */
  lemma FieldTextDecodes(d: Data)
    requires AsBytes(d).Some?
    ensures FieldValue(d).Some? && FieldValue(d).value.JString?
    ensures HexDecode(FieldValue(d).value.text) == AsBytes(d)
  {
    HexRoundTrip(AsBytes(d).value);
  }

  /** The item is written as a number that fits in a byte. */
  predicate IsByteNumber(d: Data) {
    ToValue(d).Some? && ToValue(d).value.JInt? && 0 <= ToValue(d).value.value <= 255
  }

  /**
  A byte string becomes the text of its bytes. A sequence becomes text exactly when every item is written
  as a number up to 255, and then its bytes are these numbers in order. All other fields stay what they are.
  */
  lemma FieldTextIs(d: Data)
    ensures d.ByteString? ==>
      FieldValue(d).Some? && FieldValue(d).value.JString? && HexDecode(FieldValue(d).value.text) == Some(d.bytes)
    ensures d.Sequence? ==>
      (FieldValue(d).Some? && FieldValue(d).value.JString? <==>
       forall i :: 0 <= i < |d.items| ==> IsByteNumber(d.items[i]))
    ensures d.Sequence? && FieldValue(d).Some? && FieldValue(d).value.JString? ==>
      var bytes := HexDecode(FieldValue(d).value.text);
      && bytes.Some? && |bytes.value| == |d.items|
      && forall i :: 0 <= i < |d.items| ==> ToValue(d.items[i]) == Some(JInt(bytes.value[i]))
    ensures !d.ByteString? && (FieldValue(d).None? || !FieldValue(d).value.JString?) ==> FieldValue(d) == ToValue(d)
    ensures !d.ByteString? && !d.Sequence? ==> FieldValue(d) == ToValue(d)
  {
    if AsBytes(d).Some? {
      FieldTextDecodes(d);
    }
    if d.Sequence? {
      assert forall i :: 0 <= i < |d.items| ==> (IsByte(d.items[i]) <==> IsByteNumber(d.items[i]));
    }
  }

  // ----- What can be written

  lemma {:induction false} ToValuesIff(items: seq<Data>)
    ensures ToValues(items).Some? <==> forall i :: 0 <= i < |items| ==> ToValue(items[i]).Some?
  {
    if items != [] {
      ToValuesIff(items[..|items| - 1]);
    }
  }

  lemma StoredIff(f: Field, test: bool)
    ensures Stored(f, test).Some? <==> ToValue(f.value).Some?
  {
    if f.value.Sequence? && AsBytes(f.value).Some? {
      ToValuesIff(f.value.items);
    }
  }

  lemma {:induction false} ToFieldsIff(fields: seq<Field>, test: bool)
    ensures ToFields(fields, test).Some? <==>
      forall i :: 0 <= i < |fields| ==> fields[i].key.Some? && ToValue(fields[i].value).Some?
  {
    if fields != [] {
      ToFieldsIff(fields[..|fields| - 1], test);
      StoredIff(fields[|fields| - 1], test);
    }
  }

  /** A number can be written exactly when it fits in 64 bits, a container when its keys are text and its parts can. */
  lemma WritableIff(d: Data)
    ensures ToValue(d).Some? <==>
      match d
      case Signed(v) => -0x8000_0000_0000_0000 <= v <= 0x7fff_ffff_ffff_ffff
      case Unsigned(v) => v <= 0xffff_ffff_ffff_ffff
      case Sequence(items) => forall i :: 0 <= i < |items| ==> ToValue(items[i]).Some?
      case TupleVariant(_, items) => forall i :: 0 <= i < |items| ==> ToValue(items[i]).Some?
      case Mapping(fields) =>
        forall i :: 0 <= i < |fields| ==> fields[i].key.Some? && ToValue(fields[i].value).Some?
      case StructVariant(_, fields) =>
        forall i :: 0 <= i < |fields| ==> fields[i].key.Some? && ToValue(fields[i].value).Some?
      case NewtypeVariant(_, payload) => ToValue(payload).Some?
      case _ => true
  {
    match d
    case Sequence(items) => ToValuesIff(items);
    case TupleVariant(_, items) => ToValuesIff(items);
    case Mapping(fields) => ToFieldsIff(fields, true);
    case StructVariant(_, fields) => ToFieldsIff(fields, false);
    case _ =>
  }

  /** A variant is an object with its name as the only key, and under it what the same payload is on its own. */
  lemma VariantHasName(d: Data)
    requires ToValue(d).Some? && (d.NewtypeVariant? || d.TupleVariant? || d.StructVariant?)
    ensures var v := ToValue(d).value;
      && v.JObject? && v.fields.Keys == {d.name}
      && (d.NewtypeVariant? ==> ToValue(d.payload) == Some(v.fields[d.name]))
      && (d.TupleVariant? ==> ToValue(Sequence(d.items)) == Some(v.fields[d.name]))
      && (d.StructVariant? ==>
            && v.fields[d.name].JObject? && ToFields(d.fields, false) == Some(v.fields[d.name].fields)
            && forall i :: 0 <= i < |d.fields| && Survives(d.fields, i) ==>
                 && d.fields[i].key.Some? && d.fields[i].key.value in v.fields[d.name].fields
                 && ToValue(d.fields[i].value) == Some(v.fields[d.name].fields[d.fields[i].key.value]))
  {
    if d.StructVariant? {
      forall i | 0 <= i < |d.fields| && Survives(d.fields, i)
        ensures d.fields[i].key.Some? && d.fields[i].key.value in ToFields(d.fields, false).value
        ensures ToValue(d.fields[i].value) == Some(ToFields(d.fields, false).value[d.fields[i].key.value])
      {
        FieldHasEntry(d.fields, false, i);
        assert Stored(d.fields[i], false) == ToValue(d.fields[i].value);
      }
    }
  }

  predicate DistinctKeys(fields: seq<Field>) {
    forall i, j :: 0 <= i < j < |fields| ==> fields[i].key != fields[j].key
  }

  /** No later field has the same key, so that it is this field's value that stays in the object. */
  predicate Survives(fields: seq<Field>, i: nat)
    requires i < |fields|
  {
    forall j :: i < j < |fields| ==> fields[j].key != fields[i].key
  }

  lemma {:induction false} FieldsHaveEntries(fields: seq<Field>, test: bool)
    requires ToFields(fields, test).Some?
    ensures forall i :: 0 <= i < |fields| ==> fields[i].key.Some? && fields[i].key.value in ToFields(fields, test).value
  {
    if fields != [] {
      FieldsHaveEntries(fields[..|fields| - 1], test);
    }
  }

  /** Every entry of the object is the value of the field that survives under its key. */
  lemma {:induction false} EntryHasField(fields: seq<Field>, test: bool, k: string) returns (i: nat)
    requires ToFields(fields, test).Some? && k in ToFields(fields, test).value
    ensures i < |fields| && fields[i].key == Some(k) && Survives(fields, i)
    ensures Stored(fields[i], test) == Some(ToFields(fields, test).value[k])
  {
    if fields[|fields| - 1].key == Some(k) {
      i := |fields| - 1;
    } else {
      i := EntryHasField(fields[..|fields| - 1], test, k);
    }
  }

  /** A field that survives has its own entry. */
  lemma FieldHasEntry(fields: seq<Field>, test: bool, i: nat)
    requires ToFields(fields, test).Some? && i < |fields| && Survives(fields, i)
    ensures fields[i].key.Some? && fields[i].key.value in ToFields(fields, test).value
    ensures Stored(fields[i], test) == Some(ToFields(fields, test).value[fields[i].key.value])
  {
    FieldsHaveEntries(fields, test);
    var j := EntryHasField(fields, test, fields[i].key.value);
    assert j == i;
  }

  /**
  The one gap: what a variant carries is not tested. `Clean` says that no variant, anywhere in the tree,
  carries a plain byte array as its payload, its tuple, or a field of its struct. A field that is
  overwritten by a later one with the same key does not count.
  */
  predicate Clean(d: Data) {
    match d
    case Sequence(items) => forall i :: 0 <= i < |items| ==> Clean(items[i])
    case Mapping(fields) => forall i :: 0 <= i < |fields| && Survives(fields, i) ==> Clean(fields[i].value)
    case NewtypeVariant(_, payload) => !PlainByteArray(payload) && Clean(payload)
    case TupleVariant(_, items) => !PlainByteArray(Sequence(items)) && forall i :: 0 <= i < |items| ==> Clean(items[i])
    case StructVariant(_, fields) =>
      forall i :: 0 <= i < |fields| && Survives(fields, i) ==>
        !PlainByteArray(fields[i].value) && Clean(fields[i].value)
    case _ => true
  }

  predicate PlainByteArray(d: Data) {
    d.Sequence? && AsBytes(d).Some?
  }

  lemma ByteFieldIsNormal(d: Data)
    requires AsBytes(d).Some?
    ensures Clean(d) && (FieldValue(d).Some? ==> Normal(FieldValue(d).value))
  {
  }

  lemma {:induction false} ItemsNormalIff(items: seq<Data>)
    requires ToValues(items).Some?
    ensures Normal(JArray(ToValues(items).value)) <==> Clean(Sequence(items))
    decreases items, 1
  {
    ToValuesEach(items);
    forall i | 0 <= i < |items| ensures Normal(ToValues(items).value[i]) <==> Clean(items[i]) {
      NormalIff(items[i]);
    }
  }

  lemma {:induction false} FieldNormalIff(d: Data)
    requires FieldValue(d).Some?
    ensures Normal(FieldValue(d).value) <==> Clean(d)
    decreases d, 1
  {
    if AsBytes(d).Some? {
      ByteFieldIsNormal(d);
    } else {
      NormalIff(d);
    }
  }

  lemma {:induction false} TestedNormalIff(f: Field)
    requires Stored(f, true).Some?
    ensures !IsByteArray(Stored(f, true).value) && (Normal(Stored(f, true).value) <==> Clean(f.value))
    decreases f, 1
  {
    FieldIsNoByteArray(f.value);
    FieldNormalIff(f.value);
  }

  lemma {:induction false} UntestedNormalIff(f: Field)
    requires Stored(f, false).Some?
    ensures IsByteArray(Stored(f, false).value) <==> PlainByteArray(f.value)
    ensures Normal(Stored(f, false).value) <==> Clean(f.value)
    decreases f, 1
  {
    PayloadIff(f.value);
    NormalIff(f.value);
  }

  lemma {:induction false} FieldsNormalIff(fields: seq<Field>)
    requires ToFields(fields, true).Some?
    ensures Normal(JObject(ToFields(fields, true).value)) <==> Clean(Mapping(fields))
    decreases fields, 1
  {
    var m := ToFields(fields, true).value;
    forall i | 0 <= i < |fields| && Survives(fields, i)
      ensures fields[i].key.Some? && fields[i].key.value in m
      ensures !IsByteArray(m[fields[i].key.value]) && (Normal(m[fields[i].key.value]) <==> Clean(fields[i].value))
    {
      FieldHasEntry(fields, true, i);
      TestedNormalIff(fields[i]);
    }
    forall k | k in m ensures exists i :: 0 <= i < |fields| && fields[i].key == Some(k) && Survives(fields, i) {
      var i := EntryHasField(fields, true, k);
    }
  }

  lemma {:induction false} VariantFieldsNormalIff(name: string, fields: seq<Field>)
    requires ToFields(fields, false).Some?
    ensures Normal(JObject(ToFields(fields, false).value)) <==> Clean(StructVariant(name, fields))
    decreases fields, 1
  {
    var m := ToFields(fields, false).value;
    forall i | 0 <= i < |fields| && Survives(fields, i)
      ensures fields[i].key.Some? && fields[i].key.value in m
      ensures IsByteArray(m[fields[i].key.value]) <==> PlainByteArray(fields[i].value)
      ensures Normal(m[fields[i].key.value]) <==> Clean(fields[i].value)
    {
      FieldHasEntry(fields, false, i);
      UntestedNormalIff(fields[i]);
    }
    forall k | k in m ensures exists i :: 0 <= i < |fields| && fields[i].key == Some(k) && Survives(fields, i) {
      var i := EntryHasField(fields, false, k);
    }
  }

  lemma PayloadIff(d: Data)
    requires ToValue(d).Some?
    ensures IsByteArray(ToValue(d).value) <==> PlainByteArray(d)
  {
    if !d.ByteString? {
      ByteArraySurvives(d);
    }
  }

  lemma SingletonNormal(name: string, inner: Value)
    ensures Normal(JObject(map[name := inner])) <==> !IsByteArray(inner) && Normal(inner)
  {
    var m := map[name := inner];
    assert name in m && m[name] == inner;
  }

  /** The result is in normal form exactly when no variant of the tree carries a plain byte array. */
  lemma {:induction false} NormalIff(d: Data)
    requires ToValue(d).Some?
    ensures Normal(ToValue(d).value) <==> Clean(d)
    decreases d, 0
  {
    match d
    case Sequence(items) => ItemsNormalIff(items);
    case Mapping(fields) => FieldsNormalIff(fields);
    case NewtypeVariant(name, payload) =>
      NormalIff(payload);
      PayloadIff(payload);
      SingletonNormal(name, ToValue(payload).value);
    case TupleVariant(name, items) =>
      ItemsNormalIff(items);
      PayloadIff(Sequence(items));
      SingletonNormal(name, JArray(ToValues(items).value));
    case StructVariant(name, fields) =>
      VariantFieldsNormalIff(name, fields);
      SingletonNormal(name, JObject(ToFields(fields, false).value));
    case _ =>
  }

  // ----- Serializing a second time

  /** `d` is what the JSON value `v` presents to a serializer; an object may list its fields in any order. */
  ghost predicate Reflects(d: Data, v: Value)
    decreases v
  {
    match v
    case JNull => d == Null
    case JBool(b) => d == Boolean(b)
    case JInt(x) => if x >= 0 then d == Unsigned(x) else d == Signed(x)
    case JFloat(t) => d == Float(Some(t))
    case JString(t) => d == Str(t)
    case JArray(vs) =>
      && d.Sequence? && |d.items| == |vs|
      && forall i :: 0 <= i < |vs| ==> Reflects(d.items[i], vs[i])
    case JObject(m) =>
      && d.Mapping? && DistinctKeys(d.fields)
      && (forall i :: 0 <= i < |d.fields| ==>
            && d.fields[i].key.Some? && d.fields[i].key.value in m
            && Reflects(d.fields[i].value, m[d.fields[i].key.value]))
      && (forall k :: k in m ==> HasKey(d.fields, k))
  }

  predicate HasKey(fields: seq<Field>, k: string) {
    exists i :: 0 <= i < |fields| && fields[i].key == Some(k)
  }

  /** Every integer of the value is one that JSON numbers hold here. */
  predicate InRange(v: Value) {
    match v
    case JInt(x) => I64_MIN <= x < U64_END
    case JArray(items) => forall i :: 0 <= i < |items| ==> InRange(items[i])
    case JObject(fields) => forall k :: k in fields ==> InRange(fields[k])
    case _ => true
  }

  lemma {:induction false} ToValuesOfEach(items: seq<Data>, vs: seq<Value>)
    requires |items| == |vs| && forall i :: 0 <= i < |items| ==> ToValue(items[i]).Some?
    ensures ToValues(items).Some?
    ensures ToValues(items) == Some(vs) <==> forall i :: 0 <= i < |items| ==> ToValue(items[i]) == Some(vs[i])
  {
    if items != [] {
      var n := |items| - 1;
      ToValuesOfEach(items[..n], vs[..n]);
      assert vs == vs[..n] + [vs[n]];
    } else {
      assert vs == [];
    }
  }

  lemma {:induction false} ToFieldsOfEach(fields: seq<Field>)
    requires forall i :: 0 <= i < |fields| ==> fields[i].key.Some? && Stored(fields[i], true).Some?
    ensures ToFields(fields, true).Some?
  {
    if fields != [] {
      ToFieldsOfEach(fields[..|fields| - 1]);
    }
  }

  lemma ReflectedBytes(d: Data, v: Value)
    requires Reflects(d, v)
    ensures AsBytes(d).Some? <==> IsByteArray(v)
  {
    if v.JArray? {
      forall i | 0 <= i < |v.items|
        ensures IsByte(d.items[i]) <==> v.items[i].JInt? && 0 <= v.items[i].value < 256
      {
        assert Reflects(d.items[i], v.items[i]);
      }
    }
  }

  /** A field keeps its value exactly when that value may be a field of a normal object. */
  ghost predicate FieldFixed(f: Field, v: Value) {
    Stored(f, true).Some? && (Stored(f, true) == Some(v) <==> !IsByteArray(v) && Normal(v))
  }

  lemma {:induction false} FieldFixedIff(f: Field, v: Value)
    requires Reflects(f.value, v) && InRange(v)
    ensures FieldFixed(f, v)
    decreases v, 1
  {
    ReflectedBytes(f.value, v);
    FixedPointIff(f.value, v);
  }

  lemma ObjectKeys(fields: seq<Field>, m: map<string, Value>)
    requires ToFields(fields, true).Some? && forall k :: k in m <==> HasKey(fields, k)
    ensures ToFields(fields, true).value.Keys == m.Keys
  {
    FieldsHaveEntries(fields, true);
    var m' := ToFields(fields, true).value;
    forall k ensures k in m' <==> k in m {
      if k in m {
        var i :| 0 <= i < |fields| && fields[i].key == Some(k);
      }
      if k in m' {
        var i := EntryHasField(fields, true, k);
        assert HasKey(fields, k);
      }
    }
  }

  lemma ObjectEntry(fields: seq<Field>, m: map<string, Value>, k: string)
    requires ToFields(fields, true).Some? && DistinctKeys(fields) && k in m && HasKey(fields, k)
    requires forall i :: 0 <= i < |fields| && fields[i].key == Some(k) ==> FieldFixed(fields[i], m[k])
    ensures k in ToFields(fields, true).value
    ensures ToFields(fields, true).value[k] == m[k] <==> !IsByteArray(m[k]) && Normal(m[k])
  {
    var i :| 0 <= i < |fields| && fields[i].key == Some(k);
    FieldHasEntry(fields, true, i);
    assert Stored(fields[i], true) == Some(ToFields(fields, true).value[fields[i].key.value]);
    assert FieldFixed(fields[i], m[k]);
  }

  lemma {:induction false} ObjectFixedIff(fields: seq<Field>, m: map<string, Value>)
    requires DistinctKeys(fields) && (forall k :: k in m <==> HasKey(fields, k))
    requires forall i :: 0 <= i < |fields| ==>
      fields[i].key.Some? && fields[i].key.value in m && FieldFixed(fields[i], m[fields[i].key.value])
    ensures ToFields(fields, true).Some?
    ensures ToFields(fields, true).value == m <==> Normal(JObject(m))
  {
    ToFieldsOfEach(fields);
    ObjectKeys(fields, m);
    var m' := ToFields(fields, true).value;
    forall k | k in m ensures m'[k] == m[k] <==> !IsByteArray(m[k]) && Normal(m[k]) {
      ObjectEntry(fields, m, k);
    }
    if Normal(JObject(m)) {
      assert m' == m;
    }
  }

  /** Serializing a JSON value again gives it back exactly when it is in normal form. */
  lemma {:induction false} FixedPointIff(d: Data, v: Value)
    requires Reflects(d, v) && InRange(v)
    ensures ToValue(d).Some? && (ToValue(d) == Some(v) <==> Normal(v))
    decreases v, 0
  {
    match v
    case JArray(vs) =>
      forall i | 0 <= i < |vs|
        ensures ToValue(d.items[i]).Some? && (ToValue(d.items[i]) == Some(vs[i]) <==> Normal(vs[i]))
      {
        FixedPointIff(d.items[i], vs[i]);
      }
      ToValuesOfEach(d.items, vs);
    case JObject(m) =>
      forall i | 0 <= i < |d.fields| ensures FieldFixed(d.fields[i], m[d.fields[i].key.value]) {
        FieldFixedIff(d.fields[i], m[d.fields[i].key.value]);
      }
      ObjectFixedIff(d.fields, m);
    case _ =>
  }

  lemma {:induction false} ResultInRange(d: Data)
    requires ToValue(d).Some?
    ensures InRange(ToValue(d).value)
    decreases d, 0
  {
    match d
    case Sequence(items) => ItemsInRange(items);
    case Mapping(fields) => FieldsInRange(fields, true);
    case NewtypeVariant(_, payload) => ResultInRange(payload);
    case TupleVariant(_, items) => ItemsInRange(items);
    case StructVariant(_, fields) => FieldsInRange(fields, false);
    case _ =>
  }

  lemma {:induction false} ItemsInRange(items: seq<Data>)
    requires ToValues(items).Some?
    ensures InRange(JArray(ToValues(items).value))
    decreases items, 1
  {
    ToValuesEach(items);
    forall i | 0 <= i < |items| ensures InRange(ToValues(items).value[i]) {
      ResultInRange(items[i]);
    }
  }

  lemma {:induction false} StoredInRange(f: Field, test: bool)
    requires Stored(f, test).Some?
    ensures InRange(Stored(f, test).value)
    decreases f, 1
  {
    if !test || AsBytes(f.value).None? {
      ResultInRange(f.value);
    }
  }

  lemma {:induction false} FieldsInRange(fields: seq<Field>, test: bool)
    requires ToFields(fields, test).Some?
    ensures InRange(JObject(ToFields(fields, test).value))
    decreases fields, 1
  {
    var m := ToFields(fields, test).value;
    forall k | k in m ensures InRange(m[k]) {
      var i := EntryHasField(fields, test, k);
      StoredInRange(fields[i], test);
    }
  }

  /** Serializing the result of a clean tree, read in any order, changes nothing. */
  lemma SerializeTwice(d: Data, again: Data)
    requires ToValue(d).Some? && Reflects(again, ToValue(d).value)
    ensures ToValue(again) == ToValue(d) <==> Clean(d)
  {
    NormalIff(d);
    ResultInRange(d);
    FixedPointIff(again, ToValue(d).value);
  }

  // ----- The builders

  class SerializeVec {
    var vec: seq<Value>

    constructor ()
      ensures vec == []
    {
      vec := [];
    }

    method SerializeElement(value: Data) returns (ok: bool)
      modifies this
      ensures ok <==> ToValue(value).Some?
      ensures vec == if ok then old(vec) + [ToValue(value).value] else old(vec)
      decreases value, 1
    {
      var v := Serialize(value);
      ok := v.Some?;
      if ok {
        vec := vec + [v.value];
      }
    }
  }

  class SerializeMap {
    var entries: map<string, Value>
    var nextKey: Option<string>

    constructor ()
      ensures entries == map[] && nextKey == None
    {
      entries, nextKey := map[], None;
    }

    method SerializeKey(key: Option<string>) returns (ok: bool)
      modifies this
      ensures entries == old(entries)
      ensures ok <==> key.Some?
      ensures nextKey == if ok then key else old(nextKey)
    {
      ok := key.Some?;
      if ok {
        nextKey := key;
      }
    }

    /** Must follow a key; the source panics otherwise. */
    method SerializeValue(value: Data) returns (ok: bool)
      requires nextKey.Some?
      modifies this
      ensures nextKey == None
      ensures ok <==> FieldValue(value).Some?
      ensures entries == if ok then old(entries)[old(nextKey).value := FieldValue(value).value] else old(entries)
      decreases value, 1
    {
      var key := nextKey.value;
      nextKey := None;
      var bytes := AsBytes(value);
      if bytes.Some? {
        entries := entries[key := JString(HexEncode(bytes.value))];
        return true;
      }
      var v := Serialize(value);
      ok := v.Some?;
      if ok {
        entries := entries[key := v.value];
      }
    }
  }

  lemma {:induction false} ToValuesPrefix(items: seq<Data>, n: nat)
    requires n <= |items| && ToValues(items[..n]).None?
    ensures ToValues(items).None?
    decreases |items| - n
  {
    if n < |items| {
      assert items[..n + 1][..n] == items[..n];
      ToValuesPrefix(items, n + 1);
    } else {
      assert items[..n] == items;
    }
  }

  lemma {:induction false} ToFieldsPrefix(fields: seq<Field>, test: bool, n: nat)
    requires n <= |fields| && ToFields(fields[..n], test).None?
    ensures ToFields(fields, test).None?
    decreases |fields| - n
  {
    if n < |fields| {
      assert fields[..n + 1][..n] == fields[..n];
      ToFieldsPrefix(fields, test, n + 1);
    } else {
      assert fields[..n] == fields;
    }
  }

  method SerializeItems(items: seq<Data>) returns (r: Option<seq<Value>>)
    ensures r == ToValues(items)
    decreases items, 0
  {
    var builder := new SerializeVec();
    for i := 0 to |items|
      invariant fresh(builder) && ToValues(items[..i]) == Some(builder.vec)
    {
      assert items[..i + 1][..i] == items[..i];
      var ok := builder.SerializeElement(items[i]);
      if !ok {
        ToValuesPrefix(items, i + 1);
        return None;
      }
    }
    assert items[..|items|] == items;
    return Some(builder.vec);
  }

  method SerializeEntries(fields: seq<Field>) returns (r: Option<map<string, Value>>)
    ensures r == ToFields(fields, true)
    decreases fields, 0
  {
    var builder := new SerializeMap();
    for i := 0 to |fields|
      invariant fresh(builder) && ToFields(fields[..i], true) == Some(builder.entries)
    {
      assert fields[..i + 1][..i] == fields[..i];
      var f := fields[i];
      var ok := builder.SerializeKey(f.key);
      if ok {
        ok := SerializeEntry(builder, f);
      }
      if !ok {
        ToFieldsPrefix(fields, true, i + 1);
        return None;
      }
    }
    assert fields[..|fields|] == fields;
    return Some(builder.entries);
  }

  method SerializeEntry(builder: SerializeMap, f: Field) returns (ok: bool)
    requires builder.nextKey.Some?
    modifies builder
    ensures ok <==> Stored(f, true).Some?
    ensures builder.entries ==
      if ok then old(builder.entries)[old(builder.nextKey).value := Stored(f, true).value] else old(builder.entries)
    decreases f, 0
  {
    ok := builder.SerializeValue(f.value);
  }

  /** Fields of a struct variant are inserted as they are. */
  method SerializeVariantFields(fields: seq<Field>) returns (r: Option<map<string, Value>>)
    ensures r == ToFields(fields, false)
    decreases fields, 0
  {
    var entries := map[];
    for i := 0 to |fields|
      invariant ToFields(fields[..i], false) == Some(entries)
    {
      assert fields[..i + 1][..i] == fields[..i];
      var v := SerializeField(fields[i]);
      if fields[i].key.None? || v.None? {
        ToFieldsPrefix(fields, false, i + 1);
        return None;
      }
      entries := entries[fields[i].key.value := v.value];
    }
    assert fields[..|fields|] == fields;
    return Some(entries);
  }

  method SerializeField(f: Field) returns (r: Option<Value>)
    ensures r == Stored(f, false)
    decreases f, 0
  {
    r := Serialize(f.value);
  }

  method Serialize(d: Data) returns (r: Option<Value>)
    ensures r == ToValue(d)
    decreases d, 0
  {
    match d
    case Sequence(items) =>
      var vs := SerializeItems(items);
      return if vs.None? then None else Some(JArray(vs.value));
    case Mapping(fields) =>
      var m := SerializeEntries(fields);
      return if m.None? then None else Some(JObject(m.value));
    case NewtypeVariant(name, payload) =>
      var v := Serialize(payload);
      return if v.None? then None else Some(JObject(map[name := v.value]));
    case TupleVariant(name, items) =>
      var vs := SerializeItems(items);
      return if vs.None? then None else Some(JObject(map[name := JArray(vs.value)]));
    case StructVariant(name, fields) =>
      var m := SerializeVariantFields(fields);
      return if m.None? then None else Some(JObject(map[name := JObject(m.value)]));
    case Null => return Some(JNull);
    case Boolean(b) => return Some(JBool(b));
    case Signed(v) => return if I64_MIN <= v < I64_END then Some(JInt(v)) else None;
    case Unsigned(v) => return if v < U64_END then Some(JInt(v)) else None;
    case Float(f) => return Some(if f.Some? then JFloat(f.value) else JNull);
    case Str(t) => return Some(JString(t));
    case ByteString(b) => return Some(JString(HexEncode(b)));
  }
}
