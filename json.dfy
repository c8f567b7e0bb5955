/**
 * JSON as serde_json handles it: the document tree, the field lookup that
 * derived `Deserialize` impls perform on objects, and the normalisation a
 * free-form `serde_json::Value` undergoes when it is read back.
 */
module Json {
  import opened Wrappers
  import opened OrderedMap

  /** A JSON document. Numbers are integers; objects keep their key order. */
  datatype Json =
    | JNull
    | JBool(b: bool)
    | JNum(n: int)
    | JStr(s: string)
    | JArr(items: seq<Json>)
    | JObj(fields: seq<(string, Json)>)

  /** Rust `u8`. */
  type Byte = x: int | 0 <= x < 0x100
  /** Rust `u16`. */
  type U16 = x: int | 0 <= x < 0x1_0000
  /** Rust `i64`. */
  type I64 = x: int | -0x8000_0000_0000_0000 <= x < 0x8000_0000_0000_0000

  /** What a derived `Deserialize` finds when it looks for a field. */
  datatype Lookup = Missing | Found(value: Json) | Duplicate

  /**
   * Look a field up under any of `names` (the field's name and its
   * `#[serde(alias)]`es). A field given twice is the "duplicate field" error.
   */
  function Field(fs: seq<(string, Json)>, names: set<string>): (l: Lookup)
    ensures l.Missing? <==> forall i :: 0 <= i < |fs| ==> fs[i].0 !in names
  {
    if fs == [] then Missing
    else
      var rest := Field(fs[1..], names);
      if fs[0].0 in names then (if rest.Missing? then Found(fs[0].1) else Duplicate)
      else rest
  }

  /** A field given exactly once is found with its value. */
  lemma {:induction false} FieldUnique(fs: seq<(string, Json)>, names: set<string>, i: nat)
    requires i < |fs| && fs[i].0 in names
    requires forall j :: 0 <= j < |fs| && j != i ==> fs[j].0 !in names
    ensures Field(fs, names) == Found(fs[i].1)
    decreases |fs|
  {
    if i > 0 {
      FieldUnique(fs[1..], names, i - 1);
    } else {
      assert forall j :: 0 <= j < |fs[1..]| ==> fs[1..][j] == fs[j + 1];
    }
  }

  /** A field given twice, under any of its names, is the "duplicate field" error. */
  lemma {:induction false} FieldTwice(fs: seq<(string, Json)>, names: set<string>, i: nat, j: nat)
    requires i < j < |fs| && fs[i].0 in names && fs[j].0 in names
    ensures Field(fs, names) == Duplicate
    decreases |fs|
  {
    if i > 0 {
      FieldTwice(fs[1..], names, i - 1, j - 1);
    } else {
      assert fs[1..][j - 1] == fs[j];
    }
  }

  /** `#[serde(deny_unknown_fields)]`: every key is one of the declared ones. */
  predicate OnlyKeys(fs: seq<(string, Json)>, allowed: set<string>) {
    forall i :: 0 <= i < |fs| ==> fs[i].0 in allowed
  }

  /** A `serde_json::Value`: every object in it has distinct keys. */
  predicate IsValue(j: Json) {
    match j
    case JArr(items) => forall i :: 0 <= i < |items| ==> IsValue(items[i])
    case JObj(fs) => NoDupKeys(fs) && forall i :: 0 <= i < |fs| ==> (assert fs[i] < j; IsValue(fs[i].1))
    case _ => true
  }

  /**
   * Reading a document into a `serde_json::Value`: object entries are
   * inserted one by one into an insertion-ordered map, so a repeated key
   * keeps its first position and takes its last value.
   */
  function ToValue(j: Json): Json {
    match j
    case JArr(items) => JArr(seq(|items|, i requires 0 <= i < |items| => ToValue(items[i])))
    case JObj(fs) =>
      JObj(Extend([], seq(|fs|, i requires 0 <= i < |fs| => (fs[i].0, (assert fs[i] < j; ToValue(fs[i].1))))))
    case _ => j
  }

  /** A `Value` that is written out and read back is unchanged. */
  lemma {:induction false} ToValueOfValue(j: Json)
    requires IsValue(j)
    ensures ToValue(j) == j
  {
    match j
    case JArr(items) =>
      forall i | 0 <= i < |items| ensures ToValue(items[i]) == items[i] {
        ToValueOfValue(items[i]);
      }
      assert seq(|items|, i requires 0 <= i < |items| => ToValue(items[i])) == items;
    case JObj(fs) =>
      var mapped := seq(|fs|, i requires 0 <= i < |fs| => (fs[i].0, (assert fs[i] < j; ToValue(fs[i].1))));
      forall i | 0 <= i < |fs| ensures mapped[i] == fs[i] {
        assert fs[i] < j;
        ToValueOfValue(fs[i].1);
      }
      assert mapped == fs;
      ExtendDisjoint([], fs);
    case _ =>
  }

  /** The object written for a struct: its fields in declaration order. */
  function OptionalField(name: string, v: Option<Json>): seq<(string, Json)> {
    if v.Some? then [(name, v.value)] else []
  }

  /** An `Option` field without `skip_serializing_if`: `None` is written as `null`. */
  function OrNull(v: Option<Json>): Json {
    if v.Some? then v.value else JNull
  }

  /**
   * `v` names the unit variant `name` of an externally tagged enum: serde
   * reads a unit variant from its bare name or from a map holding that one
   * name with a `null` value.
   */
  predicate NamesVariant(v: Json, name: string) {
    v == JStr(name) || v == JObj([(name, JNull)])
  }

  /** Decoding a required `String` field. */
  function StringField(l: Lookup): (r: Option<string>)
    ensures r.Some? <==> l.Found? && l.value.JStr?
  {
    if l.Found? && l.value.JStr? then Some(l.value.s) else None
  }

  /**
   * Decoding an `Option<String>` field: absent or `null` is `None`; the
   * outer `None` is a decoding error.
   */
  function OptStringField(l: Lookup): (r: Option<Option<string>>)
    ensures l.Missing? ==> r == Some(None)
  {
    match l
    case Missing => Some(None)
    case Duplicate => None
    case Found(JNull) => Some(None)
    case Found(JStr(s)) => Some(Some(s))
    case Found(_) => None
  }

  /** Decoding an `Option<bool>` field. */
  function OptBoolField(l: Lookup): (r: Option<Option<bool>>)
    ensures l.Missing? ==> r == Some(None)
  {
    match l
    case Missing => Some(None)
    case Duplicate => None
    case Found(JNull) => Some(None)
    case Found(JBool(b)) => Some(Some(b))
    case Found(_) => None
  }

  /** Decoding an `Option<Value>` field: `null` reads back as `None`. */
  function OptValueField(l: Lookup): (r: Option<Option<Json>>)
    ensures l.Missing? ==> r == Some(None)
    ensures l.Duplicate? <==> r.None?
  {
    match l
    case Missing => Some(None)
    case Duplicate => None
    case Found(JNull) => Some(None)
    case Found(v) => Some(Some(ToValue(v)))
  }

  /** Decoding a `u16` field. */
  function U16Field(l: Lookup): (r: Option<U16>)
    ensures r.Some? <==> l.Found? && l.value.JNum? && 0 <= l.value.n < 0x1_0000
  {
    if l.Found? && l.value.JNum? && 0 <= l.value.n < 0x1_0000 then Some(l.value.n as U16) else None
  }

  /** The wire form of a `String` collection (`Vec` or `IndexSet`). */
  function Strings(ss: seq<string>): (j: Json)
    ensures j.JArr? && |j.items| == |ss|
    ensures forall i :: 0 <= i < |ss| ==> j.items[i] == JStr(ss[i])
  {
    JArr(seq(|ss|, i requires 0 <= i < |ss| => JStr(ss[i])))
  }

  /** Reading a JSON array of strings; anything else is an error. */
  function StringsOf(j: Json): (r: Option<seq<string>>)
    ensures r.Some? ==> j.JArr? && |r.value| == |j.items|
  {
    if j.JArr? && forall i :: 0 <= i < |j.items| ==> j.items[i].JStr? then
      Some(seq(|j.items|, i requires 0 <= i < |j.items| => j.items[i].s))
    else None
  }

  lemma StringsRoundTrip(ss: seq<string>)
    ensures StringsOf(Strings(ss)) == Some(ss)
  {
    var j := Strings(ss);
    assert seq(|j.items|, i requires 0 <= i < |j.items| => j.items[i].s) == ss;
  }

  /** Reading an `IndexSet<String>`: repeated strings are kept once, at their first position. */
  function StringSetOf(j: Json): (r: Option<seq<string>>)
    ensures r.Some? ==> Distinct(r.value)
  {
    var ss := StringsOf(j);
    if ss.Some? then Some(Collect(ss.value)) else None
  }

  /** An `IndexSet<String>` written out and read back is unchanged. */
  lemma StringSetRoundTrip(ss: seq<string>)
    requires Distinct(ss)
    ensures StringSetOf(Strings(ss)) == Some(ss)
  {
    StringsRoundTrip(ss);
    CollectDistinct(ss);
  }

  /** Reading an `IndexMap<String, Value>` (a metadata map). */
  function MapOf(j: Json): (r: Option<seq<(string, Json)>>)
    ensures r.Some? ==> j.JObj? && NoDupKeys(r.value)
  {
    if j.JObj? then
      var v := ToValue(j);
      ExtendNoDupKeys([], seq(|j.fields|, i requires 0 <= i < |j.fields| => (j.fields[i].0, (assert j.fields[i] < j; ToValue(j.fields[i].1)))));
      Some(v.fields)
    else None
  }

  /** `ToValue` always yields a proper `Value`. */
  lemma {:induction false} ToValueIsValue(j: Json)
    ensures IsValue(ToValue(j))
  {
    match j
    case JArr(items) =>
      var r := ToValue(j).items;
      forall i | 0 <= i < |r| ensures IsValue(r[i]) { ToValueIsValue(items[i]); }
    case JObj(fs) =>
      var mapped := seq(|fs|, i requires 0 <= i < |fs| => (fs[i].0, (assert fs[i] < j; ToValue(fs[i].1))));
      forall i | 0 <= i < |fs| ensures IsValue(mapped[i].1) { assert fs[i] < j; ToValueIsValue(fs[i].1); }
      ExtendNoDupKeys([], mapped);
      var e := Extend([], mapped);
      forall i | 0 <= i < |e| ensures IsValue(e[i].1) {
        ExtendValuesFrom([], mapped, i);
      }
    case _ =>
  }

  /** `j` is an object holding every one of `keys` (what a schema's `required` demands). */
  predicate HasKeys(j: Json, keys: seq<string>) {
    j.JObj? && forall k :: k in keys ==> k in Keys(j.fields)
  }

  /** Decoding an `Option<IndexMap<String, Value>>` field: absent or `null` is `None`. */
  function OptMapField(l: Lookup): (r: Option<Option<seq<(string, Json)>>>)
    ensures l.Missing? ==> r == Some(None)
    ensures r.Some? && r.value.Some? ==> NoDupKeys(r.value.value)
  {
    match l
    case Missing => Some(None)
    case Duplicate => None
    case Found(JNull) => Some(None)
    case Found(v) =>
      match MapOf(v)
      case Some(fs) => Some(Some(fs))
      case None => None
  }

  /** A metadata map: distinct keys, and proper values. */
  predicate IsMap(m: seq<(string, Json)>) {
    IsValue(JObj(m))
  }

  /** A metadata map written as an object is read back unchanged. */
  lemma MapRoundTrip(m: seq<(string, Json)>)
    requires IsMap(m)
    ensures OptMapField(Found(JObj(m))) == Some(Some(m))
  {
    ToValueOfValue(JObj(m));
  }
}
