/**
 * The object keywords of JSON Schema (draft 2020-12) that the documented
 * message schemas use: `required`, `properties`, `additionalProperties` and
 * `allOf`. Only the keys of an instance are checked; the sub-schemas of the
 * individual properties and the targets of `$ref` are not evaluated, so a
 * failed check below refuses the instance under the full rules as well.
 */
module JsonSchema {
  import opened Wrappers
  import opened Json
  import opened OrderedMap

  /** The value of keyword `k` in a schema object. */
  function Keyword(schema: Json, k: string): Option<Json> {
    if schema.JObj? then Get(schema.fields, k) else None
  }

  /** The names declared under `properties`; none when the keyword is absent. */
  function Properties(schema: Json): seq<string> {
    var p := Keyword(schema, "properties");
    if p.Some? && p.value.JObj? then Keys(p.value.fields) else []
  }

  /** The names listed under `required`. */
  function Required(schema: Json): seq<string> {
    var r := Keyword(schema, "required");
    if r.Some? && StringsOf(r.value).Some? then StringsOf(r.value).value else []
  }

  /** `additionalProperties: false`. */
  predicate Closed(schema: Json) {
    Keyword(schema, "additionalProperties") == Some(JBool(false))
  }

  /** The parts listed under `allOf`. */
  function AllOf(schema: Json): seq<Json> {
    var a := Keyword(schema, "allOf");
    if a.Some? && a.value.JArr? then a.value.items else []
  }

  /**
   * The key checks of one schema object: an object instance, every
   * `required` name present, and under `additionalProperties: false` no key
   * outside this same object's `properties` (the `properties` of an `allOf`
   * sibling or parent do not count).
   */
  predicate LocalKeysValid(schema: Json, instance: Json) {
    && instance.JObj?
    && (forall k :: k in Required(schema) ==> k in Keys(instance.fields))
    && (Closed(schema) ==> forall k :: k in Keys(instance.fields) ==> k in Properties(schema))
  }

  /** The key checks of a schema and of each of its `allOf` parts. */
  predicate KeysValid(schema: Json, instance: Json) {
    && LocalKeysValid(schema, instance)
    && forall i :: 0 <= i < |AllOf(schema)| ==> LocalKeysValid(AllOf(schema)[i], instance)
  }

  /**
   * A closed schema object that declares no properties refuses every object
   * with at least one key, whatever its `allOf` parts say.
   */
  lemma ClosedWithoutPropertiesRefuses(schema: Json, instance: Json)
    requires Closed(schema) && Properties(schema) == []
    requires instance.JObj? && instance.fields != []
    ensures !KeysValid(schema, instance)
  {
    assert instance.fields[0].0 in Keys(instance.fields);
  }

  /** A closed `allOf` part refuses every instance holding a key it does not declare. */
  lemma ClosedPartRefuses(schema: Json, i: nat, instance: Json, k: string)
    requires i < |AllOf(schema)| && Closed(AllOf(schema)[i])
    requires instance.JObj? && k in Keys(instance.fields) && k !in Properties(AllOf(schema)[i])
    ensures !KeysValid(schema, instance)
  {
  }

  /**
   * A flat closed object schema: the given properties, all of them
   * required, and `additionalProperties: false`.
   */
  function ClosedObject(title: string, properties: seq<(string, Json)>, example: Json): Json {
    JObj([
      ("type", JStr("object")),
      ("title", JStr(title)),
      ("additionalProperties", JBool(false)),
      ("properties", JObj(properties)),
      ("required", Strings(Keys(properties))),
      ("example", example)])
  }

  /** An object passes the key checks of a flat closed schema exactly when it has the declared keys and no other. */
  lemma ClosedObjectKeys(title: string, properties: seq<(string, Json)>, example: Json, instance: Json)
    requires instance.JObj?
    ensures KeysValid(ClosedObject(title, properties, example), instance)
        <==> (forall k :: k in Keys(properties) ==> k in Keys(instance.fields))
             && (forall k :: k in Keys(instance.fields) ==> k in Keys(properties))
  {
    var s := ClosedObject(title, properties, example);
    assert Required(s) == Keys(properties) by {
      GetAt(s.fields, 4);
      StringsRoundTrip(Keys(properties));
    }
    assert Properties(s) == Keys(properties) by { GetAt(s.fields, 3); }
    assert Closed(s) by { GetAt(s.fields, 2); }
    assert AllOf(s) == [] by {
      assert Keys(s.fields) == ["type", "title", "additionalProperties", "properties", "required", "example"];
    }
  }
}
