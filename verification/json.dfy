/**
 * Jackson's generic JSON tree (JsonNode). An object node keeps its fields in
 * a linked hash map: a value per name, and the names in insertion order.
 * Numbers are integers.
 */
module Json {
  import opened Wrappers

  datatype Json =
    | JNull
    | JBool(b: bool)
    | JNum(n: int)
    | JStr(s: string)
    | JArray(items: seq<Json>)
    | JObject(fields: Fields)
    | JPojo(ref: nat)  // a POJONode wrapping an arbitrary Java object

  /** The fields of an object node: names in insertion order and the value of each. */
  datatype Fields = Fields(keys: seq<string>, values: map<string, Json>)

  /** Every listed name is mapped, every mapped name is listed, and none twice. */
  ghost predicate Valid(f: Fields)
  {
    (forall k :: k in f.values <==> k in f.keys) &&
    (forall i, j :: 0 <= i < j < |f.keys| ==> f.keys[i] != f.keys[j])
  }

  /** A freshly created ObjectNode. */
  const Empty: Fields := Fields([], map[])

  /** ObjectNode.get(key): the value of the field named `key`, if any. */
  function Get(f: Fields, key: string): (r: Option<Json>)
    ensures r.Some? <==> key in f.values
  {
    if key in f.values then Some(f.values[key]) else None
  }

  /**
   * ObjectNode.put(key, value): a field already present keeps its position
   * and takes the new value; otherwise the field is appended.
   */
  function Put(f: Fields, key: string, value: Json): (r: Fields)
    ensures Get(r, key) == Some(value)
    ensures forall other :: other != key ==> Get(r, other) == Get(f, other)
    ensures key in f.values ==> r.keys == f.keys
    ensures key !in f.values ==> r.keys == f.keys + [key]
  {
    Fields(if key in f.values then f.keys else f.keys + [key], f.values[key := value])
  }

  /** put keeps the names and the mapped fields in step, each name listed once. */
  lemma PutValid(f: Fields, key: string, value: Json)
    requires Valid(f)
    ensures Valid(Put(f, key, value))
  {
  }
}
