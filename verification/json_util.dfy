/**
 * JsonServiceUtil: the JSON-RPC error object of section 5.1 of the JSON-RPC 2.0
 * specification (getJsonServiceErrorNode) and the conversion of Java lists
 * and maps into JSON array and object nodes (toJson(List), toJson(Map)).
 */
module JsonUtil {
  import opened Wrappers
  import opened Json

  /** The boxed number classes toJson tests for, in its order, and every other Number. */
  datatype NumberKind = IntegerBox | DoubleBox | BigDecimalBox | FloatBox | LongBox | ShortBox | ByteBox | OtherNumber

  predicate Recognised(kind: NumberKind)
  {
    kind != OtherNumber
  }

  /** A Java object handed to toJson; a number's value is kept as an integer. */
  datatype Value =
    | Null
    | Number(kind: NumberKind, n: int)
    | Boolean(b: bool)
    | Str(s: string)
    | List(items: seq<Value>)
    | Map(entries: seq<(Value, Value)>)  // in key-set order
    | Other(ref: nat)

  /** A number of a class toJson does not know: the element is skipped. */
  predicate Skipped(v: Value)
  {
    v.Number? && !Recognised(v.kind)
  }

  /** The ClassCastException of `(String) key` on a key that is not a String. */
  datatype CastError = ClassCast

  /**
   * The node toJson adds for one element, `None` when the element is
   * skipped. Null and other objects become POJO nodes (null serialises as null).
   */
  function ElementNode(v: Value): (r: Result<Option<Json>, CastError>)
    ensures r.Success? && r.value == None <==> Skipped(v)
    decreases v
  {
    match v
    case Null => Success(Some(JNull))
    case Number(kind, n) => Success(if Recognised(kind) then Some(JNum(n)) else None)
    case Boolean(b) => Success(Some(JBool(b)))
    case Str(s) => Success(Some(JStr(s)))
    case List(items) =>
      (match ListUpTo(items, |items|)
       case Failure(e) => Failure(e)
       case Success(nodes) => Success(Some(JArray(nodes))))
    case Map(entries) =>
      (match MapUpTo(entries, |entries|)
       case Failure(e) => Failure(e)
       case Success(fields) => Success(Some(JObject(fields))))
    case Other(ref) => Success(Some(JPojo(ref)))
  }

  /** One step of toJson(List): the array after adding an element's node. */
  function AddNode(nodes: seq<Json>, element: Result<Option<Json>, CastError>): Result<seq<Json>, CastError>
  {
    match element
    case Failure(e) => Failure(e)
    case Success(None) => Success(nodes)
    case Success(Some(node)) => Success(nodes + [node])
  }

  /** The array toJson(List) has built after the first `n` elements. */
  function ListUpTo(items: seq<Value>, n: nat): Result<seq<Json>, CastError>
    requires n <= |items|
    decreases items, n
  {
    if n == 0 then Success([])
    else
      match ListUpTo(items, n - 1)
      case Failure(e) => Failure(e)
      case Success(nodes) => AddNode(nodes, ElementNode(items[n - 1]))
  }

  /**
   * One step of toJson(Map): the key is cast to String first, then the
   * value's node, if any, is put under it.
   */
  function AddField(fields: Fields, key: Value, element: Result<Option<Json>, CastError>): Result<Fields, CastError>
  {
    if !key.Str? then Failure(ClassCast)
    else
      match element
      case Failure(e) => Failure(e)
      case Success(None) => Success(fields)
      case Success(Some(node)) => Success(Put(fields, key.s, node))
  }

  /** The object toJson(Map) has built after the first `n` entries. */
  function MapUpTo(entries: seq<(Value, Value)>, n: nat): Result<Fields, CastError>
    requires n <= |entries|
    decreases entries, n
  {
    if n == 0 then Success(Empty)
    else
      match MapUpTo(entries, n - 1)
      case Failure(e) => Failure(e)
      case Success(fields) =>
        var entry := entries[n - 1];
        assert entry.1 < entry;
        AddField(fields, entry.0, ElementNode(entry.1))
  }

  /** toJson(List) */
  function ListNode(items: seq<Value>): Result<Json, CastError>
  {
    match ListUpTo(items, |items|)
    case Failure(e) => Failure(e)
    case Success(nodes) => Success(JArray(nodes))
  }

  /** toJson(Map) */
  function MapNode(entries: seq<(Value, Value)>): Result<Json, CastError>
  {
    match MapUpTo(entries, |entries|)
    case Failure(e) => Failure(e)
    case Success(fields) => Success(JObject(fields))
  }

  /** Once an element fails, the whole list fails with that error. */
  lemma {:induction false} ListFailureSticky(items: seq<Value>, i: nat, n: nat)
    requires i <= n <= |items| && ListUpTo(items, i).Failure?
    ensures ListUpTo(items, n) == ListUpTo(items, i)
    decreases n
  {
    if n > i {
      ListFailureSticky(items, i, n - 1);
    }
  }

  lemma {:induction false} MapFailureSticky(entries: seq<(Value, Value)>, i: nat, n: nat)
    requires i <= n <= |entries| && MapUpTo(entries, i).Failure?
    ensures MapUpTo(entries, n) == MapUpTo(entries, i)
    decreases n
  {
    if n > i {
      MapFailureSticky(entries, i, n - 1);
      var prior := MapUpTo(entries, n - 1);
      assert prior.Failure?;
      assert MapUpTo(entries, n) == Failure(prior.error);
    }
  }

  /**
   * The branch chain both toJson loops run on one element: the node to add,
   * or `None` for a number of an unknown class.
   */
  method ElementToJson(obj: Value) returns (r: Result<Option<Json>, CastError>)
    ensures r == ElementNode(obj)
    decreases obj, 1
  {
    match obj {
      case Number(kind, n) =>
        r := Success(if Recognised(kind) then Some(JNum(n)) else None);
      case Boolean(b) =>
        r := Success(Some(JBool(b)));
      case Str(s) =>
        r := Success(Some(JStr(s)));
      case List(items) =>
        var sub := ListToJson(items);
        r := if sub.Failure? then Failure(sub.error) else Success(Some(sub.value));
      case Map(entries) =>
        var sub := MapToJson(entries);
        r := if sub.Failure? then Failure(sub.error) else Success(Some(sub.value));
      case Null =>
        r := Success(Some(JNull));
      case Other(ref) =>
        r := Success(Some(JPojo(ref)));
    }
  }

  /** toJson(List): a loop adding one node per element. */
  method ListToJson(list: seq<Value>) returns (r: Result<Json, CastError>)
    ensures r == ListNode(list)
    decreases list, 0
  {
    var node: seq<Json> := [];
    var i := 0;
    while i < |list|
      invariant 0 <= i <= |list|
      invariant ListUpTo(list, i) == Success(node)
    {
      var added := ElementToJson(list[i]);
      match added {
        case Failure(e) =>
          ListFailureSticky(list, i + 1, |list|);
          return Failure(e);
        case Success(None) =>
        case Success(Some(value)) =>
          node := node + [value];
      }
      i := i + 1;
    }
    r := Success(JArray(node));
  }

  /** toJson(Map): a loop over the key set putting one field per String key. */
  method MapToJson(map_: seq<(Value, Value)>) returns (r: Result<Json, CastError>)
    ensures r == MapNode(map_)
    decreases map_, 0
  {
    var node: Fields := Empty;
    var i := 0;
    while i < |map_|
      invariant 0 <= i <= |map_|
      invariant MapUpTo(map_, i) == Success(node)
    {
      var entry := map_[i];
      if !entry.0.Str? {
        MapFailureSticky(map_, i + 1, |map_|);
        return Failure(ClassCast);
      }
      var name := entry.0.s;
      assert entry.1 < entry;
      var added := ElementToJson(entry.1);
      assert MapUpTo(map_, i + 1) == AddField(node, entry.0, added);
      match added {
        case Failure(e) =>
          MapFailureSticky(map_, i + 1, |map_|);
          return Failure(e);
        case Success(None) =>
        case Success(Some(value)) =>
          node := Put(node, name, value);
      }
      i := i + 1;
    }
    r := Success(JObject(node));
  }

  /** No element of the list is a number of an unknown class. */
  predicate NoneSkipped(items: seq<Value>)
  {
    forall j :: 0 <= j < |items| ==> !Skipped(items[j])
  }

  /**
   * The list conversion succeeds exactly when every element converts; then
   * the array holds the converted elements in list order, skipped ones left
   * out, so it is as long as the list exactly when nothing is skipped.
   */
  lemma {:induction false} ListUpToShape(items: seq<Value>, n: nat)
    requires n <= |items|
    ensures ListUpTo(items, n).Success? <==> forall j :: 0 <= j < n ==> ElementNode(items[j]).Success?
    ensures ListUpTo(items, n).Success? ==> |ListUpTo(items, n).value| <= n
    ensures ListUpTo(items, n).Success? ==> (|ListUpTo(items, n).value| == n <==> NoneSkipped(items[..n]))
    ensures ListUpTo(items, n).Success? && NoneSkipped(items[..n]) ==>
      forall j :: 0 <= j < n ==> ElementNode(items[j]) == Success(Some(ListUpTo(items, n).value[j]))
    decreases n
  {
    if n > 0 {
      ListUpToShape(items, n - 1);
      assert items[..n] == items[..n - 1] + [items[n - 1]];
      if ListUpTo(items, n - 1).Failure? {
        ListFailureSticky(items, n - 1, n);
      } else if ListUpTo(items, n).Success? && !NoneSkipped(items[..n - 1]) {
        assert !NoneSkipped(items[..n]) by {
          var j :| 0 <= j < n - 1 && Skipped(items[..n - 1][j]);
          assert items[..n][j] == items[..n - 1][j];
        }
      }
    }
  }

  /** The elements of `items` that toJson does not skip, in list order. */
  function Kept(items: seq<Value>): (r: seq<Value>)
    ensures |r| <= |items|
  {
    if items == [] then []
    else
      var last := items[|items| - 1];
      Kept(items[..|items| - 1]) + (if Skipped(last) then [] else [last])
  }

  /**
   * In every case the array holds, in list order, one node per element
   * that is not skipped: the node of that element.
   */
  lemma {:induction false} ListKeepsOrder(items: seq<Value>, n: nat)
    requires n <= |items| && ListUpTo(items, n).Success?
    ensures |ListUpTo(items, n).value| == |Kept(items[..n])|
    ensures forall j :: 0 <= j < |Kept(items[..n])| ==>
      ElementNode(Kept(items[..n])[j]) == Success(Some(ListUpTo(items, n).value[j]))
    decreases n
  {
    if n > 0 {
      assert ListUpTo(items, n - 1).Success?;
      ListKeepsOrder(items, n - 1);
      assert items[..n][..n - 1] == items[..n - 1];
      assert items[..n][n - 1] == items[n - 1];
    }
  }

  /** toJson(List) keeps every element of a list whose numbers are all of known classes. */
  lemma ListKeepsEverything(items: seq<Value>)
    requires NoneSkipped(items) && ListNode(items).Success?
    ensures ListNode(items).value.JArray?
    ensures |ListNode(items).value.items| == |items|
    ensures forall j :: 0 <= j < |items| ==> ElementNode(items[j]) == Success(Some(ListNode(items).value.items[j]))
  {
    ListUpToShape(items, |items|);
    assert items[..|items|] == items;
  }

  /** A number of an unknown class makes the array shorter than the list. */
  lemma ListDropsUnknownNumbers(items: seq<Value>, j: nat)
    requires j < |items| && Skipped(items[j]) && ListNode(items).Success?
    ensures |ListNode(items).value.items| < |items|
  {
    ListUpToShape(items, |items|);
    assert items[..|items|] == items;
  }

  /** Strings and booleans are copied verbatim. */
  lemma ScalarsCopied(s: string, b: bool)
    ensures ListNode([Str(s), Boolean(b)]) == Success(JArray([JStr(s), JBool(b)]))
  {
    var items := [Str(s), Boolean(b)];
    assert ListUpTo(items, 0) == Success([]);
    assert ElementNode(items[0]) == Success(Some(JStr(s)));
    assert [] + [JStr(s)] == [JStr(s)];
    assert ListUpTo(items, 1) == Success([JStr(s)]);
    assert ElementNode(items[1]) == Success(Some(JBool(b)));
    assert [JStr(s)] + [JBool(b)] == [JStr(s), JBool(b)];
  }

  /** A nested list becomes a nested array. */
  lemma NestedListNested(inner: seq<Value>)
    requires ListNode(inner).Success?
    ensures ListNode([List(inner)]) == Success(JArray([ListNode(inner).value]))
  {
    var items := [List(inner)];
    assert ListUpTo(items, 0) == Success([]);
    assert ElementNode(items[0]) == Success(Some(ListNode(inner).value));
    assert [] + [ListNode(inner).value] == [ListNode(inner).value];
  }

  /** The keys of the first `n` map entries are pairwise distinct, as a map's keys are. */
  predicate DistinctKeys(entries: seq<(Value, Value)>, n: nat)
    requires n <= |entries|
  {
    forall j, k :: 0 <= j < k < n ==> entries[j].0 != entries[k].0
  }

  /** The String keys among the first `n` entries whose value is not skipped, in key-set order. */
  function KeptNames(entries: seq<(Value, Value)>, n: nat): seq<string>
    requires n <= |entries|
  {
    if n == 0 then []
    else
      var entry := entries[n - 1];
      KeptNames(entries, n - 1) + if entry.0.Str? && !Skipped(entry.1) then [entry.0.s] else []
  }

  /** A name no entry has as its key is not among the kept names. */
  lemma {:induction false} KeptNamesFromKeys(entries: seq<(Value, Value)>, n: nat, name: string)
    requires n <= |entries|
    requires forall j :: 0 <= j < n ==> entries[j].0 != Str(name)
    ensures name !in KeptNames(entries, n)
    decreases n
  {
    if n > 0 {
      KeptNamesFromKeys(entries, n - 1, name);
      assert entries[n - 1].0 != Str(name);
    }
  }

  /** One successful step of the map conversion: a String key and the field put under it. */
  lemma MapStep(entries: seq<(Value, Value)>, n: nat)
    requires 0 < n <= |entries| && MapUpTo(entries, n).Success?
    ensures MapUpTo(entries, n - 1).Success?
    ensures entries[n - 1].0.Str? && ElementNode(entries[n - 1].1).Success?
    ensures MapUpTo(entries, n).value ==
      match ElementNode(entries[n - 1].1).value
      case None => MapUpTo(entries, n - 1).value
      case Some(node) => Put(MapUpTo(entries, n - 1).value, entries[n - 1].0.s, node)
  {
    var entry := entries[n - 1];
    assert MapUpTo(entries, n) == AddField(MapUpTo(entries, n - 1).value, entry.0, ElementNode(entry.1));
  }

  /** Every key seen by a successful map conversion is a String. */
  lemma {:induction false} MapStringKeys(entries: seq<(Value, Value)>, n: nat)
    requires n <= |entries| && MapUpTo(entries, n).Success?
    ensures forall j :: 0 <= j < n ==> entries[j].0.Str?
    decreases n
  {
    if n > 0 {
      MapStep(entries, n);
      MapStringKeys(entries, n - 1);
    }
  }

  /** toJson(Map) on a map with a key that is not a String fails with ClassCast. */
  lemma NonStringKeyFails(entries: seq<(Value, Value)>, j: nat)
    requires j < |entries| && !entries[j].0.Str?
    ensures MapNode(entries).Failure?
  {
    if MapNode(entries).Success? {
      MapStringKeys(entries, |entries|);
    }
  }

  /**
   * The object's field names are the map's String keys in key-set order,
   * those whose value is skipped left out, each listed once.
   */
  lemma {:induction false} MapKeysInOrder(entries: seq<(Value, Value)>, n: nat)
    requires n <= |entries| && DistinctKeys(entries, n) && MapUpTo(entries, n).Success?
    ensures Valid(MapUpTo(entries, n).value)
    ensures MapUpTo(entries, n).value.keys == KeptNames(entries, n)
    decreases n
  {
    if n > 0 {
      MapStep(entries, n);
      var prior := MapUpTo(entries, n - 1).value;
      MapKeysInOrder(entries, n - 1);
      var entry := entries[n - 1];
      var name := entry.0.s;
      var element := ElementNode(entry.1).value;
      if element.Some? {
        forall j | 0 <= j < n - 1
          ensures entries[j].0 != Str(name)
        {
          assert entries[j].0 != entry.0;
        }
        KeptNamesFromKeys(entries, n - 1, name);
        PutValid(prior, name, element.value);
        assert Put(prior, name, element.value).keys == prior.keys + [name];
      }
    }
  }

  /** Each String key of a converted map maps to its value's node; a key whose value is skipped is absent. */
  lemma {:induction false} MapValues(entries: seq<(Value, Value)>, n: nat)
    requires n <= |entries| && DistinctKeys(entries, n) && MapUpTo(entries, n).Success?
    ensures forall j :: 0 <= j < n ==> entries[j].0.Str? && ElementNode(entries[j].1).Success?
    ensures forall j :: 0 <= j < n ==> Get(MapUpTo(entries, n).value, entries[j].0.s) == ElementNode(entries[j].1).value
    decreases n
  {
    if n > 0 {
      MapStep(entries, n);
      var prior := MapUpTo(entries, n - 1).value;
      var fields := MapUpTo(entries, n).value;
      MapValues(entries, n - 1);
      MapKeysInOrder(entries, n - 1);
      var entry := entries[n - 1];
      var name := entry.0.s;
      forall j | 0 <= j < n - 1
        ensures entries[j].0 != Str(name)
      {
        assert entries[j].0 != entry.0;
      }
      KeptNamesFromKeys(entries, n - 1, name);
      assert name !in prior.values;
      forall j | 0 <= j < n
        ensures Get(fields, entries[j].0.s) == ElementNode(entries[j].1).value
      {
        if j < n - 1 {
          assert entries[j].0.s != name;
          assert Get(fields, entries[j].0.s) == Get(prior, entries[j].0.s);
        }
      }
    }
  }

  /** Two String keys with known values become two fields, in key-set order. */
  lemma TwoEntries(a: string, b: string, s: string, x: bool)
    requires a != b
    ensures MapNode([(Str(a), Str(s)), (Str(b), Boolean(x))]) ==
      Success(JObject(Fields([a, b], map[a := JStr(s), b := JBool(x)])))
  {
    var entries := [(Str(a), Str(s)), (Str(b), Boolean(x))];
    assert MapUpTo(entries, 0) == Success(Empty);
    assert ElementNode(entries[0].1) == Success(Some(JStr(s)));
    assert [] + [a] == [a];
    assert MapUpTo(entries, 1) == Success(Fields([a], map[a := JStr(s)]));
    assert ElementNode(entries[1].1) == Success(Some(JBool(x)));
    assert [a] + [b] == [a, b];
    assert MapUpTo(entries, 2) == Success(Fields([a, b], map[a := JStr(s)][b := JBool(x)]));
  }

  /** The error member of a JsonServiceError: its code, message and optional data. */
  datatype ErrorRecord = ErrorRecord(code: int, message: Option<string>, data: Option<string>)

  /** A String that may be null, as Jackson stores it. */
  function TextNode(s: Option<string>): Json
  {
    match s
    case None => JNull
    case Some(t) => JStr(t)
  }

  /**
   * The error object: code and message, then data only when it is not null.
   * Java adds data after the object is embedded in the response; the two
   * share one reference, so the response sees it.
   */
  function ErrorFields(e: ErrorRecord): (fields: Fields)
    ensures fields.keys == if e.data.Some? then ["code", "message", "data"] else ["code", "message"]
    ensures Get(fields, "code") == Some(JNum(e.code))
    ensures Get(fields, "message") == Some(TextNode(e.message))
    ensures Get(fields, "data") == if e.data.Some? then Some(JStr(e.data.value)) else None
  {
    var c1 := Put(Empty, "code", JNum(e.code));
    assert c1 == Fields(["code"], map["code" := JNum(e.code)]);
    assert "message" != "code";
    var code := Put(c1, "message", TextNode(e.message));
    assert code == Fields(["code", "message"], c1.values["message" := TextNode(e.message)]);
    assert "data" != "code" by { assert "data"[0] != "code"[0]; }
    assert "data" != "message";
    if e.data.Some? then
      var c3 := Put(code, "data", JStr(e.data.value));
      assert c3 == Fields(["code", "message", "data"], code.values["data" := JStr(e.data.value)]);
      c3
    else code
  }

  /** The error member holds no field besides code, message and data, each once. */
  lemma ErrorFieldsValid(e: ErrorRecord)
    ensures Valid(ErrorFields(e))
    ensures forall name :: name in ErrorFields(e).values ==> name == "code" || name == "message" || name == "data"
  {
    var c1 := Put(Empty, "code", JNum(e.code));
    PutValid(Empty, "code", JNum(e.code));
    var code := Put(c1, "message", TextNode(e.message));
    PutValid(c1, "message", TextNode(e.message));
    if e.data.Some? {
      PutValid(code, "data", JStr(e.data.value));
    }
  }

  /** The response object with the given id node. */
  function Envelope(e: ErrorRecord, id: Json): (r: Json)
    ensures r.JObject? && r.fields.keys == ["jsonrpc", "error", "id"]
    ensures Get(r.fields, "jsonrpc") == Some(JStr("2.0"))
    ensures Get(r.fields, "error") == Some(JObject(ErrorFields(e)))
    ensures Get(r.fields, "id") == Some(id)
  {
    var n1 := Put(Empty, "jsonrpc", JStr("2.0"));
    assert n1 == Fields(["jsonrpc"], map["jsonrpc" := JStr("2.0")]);
    var n2 := Put(n1, "error", JObject(ErrorFields(e)));
    assert "error" != "jsonrpc";
    assert n2 == Fields(["jsonrpc", "error"], n1.values["error" := JObject(ErrorFields(e))]);
    assert "id" != "jsonrpc" && "id" != "error";
    var n3 := Put(n2, "id", id);
    assert n3 == Fields(["jsonrpc", "error", "id"], n2.values["id" := id]);
    JObject(n3)
  }

  /** getJsonServiceErrorNode(jse): the error response with a null id. */
  function ErrorNode(e: ErrorRecord): (r: Json)
    ensures r.JObject? && Get(r.fields, "id") == Some(JNull)
  {
    Envelope(e, JNull)
  }

  /** getJsonServiceErrorNode(jse, id): the error response with a numeric id. */
  function ErrorNodeWithId(e: ErrorRecord, id: int): (r: Json)
    ensures r.JObject? && Get(r.fields, "id") == Some(JNum(id))
  {
    Envelope(e, JNum(id))
  }

  /** A message member: `Some(None)` for null, `None` when malformed. */
  function ReadText(node: Option<Json>): Option<Option<string>>
  {
    match node
    case Some(JNull) => Some(None)
    case Some(JStr(t)) => Some(Some(t))
    case _ => None
  }

  /** Reads an error object's code, message and data. */
  function ReadErrorFields(code: Fields): Option<ErrorRecord>
  {
    var number := Get(code, "code");
    var message := ReadText(Get(code, "message"));
    var data := match Get(code, "data")
      case None => Some(None)
      case Some(JStr(d)) => Some(Some(d))
      case _ => None;
    if number.Some? && number.value.JNum? && message.Some? && data.Some?
    then Some(ErrorRecord(number.value.n, message.value, data.value))
    else None
  }

  /** Reads the error member back out of a response object. */
  function ReadError(node: Json): Option<ErrorRecord>
  {
    if !node.JObject? then None
    else match Get(node.fields, "error")
      case Some(JObject(code)) => ReadErrorFields(code)
      case _ => None
  }

  /** The error object holds the whole record. */
  lemma ErrorFieldsRoundTrip(e: ErrorRecord)
    ensures ReadErrorFields(ErrorFields(e)) == Some(e)
  {
    var code := ErrorFields(e);
    assert Get(code, "code") == Some(JNum(e.code));
    assert ReadText(Get(code, "message")) == Some(e.message);
  }

  /** The whole error record can be read back from the response. */
  lemma ErrorRoundTrip(e: ErrorRecord, id: Json)
    ensures ReadError(Envelope(e, id)) == Some(e)
  {
    ErrorFieldsRoundTrip(e);
  }
}
