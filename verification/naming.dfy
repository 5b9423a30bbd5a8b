/**
 * The two Jackson property-naming strategies of the service:
 * UnmodifiedPropertyNamingStrategy (installed on the mapper before every
 * response is written) and EqualPropertyNameStrategy. A strategy maps the
 * name of a getter, setter, field or constructor parameter, together with the
 * default name Jackson proposes, to the JSON property name. An index error
 * thrown by String.substring is a `Failure`.
 */
module Naming {
  import opened Wrappers
  import opened JavaStrings

  datatype Strategy = Unmodified | EqualName

  datatype Accessor = Getter | Setter | Field | ConstructorParameter

  /**
   * head.toLowerCase() + tail, where the first of the two substring calls
   * to fail throws.
   */
  function Join(head: Result<string, IndexError>, tail: Result<string, IndexError>): (r: Result<string, IndexError>)
    ensures r.Success? <==> head.Success? && tail.Success?
    ensures head.Failure? ==> r == head
  {
    match head
    case Failure(e) => Failure(e)
    case Success(h) =>
      match tail
      case Failure(e) => Failure(e)
      case Success(t) => Success(Lower(h) + t)
  }

  /**
   * name.substring(k, k + 1).toLowerCase() + name.substring(k + 1): the
   * character at `k` lower-cased, followed by everything after it.
   */
  function DecapitalizeAt(name: string, k: nat): (r: Result<string, IndexError>)
    ensures r.Success? <==> k < |name|
    ensures r.Success? ==> r.value == [LowerChar(name[k])] + name[k + 1..]
  {
    Join(Substring(name, k, k + 1), SubstringFrom(name, k + 1))
  }

  /** UnmodifiedPropertyNamingStrategy.nameForGetterMethod. */
  function UnmodifiedGetterName(name: string, defaultName: string): (r: Result<string, IndexError>)
    ensures StartsWith(name, "get") ==>
      (r.Success? <==> |name| >= 4) && (r.Success? ==> r.value == [LowerChar(name[3])] + name[4..])
    ensures !StartsWith(name, "get") && StartsWith(name, "is") ==>
      (r.Success? <==> |name| >= 3) && (r.Success? ==> r.value == [LowerChar(name[2])] + name[3..])
    ensures !StartsWith(name, "get") && !StartsWith(name, "is") ==> r == Success(defaultName)
  {
    if StartsWith(name, "get") then DecapitalizeAt(name, 3)
    else if StartsWith(name, "is") then DecapitalizeAt(name, 2)
    else Success(defaultName)
  }

  /**
   * UnmodifiedPropertyNamingStrategy.nameForSetterMethod as written: the
   * first call is substring(3, 1), whose begin index exceeds its end index.
   */
  function UnmodifiedSetterName(name: string, defaultName: string): (r: Result<string, IndexError>)
    ensures StartsWith(name, "set") ==> r == Failure(StringIndexOutOfBounds)
    ensures !StartsWith(name, "set") ==> r == Success(defaultName)
  {
    if StartsWith(name, "set") then
      Join(Substring(name, 3, 1), SubstringFrom(name, 4))
    else Success(defaultName)
  }

  /** nameForSetterMethod with the evidently intended substring(3, 4). */
  function CorrectedSetterName(name: string, defaultName: string): (r: Result<string, IndexError>)
    ensures StartsWith(name, "set") ==>
      (r.Success? <==> |name| >= 4) && (r.Success? ==> r.value == [LowerChar(name[3])] + name[4..])
    ensures !StartsWith(name, "set") ==> r == Success(defaultName)
  {
    if StartsWith(name, "set") then DecapitalizeAt(name, 3) else Success(defaultName)
  }

  /**
   * EqualPropertyNameStrategy.nameForGetterMethod and nameForSetterMethod
   * (the two bodies are identical): drop three characters whatever they are,
   * lower-case the fourth. The default name is never consulted.
   */
  function EqualName3(name: string): (r: Result<string, IndexError>)
    ensures r.Success? <==> |name| >= 4
    ensures r.Success? ==> |r.value| == |name| - 3 && r.value[0] == LowerChar(name[3]) && r.value[1..] == name[4..]
  {
    DecapitalizeAt(name, 3)
  }

  /**
   * The name a strategy gives to an accessor. Fields and constructor
   * parameters go to the base PropertyNamingStrategy, which returns the
   * default name; UnmodifiedPropertyNamingStrategy overrides them only to
   * call that base method. The Unmodified setter is the corrected one: as
   * written it throws on every name starting with "set".
   */
  function NameFor(strategy: Strategy, accessor: Accessor, name: string, defaultName: string): (r: Result<string, IndexError>)
    ensures accessor == Field || accessor == ConstructorParameter ==> r == Success(defaultName)
    ensures strategy == EqualName && (accessor == Getter || accessor == Setter) ==> r == EqualName3(name)
  {
    match accessor
    case Field => Success(defaultName)
    case ConstructorParameter => Success(defaultName)
    case Getter => if strategy == Unmodified then UnmodifiedGetterName(name, defaultName) else EqualName3(name)
    case Setter => if strategy == Unmodified then CorrectedSetterName(name, defaultName) else EqualName3(name)
  }

  /** A name beginning with "get" never reaches the "is" branch: it is decapitalised at index 3. */
  lemma GetPrecedesIs(rest: string, defaultName: string)
    requires rest != ""
    ensures UnmodifiedGetterName("get" + rest, defaultName) == Success([LowerChar(rest[0])] + rest[1..])
  {
    assert ("get" + rest)[..3] == "get";
    assert ("get" + rest)[3] == rest[0];
    assert ("get" + rest)[4..] == rest[1..];
  }

  /** "isX..." and "getX..." name the same property under the Unmodified strategy. */
  lemma IsAndGetAgree(rest: string, d1: string, d2: string)
    requires rest != ""
    ensures UnmodifiedGetterName("is" + rest, d1) == UnmodifiedGetterName("get" + rest, d2)
  {
    GetPrecedesIs(rest, d2);
    assert ("is" + rest)[..2] == "is";
    assert !StartsWith("is" + rest, "get") by { assert ("is" + rest)[0] != 'g'; }
    assert ("is" + rest)[2] == rest[0];
    assert ("is" + rest)[3..] == rest[1..];
  }

  /** The bare prefixes "get" and "is" make the Unmodified getter throw. */
  lemma BarePrefixFails(defaultName: string)
    ensures UnmodifiedGetterName("get", defaultName).Failure?
    ensures UnmodifiedGetterName("is", defaultName).Failure?
  {
    assert StartsWith("get", "get");
    assert !StartsWith("is", "get");
    assert StartsWith("is", "is");
  }

  /** As written, the Unmodified setter fails on a typical setter name. */
  lemma SetterAsWrittenFails(defaultName: string)
    ensures UnmodifiedSetterName("setName", defaultName) == Failure(StringIndexOutOfBounds)
  {
    assert StartsWith("setName", "set");
  }

  /** Corrected, a setter "setX..." and its getter "getX..." name the same property. */
  lemma CorrectedSetterMatchesGetter(rest: string, d1: string, d2: string)
    requires rest != ""
    ensures CorrectedSetterName("set" + rest, d1) == UnmodifiedGetterName("get" + rest, d2)
    ensures CorrectedSetterName("set" + rest, d1) == Success([LowerChar(rest[0])] + rest[1..])
  {
    GetPrecedesIs(rest, d2);
    assert ("set" + rest)[..3] == "set";
    assert ("set" + rest)[3] == rest[0];
    assert ("set" + rest)[4..] == rest[1..];
  }

  /** With the corrected setter, the Unmodified strategy maps a setter "setX..." and its getter "getX..." to one JSON property. */
  lemma UnmodifiedAccessorsPair(rest: string, d1: string, d2: string)
    requires rest != ""
    ensures NameFor(Unmodified, Setter, "set" + rest, d1) == NameFor(Unmodified, Getter, "get" + rest, d2)
  {
    CorrectedSetterMatchesGetter(rest, d1, d2);
  }

  /** The Equal strategy treats an "is" getter like any name: "isActive" becomes "ctive". */
  lemma EqualStrategyDropsFourthOfIs()
    ensures NameFor(EqualName, Getter, "isActive", "active") == Success("ctive")
  {
    assert "isActive"[3] == 'c' && "isActive"[4..] == "tive";
    assert LowerChar('c') == 'c';
    assert [LowerChar("isActive"[3])] + "isActive"[4..] == "ctive";
  }

  /** Under the Equal strategy getter and setter names coincide and ignore the default. */
  lemma EqualGetterSetterAgree(name: string, d1: string, d2: string)
    ensures NameFor(EqualName, Getter, name, d1) == NameFor(EqualName, Setter, name, d2)
  {
  }

  /** On names starting with "get" the two strategies agree. */
  lemma StrategiesAgreeOnGet(name: string, d1: string, d2: string)
    requires StartsWith(name, "get")
    ensures NameFor(Unmodified, Getter, name, d1) == NameFor(EqualName, Getter, name, d2)
  {
  }
}
