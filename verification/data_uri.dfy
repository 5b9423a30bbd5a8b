/**
 * DataURI: a data URI in the textual form of section 3 of RFC 2397,
 * data:[<mediatype>][;<charset>][;base64],<data>, held as three mutable
 * fields. `Parse` reads a URI into the fields (keeping the current charset as
 * the default for raw payloads) and `ToString` formats them, always with the
 * URL-safe, unpadded base64 of section 5 of RFC 4648.
 */
module DataUri {
  import opened Wrappers
  import opened JavaStrings
  import opened Base64

  /** Exceptions parse and toString raise. */
  datatype UriError =
    | IndexOutOfBounds     // uri.substring(begin) past the end of a short URI without "data:"
    | NullCharset          // String.getBytes((String) null)
    | UnsupportedEncoding  // String.getBytes(name) for a charset the platform does not know
    | NullData             // toString when data is null: encodeBase64(null) gives null

  /**
   * The platform's byte encoders for charsets other than "ASCII", by name;
   * `None` when the charset is not supported.
   */
  type Charsets = (string, string) -> Option<seq<byte>>

  /** String.getBytes("ASCII"): a character outside 7-bit ASCII becomes '?'. */
  function AsciiBytes(s: string): (r: seq<byte>)
    ensures |r| == |s|
    ensures forall k :: 0 <= k < |s| ==> r[k] == if s[k] as int < 128 then s[k] as int else '?' as int
  {
    if s == [] then [] else [if s[0] as int < 128 then s[0] as int else '?' as int] + AsciiBytes(s[1..])
  }

  /** String.getBytes(charset). */
  function GetBytes(charsets: Charsets, charset: Option<string>, s: string): (r: Result<seq<byte>, UriError>)
    ensures charset == None ==> r == Failure(NullCharset)
    ensures charset == Some("ASCII") ==> r == Success(AsciiBytes(s))
  {
    match charset
    case None => Failure(NullCharset)
    case Some(name) =>
      if name == "ASCII" then Success(AsciiBytes(s))
      else
        match charsets(name, s)
        case None => Failure(UnsupportedEncoding)
        case Some(bytes) => Success(bytes)
  }

  /** The fields of a DataURI object; `None` is null. */
  datatype Fields = Fields(mediaType: Option<string>, charset: Option<string>, data: Option<seq<byte>>)

  /** The fields after a call and the exception it raised, if any (fields set before the exception stay set). */
  datatype Outcome = Outcome(fields: Fields, error: Option<UriError>)

  /** The state of processParts' loop over the header tokens. */
  datatype Scan = Scan(mediaType: Option<string>, charset: Option<string>, isBase64: bool)

  /** processParts' loop after its first `n` tokens: "base64" sets the flag, token 0 is the media type, token 1 the charset. */
  function ScanTokens(tokens: seq<string>, n: nat, start: Scan): Scan
    requires n <= |tokens|
  {
    if n == 0 then start
    else
      var s := ScanTokens(tokens, n - 1, start);
      if tokens[n - 1] == "base64" then s.(isBase64 := true)
      else if n - 1 == 0 then s.(mediaType := Some(tokens[0]))
      else if n - 1 == 1 then s.(charset := Some(tokens[1]))
      else s
  }

  /** processParts(header, payload). */
  function ProcessHeader(f: Fields, header: string, payload: string, charsets: Charsets): Outcome
  {
    var tokens := Split(header, ';');
    var s := ScanTokens(tokens, |tokens|, Scan(f.mediaType, f.charset, false));
    var g := f.(mediaType := s.mediaType, charset := s.charset);
    if s.isBase64 then Outcome(g.(data := Some(Decode(payload))), None)
    else
      match GetBytes(charsets, s.charset, payload)
      case Failure(e) => Outcome(g, Some(e))
      case Success(bytes) => Outcome(g.(data := Some(bytes)), None)
  }

  /** setData(text.getBytes(charset)), with "ASCII" standing in for a null charset. */
  function RawData(f: Fields, text: string, charsets: Charsets): (r: Outcome)
    ensures r.fields.mediaType == f.mediaType && r.fields.charset == f.charset
  {
    match GetBytes(charsets, if f.charset == None then Some("ASCII") else f.charset, text)
    case Failure(e) => Outcome(f, Some(e))
    case Success(bytes) => Outcome(f.(data := Some(bytes)), None)
  }

  /** parse(uri), from the fields `f` it starts with. */
  function ParseUri(f: Fields, uri: string, charsets: Charsets): Outcome
  {
    var begin := IndexOf(uri, "data:") + 5;
    if begin > |uri| then Outcome(f, Some(IndexOutOfBounds))
    else
      var parts := Split(uri[begin..], ',');
      if |parts| == 1 then RawData(f, parts[0], charsets)
      else if |parts| > 1 && ';' in parts[0] then ProcessHeader(f, parts[0], Concat(parts[1..]), charsets)
      else if |parts| > 1 then RawData(f, Concat(parts[1..]), charsets)
      else Outcome(f, None)
  }

  /** toString(): `Failure(NullData)` when the data is null. */
  function FormatUri(f: Fields): (r: Result<string, UriError>)
    ensures r.Success? <==> f.data.Some?
    ensures r.Success? ==> StartsWith(r.value, "data:")
  {
    match f.data
    case None => Failure(NullData)
    case Some(d) =>
      var withType := if f.mediaType.Some? then "data:" + f.mediaType.value else "data:";
      var withCharset :=
        if f.charset.Some? then (if f.mediaType == None then withType + "text/plain" else withType) + ";" + f.charset.value
        else withType;
      var marked := f.mediaType.Some? || f.charset.Some?;
      if f.charset != Some("ASCII") then Success((if marked then withCharset + ";" else withCharset) + "base64," + Encode(d))
      else Success((if marked then withCharset + "," else withCharset) + Encode(d))
  }

  class DataURI {
    var mediaType: Option<string>
    var charset: Option<string>
    var data: Option<seq<byte>>

    function State(): Fields
      reads this
    {
      Fields(mediaType, charset, data)
    }

    /** new DataURI(): every field null. */
    constructor ()
      ensures State() == Fields(None, None, None)
    {
      mediaType, charset, data := None, None, None;
    }

    /** parse(uri) */
    method Parse(uri: string, charsets: Charsets) returns (error: Option<UriError>)
      modifies this
      ensures Outcome(State(), error) == ParseUri(old(State()), uri, charsets)
    {
      var begin := IndexOf(uri, "data:") + 5;
      if begin > |uri| {
        return Some(IndexOutOfBounds);
      }
      var parts := Split(uri[begin..], ',');
      if |parts| == 1 {
        error := SetRawData(parts[0], charsets);
      } else if |parts| > 1 && ';' in parts[0] {
        var payload := JoinFrom(parts);
        error := ProcessParts(parts[0], payload, charsets);
      } else if |parts| > 1 {
        var strData := JoinFrom(parts);
        error := SetRawData(strData, charsets);
      } else {
        error := None;
      }
    }

    /** The loops of parse that append parts[1], parts[2], ... to one string. */
    static method JoinFrom(parts: seq<string>) returns (joined: string)
      requires |parts| >= 1
      ensures joined == Concat(parts[1..])
    {
      joined := "";
      var i := 1;
      while i < |parts|
        invariant 1 <= i <= |parts|
        invariant joined == Concat(parts[1..i])
      {
        assert parts[1..i + 1] == parts[1..i] + [parts[i]];
        ConcatSnoc(parts[1..i], parts[i]);
        joined := joined + parts[i];
        i := i + 1;
      }
      assert parts[1..i] == parts[1..];
    }

    /** setData(text.getBytes(...)) with the current charset, or "ASCII" when it is null. */
    method SetRawData(text: string, charsets: Charsets) returns (error: Option<UriError>)
      modifies this
      ensures Outcome(State(), error) == RawData(old(State()), text, charsets)
    {
      var bytes := GetBytes(charsets, if charset == None then Some("ASCII") else charset, text);
      match bytes
      case Failure(e) =>
        error := Some(e);
      case Success(b) =>
        data := Some(b);
        error := None;
    }

    /** processParts({header, payload}) */
    method ProcessParts(header: string, payload: string, charsets: Charsets) returns (error: Option<UriError>)
      modifies this
      ensures Outcome(State(), error) == ProcessHeader(old(State()), header, payload, charsets)
    {
      var tokens := Split(header, ';');
      var isBase64 := false;
      var i := 0;
      while i < |tokens|
        invariant 0 <= i <= |tokens|
        invariant Scan(mediaType, charset, isBase64) == ScanTokens(tokens, i, Scan(old(mediaType), old(charset), false))
        invariant data == old(data)
      {
        if tokens[i] == "base64" {
          isBase64 := true;
        } else if i == 0 {
          mediaType := Some(tokens[i]);
        } else if i == 1 {
          charset := Some(tokens[i]);
        }
        i := i + 1;
      }
      if isBase64 {
        ProcessBase64Data(payload);
        error := None;
      } else {
        var bytes := GetBytes(charsets, charset, payload);
        match bytes
        case Failure(e) =>
          error := Some(e);
        case Success(b) =>
          data := Some(b);
          error := None;
      }
    }

    /** processBase64Data(s): the data becomes the decoded payload. */
    method ProcessBase64Data(s: string)
      modifies this
      ensures State() == old(State()).(data := Some(Decode(s)))
    {
      data := Some(Decode(s));
    }

    /** toString() */
    method ToString() returns (r: Result<string, UriError>)
      ensures r == FormatUri(State())
    {
      var output := "data:";
      if mediaType.Some? {
        output := output + mediaType.value;
      }
      if charset.Some? {
        if mediaType == None {
          output := output + "text/plain";
        }
        output := output + ";" + charset.value;
      }
      if data == None {
        return Failure(NullData);
      }
      if charset != Some("ASCII") {
        if mediaType.Some? || charset.Some? {
          output := output + ";";
        }
        output := output + "base64," + Encode(data.value);
      } else {
        if mediaType.Some? || charset.Some? {
          output := output + ",";
        }
        output := output + Encode(data.value);
      }
      r := Success(output);
    }
  }

  /** A media type or charset that survives formatting and parsing: no separators and not the "base64" marker. */
  predicate Plain(s: string)
  {
    ';' !in s && ',' !in s && s != "base64"
  }

  /** After the whole header, processParts' loop has the first two tokens (unless "base64") and the flag. */
  lemma {:induction false} ScanAll(tokens: seq<string>, n: nat, m: Option<string>, c: Option<string>)
    requires n <= |tokens|
    ensures ScanTokens(tokens, n, Scan(m, c, false)) ==
      Scan(if n > 0 && tokens[0] != "base64" then Some(tokens[0]) else m,
           if n > 1 && tokens[1] != "base64" then Some(tokens[1]) else c,
           "base64" in tokens[..n])
  {
    if n > 0 {
      ScanAll(tokens, n - 1, m, c);
      assert tokens[..n] == tokens[..n - 1] + [tokens[n - 1]];
    }
  }

  /** The formatted text of a URI outside the "ASCII" case ends with the marker and the encoded data. */
  lemma FormatBase64Tail(f: Fields)
    requires f.data.Some? && f.charset != Some("ASCII")
    ensures var s := FormatUri(f).value; var tail := "base64," + Encode(f.data.value);
      |s| >= 5 + |tail| && s[|s| - |tail|..] == tail &&
      (s[|s| - |tail| - 1] == ';' <==> f.mediaType.Some? || f.charset.Some?)
  {
  }

  /** With a charset and no media type, "text/plain" is written before ";" and the charset. */
  lemma FormatDefaultsTextPlain(f: Fields)
    requires f.data.Some? && f.mediaType == None && f.charset.Some?
    ensures StartsWith(FormatUri(f).value, "data:text/plain;" + f.charset.value)
  {
  }

  /** With the charset "ASCII" the data follows a bare ",", without the base64 marker. */
  lemma FormatAscii(f: Fields)
    requires f.data.Some? && f.charset == Some("ASCII")
    ensures FormatUri(f).value ==
      "data:" + ((if f.mediaType.Some? then f.mediaType.value else "text/plain") + ";ASCII") + "," + Encode(f.data.value)
  {
  }

  /** A header `h` (free of commas) and a payload `p`: the shape ParseUri sees. */
  lemma ParseHeaderAndPayload(f: Fields, h: string, p: string, charsets: Charsets)
    requires ',' !in h && Remove(p, ',') != ""
    ensures ParseUri(f, "data:" + h + "," + p, charsets) ==
      if ';' in h then ProcessHeader(f, h, Remove(p, ','), charsets) else RawData(f, Remove(p, ','), charsets)
  {
    var uri := "data:" + h + "," + p;
    var rest := h + [','] + p;
    assert uri == "data:" + rest;
    IndexOfPrefix(uri, "data:");
    assert uri[5..] == rest;
    SplitHeadAndRest(h, ',', p);
  }

  /**
   * The commas of a payload are lost: the data is decoded from the payload
   * with its commas removed.
   */
  lemma PayloadCommasDropped(f: Fields, h: string, p: string, charsets: Charsets)
    requires ',' !in h && ';' in h && "base64" in Split(h, ';') && Remove(p, ',') != ""
    ensures ParseUri(f, "data:" + h + "," + p, charsets).fields.data == Some(Decode(Remove(p, ',')))
  {
    ParseHeaderAndPayload(f, h, p, charsets);
    var tokens := Split(h, ';');
    ScanAll(tokens, |tokens|, f.mediaType, f.charset);
    assert tokens[..|tokens|] == tokens;
  }

  /**
   * A header without ';' is thrown away: the media type and charset are not
   * set and the payload is taken as raw text, even when the header is "base64".
   */
  lemma HeaderWithoutSemicolonIgnored(f: Fields, h: string, p: string, charsets: Charsets)
    requires ',' !in h && ';' !in h && Remove(p, ',') != ""
    ensures var r := ParseUri(f, "data:" + h + "," + p, charsets);
      r.fields.mediaType == f.mediaType && r.fields.charset == f.charset &&
      r == RawData(f, Remove(p, ','), charsets)
  {
    ParseHeaderAndPayload(f, h, p, charsets);
  }

  /**
   * A single part after "data:" (here: a trailing comma, which split drops)
   * becomes the data as raw text; media type and charset are untouched.
   */
  lemma TrailingCommaSinglePart(f: Fields, h: string, charsets: Charsets)
    requires ',' !in h && h != ""
    ensures ParseUri(f, "data:" + h + ",", charsets) == RawData(f, h, charsets)
  {
    var uri := "data:" + h + ",";
    IndexOfPrefix(uri, "data:");
    assert uri[5..] == h + [','];
    assert h + [','] + "" == h + [','];
    SplitAllHead(h, ',', "");
    assert SplitAll(uri[5..], ',') == [h, ""];
    assert DropTrailingEmpty([h, ""]) == DropTrailingEmpty([h]) == [h] by {
      assert [h, ""][..1] == [h];
    }
    assert uri[5..][|h|] == ',';
    assert Split(uri[5..], ',') == [h];
  }

  /** The default media type and the literal pieces of the headers toString writes hold no separator. */
  lemma LiteralsPlain()
    ensures Plain("text/plain")
    ensures ',' !in ";base64" && ',' !in ";ASCII"
  {
    assert forall k :: 0 <= k < |"text/plain"| ==> "text/plain"[k] != ';' && "text/plain"[k] != ',';
  }

  /** The header "m;c;base64" holds no comma and has ';' after the media type. */
  lemma Base64HeaderShape(m: string, c: string)
    requires Plain(m) && Plain(c)
    ensures var h := m + ";" + c + ";base64"; ',' !in h && ';' in h
  {
    var h := m + ";" + c + ";base64";
    LiteralsPlain();
    assert h == m + (";" + c) + ";base64";
    assert h[|m|] == ';';
  }

  /** The header "m;ASCII" holds no comma and has ';' after the media type. */
  lemma AsciiHeaderShape(m: string)
    requires Plain(m)
    ensures var h := m + ";ASCII"; ',' !in h && ';' in h
  {
    LiteralsPlain();
    assert (m + ";ASCII")[|m|] == ';';
  }

  /** The base64 text holds neither separator. */
  lemma EncodedHasNoSeparator(d: seq<byte>)
    ensures ',' !in Encode(d) && ';' !in Encode(d)
    ensures Remove(Encode(d), ',') == Encode(d)
  {
    var e := Encode(d);
    forall k | 0 <= k < |e| ensures e[k] != ',' && e[k] != ';' {
      assert IsUrlSafe(e[k]);
    }
    RemoveAbsent(e, ',');
  }

  /** The text toString writes for a charset other than "ASCII". */
  lemma FormatWithCharset(f: Fields)
    requires f.charset.Some? && f.charset.value != "ASCII" && f.data.Some?
    ensures FormatUri(f).value ==
      "data:" + ((if f.mediaType.Some? then f.mediaType.value else "text/plain") + ";" + f.charset.value + ";base64")
      + "," + Encode(f.data.value)
  {
  }

  /** processParts on the header "m;c;base64": media type m, charset c, decoded data. */
  lemma ProcessBase64Header(prior: Fields, m: string, c: string, e: string, charsets: Charsets)
    requires Plain(m) && Plain(c)
    ensures ProcessHeader(prior, m + ";" + c + ";base64", e, charsets) == Outcome(Fields(Some(m), Some(c), Some(Decode(e))), None)
  {
    assert m + ";" + c + ";base64" == m + [';'] + c + [';'] + "base64";
    SplitThree(m, ';', c, "base64");
    ScanAll([m, c, "base64"], 3, prior.mediaType, prior.charset);
    assert [m, c, "base64"][..3] == [m, c, "base64"];
  }

  /** processParts on the header "m;ASCII": media type m, charset "ASCII", the payload's ASCII codes. */
  lemma ProcessAsciiHeader(prior: Fields, m: string, e: string, charsets: Charsets)
    requires Plain(m)
    ensures ProcessHeader(prior, m + ";ASCII", e, charsets) == Outcome(Fields(Some(m), Some("ASCII"), Some(AsciiBytes(e))), None)
  {
    assert m + ";ASCII" == m + [';'] + "ASCII";
    SplitTwo(m, ';', "ASCII");
    ScanAll([m, "ASCII"], 2, prior.mediaType, prior.charset);
    assert [m, "ASCII"][..2] == [m, "ASCII"];
  }

  /**
   * Round trip: format then parse restores the fields whenever the charset is
   * set and is not "ASCII", the data is not empty, and media type and charset
   * are plain; a missing media type comes back as "text/plain". The fields the
   * object held before parsing do not matter.
   */
  lemma RoundTrip(f: Fields, prior: Fields, charsets: Charsets)
    requires f.charset.Some? && f.charset.value != "ASCII" && Plain(f.charset.value)
    requires f.mediaType.Some? ==> Plain(f.mediaType.value)
    requires f.data.Some? && f.data.value != []
    ensures FormatUri(f).Success?
    ensures ParseUri(prior, FormatUri(f).value, charsets) ==
      Outcome(f.(mediaType := Some(if f.mediaType.Some? then f.mediaType.value else "text/plain")), None)
  {
    var m := if f.mediaType.Some? then f.mediaType.value else "text/plain";
    var c := f.charset.value;
    var e := Encode(f.data.value);
    var h := m + ";" + c + ";base64";
    FormatWithCharset(f);
    EncodedHasNoSeparator(f.data.value);
    LiteralsPlain();
    Base64HeaderShape(m, c);
    ParseHeaderAndPayload(prior, h, e, charsets);
    ProcessBase64Header(prior, m, c, e, charsets);
    DecodeEncode(f.data.value);
  }

  /**
   * The "ASCII" charset does not round-trip its bytes: parsing the formatted
   * text yields the ASCII codes of the base64 text, not the data.
   */
  lemma AsciiDataNotRestored(f: Fields, prior: Fields, charsets: Charsets)
    requires f.charset == Some("ASCII")
    requires f.mediaType.Some? ==> Plain(f.mediaType.value)
    requires f.data.Some? && f.data.value != []
    ensures ParseUri(prior, FormatUri(f).value, charsets) ==
      Outcome(Fields(Some(if f.mediaType.Some? then f.mediaType.value else "text/plain"), Some("ASCII"),
                     Some(AsciiBytes(Encode(f.data.value)))), None)
  {
    var m := if f.mediaType.Some? then f.mediaType.value else "text/plain";
    var e := Encode(f.data.value);
    var h := m + ";ASCII";
    FormatAscii(f);
    EncodedHasNoSeparator(f.data.value);
    LiteralsPlain();
    AsciiHeaderShape(m);
    ParseHeaderAndPayload(prior, h, e, charsets);
    ProcessAsciiHeader(prior, m, e, charsets);
  }

  lemma AsciiOfEncodedZero()
    ensures AsciiBytes(Encode([0])) == [65, 65]
  {
    assert EncodeSextets([0]) == [0, 0];
    assert Encode([0]) == "AA";
  }

  /** One byte 0 with charset "ASCII" comes back as the two bytes of "AA". */
  lemma AsciiCounterexample(charsets: Charsets)
    ensures ParseUri(Fields(None, None, None), FormatUri(Fields(None, Some("ASCII"), Some([0]))).value, charsets).fields.data
      == Some([65, 65])
  {
    var f := Fields(None, Some("ASCII"), Some([0]));
    AsciiDataNotRestored(f, Fields(None, None, None), charsets);
    AsciiOfEncodedZero();
  }

  /** With neither media type nor charset the text is "data:base64," and the encoded data. */
  lemma FormatBare(f: Fields)
    requires f.mediaType == None && f.charset == None && f.data.Some?
    ensures FormatUri(f).value == "data:" + "base64" + "," + Encode(f.data.value)
  {
    assert "data:" + "base64," == "data:" + "base64" + ",";
  }

  /**
   * Neither media type nor charset: the text is "data:base64,..." and parsing
   * it does not decode; the data becomes the base64 text's bytes.
   */
  lemma BareBase64NotDecoded(f: Fields, prior: Fields, charsets: Charsets)
    requires f.mediaType == None && f.charset == None
    requires f.data.Some? && f.data.value != []
    ensures ParseUri(prior, FormatUri(f).value, charsets) == RawData(prior, Encode(f.data.value), charsets)
  {
    FormatBare(f);
    EncodedHasNoSeparator(f.data.value);
    HeaderWithoutSemicolonIgnored(prior, "base64", Encode(f.data.value), charsets);
  }
}
