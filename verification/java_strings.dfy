/**
 * The parts of java.lang.String that the modelled code relies on:
 * startsWith, indexOf, substring, toLowerCase, split and concatenation.
 */
module JavaStrings {
  import opened Wrappers

  /** Thrown by substring when its indices are out of range. */
  datatype IndexError = StringIndexOutOfBounds

  predicate StartsWith(s: string, prefix: string)
  {
    |prefix| <= |s| && s[..|prefix|] == prefix
  }

  /** String.substring(b, e): fails unless 0 <= b <= e <= |s|. */
  function Substring(s: string, b: int, e: int): (r: Result<string, IndexError>)
    ensures r.Success? <==> 0 <= b <= e <= |s|
    ensures r.Success? ==> |r.value| == e - b && forall k :: 0 <= k < e - b ==> r.value[k] == s[b + k]
  {
    if 0 <= b <= e <= |s| then Success(s[b..e]) else Failure(StringIndexOutOfBounds)
  }

  /** String.substring(b): fails unless 0 <= b <= |s|. */
  function SubstringFrom(s: string, b: int): (r: Result<string, IndexError>)
    ensures r.Success? <==> 0 <= b <= |s|
    ensures r.Success? ==> s == s[..b] + r.value
  {
    if 0 <= b <= |s| then Success(s[b..]) else Failure(StringIndexOutOfBounds)
  }

  /** Lower-casing of one character; only the ASCII letters A-Z are mapped. */
  function LowerChar(c: char): (r: char)
    ensures 'A' <= c <= 'Z' ==> 'a' <= r <= 'z' && r as int - c as int == 32
    ensures !('A' <= c <= 'Z') ==> r == c
  {
    if 'A' <= c <= 'Z' then (c as int + 32) as char else c
  }

  function Lower(s: string): (r: string)
    ensures |r| == |s| && forall k :: 0 <= k < |s| ==> r[k] == LowerChar(s[k])
  {
    if s == [] then [] else [LowerChar(s[0])] + Lower(s[1..])
  }

  /** `pat` occurs in `s` starting at index `k`. */
  predicate OccursAt(s: string, pat: string, k: int)
  {
    0 <= k && k + |pat| <= |s| && s[k..k + |pat|] == pat
  }

  /** Index of the first occurrence of `pat` in `s`, or -1 (String.indexOf). */
  function IndexOf(s: string, pat: string): (r: int)
    ensures -1 <= r <= |s|
    ensures r >= 0 ==> OccursAt(s, pat, r)
    ensures r >= 0 ==> forall k :: 0 <= k < r ==> !OccursAt(s, pat, k)
    ensures r == -1 ==> forall k :: !OccursAt(s, pat, k)
    decreases |s|
  {
    if |pat| > |s| then -1
    else if s[..|pat|] == pat then 0
    else
      var t := IndexOf(s[1..], pat);
      forall k | 1 <= k ensures OccursAt(s, pat, k) <==> OccursAt(s[1..], pat, k - 1) {
        OccursShift(s, pat, k);
      }
      if t == -1 then -1 else t + 1
  }

  /** An occurrence past the first character is an occurrence in the rest of the string. */
  lemma OccursShift(s: string, pat: string, k: int)
    requires 1 <= k && s != []
    ensures OccursAt(s, pat, k) <==> OccursAt(s[1..], pat, k - 1)
  {
    if k + |pat| <= |s| {
      var here, there := s[k..k + |pat|], s[1..][k - 1..k - 1 + |pat|];
      assert |here| == |there|;
      forall i | 0 <= i < |pat|
        ensures here[i] == there[i]
      {
        assert here[i] == s[k + i];
        assert there[i] == s[1..][k - 1 + i] == s[k + i];
      }
      assert here == there;
    }
  }

  lemma IndexOfPrefix(s: string, pat: string)
    requires StartsWith(s, pat)
    ensures IndexOf(s, pat) == 0
  {
  }

  /** The concatenation of all pieces, in order. */
  function Concat(pieces: seq<string>): (r: string)
  {
    if pieces == [] then "" else pieces[0] + Concat(pieces[1..])
  }

  lemma {:induction false} ConcatSnoc(pieces: seq<string>, last: string)
    ensures Concat(pieces + [last]) == Concat(pieces) + last
  {
    if pieces != [] {
      assert (pieces + [last])[1..] == pieces[1..] + [last];
      ConcatSnoc(pieces[1..], last);
    }
  }

  /** `s` with every occurrence of `c` deleted. */
  function Remove(s: string, c: char): (r: string)
    ensures c !in r
    ensures |r| <= |s|
  {
    if s == [] then "" else (if s[0] == c then "" else [s[0]]) + Remove(s[1..], c)
  }

  /**
   * The pieces of `s` between occurrences of `sep`, trailing empty pieces
   * included (the regular-expression split with a negative limit).
   */
  function SplitAll(s: string, sep: char): (parts: seq<string>)
    ensures |parts| >= 1
    ensures forall k :: 0 <= k < |parts| ==> sep !in parts[k]
  {
    if s == [] then [""]
    else if s[0] == sep then [""] + SplitAll(s[1..], sep)
    else
      var rest := SplitAll(s[1..], sep);
      [[s[0]] + rest[0]] + rest[1..]
  }

  /** Drops the empty strings at the end of `parts`. */
  function DropTrailingEmpty(parts: seq<string>): (r: seq<string>)
    ensures |r| <= |parts| && r == parts[..|r|]
    ensures r == [] || r[|r| - 1] != ""
    ensures forall k :: |r| <= k < |parts| ==> parts[k] == ""
  {
    if parts != [] && parts[|parts| - 1] == "" then DropTrailingEmpty(parts[..|parts| - 1]) else parts
  }

  /**
   * String.split on a one-character separator: when the separator does not
   * occur the result is the string itself, otherwise the pieces without the
   * empty strings at the end.
   */
  function Split(s: string, sep: char): (parts: seq<string>)
    ensures forall k :: 0 <= k < |parts| ==> sep !in parts[k]
    ensures sep !in s ==> parts == [s]
  {
    if sep !in s then [s] else DropTrailingEmpty(SplitAll(s, sep))
  }

  /** Joining the pieces of SplitAll gives back `s` without its separators. */
  lemma {:induction false} ConcatSplitAll(s: string, sep: char)
    ensures Concat(SplitAll(s, sep)) == Remove(s, sep)
  {
    if s != [] {
      ConcatSplitAll(s[1..], sep);
      if s[0] != sep {
        var rest := SplitAll(s[1..], sep);
        assert Concat(rest) == rest[0] + Concat(rest[1..]);
        assert ([[s[0]] + rest[0]] + rest[1..])[1..] == rest[1..];
      } else {
        assert ([""] + SplitAll(s[1..], sep))[1..] == SplitAll(s[1..], sep);
      }
    }
  }

  lemma {:induction false} ConcatDropTrailingEmpty(parts: seq<string>)
    ensures Concat(DropTrailingEmpty(parts)) == Concat(parts)
    decreases |parts|
  {
    if parts != [] && parts[|parts| - 1] == "" {
      var init := parts[..|parts| - 1];
      ConcatDropTrailingEmpty(init);
      assert parts == init + [""];
      ConcatSnoc(init, "");
    }
  }

  /** Whatever the separators, split loses only them: its pieces joined give `s` without `sep`. */
  lemma SplitLosesOnlySeparators(s: string, sep: char)
    ensures Concat(Split(s, sep)) == Remove(s, sep)
  {
    if sep !in s {
      RemoveAbsent(s, sep);
      assert Concat([s]) == s + Concat([]);
    } else {
      ConcatDropTrailingEmpty(SplitAll(s, sep));
      ConcatSplitAll(s, sep);
    }
  }

  lemma {:induction false} RemoveAbsent(s: string, c: char)
    requires c !in s
    ensures Remove(s, c) == s
  {
    if s != [] {
      RemoveAbsent(s[1..], c);
    }
  }

  /** Splitting `h + [sep] + p` where `h` holds no separator: the first piece of SplitAll is `h`. */
  lemma {:induction false} SplitAllHead(h: string, sep: char, p: string)
    requires sep !in h
    ensures SplitAll(h + [sep] + p, sep) == [h] + SplitAll(p, sep)
  {
    if h == [] {
      assert h + [sep] + p == [sep] + p;
      assert ([sep] + p)[1..] == p;
    } else {
      assert (h + [sep] + p)[1..] == h[1..] + [sep] + p;
      SplitAllHead(h[1..], sep, p);
      assert [h[0]] + h[1..] == h;
    }
  }

  /** A string free of the separator is a single piece of SplitAll. */
  lemma {:induction false} SplitAllNoSeparator(s: string, sep: char)
    requires sep !in s
    ensures SplitAll(s, sep) == [s]
  {
    if s != [] {
      SplitAllNoSeparator(s[1..], sep);
      assert [s[0]] + s[1..] == s;
    }
  }

  /**
   * Split of `h + [sep] + p` with separator-free, non-empty `p`: exactly the two
   * pieces `h` and `p`.
   */
  lemma SplitTwo(h: string, sep: char, p: string)
    requires sep !in h && sep !in p && p != ""
    ensures Split(h + [sep] + p, sep) == [h, p]
  {
    var s := h + [sep] + p;
    assert s[|h|] == sep;
    SplitAllHead(h, sep, p);
    SplitAllNoSeparator(p, sep);
  }

  /** Split of `a + [sep] + b + [sep] + c` with separator-free pieces and non-empty `c`. */
  lemma SplitThree(a: string, sep: char, b: string, c: string)
    requires sep !in a && sep !in b && sep !in c && c != ""
    ensures Split(a + [sep] + b + [sep] + c, sep) == [a, b, c]
  {
    var s := a + [sep] + b + [sep] + c;
    assert s[|a|] == sep;
    assert s == a + [sep] + (b + [sep] + c);
    SplitAllHead(a, sep, b + [sep] + c);
    SplitAllHead(b, sep, c);
    SplitAllNoSeparator(c, sep);
  }

  /** Dropping trailing empties from `a + b` touches only `b` when `b` has a non-empty piece. */
  lemma {:induction false} DropTrailingEmptyAppend(a: seq<string>, b: seq<string>)
    requires DropTrailingEmpty(b) != []
    ensures DropTrailingEmpty(a + b) == a + DropTrailingEmpty(b)
    decreases |b|
  {
    if b[|b| - 1] == "" {
      assert (a + b)[..|a + b| - 1] == a + b[..|b| - 1];
      DropTrailingEmptyAppend(a, b[..|b| - 1]);
    }
  }

  /**
   * Splitting `h + [sep] + p` (no separator in `h`) when `p` holds some other
   * character: the head is `h` and the remaining pieces join to `p` without
   * its separators.
   */
  lemma SplitHeadAndRest(h: string, sep: char, p: string)
    requires sep !in h && Remove(p, sep) != ""
    ensures |Split(h + [sep] + p, sep)| >= 2
    ensures Split(h + [sep] + p, sep)[0] == h
    ensures Concat(Split(h + [sep] + p, sep)[1..]) == Remove(p, sep)
  {
    var s := h + [sep] + p;
    assert s[|h|] == sep;
    SplitAllHead(h, sep, p);
    ConcatSplitAll(p, sep);
    ConcatDropTrailingEmpty(SplitAll(p, sep));
    assert Concat(DropTrailingEmpty(SplitAll(p, sep))) != "";
    DropTrailingEmptyAppend([h], SplitAll(p, sep));
    assert Split(s, sep)[1..] == DropTrailingEmpty(SplitAll(p, sep));
  }
}
