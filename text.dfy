/** Strings as sequences of characters: white space, trimming, substring search,
    and splitting on / joining with a separator character. */
module Text {

  /** The characters JavaScript's `String.prototype.trim` removes and the regular
      expression class `\s` matches: the ASCII white space, the line and paragraph
      separators and the Unicode space separators. */
  predicate IsSpace(c: char) {
    || c == ' ' || c == '\t' || c == '\n' || c == '\r' || c == '\U{B}' || c == '\U{C}'
    || c == '\U{A0}' || c == '\U{1680}' || ('\U{2000}' <= c <= '\U{200A}')
    || c == '\U{2028}' || c == '\U{2029}' || c == '\U{202F}' || c == '\U{205F}'
    || c == '\U{3000}' || c == '\U{FEFF}'
  }

  /** Every character is white space; the empty string is blank. */
  predicate IsBlank(s: string) {
    forall i :: 0 <= i < |s| ==> IsSpace(s[i])
  }

  /** `s` without its leading white space. */
  function TrimStart(s: string): (r: string)
    ensures |r| <= |s| && r == s[|s| - |r|..]
    ensures IsBlank(s[..|s| - |r|])
    ensures r == [] || !IsSpace(r[0])
  {
    if |s| > 0 && IsSpace(s[0]) then
      var tail := s[1..];
      var r := TrimStart(tail);
      assert s[..|s| - |r|] == [s[0]] + tail[..|tail| - |r|];
      r
    else s
  }

  /** `s` without its trailing white space. */
  function TrimEnd(s: string): (r: string)
    ensures |r| <= |s| && r == s[..|r|]
    ensures IsBlank(s[|r|..])
    ensures r == [] || !IsSpace(r[|r| - 1])
  {
    if |s| > 0 && IsSpace(s[|s| - 1]) then
      var init := s[..|s| - 1];
      var r := TrimEnd(init);
      assert s[|r|..] == init[|r|..] + [s[|s| - 1]];
      r
    else s
  }

  /** JavaScript's `trim`: a contiguous piece of `s` that neither starts nor
      ends with white space, and is empty exactly when `s` is blank. */
  function Trim(s: string): (r: string)
    ensures r == [] <==> IsBlank(s)
    ensures r == [] || (!IsSpace(r[0]) && !IsSpace(r[|r| - 1]))
    ensures exists k :: 0 <= k <= |s| && r <= s[k..]
  {
    var t := TrimStart(s);
    var r := TrimEnd(t);
    assert r == [] ==> t[|r|..] == t;
    assert t == [] ==> s[..|s| - |t|] == s;
    assert t != [] ==> t[0] == s[|s| - |t|];
    assert r != [] ==> r[0] == t[0];
    var k := |s| - |t|;
    assert r <= s[k..];
    r
  }

  /** `trim` removes only white space: after a blank prefix of `s`, the rest
      of `s` is the trimmed text followed by blank text. */
  lemma TrimDropsOnlyOuterSpace(s: string)
    ensures exists k :: (&& 0 <= k <= |s| - |Trim(s)| && IsBlank(s[..k])
                         && s[k..][..|Trim(s)|] == Trim(s) && IsBlank(s[k..][|Trim(s)|..]))
  {
    var t := TrimStart(s);
    var k := |s| - |t|;
    assert Trim(s) == TrimEnd(t);
    assert s[k..] == t;
    assert IsBlank(s[..k]) && s[k..][..|Trim(s)|] == Trim(s) && IsBlank(s[k..][|Trim(s)|..]);
  }

  /** A string with no white space at either end is its own trim. */
  lemma {:induction false} TrimOfTrimmed(s: string)
    requires s == [] || (!IsSpace(s[0]) && !IsSpace(s[|s| - 1]))
    ensures Trim(s) == s
  {
  }

  /** `t` occurs in `s` as a contiguous substring (JavaScript's `includes`, SQL `LIKE '%t%'`). */
  predicate Contains(s: string, t: string) {
    exists i :: 0 <= i <= |s| && t <= s[i..]
  }

  /** JavaScript's `s.split(sep)` for a one-character separator: the pieces between
      separators, empty pieces included, so there is always at least one. */
  function Split(s: string, sep: char): (r: seq<string>)
    ensures |r| >= 1
    ensures forall k :: 0 <= k < |r| ==> sep !in r[k]
  {
    if s == [] then [""]
    else
      var rest := Split(s[1..], sep);
      if s[0] == sep then [""] + rest
      else [[s[0]] + rest[0]] + rest[1..]
  }

  /** JavaScript's `words.join(sep)`. */
  function Join(words: seq<string>, sep: char): string {
    if |words| == 0 then ""
    else if |words| == 1 then words[0]
    else words[0] + [sep] + Join(words[1..], sep)
  }

  /** The number of occurrences of `c` in `s`. */
  function Count(s: string, c: char): nat {
    if s == [] then 0 else (if s[0] == c then 1 else 0) + Count(s[1..], c)
  }

  lemma {:induction false} JoinConsFirst(a: string, x: string, tail: seq<string>, sep: char)
    ensures Join([a + x] + tail, sep) == a + Join([x] + tail, sep)
  {
    if |tail| > 0 {
      assert ([a + x] + tail)[1..] == tail;
      assert ([x] + tail)[1..] == tail;
    }
  }

  /** Joining the pieces of a split with the same separator gives the string back. */
  lemma {:induction false} JoinSplit(s: string, sep: char)
    ensures Join(Split(s, sep), sep) == s
  {
    if s != [] {
      var rest := Split(s[1..], sep);
      JoinSplit(s[1..], sep);
      if s[0] == sep {
        assert ([""] + rest)[1..] == rest;
      } else {
        JoinConsFirst([s[0]], rest[0], rest[1..], sep);
        assert [rest[0]] + rest[1..] == rest;
      }
    }
  }

  /** Joining the first `k` words gives a prefix of joining all of them. */
  lemma {:induction false} JoinPrefix(words: seq<string>, k: nat, sep: char)
    requires k <= |words|
    ensures Join(words[..k], sep) <= Join(words, sep)
  {
    if k > 0 && |words| > 1 {
      if k == 1 {
        assert words[..k] == [words[0]];
      } else {
        JoinPrefix(words[1..], k - 1, sep);
        assert words[..k][1..] == words[1..][..k - 1];
      }
    } else if k == 1 {
      assert words[..k] == words;
    }
  }

  lemma {:induction false} CountAppend(a: string, b: string, c: char)
    ensures Count(a + b, c) == Count(a, c) + Count(b, c)
  {
    if a != [] {
      assert (a + b)[1..] == a[1..] + b;
      CountAppend(a[1..], b, c);
    } else {
      assert a + b == b;
    }
  }

  lemma {:induction false} CountPrefix(a: string, b: string, c: char)
    requires a <= b
    ensures Count(a, c) <= Count(b, c)
  {
    assert b == a + b[|a|..];
    CountAppend(a, b[|a|..], c);
  }

  lemma {:induction false} CountAbsent(s: string, c: char)
    requires c !in s
    ensures Count(s, c) == 0
  {
    if s != [] {
      assert s[0] in s;
      CountAbsent(s[1..], c);
    }
  }

  /** Words free of the separator, joined, contain exactly one separator fewer than there are words. */
  lemma {:induction false} CountJoin(words: seq<string>, sep: char)
    requires |words| >= 1
    requires forall k :: 0 <= k < |words| ==> sep !in words[k]
    ensures Count(Join(words, sep), sep) == |words| - 1
  {
    CountAbsent(words[0], sep);
    if |words| > 1 {
      CountJoin(words[1..], sep);
      CountAppend(words[0], [sep], sep);
      CountAppend(words[0] + [sep], Join(words[1..], sep), sep);
      assert Count([sep], sep) == 1 by {
        assert [sep][1..] == [];
      }
    }
  }
}
