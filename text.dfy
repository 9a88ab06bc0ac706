/**
 * The few pieces of Python string behaviour the backend relies on:
 * `str.split(" ")`, `" ".join`, `str.strip()` and `str.lower()`.
 */
module Text {

  /** Python's `s.split(" ")`: split at every single space, keeping empty fields. */
  function Split(s: string): (parts: seq<string>)
    ensures |parts| >= 1
    ensures forall i :: 0 <= i < |parts| ==> ' ' !in parts[i]
    decreases |s|
  {
    if s == [] then [[]]
    else
      var rest := Split(s[1..]);
      if s[0] == ' ' then [[]] + rest
      else [[s[0]] + rest[0]] + rest[1..]
  }

  /**
   * Python's `" ".join(parts)`: the first part opens the result and is
   * followed by a space when more parts come. `JoinSplit` and `SplitJoin`
   * show it is the inverse of `Split`.
   */
  function Join(parts: seq<string>): (r: string)
    ensures parts == [] ==> r == []
    ensures parts != [] ==> parts[0] <= r
    ensures |parts| >= 2 ==> |parts[0]| < |r| && r[|parts[0]|] == ' '
    decreases |parts|
  {
    if parts == [] then []
    else if |parts| == 1 then parts[0]
    else
      var rest := Join(parts[1..]);
      var r := parts[0] + " " + rest;
      r
  }

  /** Joining the fields of a split gives back the original string. */
  lemma {:induction false} JoinSplit(s: string)
    ensures Join(Split(s)) == s
    decreases |s|
  {
    if s != [] {
      JoinSplit(s[1..]);
      var rest := Split(s[1..]);
      if s[0] == ' ' {
        assert Split(s) == [[]] + rest;
        assert Join(Split(s)) == [] + " " + Join(rest);
        assert s == [s[0]] + s[1..];
      } else {
        var parts := Split(s);
        assert parts == [[s[0]] + rest[0]] + rest[1..];
        if |rest| == 1 {
          assert Join(rest) == rest[0];
          assert Join(parts) == [s[0]] + rest[0];
        } else {
          assert Join(rest) == rest[0] + " " + Join(rest[1..]);
          assert parts[1..] == rest[1..];
          assert Join(parts) == ([s[0]] + rest[0]) + " " + Join(rest[1..]);
        }
        assert s == [s[0]] + s[1..];
      }
    }
  }

  /** A word without spaces followed by a space splits off as the first field. */
  lemma {:induction false} SplitAfterWord(w: string, rest: string)
    requires ' ' !in w
    ensures Split(w + " " + rest) == [w] + Split(rest)
    decreases |w|
  {
    if w == [] {
      assert w + " " + rest == [' '] + rest;
      assert (w + " " + rest)[1..] == rest;
    } else {
      SplitAfterWord(w[1..], rest);
      var s := w + " " + rest;
      assert s[0] == w[0];
      assert s[1..] == w[1..] + " " + rest;
      assert w == [w[0]] + w[1..];
    }
  }

  /** Splitting a join of space-free fields gives back the fields. */
  lemma {:induction false} SplitJoin(parts: seq<string>)
    requires |parts| >= 1
    requires forall i :: 0 <= i < |parts| ==> ' ' !in parts[i]
    ensures Split(Join(parts)) == parts
    decreases |parts|
  {
    if |parts| == 1 {
      NoSpaceSplit(parts[0]);
    } else {
      SplitJoin(parts[1..]);
      SplitAfterWord(parts[0], Join(parts[1..]));
      assert parts == [parts[0]] + parts[1..];
    }
  }

  /** A string without spaces is a single field. */
  lemma {:induction false} NoSpaceSplit(w: string)
    requires ' ' !in w
    ensures Split(w) == [w]
    decreases |w|
  {
    if w != [] {
      assert ' ' !in w[1..] by {
        forall i | 0 <= i < |w| - 1 ensures w[1..][i] != ' ' {
          assert w[1..][i] == w[i + 1];
        }
      }
      NoSpaceSplit(w[1..]);
      assert w == [w[0]] + w[1..];
    }
  }

  /**
   * The characters Python's `str.isspace()` accepts, which `str.strip()`
   * removes from both ends.
   */
  predicate IsSpace(c: char)
  {
    || ('\t' <= c <= '\r')
    || ('\U{1C}' <= c <= ' ')
    || c == '\U{85}' || c == '\U{A0}' || c == '\U{1680}'
    || ('\U{2000}' <= c <= '\U{200A}')
    || c == '\U{2028}' || c == '\U{2029}' || c == '\U{202F}'
    || c == '\U{205F}' || c == '\U{3000}'
  }

  /** Python's `s.lstrip()`: drops the leading whitespace and nothing else. */
  function TrimStart(s: string): (r: string)
    ensures |r| <= |s| && r == s[|s| - |r|..]
    ensures forall i :: 0 <= i < |s| - |r| ==> IsSpace(s[i])
    ensures r == [] || !IsSpace(r[0])
    decreases |s|
  {
    if s != [] && IsSpace(s[0]) then
      var r := TrimStart(s[1..]);
      assert forall i :: 1 <= i < |s| - |r| ==> IsSpace(s[i]) by {
        forall i | 1 <= i < |s| - |r| ensures IsSpace(s[i]) {
          assert s[i] == s[1..][i - 1];
        }
      }
      r
    else s
  }

  /** Python's `s.rstrip()`: drops the trailing whitespace and nothing else. */
  function TrimEnd(s: string): (r: string)
    ensures r <= s
    ensures forall i :: |r| <= i < |s| ==> IsSpace(s[i])
    ensures r == [] || !IsSpace(r[|r| - 1])
    decreases |s|
  {
    if s != [] && IsSpace(s[|s| - 1]) then
      var r := TrimEnd(s[..|s| - 1]);
      assert forall i :: |r| <= i < |s| - 1 ==> IsSpace(s[i]) by {
        forall i | |r| <= i < |s| - 1 ensures IsSpace(s[i]) {
          assert s[i] == s[..|s| - 1][i];
        }
      }
      r
    else s
  }

  /** `r` occurs in `s` at offset `lo`, with only whitespace before and after it. */
  predicate SpacedAt(s: string, r: string, lo: int)
  {
    && 0 <= lo && lo + |r| <= |s| && r == s[lo..lo + |r|]
    && (forall i :: 0 <= i < lo ==> IsSpace(s[i]))
    && (forall i :: lo + |r| <= i < |s| ==> IsSpace(s[i]))
  }

  /**
   * Python's `s.strip()`: the input with its leading and trailing whitespace
   * removed, and nothing else; the result neither starts nor ends with
   * whitespace.
   */
  function Strip(s: string): (r: string)
    ensures exists lo :: SpacedAt(s, r, lo)
    ensures r == [] || (!IsSpace(r[0]) && !IsSpace(r[|r| - 1]))
  {
    var t := TrimStart(s);
    var r := TrimEnd(t);
    TrimmedAt(s, t, r);
    assert r != [] ==> r[0] == t[0];
    r
  }

  /**
   * Trimming the end of `t`, the input with its leading whitespace cut off,
   * leaves the input's middle at the offset where that whitespace ends.
   */
  lemma TrimmedAt(s: string, t: string, r: string)
    requires |t| <= |s| && t == s[|s| - |t|..] && forall i :: 0 <= i < |s| - |t| ==> IsSpace(s[i])
    requires r <= t && forall i :: |r| <= i < |t| ==> IsSpace(t[i])
    ensures SpacedAt(s, r, |s| - |t|)
  {
    var lo := |s| - |t|;
    forall i | lo + |r| <= i < |s|
      ensures IsSpace(s[i])
    {
      assert s[i] == t[i - lo];
    }
  }

  /** Stripping twice is the same as stripping once. */
  lemma StripIdempotent(s: string)
    ensures Strip(Strip(s)) == Strip(s)
  {
    var r := Strip(s);
    assert TrimStart(r) == r;
    assert TrimEnd(r) == r;
  }

  function LowerChar(c: char): char
  {
    if 'A' <= c <= 'Z' then (c as int + 32) as char else c
  }

  /**
   * Python's `s.lower()`, restricted to the ASCII letters: every other
   * character is kept as it is. Python also lower-cases other cased letters,
   * some of them into ASCII letters (KELVIN SIGN U+212A becomes "k") or into
   * two characters (U+0130), which this function does not follow.
   */
  function Lower(s: string): (r: string)
    ensures |r| == |s|
    ensures forall i :: 0 <= i < |s| ==> r[i] == LowerChar(s[i])
  {
    seq(|s|, i requires 0 <= i < |s| => LowerChar(s[i]))
  }

  /**
   * Which strings this lower-cases to "desc": exactly the case variants of
   * that word.
   */
  lemma LowerIsDesc(s: string)
    ensures Lower(s) == "desc" <==>
      && |s| == 4
      && (s[0] == 'd' || s[0] == 'D') && (s[1] == 'e' || s[1] == 'E')
      && (s[2] == 's' || s[2] == 'S') && (s[3] == 'c' || s[3] == 'C')
  {
    if |s| == 4 && Lower(s) == "desc" {
      assert Lower(s)[0] == 'd' && Lower(s)[1] == 'e' && Lower(s)[2] == 's' && Lower(s)[3] == 'c';
    }
  }
}
