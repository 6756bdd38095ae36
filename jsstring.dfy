/** The parts of JavaScript string semantics the client pages rely on:
    `String.prototype.trim` (and the truthiness of its result) and
    `String.prototype.split` with a one-character separator. */
module JsString {
  import opened Base

  /** The code points `trim` strips: ECMAScript's WhiteSpace and LineTerminator
      productions (tab, vertical tab, form feed, space, no-break space, the BOM,
      the Unicode space separators, LF, CR, line and paragraph separator). */
  predicate IsWhiteSpace(c: char) {
    var n := c as int;
    n == 0x09 || n == 0x0A || n == 0x0B || n == 0x0C || n == 0x0D || n == 0x20
    || n == 0xA0 || n == 0x1680 || (0x2000 <= n <= 0x200A) || n == 0x2028 || n == 0x2029
    || n == 0x202F || n == 0x205F || n == 0x3000 || n == 0xFEFF
  }

  predicate AllWhiteSpace(s: string) {
    forall i :: 0 <= i < |s| ==> IsWhiteSpace(s[i])
  }

  /** `trimStart`: the longest suffix that does not begin with white space. */
  function TrimStart(s: string): (r: string)
    ensures |r| <= |s| && r == s[|s| - |r|..]
    ensures AllWhiteSpace(s[..|s| - |r|])
    ensures r == [] || !IsWhiteSpace(r[0])
  {
    if |s| > 0 && IsWhiteSpace(s[0]) then
      var r := TrimStart(s[1..]);
      assert s[..|s| - |r|] == [s[0]] + s[1..][..|s| - 1 - |r|];
      r
    else s
  }

  /** `trimEnd`: the longest prefix that does not end with white space. */
  function TrimEnd(s: string): (r: string)
    ensures |r| <= |s| && r == s[..|r|]
    ensures AllWhiteSpace(s[|r|..])
    ensures r == [] || !IsWhiteSpace(r[|r| - 1])
  {
    if |s| > 0 && IsWhiteSpace(s[|s| - 1]) then TrimEnd(s[..|s| - 1]) else s
  }

  /** `s.trim()`: a slice of `s` with all leading and trailing white space cut off. */
  function Trim(s: string): (r: string)
    ensures exists i, j :: 0 <= i <= j <= |s| && r == s[i..j]
                           && AllWhiteSpace(s[..i]) && AllWhiteSpace(s[j..])
    ensures r == [] || (!IsWhiteSpace(r[0]) && !IsWhiteSpace(r[|r| - 1]))
  {
    var t := TrimStart(s);
    var r := TrimEnd(t);
    var i := |s| - |t|;
    assert r == s[i..i + |r|];
    assert AllWhiteSpace(s[..i]);
    assert s[i + |r|..] == t[|r|..];
    assert AllWhiteSpace(s[i + |r|..]);
    r
  }

  /** `!s.trim()`: the trimmed string is empty, hence falsy, exactly when
      every character of `s` is white space. */
  predicate IsBlank(s: string)
    ensures IsBlank(s) <==> AllWhiteSpace(s)
  {
    if Trim(s) == [] then BlankIsAllWhiteSpace(s); true
    else if AllWhiteSpace(s) then AllWhiteSpaceIsBlank(s); false
    else false
  }

  lemma BlankIsAllWhiteSpace(s: string)
    requires Trim(s) == []
    ensures AllWhiteSpace(s)
  {
    var t := TrimStart(s);
    assert TrimEnd(t) == [];
    assert t[0..] == t;
    assert t == [];
    assert s[..|s|] == s;
  }

  lemma AllWhiteSpaceIsBlank(s: string)
    requires AllWhiteSpace(s)
    ensures Trim(s) == []
  {
    assert TrimStart(s) == [];
  }

  /** `s.split(sep)`: the maximal runs of `s` between occurrences of `sep`.
      As in JavaScript, the empty string splits into one empty segment. */
  function Split(s: string, sep: char): (parts: seq<string>)
    ensures |parts| == Count(s, sep) + 1
    ensures forall i :: 0 <= i < |parts| ==> sep !in parts[i]
    ensures forall i, j :: 0 <= i < |parts| && 0 <= j < |parts[i]| ==> parts[i][j] in s
  {
    if s == [] then [[]]
    else
      var rest := Split(s[1..], sep);
      if s[0] == sep then [[]] + rest
      else [[s[0]] + rest[0]] + rest[1..]
  }

  /** `parts.join([sep])`, the inverse of `Split`. */
  function Join(parts: seq<string>, sep: char): string
  {
    if parts == [] then []
    else if |parts| == 1 then parts[0]
    else parts[0] + [sep] + Join(parts[1..], sep)
  }

  /** Joining the segments back with the separator gives the original string. */
  lemma {:induction false} JoinSplit(s: string, sep: char)
    ensures Join(Split(s, sep), sep) == s
  {
    if s != [] {
      var rest := Split(s[1..], sep);
      JoinSplit(s[1..], sep);
      if s[0] == sep {
        assert ([[]] + rest)[1..] == rest;
      } else {
        var parts := [[s[0]] + rest[0]] + rest[1..];
        if |rest| == 1 {
          assert rest == [rest[0]];
        } else {
          assert parts[1..] == rest[1..];
          assert Join(rest, sep) == rest[0] + [sep] + Join(rest[1..], sep);
        }
      }
    }
  }

  /** Splitting distributes over a separator: segment order is preserved. */
  lemma {:induction false} SplitAround(a: string, b: string, sep: char)
    requires sep !in a
    ensures Split(a + [sep] + b, sep) == [a] + Split(b, sep)
  {
    if a == [] {
      assert a + [sep] + b == [sep] + b;
      assert ([sep] + b)[1..] == b;
    } else {
      var s := a + [sep] + b;
      assert s[1..] == a[1..] + [sep] + b;
      SplitAround(a[1..], b, sep);
      assert [s[0]] + a[1..] == a;
    }
  }

  /** A string without the separator is a single segment. */
  lemma {:induction false} SplitWithout(s: string, sep: char)
    requires sep !in s
    ensures Split(s, sep) == [s]
  {
    CountPositiveIff(s, sep);
    JoinSplit(s, sep);
  }

  /** `s.split(sep).length > 1` holds exactly when `s` contains `sep`. */
  lemma SeveralSegmentsIff(s: string, sep: char)
    ensures |Split(s, sep)| > 1 <==> sep in s
  {
    CountPositiveIff(s, sep);
  }
}
