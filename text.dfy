/**
 * The string operations the core relies on: lower-casing department
 * codes, and reading a comma-separated list into the set of its trimmed
 * parts for working patterns and accessibility lists. Lower-casing is
 * modelled on the letters A to Z only; stripping uses Python's whitespace set.
 */
module Text {

  function LowerChar(ch: char): char
  {
    if 'A' <= ch <= 'Z' then (ch - 'A' + 'a') as char else ch
  }

  /** `s.lower()` on ASCII letters. */
  function Lower(s: string): (r: string)
    ensures |r| == |s|
    ensures forall i :: 0 <= i < |s| ==> r[i] == LowerChar(s[i])
  {
    if s == [] then [] else [LowerChar(s[0])] + Lower(s[1..])
  }

  lemma {:induction false} LowerIdempotent(s: string)
    ensures Lower(Lower(s)) == Lower(s)
  {
    var once := Lower(s);
    var twice := Lower(once);
    forall i | 0 <= i < |s| ensures twice[i] == once[i] {
      assert twice[i] == LowerChar(LowerChar(s[i]));
    }
  }

  /** `s.split(sep)`: there is always at least one part, and no part holds `sep`. */
  function SplitOn(s: string, sep: char): (parts: seq<string>)
    ensures |parts| >= 1
    ensures forall k :: 0 <= k < |parts| ==> sep !in parts[k]
  {
    if s == [] then [[]]
    else
      var rest := SplitOn(s[1..], sep);
      if s[0] == sep then [[]] + rest else [[s[0]] + rest[0]] + rest[1..]
  }

  /** `sep.join(parts)`. */
  function Join(parts: seq<string>, sep: char): string
    requires |parts| >= 1
  {
    if |parts| == 1 then parts[0] else parts[0] + [sep] + Join(parts[1..], sep)
  }

  /** Splitting loses nothing: joining the parts back gives the original string. */
  lemma {:induction false} JoinSplitOn(s: string, sep: char)
    ensures Join(SplitOn(s, sep), sep) == s
  {
    if s != [] {
      var rest := SplitOn(s[1..], sep);
      JoinSplitOn(s[1..], sep);
      if s[0] == sep {
        assert ([[]] + rest)[1..] == rest;
      } else {
        var parts := [[s[0]] + rest[0]] + rest[1..];
        if |rest| > 1 {
          assert parts[1..] == rest[1..];
        }
        assert s == [s[0]] + s[1..];
      }
    }
  }

  /** The characters Python's `str.isspace` accepts, which `str.strip()` removes. */
  predicate IsSpace(ch: char)
  {
    || ch == ' ' || ('\t' <= ch <= '\r') || ('\U{1C}' <= ch <= '\U{1F}')
    || ch == '\U{85}' || ch == '\U{A0}' || ch == '\U{1680}' || ('\U{2000}' <= ch <= '\U{200A}')
    || ch == '\U{2028}' || ch == '\U{2029}' || ch == '\U{202F}' || ch == '\U{205F}' || ch == '\U{3000}'
  }

  function StripLeft(s: string): (r: string)
    ensures |r| <= |s| && r == s[|s| - |r|..]
    ensures r == [] || !IsSpace(r[0])
  {
    if s != [] && IsSpace(s[0]) then StripLeft(s[1..]) else s
  }

  function StripRight(s: string): (r: string)
    ensures |r| <= |s| && r == s[..|r|]
    ensures r == [] || !IsSpace(r[|r| - 1])
  {
    if s != [] && IsSpace(s[|s| - 1]) then StripRight(s[..|s| - 1]) else s
  }

  /** `s.strip()`: whitespace removed at both ends and nowhere else. */
  function Strip(s: string): (r: string)
    ensures r == [] || (!IsSpace(r[0]) && !IsSpace(r[|r| - 1]))
  {
    var left := StripLeft(s);
    var r := StripRight(left);
    assert r != [] ==> r[0] == left[0];
    r
  }

  /** Stripping adds no character. */
  lemma StripKeeps(s: string, ch: char)
    ensures ch in Strip(s) ==> ch in s
  {
    var left := StripLeft(s);
    if ch in StripRight(left) {
      assert ch in left;
    }
  }

  /**
   * The set of the comma-separated parts of `s`, each trimmed of
   * surrounding whitespace: how working patterns and accessibility
   * requirements are read.
   */
  function CommaSet(s: string): set<string>
  {
    var parts := SplitOn(s, ',');
    set k | 0 <= k < |parts| :: Strip(parts[k])
  }

  /** Every item read that way is free of commas and of surrounding whitespace. */
  lemma CommaSetItems(s: string)
    ensures forall x :: x in CommaSet(s) ==> ',' !in x && (x == [] || (!IsSpace(x[0]) && !IsSpace(x[|x| - 1])))
  {
    var parts := SplitOn(s, ',');
    forall x | x in CommaSet(s) ensures ',' !in x && (x == [] || (!IsSpace(x[0]) && !IsSpace(x[|x| - 1]))) {
      var k :| 0 <= k < |parts| && x == Strip(parts[k]);
      StripClean(parts[k]);
    }
  }

  lemma StripClean(p: string)
    requires ',' !in p
    ensures var x := Strip(p); ',' !in x && (x == [] || (!IsSpace(x[0]) && !IsSpace(x[|x| - 1])))
  {
    StripKeeps(p, ',');
  }

  /** An empty string is read as the one-element set holding the empty string. */
  lemma EmptyCommaSet()
    ensures CommaSet("") == {""}
  {
    var parts := SplitOn("", ',');
    assert parts == [""];
    assert Strip(parts[0]) == "";
    assert "" in CommaSet("");
    forall x | x in CommaSet("") ensures x == "" {
      var k :| 0 <= k < |parts| && x == Strip(parts[k]);
    }
  }
}
