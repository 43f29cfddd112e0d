/**
 * The String.prototype operations the extension and the Apps Script rely on:
 * trim, toLowerCase, includes, startsWith, Array.prototype.join and split with a
 * one-character separator. Strings are sequences of Unicode scalar values.
 */
module JsText {

  /** ECMAScript WhiteSpace and LineTerminator code points: what `trim` removes. */
  predicate IsSpace(c: char) {
    || c == '\t' || c == '\n' || c == '\U{000B}' || c == '\U{000C}' || c == '\r' || c == ' '
    || c == '\U{00A0}' || c == '\U{1680}' || ('\U{2000}' <= c <= '\U{200A}')
    || c == '\U{2028}' || c == '\U{2029}' || c == '\U{202F}' || c == '\U{205F}'
    || c == '\U{3000}' || c == '\U{FEFF}'
  }

  /** Every character of `s` is white space (`s.trim() === ''`). */
  predicate IsBlank(s: string) {
    forall i | 0 <= i < |s| :: IsSpace(s[i])
  }

  function TrimStart(s: string): string
    decreases |s|
  {
    if |s| > 0 && IsSpace(s[0]) then TrimStart(s[1..]) else s
  }

  function TrimEnd(s: string): string
    decreases |s|
  {
    if |s| > 0 && IsSpace(s[|s| - 1]) then TrimEnd(s[..|s| - 1]) else s
  }

  /** `s.trim()`: `s` without its leading and trailing white space. */
  function Trim(s: string): string {
    TrimEnd(TrimStart(s))
  }

  lemma {:induction false} TrimStartSpec(s: string)
    ensures var r := TrimStart(s);
      && |r| <= |s| && r == s[|s| - |r|..]
      && (r == [] || !IsSpace(r[0]))
      && (r == [] <==> IsBlank(s))
    decreases |s|
  {
    if |s| > 0 && IsSpace(s[0]) {
      TrimStartSpec(s[1..]);
    }
  }

  lemma {:induction false} TrimEndSpec(s: string)
    ensures var r := TrimEnd(s);
      && |r| <= |s| && r == s[..|r|]
      && (r == [] || !IsSpace(r[|r| - 1]))
      && (r == [] <==> IsBlank(s))
    decreases |s|
  {
    if |s| > 0 && IsSpace(s[|s| - 1]) {
      TrimEndSpec(s[..|s| - 1]);
    }
  }

  /**
   * `trim` leaves a slice of its input that neither starts nor ends with white space,
   * empty exactly when the input is blank.
   */
  lemma TrimSpec(s: string)
    ensures var r := Trim(s);
      && (r == [] || (!IsSpace(r[0]) && !IsSpace(r[|r| - 1])))
      && (r == [] <==> IsBlank(s))
  {
    var t := TrimStart(s);
    TrimStartSpec(s);
    TrimEndSpec(t);
    assert IsBlank(t) <==> t == [] by {
      if t != [] { assert !IsSpace(t[0]); }
    }
    var r := TrimEnd(t);
    if r != [] {
      assert r[0] == t[0];
    }
  }

  /** Trimming twice is trimming once. */
  lemma TrimIdempotent(s: string)
    ensures Trim(Trim(s)) == Trim(s)
  {
    var r := Trim(s);
    TrimSpec(s);
    if r != [] {
      assert TrimStart(r) == r;
      assert TrimEnd(r) == r;
    }
  }

  /** `c.toLowerCase()` for one character: the ASCII capitals map to their small letters. */
  function LowerChar(c: char): (d: char)
    ensures IsSpace(d) <==> IsSpace(c)
  {
    if 'A' <= c <= 'Z' then (c as int + 32) as char else c
  }

  /** `s.toLowerCase()` (ASCII case mapping; see README). */
  function Lower(s: string): (r: string)
    ensures |r| == |s|
  {
    seq(|s|, i requires 0 <= i < |s| => LowerChar(s[i]))
  }

  /** `s.startsWith(p)`. */
  predicate StartsWith(s: string, p: string) {
    |p| <= |s| && s[..|p|] == p
  }

  /** `s.includes(t)`: `t` occurs in `s` at some position. */
  predicate Includes(s: string, t: string)
    decreases |s|
  {
    StartsWith(s, t) || (|s| > 0 && Includes(s[1..], t))
  }

  lemma {:induction false} IncludesAt(s: string, t: string, i: nat)
    requires i + |t| <= |s| && s[i..i + |t|] == t
    ensures Includes(s, t)
  {
    if i > 0 {
      assert s[1..][i - 1..i - 1 + |t|] == t;
      IncludesAt(s[1..], t, i - 1);
    }
  }

  lemma {:induction false} IncludesChar(s: string, c: char)
    ensures Includes(s, [c]) <==> c in s
  {
    if |s| > 0 {
      IncludesChar(s[1..], c);
      assert s == [s[0]] + s[1..];
    }
  }

  /** `parts.join(sep)`. */
  function Join(parts: seq<string>, sep: string): (r: string)
    ensures |parts| == 1 ==> r == parts[0]
    decreases |parts|
  {
    if |parts| == 0 then ""
    else if |parts| == 1 then parts[0]
    else parts[0] + sep + Join(parts[1..], sep)
  }

  /** `s.split(sep)` for a one-character separator: the pieces between separators, in order. */
  function Split(s: string, sep: char): (r: seq<string>)
    ensures |r| >= 1
    ensures forall i | 0 <= i < |r| :: sep !in r[i]
    decreases |s|
  {
    if |s| == 0 then [""]
    else
      var rest := Split(s[1..], sep);
      if s[0] == sep then [""] + rest
      else [[s[0]] + rest[0]] + rest[1..]
  }

  lemma {:induction false} SplitPiece(a: string, sep: char, rest: string)
    requires sep !in a
    ensures Split(a + [sep] + rest, sep) == [a] + Split(rest, sep)
    ensures Split(a, sep) == [a]
    decreases |a|
  {
    if |a| > 0 {
      SplitPiece(a[1..], sep, rest);
      assert (a + [sep] + rest)[1..] == a[1..] + [sep] + rest;
      assert [a[0]] + a[1..] == a;
    } else {
      assert a + [sep] + rest == [sep] + rest;
      assert ([sep] + rest)[1..] == rest;
    }
  }

  /** Splitting a join on a separator that no part contains gives the parts back. */
  lemma {:induction false} SplitJoin(parts: seq<string>, sep: char)
    requires |parts| >= 1
    requires forall i | 0 <= i < |parts| :: sep !in parts[i]
    ensures Split(Join(parts, [sep]), sep) == parts
    decreases |parts|
  {
    if |parts| == 1 {
      SplitPiece(parts[0], sep, "");
    } else {
      SplitJoin(parts[1..], sep);
      SplitPiece(parts[0], sep, Join(parts[1..], [sep]));
      assert [parts[0]] + parts[1..] == parts;
    }
  }
}
