/**
 * The PHP string built-ins the extension uses (`str_replace` with one character,
 * `rtrim`, `strtolower`, `strpos`, `substr`, `implode`), on strings as sequences
 * of characters.
 */
module PhpStrings {
  import opened Wrappers

  /** `str_replace($from, $to, $s)` for a one-character search string. */
  function ReplaceChar(s: string, from: char, to: char): (r: string)
    ensures |r| == |s|
    ensures from != to ==> from !in r
  {
    if s == [] then [] else [if s[0] == from then to else s[0]] + ReplaceChar(s[1..], from, to)
  }

  /** Every occurrence of `from` becomes `to`; every other character stays. */
  lemma {:induction false} ReplaceCharPointwise(s: string, from: char, to: char)
    ensures forall i :: 0 <= i < |s| ==> ReplaceChar(s, from, to)[i] == if s[i] == from then to else s[i]
  {
    if s != [] {
      ReplaceCharPointwise(s[1..], from, to);
    }
  }

  /** `str_replace` works on each part of a concatenation separately. */
  lemma {:induction false} ReplaceCharAppend(a: string, b: string, from: char, to: char)
    ensures ReplaceChar(a + b, from, to) == ReplaceChar(a, from, to) + ReplaceChar(b, from, to)
  {
    if a == [] {
      assert a + b == b;
    } else {
      assert (a + b)[1..] == a[1..] + b;
      ReplaceCharAppend(a[1..], b, from, to);
    }
  }

  /** A string without the searched character is left as it is. */
  lemma ReplaceCharAbsent(s: string, from: char, to: char)
    requires from !in s
    ensures ReplaceChar(s, from, to) == s
  {
    ReplaceCharPointwise(s, from, to);
  }

  /**
   * `rtrim($s, $chars)`: the longest prefix of `s` that does not end in a
   * character of `cs` (RTrimDropped states that it is the longest).
   */
  function RTrim(s: string, cs: set<char>): (r: string)
    ensures r <= s
    ensures r == [] || r[|r| - 1] !in cs
    decreases |s|
  {
    if s != [] && s[|s| - 1] in cs then RTrim(s[..|s| - 1], cs) else s
  }

  /** What `rtrim` drops consists of characters of `cs` only. */
  lemma {:induction false} RTrimDropped(s: string, cs: set<char>)
    ensures forall i :: |RTrim(s, cs)| <= i < |s| ==> s[i] in cs
    decreases |s|
  {
    if s != [] && s[|s| - 1] in cs {
      RTrimDropped(s[..|s| - 1], cs);
    }
  }

  /** The three properties in RTrim's contract determine its result. */
  lemma RTrimUnique(s: string, cs: set<char>, t: string)
    requires t <= s
    requires t == [] || t[|t| - 1] !in cs
    requires forall i :: |t| <= i < |s| ==> s[i] in cs
    ensures t == RTrim(s, cs)
  {
    var r := RTrim(s, cs);
    RTrimDropped(s, cs);
    assert r != [] ==> s[|r| - 1] == r[|r| - 1];
    assert t != [] ==> s[|t| - 1] == t[|t| - 1];
  }

  /** Trimming a suffix that is already trimmed by a smaller set changes nothing. */
  lemma {:induction false} RTrimAppendTrimmed(a: string, y: string, ds: set<char>, cs: set<char>)
    requires ds <= cs
    ensures RTrim(a + RTrim(y, ds), cs) == RTrim(a + y, cs)
    decreases |y|
  {
    if y != [] && y[|y| - 1] in ds {
      var y' := y[..|y| - 1];
      assert (a + y)[..|a + y| - 1] == a + y';
      RTrimAppendTrimmed(a, y', ds, cs);
    }
  }

  /** A head that does not end in a trimmed character is never touched. */
  lemma RTrimKeepsHead(x: string, y: string, cs: set<char>)
    requires x == [] || x[|x| - 1] !in cs
    ensures RTrim(x + y, cs) == x + RTrim(y, cs)
  {
    var t := x + RTrim(y, cs);
    RTrimDropped(y, cs);
    forall i | |t| <= i < |x + y| ensures (x + y)[i] in cs {
      assert (x + y)[i] == y[i - |x|];
    }
    RTrimUnique(x + y, cs, t);
  }

  /** A string made of trimmed characters only trims to nothing. */
  lemma RTrimAll(s: string, cs: set<char>)
    requires forall i :: 0 <= i < |s| ==> s[i] in cs
    ensures RTrim(s, cs) == []
  {
    RTrimUnique(s, cs, []);
  }

  /** `strtolower` on one character: only ASCII letters change (PHP 8.2). */
  function LowerChar(c: char): char {
    if 'A' <= c <= 'Z' then (c as int + ('a' as int - 'A' as int)) as char else c
  }

  /** `strtolower($s)`. */
  function ToLower(s: string): (r: string)
    ensures |r| == |s|
    ensures forall i :: 0 <= i < |s| ==> r[i] == LowerChar(s[i])
  {
    if s == [] then [] else [LowerChar(s[0])] + ToLower(s[1..])
  }

  /** Case-insensitive comparison, character by character. */
  predicate EqualsIgnoreCase(a: string, b: string) {
    |a| == |b| && forall i :: 0 <= i < |a| ==> LowerChar(a[i]) == LowerChar(b[i])
  }

  /** `strpos($s, $c)`: the first position of `c`, or `false` (None). */
  function IndexOf(s: string, c: char): (r: Option<nat>)
    ensures r.Some? ==> r.value < |s| && s[r.value] == c && c !in s[..r.value]
    ensures r.None? ==> c !in s
  {
    if s == [] then None
    else if s[0] == c then Some(0)
    else match IndexOf(s[1..], c)
      case None => None
      case Some(i) => Some(i + 1)
  }

  /**
   * `substr($s, $start, $length)` for `0 <= start <= |s|` (PHP 8.2): a
   * negative length leaves that many characters off the end, and an empty string
   * comes back when nothing is left.
   */
  function Substr(s: string, start: nat, length: int): (r: string)
    requires start <= |s|
    ensures start + |r| <= |s| && r == s[start..start + |r|]
    ensures |r| == if length >= 0 then (if start + length <= |s| then length else |s| - start)
                   else (if |s| + length >= start then |s| + length - start else 0)
  {
    if length >= 0 then s[start..if start + length <= |s| then start + length else |s|]
    else if |s| + length >= start then s[start..|s| + length]
    else ""
  }

  /** `implode($sep, $parts)`. */
  function Join(parts: seq<string>, sep: string): string {
    if parts == [] then ""
    else if |parts| == 1 then parts[0]
    else parts[0] + sep + Join(parts[1..], sep)
  }

  /** `t` occurs in `s` at position `i`. */
  predicate OccursAt(s: string, t: string, i: nat) {
    i + |t| <= |s| && s[i..i + |t|] == t
  }

  /** `t` occurs somewhere in `s`. */
  ghost predicate Contains(s: string, t: string) {
    exists i: nat :: OccursAt(s, t, i)
  }

  lemma ContainsExtended(a: string, s: string, b: string, t: string)
    requires Contains(s, t)
    ensures Contains(a + s + b, t)
  {
    var i: nat :| OccursAt(s, t, i);
    assert (a + s + b)[|a| + i..|a| + i + |t|] == s[i..i + |t|];
    assert OccursAt(a + s + b, t, |a| + i);
  }

  /** `implode` keeps every part it joins. */
  lemma {:induction false} JoinContainsParts(parts: seq<string>, sep: string, k: nat)
    requires k < |parts|
    ensures Contains(Join(parts, sep), parts[k])
  {
    if |parts| == 1 || k == 0 {
      var j := Join(parts, sep);
      assert j[..|parts[0]|] == parts[0];
      assert OccursAt(j, parts[0], 0);
    } else {
      JoinContainsParts(parts[1..], sep, k - 1);
      ContainsExtended(parts[0] + sep, Join(parts[1..], sep), "", parts[k]);
      assert parts[0] + sep + Join(parts[1..], sep) + "" == Join(parts, sep);
    }
  }
}
