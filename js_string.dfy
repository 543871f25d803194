/**
 * The JavaScript string primitives that the storefront's command and form
 * handlers are built from: `toLowerCase`, `trim`, `includes`, `startsWith`,
 * `endsWith`, `replace(literal, "")`, `split(" ")`, `join`, and the three
 * anchored regular expressions the voice classifier strips phrases with.
 */
module JsString {
  import opened Wrappers

  // ---------------------------------------------------------------------------
  // Characters

  /** The characters that `String.prototype.trim` removes and that the regular
      expression class `\s` matches: ECMAScript WhiteSpace and LineTerminator. */
  predicate IsSpace(c: char) {
    c == ' ' || c == '\t' || c == '\n' || c == '\r' || c == '\U{000B}' || c == '\U{000C}'
    || c == '\U{00A0}' || c == '\U{1680}' || ('\U{2000}' <= c <= '\U{200A}')
    || c == '\U{2028}' || c == '\U{2029}' || c == '\U{202F}' || c == '\U{205F}'
    || c == '\U{3000}' || c == '\U{FEFF}'
  }

  /** ECMAScript LineTerminator: the characters the regular expression `.` does not match. */
  predicate IsLineTerminator(c: char) {
    c == '\n' || c == '\r' || c == '\U{2028}' || c == '\U{2029}'
  }

  predicate IsAsciiUpper(c: char) { 'A' <= c <= 'Z' }
  predicate IsAsciiLower(c: char) { 'a' <= c <= 'z' }
  predicate IsDigit(c: char) { '0' <= c <= '9' }

  function LowerChar(c: char): (r: char)
    ensures !IsAsciiUpper(r)
    ensures IsAsciiUpper(c) ==> IsAsciiLower(r) && r as int == c as int + 32
    ensures !IsAsciiUpper(c) ==> r == c
  {
    if IsAsciiUpper(c) then (c as int + 32) as char else c
  }

  function UpperChar(c: char): (r: char)
    ensures IsAsciiLower(c) ==> IsAsciiUpper(r) && LowerChar(r) == c
    ensures !IsAsciiLower(c) ==> r == c
  {
    if IsAsciiLower(c) then (c as int - 32) as char else c
  }

  /** `s.toLowerCase()`, restricted to the ASCII letters. */
  function Lower(s: string): (r: string)
    ensures |r| == |s|
    ensures forall i :: 0 <= i < |s| ==> r[i] == LowerChar(s[i])
  {
    seq(|s|, i requires 0 <= i < |s| => LowerChar(s[i]))
  }

  predicate HasNoUpper(s: string) {
    forall i :: 0 <= i < |s| ==> !IsAsciiUpper(s[i])
  }

  /** Lower-casing leaves nothing to lower-case, so doing it twice changes nothing. */
  lemma LowerIdempotent(s: string)
    ensures HasNoUpper(Lower(s))
    ensures Lower(Lower(s)) == Lower(s)
  {
    assert forall i :: 0 <= i < |s| ==> Lower(Lower(s))[i] == Lower(s)[i];
  }

  // ---------------------------------------------------------------------------
  // Searching

  /** `pat` occurs in `s` starting at position `i`. */
  predicate OccursAt(s: string, pat: string, i: nat) {
    i + |pat| <= |s| && s[i..i + |pat|] == pat
  }

  /** `s.indexOf(pat, k)`: the first position at or after `k` where `pat` occurs. */
  function IndexFrom(s: string, pat: string, k: nat): (r: Option<nat>)
    requires k <= |s|
    ensures r.Some? ==> k <= r.value && OccursAt(s, pat, r.value)
    ensures r.Some? ==> forall j: nat :: k <= j < r.value ==> !OccursAt(s, pat, j)
    ensures r.None? ==> forall j: nat :: k <= j ==> !OccursAt(s, pat, j)
    decreases |s| - k
  {
    if k + |pat| > |s| then None
    else if s[k..k + |pat|] == pat then Some(k)
    else IndexFrom(s, pat, k + 1)
  }

  /** `s.indexOf(pat)`, with -1 rendered as `None`. */
  function IndexOf(s: string, pat: string): (r: Option<nat>)
    ensures r.Some? ==> OccursAt(s, pat, r.value)
    ensures r.Some? ==> forall j: nat :: j < r.value ==> !OccursAt(s, pat, j)
    ensures r.None? ==> forall j: nat :: !OccursAt(s, pat, j)
  {
    IndexFrom(s, pat, 0)
  }

  /** An occurrence with none before it is the one `indexOf` finds. */
  lemma FirstOccurrence(s: string, pat: string, i: nat)
    requires OccursAt(s, pat, i)
    requires forall j: nat :: j < i ==> !OccursAt(s, pat, j)
    ensures IndexOf(s, pat) == Some(i)
  {
  }

  /** `s.includes(pat)`. */
  predicate Contains(s: string, pat: string) {
    IndexOf(s, pat).Some?
  }

  lemma ContainsAt(s: string, pat: string, i: nat)
    requires OccursAt(s, pat, i)
    ensures Contains(s, pat)
  {
  }

  /** A string that holds `pat` holds every character of `pat`. */
  lemma ContainsChars(s: string, pat: string, k: nat)
    requires Contains(s, pat) && k < |pat|
    ensures pat[k] in s
  {
    var i := IndexOf(s, pat).value;
    assert s[i + k] == pat[k];
  }

  /** A pattern longer than the text never occurs in it. */
  lemma TooLong(s: string, pat: string)
    requires |s| < |pat|
    ensures !Contains(s, pat)
  {
  }

  /** A character of `pat` that `s` lacks rules out `s.includes(pat)`. */
  lemma MissingChar(s: string, pat: string, k: nat)
    requires k < |pat| && pat[k] !in s
    ensures !Contains(s, pat)
  {
    if Contains(s, pat) {
      ContainsChars(s, pat, k);
    }
  }

  /** `s.startsWith(p)`. */
  predicate StartsWith(s: string, p: string) {
    |p| <= |s| && s[..|p|] == p
  }

  /** `s.endsWith(p)`. */
  predicate EndsWith(s: string, p: string) {
    |p| <= |s| && s[|s| - |p|..] == p
  }

  // ---------------------------------------------------------------------------
  // Replacing

  /** `s.replace(pat, "")` with a string pattern: only the FIRST occurrence is removed. */
  function ReplaceFirst(s: string, pat: string): (r: string)
    ensures !Contains(s, pat) ==> r == s
    ensures Contains(s, pat) ==>
      var i := IndexOf(s, pat).value;
      |r| == |s| - |pat| && r[..i] == s[..i] && r[i..] == s[i + |pat|..]
  {
    match IndexOf(s, pat)
    case None => s
    case Some(i) => s[..i] + s[i + |pat|..]
  }

  /** When the text starts with the pattern, the first occurrence is the prefix. */
  lemma ReplaceFirstPrefix(s: string, p: string)
    requires StartsWith(s, p)
    ensures ReplaceFirst(s, p) == s[|p|..]
  {
    assert OccursAt(s, p, 0);
    FirstOccurrence(s, p, 0);
    assert s[..0] == [];
  }

  /** Replacing removes the occurrence no other occurrence precedes. */
  lemma ReplaceFirstAt(s: string, pat: string, i: nat)
    requires OccursAt(s, pat, i)
    requires forall j: nat :: j < i ==> !OccursAt(s, pat, j)
    ensures ReplaceFirst(s, pat) == s[..i] + s[i + |pat|..]
  {
    FirstOccurrence(s, pat, i);
  }

  lemma ReplacePrefixOf(p: string, rest: string)
    ensures ReplaceFirst(p + rest, p) == rest
  {
    var s := p + rest;
    assert s[..|p|] == p && s[|p|..] == rest;
    ReplaceFirstPrefix(s, p);
  }

  /** A pattern that occurs only at the very end is cut off there. */
  lemma ReplaceAtEnd(head: string, p: string)
    requires forall j: nat :: OccursAt(head + p, p, j) ==> j == |head|
    ensures ReplaceFirst(head + p, p) == head
  {
    var s := head + p;
    assert s[|head|..|head| + |p|] == p;
    ReplaceFirstAt(s, p, |head|);
    assert s[..|head|] == head && s[|head| + |p|..] == [];
  }

  /** A pattern that starts with no blank, right after a leading blank, is the
      first occurrence. */
  lemma ReplaceAfterBlank(p: string, name: string)
    requires p != [] && !IsSpace(p[0])
    ensures ReplaceFirst(" " + p + " " + name, p) == "  " + name
  {
    var s := " " + p + " " + name;
    assert s[1..1 + |p|] == p;
    assert !OccursAt(s, p, 0) by {
      assert s[0] == ' ';
    }
    ReplaceFirstAt(s, p, 1);
    assert s[..1] + s[1 + |p|..] == "  " + name;
  }

  // ---------------------------------------------------------------------------
  // Trimming

  predicate AllSpace(s: string) {
    forall i :: 0 <= i < |s| ==> IsSpace(s[i])
  }

  /** The number of whitespace characters at the start of `s`. */
  function LeadingSpaces(s: string): (k: nat)
    ensures k <= |s| && AllSpace(s[..k])
    ensures k < |s| ==> !IsSpace(s[k])
  {
    if |s| > 0 && IsSpace(s[0]) then 1 + LeadingSpaces(s[1..]) else 0
  }

  /** The number of whitespace characters at the end of `s`. */
  function TrailingSpaces(s: string): (k: nat)
    ensures k <= |s| && AllSpace(s[|s| - k..])
    ensures k < |s| ==> !IsSpace(s[|s| - k - 1])
  {
    if |s| > 0 && IsSpace(s[|s| - 1]) then 1 + TrailingSpaces(s[..|s| - 1]) else 0
  }

  /** `s.trimStart()` */
  function TrimLeft(s: string): string {
    s[LeadingSpaces(s)..]
  }

  /** `s.trimEnd()` */
  function TrimRight(s: string): string {
    s[..|s| - TrailingSpaces(s)]
  }

  /** `s.trim()` */
  function Trim(s: string): (r: string)
    ensures |r| <= |s|
    ensures r != [] ==> !IsSpace(r[0]) && !IsSpace(r[|r| - 1])
  {
    TrimRight(TrimLeft(s))
  }

  /** The trim is a slice of `s` that cuts off only whitespace. */
  lemma TrimCuts(s: string)
    ensures exists a, b :: 0 <= a <= b <= |s| && Trim(s) == s[a..b] && AllSpace(s[..a]) && AllSpace(s[b..])
  {
    var t := TrimLeft(s);
    var a := LeadingSpaces(s);
    var b := |s| - TrailingSpaces(t);
    TrimLeftCut(s);
    TrimRightCut(t);
    assert s[a..][..b - a] == s[a..b];
    assert s[a..][b - a..] == s[b..];
    assert Trim(s) == s[a..b] && AllSpace(s[..a]) && AllSpace(s[b..]);
  }

  lemma TrimLeftCut(s: string)
    ensures TrimLeft(s) == s[LeadingSpaces(s)..]
    ensures AllSpace(s[..LeadingSpaces(s)])
  {
  }

  lemma TrimRightCut(t: string)
    ensures TrimRight(t) == t[..|t| - TrailingSpaces(t)]
    ensures AllSpace(t[|t| - TrailingSpaces(t)..])
  {
  }

  /** `!s.trim()`: the string is blank exactly when it is all whitespace. */
  lemma BlankIffAllSpace(s: string)
    ensures Trim(s) == "" <==> AllSpace(s)
  {
    var t := TrimLeft(s);
    if AllSpace(s) {
      AllSpaceLeading(s);
    } else {
      var k := LeadingSpaces(s);
      assert k < |s| && !IsSpace(s[k]);
      assert t != [] && !IsSpace(t[0]);
      assert TrailingSpaces(t) < |t|;
    }
  }

  lemma {:induction false} AllSpaceLeading(s: string)
    requires AllSpace(s)
    ensures LeadingSpaces(s) == |s|
  {
    if |s| > 0 {
      AllSpaceLeading(s[1..]);
    }
  }

  /** A string with no whitespace at either end is its own trim. */
  lemma TrimNoop(s: string)
    requires s == [] || (!IsSpace(s[0]) && !IsSpace(s[|s| - 1]))
    ensures Trim(s) == s
  {
  }

  /** A blank in front changes nothing about the trim. */
  lemma TrimLeadingBlank(c: char, s: string)
    requires IsSpace(c)
    ensures Trim([c] + s) == Trim(s)
  {
    assert ([c] + s)[1..] == s;
    assert TrimLeft([c] + s) == TrimLeft(s);
  }

  /** One blank on either side of a trimmed word is all `trim` removes. */
  lemma TrimPadded(name: string)
    requires name != [] && !IsSpace(name[0]) && !IsSpace(name[|name| - 1])
    ensures Trim(" " + name + " ") == name
  {
    var padded := " " + name + " ";
    assert padded[1..] == name + " ";
    assert LeadingSpaces(name + " ") == 0;
    assert TrimLeft(padded) == name + " ";
    assert (name + " ")[..|name|] == name;
    assert TrailingSpaces(name) == 0;
    assert TrailingSpaces(name + " ") == 1;
  }

  lemma TrimTwoBlanks(name: string)
    requires name != [] && !IsSpace(name[0]) && !IsSpace(name[|name| - 1])
    ensures Trim("  " + name) == name
  {
    assert "  " + name == [' '] + ([' '] + name);
    TrimLeadingBlank(' ', [' '] + name);
    TrimLeadingBlank(' ', name);
    TrimNoop(name);
  }

  lemma TrimIdempotent(s: string)
    ensures Trim(Trim(s)) == Trim(s)
  {
    TrimNoop(Trim(s));
  }

  // ---------------------------------------------------------------------------
  // The anchored regular expressions of the voice classifier (the input is
  // already lower-case, so their `i` flag changes nothing)

  /** `s.replace(/^word\s+/i, "")`: the word and the whole whitespace run after it. */
  function StripLeadingWord(s: string, word: string): (r: string)
    ensures !(StartsWith(s, word) && |s| > |word| && IsSpace(s[|word|])) ==> r == s
  {
    if StartsWith(s, word) && |s| > |word| && IsSpace(s[|word|]) then TrimLeft(s[|word|..])
    else s
  }

  /** Where the expression matches, what is left is `s` without the word and
      the blanks after it, and it starts with no blank. */
  lemma StripLeadingWordCuts(s: string, word: string)
    requires StartsWith(s, word) && |s| > |word| && IsSpace(s[|word|])
    ensures var r := StripLeadingWord(s, word);
      |r| < |s| - |word| && s == word + s[|word|..|s| - |r|] + r
      && AllSpace(s[|word|..|s| - |r|]) && (r == [] || !IsSpace(r[0]))
  {
    var t := s[|word|..];
    var m := LeadingSpaces(t);
    var gap := t[..m];
    var r := t[m..];
    assert s == word + t;
    assert t == gap + r;
    assert s[|word|..|s| - |r|] == gap;
    TrimLeftSplit(t);
    assert StripLeadingWord(s, word) == r;
  }

  /** A string starting with a blank loses at least that blank to `trimStart`,
      and only blanks. */
  lemma TrimLeftSplit(t: string)
    requires |t| > 0 && IsSpace(t[0])
    ensures var r := TrimLeft(t);
      |r| < |t| && t == t[..|t| - |r|] + r && AllSpace(t[..|t| - |r|]) && (r == [] || !IsSpace(r[0]))
  {
    var k := LeadingSpaces(t);
    assert TrimLeft(t) == t[k..];
    assert t[..|t| - |t[k..]|] == t[..k];
  }

  /** `s.replace(/\s+phrase$/i, "")`: the phrase at the very end and the whole
      whitespace run before it (the leftmost match starts at that run). */
  function StripTrailingPhrase(s: string, phrase: string): (r: string)
    ensures !(EndsWith(s, phrase) && |s| > |phrase| && IsSpace(s[|s| - |phrase| - 1])) ==> r == s
  {
    if EndsWith(s, phrase) && |s| > |phrase| && IsSpace(s[|s| - |phrase| - 1]) then
      TrimRight(s[..|s| - |phrase|])
    else s
  }

  /** Where the expression matches, what is left is `s` without the phrase and
      the blanks before it, and it ends with no blank. */
  lemma StripTrailingPhraseCuts(s: string, phrase: string)
    requires EndsWith(s, phrase) && |s| > |phrase| && IsSpace(s[|s| - |phrase| - 1])
    ensures var r := StripTrailingPhrase(s, phrase);
      |r| < |s| - |phrase| && s == r + s[|r|..|s| - |phrase|] + phrase
      && AllSpace(s[|r|..|s| - |phrase|]) && (r == [] || !IsSpace(r[|r| - 1]))
  {
    var t := s[..|s| - |phrase|];
    assert s == t + phrase;
    TrimRightSplit(t);
    var r := TrimRight(t);
    assert StripTrailingPhrase(s, phrase) == r;
    assert s[|r|..|s| - |phrase|] == t[|r|..];
  }

  /** A string ending in a blank loses at least that blank to `trimEnd`, and
      only blanks. */
  lemma TrimRightSplit(t: string)
    requires |t| > 0 && IsSpace(t[|t| - 1])
    ensures var r := TrimRight(t);
      |r| < |t| && t == r + t[|r|..] && AllSpace(t[|r|..]) && (r == [] || !IsSpace(r[|r| - 1]))
  {
    var k := TrailingSpaces(t);
    assert TrimRight(t) == t[..|t| - k];
  }

  // ---------------------------------------------------------------------------
  // Splitting and joining

  /** `s.split(c)` for a one-character separator: every piece, empty ones included. */
  function SplitOn(s: string, c: char): (r: seq<string>)
    ensures |r| >= 1
    ensures forall k :: 0 <= k < |r| ==> c !in r[k]
  {
    if |s| == 0 then [""]
    else
      var rest := SplitOn(s[1..], c);
      if s[0] == c then [""] + rest else [[s[0]] + rest[0]] + rest[1..]
  }

  /** `parts.join(sep)`; an empty array joins to "". */
  function Join(parts: seq<string>, sep: string): (r: string)
    ensures |parts| == 1 ==> r == parts[0]
  {
    if |parts| == 0 then ""
    else if |parts| == 1 then parts[0]
    else parts[0] + sep + Join(parts[1..], sep)
  }

  /** Joining one more part appends the separator and the part. */
  lemma {:induction false} JoinAppend(parts: seq<string>, last: string, sep: string)
    requires parts != []
    ensures Join(parts + [last], sep) == Join(parts, sep) + sep + last
  {
    if |parts| > 1 {
      assert (parts + [last])[1..] == parts[1..] + [last];
      JoinAppend(parts[1..], last, sep);
    } else {
      assert (parts + [last])[1..] == [last];
    }
  }

  /** Splitting on a character and joining the pieces back with it restores the text. */
  lemma {:induction false} SplitJoin(s: string, c: char)
    ensures Join(SplitOn(s, c), [c]) == s
  {
    if |s| > 0 {
      var rest := SplitOn(s[1..], c);
      SplitJoin(s[1..], c);
      if s[0] == c {
        assert SplitOn(s, c) == [""] + rest;
        assert Join(SplitOn(s, c), [c]) == "" + [c] + Join(rest, [c]);
      } else {
        var r := [[s[0]] + rest[0]] + rest[1..];
        assert SplitOn(s, c) == r;
        if |rest| == 1 {
          assert Join(r, [c]) == [s[0]] + rest[0];
        } else {
          assert r[1..] == rest[1..];
          assert Join(rest, [c]) == rest[0] + [c] + Join(rest[1..], [c]);
          assert Join(r, [c]) == [s[0]] + rest[0] + [c] + Join(rest[1..], [c]);
        }
      }
    }
  }
}
