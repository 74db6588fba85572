/** Models of the three string operations of Rust's `str` that the search
    relies on: `lines`, `contains` and `to_lowercase` (the last restricted
    to ASCII letters). Strings are sequences of Unicode scalar values. */
module Text {

  /** Index of the first '\n' in `s`, or |s| when `s` holds none. */
  function NewlineIndex(s: string): (i: nat)
    ensures i <= |s|
    ensures i < |s| ==> s[i] == '\n'
    ensures '\n' !in s[..i]
  {
    if s == [] || s[0] == '\n' then 0
    else
      var i := 1 + NewlineIndex(s[1..]);
      assert s[..i] == [s[0]] + s[1..][..i - 1];
      i
  }

  /** Drops a '\r' that ends a line terminated by '\n'. */
  function StripCr(line: string): string {
    if |line| > 0 && line[|line| - 1] == '\r' then line[..|line| - 1] else line
  }

  /** `str::lines`: splits at '\n' and at "\r\n". The final line ending is
      optional, so a trailing line ending adds no empty last line; a '\r'
      not followed by '\n' stays part of its line. */
  function Lines(s: string): seq<string>
    decreases |s|
  {
    if s == [] then []
    else
      var i := NewlineIndex(s);
      if i == |s| then [s]
      else [StripCr(s[..i])] + Lines(s[i + 1..])
  }

  /** A text holding a '\n' is its first line, a '\n', and the rest. */
  lemma FirstLine(s: string) returns (line: string, rest: string)
    requires '\n' in s
    ensures s == line + "\n" + rest && '\n' !in line
  {
    var i := NewlineIndex(s);
    assert s[..|s|] == s;
    line, rest := s[..i], s[i + 1..];
    assert s == s[..i] + [s[i]] + s[i + 1..];
  }

  /** `Lines` takes the text up to its first '\n' as the first line, less a
      final '\r', and splits the rest after it. */
  lemma LinesSplit(line: string, rest: string)
    requires '\n' !in line
    ensures Lines(line + "\n" + rest) == [StripCr(line)] + Lines(rest)
  {
    var s := line + "\n" + rest;
    NewlineIndexAfter(line, rest);
    assert s[..|line|] == line && s[|line| + 1..] == rest;
  }

  /** The first '\n' of `line + "\n" + rest` is the one after `line`. */
  lemma NewlineIndexAfter(line: string, rest: string)
    requires '\n' !in line
    ensures NewlineIndex(line + "\n" + rest) == |line|
  {
    var s := line + "\n" + rest;
    assert forall j :: 0 <= j < |line| ==> s[j] == line[j];
    assert forall j :: |line| < j <= |s| ==> s[..j][|line|] == '\n';
  }

  /** A text without line endings is a single line. */
  lemma LinesOfOneLine(l: string)
    requires l != [] && '\n' !in l
    ensures Lines(l) == [l]
  {
    assert l[..|l|] == l;
  }

  /** Stripping a '\r' leaves a prefix of the line. */
  lemma StripCrIsPrefix(line: string)
    ensures StripCr(line) == line[..|StripCr(line)|]
  {
  }

  /** No line holds a '\n', and only the empty text has no lines. */
  lemma {:induction false} LinesHaveNoLineEnding(s: string)
    ensures Lines(s) == [] <==> s == []
    ensures forall k :: 0 <= k < |Lines(s)| ==> '\n' !in Lines(s)[k]
    decreases |s|
  {
    if '\n' in s {
      var line, rest := FirstLine(s);
      LinesSplit(line, rest);
      StripCrIsPrefix(line);
      assert '\n' !in StripCr(line);
      LinesHaveNoLineEnding(rest);
      NoLineEndingCons(StripCr(line), Lines(rest));
    } else if s != [] {
      LinesOfOneLine(s);
    }
  }

  /** Prepending a line without '\n' to lines without '\n'. */
  lemma NoLineEndingCons(l: string, ls: seq<string>)
    requires '\n' !in l && forall k :: 0 <= k < |ls| ==> '\n' !in ls[k]
    ensures forall k :: 0 <= k < |[l] + ls| ==> '\n' !in ([l] + ls)[k]
  {
  }

  /** Number of '\n' characters in `s`. */
  function Newlines(s: string): nat {
    multiset(s)['\n']
  }

  /** One line per line ending, plus one for a last line left unterminated. */
  lemma {:induction false} LinesCount(s: string)
    ensures |Lines(s)| == Newlines(s) + (if s != [] && s[|s| - 1] != '\n' then 1 else 0)
    decreases |s|
  {
    if '\n' in s {
      var line, rest := FirstLine(s);
      LinesSplit(line, rest);
      assert multiset(s) == multiset(line) + multiset("\n") + multiset(rest);
      LinesCount(rest);
      if rest != [] {
        assert s[|s| - 1] == rest[|rest| - 1];
      }
    } else if s != [] {
      LinesOfOneLine(s);
    }
  }

  /** A final line ending changes nothing: `s` and `s` followed by "\r\n"
      have the same lines, and so do `s` and `s` followed by '\n' unless `s`
      ends in '\r'. */
  lemma {:induction false} FinalLineEndingIsOptional(s: string)
    requires s != [] && s[|s| - 1] != '\n'
    ensures Lines(s + "\r\n") == Lines(s)
    ensures s[|s| - 1] != '\r' ==> Lines(s + "\n") == Lines(s)
    decreases |s|
  {
    if '\n' in s {
      var line, rest := FirstLine(s);
      assert rest != [] && rest[|rest| - 1] == s[|s| - 1];
      assert s + "\r\n" == line + "\n" + (rest + "\r\n");
      assert s + "\n" == line + "\n" + (rest + "\n");
      LinesSplit(line, rest);
      LinesSplit(line, rest + "\r\n");
      LinesSplit(line, rest + "\n");
      FinalLineEndingIsOptional(rest);
    } else {
      LinesOfOneLine(s);
      assert s + "\r\n" == (s + "\r") + "\n" + [];
      LinesSplit(s + "\r", []);
      assert (s + "\r")[..|s|] == s;
      assert s + "\n" == s + "\n" + [];
      LinesSplit(s, []);
    }
  }

  /** Writes every line followed by '\n': the inverse of `Lines`. */
  function JoinLines(ls: seq<string>): string {
    if ls == [] then [] else ls[0] + "\n" + JoinLines(ls[1..])
  }

  /** `JoinLines` writes the first line, then '\n', then the others. */
  lemma JoinLinesCons(l: string, ls: seq<string>)
    ensures JoinLines([l] + ls) == l + "\n" + JoinLines(ls)
  {
    assert ([l] + ls)[1..] == ls;
  }

  /** A line `Lines` can give back unchanged: no '\n' and no final '\r'. */
  predicate IsPlainLine(l: string) {
    '\n' !in l && (l == [] || l[|l| - 1] != '\r')
  }

  /** A plain line followed by '\n' is the first line of the text. */
  lemma LinesCons(l: string, rest: string)
    requires IsPlainLine(l)
    ensures Lines(l + "\n" + rest) == [l] + Lines(rest)
  {
    LinesSplit(l, rest);
  }

  /** Splitting what `JoinLines` wrote gives the lines back. */
  lemma {:induction false} LinesOfJoinLines(ls: seq<string>)
    requires forall k :: 0 <= k < |ls| ==> IsPlainLine(ls[k])
    ensures Lines(JoinLines(ls)) == ls
  {
    if ls != [] {
      LinesCons(ls[0], JoinLines(ls[1..]));
      LinesOfJoinLines(ls[1..]);
    }
  }

  /** `s` ended by a '\n': the text `JoinLines(Lines(s))` gives back. */
  function Rejoined(s: string): string {
    if s == [] || s[|s| - 1] == '\n' then s else s + "\n"
  }

  /** Joining the lines of a text without '\r' gives the text back, with a
      line ending added when its last line had none. */
  lemma {:induction false} JoinLinesOfLines(s: string)
    requires '\r' !in s
    ensures JoinLines(Lines(s)) == Rejoined(s)
    decreases |s|
  {
    if '\n' in s {
      var line, rest := FirstLine(s);
      assert line != [] ==> line[|line| - 1] in s;
      LinesCons(line, rest);
      JoinLinesCons(line, Lines(rest));
      JoinLinesOfLines(rest);
      RejoinedCons(line, rest);
    } else if s != [] {
      LinesOfOneLine(s);
      JoinLinesCons(s, []);
    }
  }

  /** How `line + "\n" + rest` ends decides whether a '\n' is added. */
  lemma RejoinedCons(line: string, rest: string)
    ensures line + "\n" + Rejoined(rest) == Rejoined(line + "\n" + rest)
  {
    var s := line + "\n" + rest;
    if rest != [] {
      assert s[|s| - 1] == rest[|rest| - 1];
    }
  }

  /** `pattern` occurs in `text` starting at index `i`. */
  ghost predicate OccursAt(text: string, pattern: string, i: int) {
    0 <= i && i + |pattern| <= |text| && text[i..i + |pattern|] == pattern
  }

  /** `str::contains` with a string pattern. */
  function Contains(text: string, pattern: string): (r: bool)
    ensures r <==> exists i :: OccursAt(text, pattern, i)
    decreases |text|
  {
    if |pattern| > |text| then false
    else if text[..|pattern|] == pattern then assert OccursAt(text, pattern, 0); true
    else ShiftOccurrences(text, pattern); Contains(text[1..], pattern)
  }

  /** Occurrences in `text[1..]` are the occurrences in `text` past index 0. */
  lemma ShiftOccurrences(text: string, pattern: string)
    requires text != [] && !OccursAt(text, pattern, 0)
    ensures (exists i :: OccursAt(text, pattern, i)) <==> (exists j :: OccursAt(text[1..], pattern, j))
  {
    forall i | OccursAt(text, pattern, i)
      ensures OccursAt(text[1..], pattern, i - 1)
    {
      assert text[1..][i - 1..i - 1 + |pattern|] == text[i..i + |pattern|];
    }
    forall j | OccursAt(text[1..], pattern, j)
      ensures OccursAt(text, pattern, j + 1)
    {
      assert text[1..][j..j + |pattern|] == text[j + 1..j + 1 + |pattern|];
    }
  }

  /** The empty pattern is contained in every text. */
  lemma ContainsEmpty(text: string)
    ensures Contains(text, "")
  {
    assert OccursAt(text, "", 0);
  }

  /** A text cannot contain a pattern holding a character the text lacks. */
  lemma MissingCharacter(text: string, pattern: string, c: char)
    requires c in pattern && c !in text
    ensures !Contains(text, pattern)
  {
  }

  /** An occurrence of a pattern cannot straddle a character the pattern
      lacks: it lies wholly on one side of it. */
  lemma {:induction false} OccurrenceSide(a: string, c: char, b: string, pattern: string)
    requires c !in pattern
    ensures Contains(a + [c] + b, pattern) ==> Contains(a, pattern) || Contains(b, pattern)
  {
    var t := a + [c] + b;
    if Contains(t, pattern) {
      var i :| OccursAt(t, pattern, i);
      if i + |pattern| <= |a| {
        assert a[i..i + |pattern|] == t[i..i + |pattern|];
        assert OccursAt(a, pattern, i);
      } else if i > |a| {
        assert b[i - |a| - 1..i - |a| - 1 + |pattern|] == t[i..i + |pattern|];
        assert OccursAt(b, pattern, i - |a| - 1);
      } else {
        OccurrenceCharacter(t, pattern, i, |a|);
        assert false;
      }
    }
  }

  /** Each character an occurrence covers is a character of the pattern. */
  lemma OccurrenceCharacter(text: string, pattern: string, i: int, j: int)
    requires OccursAt(text, pattern, i) && i <= j < i + |pattern|
    ensures text[j] in pattern
  {
    assert text[j] == text[i..i + |pattern|][j - i];
  }

  /** ASCII lowercasing of one character. */
  function LowerChar(c: char): char {
    if 'A' <= c <= 'Z' then (c as int - 'A' as int + 'a' as int) as char else c
  }

  /** `str::to_lowercase`, restricted to ASCII: 'A'..'Z' become 'a'..'z',
      every other character is kept. */
  function Lower(s: string): (r: string)
    ensures |r| == |s|
    ensures forall k :: 0 <= k < |s| ==> !('A' <= r[k] <= 'Z')
    ensures forall k :: 0 <= k < |s| && !('A' <= s[k] <= 'Z') ==> r[k] == s[k]
    ensures forall k :: 0 <= k < |s| && 'A' <= s[k] <= 'Z' ==> r[k] as int - s[k] as int == 'a' as int - 'A' as int
  {
    seq(|s|, k requires 0 <= k < |s| => LowerChar(s[k]))
  }

  /** Lowercasing twice is lowercasing once. */
  lemma LowerIdempotent(s: string)
    ensures Lower(Lower(s)) == Lower(s)
  {
  }
}
