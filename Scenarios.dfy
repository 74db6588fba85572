/** The two search scenarios of the library's unit tests, proved about the
    specification that both search methods are verified against. */
module Scenarios {
  import opened Text
  import opened Grep

  /** The first three lines shared by both test texts, each ended by '\n'. */
  const Poem: string := "Rust:\n" + "safe, fast, productive.\n" + "Pick three.\n"

  /** A plain line ended by '\n', then one unterminated line. */
  lemma LinesOfTwo(c: string, d: string)
    requires IsPlainLine(c) && d != [] && '\n' !in d
    ensures Lines(c + "\n" + d) == [c, d]
  {
    LinesOfOneLine(d);
    LinesCons(c, d);
  }

  /** Three plain lines, each ended by '\n', then one unterminated line. */
  lemma LinesOfFour(a: string, b: string, c: string, d: string)
    requires IsPlainLine(a) && IsPlainLine(b) && IsPlainLine(c)
    requires d != [] && '\n' !in d
    ensures Lines(a + "\n" + (b + "\n" + (c + "\n" + d))) == [a, b, c, d]
  {
    LinesOfTwo(c, d);
    LinesCons(b, c + "\n" + d);
    LinesCons(a, b + "\n" + (c + "\n" + d));
  }

  /** `Poem` is its three lines, each followed by '\n'. */
  lemma PoemParts(last: string)
    ensures Poem + last == "Rust:" + "\n" + ("safe, fast, productive." + "\n" + ("Pick three." + "\n" + last))
    ensures IsPlainLine("Rust:") && IsPlainLine("safe, fast, productive.") && IsPlainLine("Pick three.")
  {
  }

  /** The lines of `Poem` followed by one last unterminated line. */
  lemma LinesOfPoem(last: string)
    requires last != [] && '\n' !in last
    ensures Lines(Poem + last) == ["Rust:", "safe, fast, productive.", "Pick three.", last]
  {
    PoemParts(last);
    LinesOfFour("Rust:", "safe, fast, productive.", "Pick three.", last);
  }

  /** Unfolds `Filter` over a list of four lines. */
  lemma FilterFour(query: string, a: string, b: string, c: string, d: string, caseSensitive: bool)
    ensures Filter(query, [a, b, c, d], caseSensitive) ==
      Kept(a, query, caseSensitive) + Kept(b, query, caseSensitive) +
      Kept(c, query, caseSensitive) + Kept(d, query, caseSensitive)
  {
    var cd := [c] + [d];
    var bcd := [b] + cd;
    assert [a, b, c, d] == [a] + bcd;
    FilterConcat(query, [c], [d], caseSensitive);
    FilterConcat(query, [b], cd, caseSensitive);
    FilterConcat(query, [a], bcd, caseSensitive);
  }

  /** "Rust:" has no 'd', so it does not contain "duct". */
  lemma DuctNotInRust()
    ensures !Contains("Rust:", "duct")
  {
    MissingCharacter("Rust:", "duct", 'd');
  }

  /** "safe, fast, productive." contains "duct" at index 15. */
  lemma DuctInProductive()
    ensures Contains("safe, fast, productive.", "duct")
  {
    assert "safe, fast, productive."[15..19] == "duct";
    assert OccursAt("safe, fast, productive.", "duct", 15);
  }

  /** "Pick three." has no 'd'. */
  lemma DuctNotInPick()
    ensures !Contains("Pick three.", "duct")
  {
    MissingCharacter("Pick three.", "duct", 'd');
  }

  /** "Duct tape" has a 'D' but no 'd': the test is case-sensitive. */
  lemma DuctNotInDuctTape()
    ensures !Contains("Duct tape", "duct")
  {
    MissingCharacter("Duct tape", "duct", 'd');
  }

  /** Case-sensitive search for "duct" keeps only "safe, fast, productive."
      and not "Duct tape". */
  lemma CaseSensitiveScenario()
    ensures Filter("duct", Lines(Poem + "Duct tape"), true) == ["safe, fast, productive."]
  {
    LinesOfPoem("Duct tape");
    FilterFour("duct", "Rust:", "safe, fast, productive.", "Pick three.", "Duct tape", true);
    DuctNotInRust();
    DuctInProductive();
    DuctNotInPick();
    DuctNotInDuctTape();
  }

  /** The lowercased query of the second test. */
  lemma LowercasedQuery()
    ensures Lower("rUsT") == "rust"
  {
  }

  /** The lowercased lines of the second test. */
  lemma LowercasedLines()
    ensures Lower("Rust:") == "rust:"
    ensures Lower("Pick three.") == "pick three."
    ensures Lower("Trust me.") == "trust me."
  {
  }

  /** The second line of the second test has no capital letter. */
  lemma LowercasedSecondLine()
    ensures Lower("safe, fast, productive.") == "safe," + [' '] + "fast," + [' '] + "productive."
  {
  }

  /** "safe, fast," does not contain "rust": neither word has an 'r', and
      an occurrence cannot span the space between them. */
  lemma RustNotInSafeFast()
    ensures !Contains("safe," + [' '] + "fast,", "rust")
  {
    MissingCharacter("safe,", "rust", 'r');
    MissingCharacter("fast,", "rust", 'r');
    OccurrenceSide("safe,", ' ', "fast,", "rust");
  }

  /** "safe, fast, productive." does not contain "rust": "productive." has
      no 's', and an occurrence cannot span a space. */
  lemma RustNotInProductive()
    ensures !Contains("safe," + [' '] + "fast," + [' '] + "productive.", "rust")
  {
    RustNotInSafeFast();
    RustNotInLastWord();
    OccurrenceSide("safe," + [' '] + "fast,", ' ', "productive.", "rust");
  }

  /** "productive." has no 's'. */
  lemma RustNotInLastWord()
    ensures !Contains("productive.", "rust")
  {
    MissingCharacter("productive.", "rust", 's');
  }

  /** "rust:" contains "rust" at index 0. */
  lemma RustInRust()
    ensures Contains("rust:", "rust")
  {
    assert "rust:"[0..4] == "rust";
    assert OccursAt("rust:", "rust", 0);
  }

  /** "pick three." has no 'u'. */
  lemma RustNotInPick()
    ensures !Contains("pick three.", "rust")
  {
    MissingCharacter("pick three.", "rust", 'u');
  }

  /** "trust me." contains "rust" at index 1. */
  lemma RustInTrust()
    ensures Contains("trust me.", "rust")
  {
    assert "trust me."[1..5] == "rust";
    assert OccursAt("trust me.", "rust", 1);
  }

  /** Case-insensitive search for "rUsT" keeps "Rust:" and "Trust me." with
      their original capitalisation. */
  lemma CaseInsensitiveScenario()
    ensures Filter("rUsT", Lines(Poem + "Trust me."), false) == ["Rust:", "Trust me."]
  {
    LinesOfPoem("Trust me.");
    FilterFour("rUsT", "Rust:", "safe, fast, productive.", "Pick three.", "Trust me.", false);
    LowercasedQuery();
    LowercasedLines();
    LowercasedSecondLine();
    RustInRust();
    RustNotInProductive();
    RustNotInPick();
    RustInTrust();
  }
}
