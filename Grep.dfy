/** The search engine: keeps, in order, the lines of a text that contain the
    query, either exactly or after ASCII lowercasing of line and query. */
module Grep {
  import opened Text

  /** Whether `line` is a match for `query` under the given case policy. */
  predicate Matches(line: string, query: string, caseSensitive: bool) {
    if caseSensitive then Contains(line, query) else Contains(Lower(line), Lower(query))
  }

  /** `line` alone when it matches, nothing otherwise. */
  function Kept(line: string, query: string, caseSensitive: bool): seq<string> {
    if Matches(line, query, caseSensitive) then [line] else []
  }

  /** The lines of `ls` that match `query`, in their original order. */
  function Filter(query: string, ls: seq<string>, caseSensitive: bool): seq<string> {
    if ls == [] then [] else Kept(ls[0], query, caseSensitive) + Filter(query, ls[1..], caseSensitive)
  }

  /** Case-sensitive search: every line of `contents` containing `query`,
      in order, each with its original text. */
  method Search(query: string, contents: string) returns (matches: seq<string>)
    ensures matches == Filter(query, Lines(contents), true)
  {
    matches := [];
    var lines := Lines(contents);
    for i := 0 to |lines|
      invariant matches == Filter(query, lines[..i], true)
    {
      var line := lines[i];
      if Contains(line, query) {
        matches := matches + [line];
      }
      assert lines[..i + 1] == lines[..i] + [line];
      FilterConcat(query, lines[..i], [line], true);
    }
    assert lines[..|lines|] == lines;
  }

  /** Case-insensitive search: the query is lowercased once, each line is
      lowercased before the test, and the original line is kept. */
  method SearchCaseInsensitive(query: string, contents: string) returns (matches: seq<string>)
    ensures matches == Filter(query, Lines(contents), false)
  {
    var lowered := Lower(query);
    matches := [];
    var lines := Lines(contents);
    for i := 0 to |lines|
      invariant matches == Filter(query, lines[..i], false)
    {
      var line := lines[i];
      if Contains(Lower(line), lowered) {
        matches := matches + [line];
      }
      assert lines[..i + 1] == lines[..i] + [line];
      FilterConcat(query, lines[..i], [line], false);
    }
    assert lines[..|lines|] == lines;
  }

  /** Filtering keeps order: filtering two runs of lines one after the other
      is filtering their concatenation. */
  lemma {:induction false} FilterConcat(query: string, a: seq<string>, b: seq<string>, caseSensitive: bool)
    ensures Filter(query, a + b, caseSensitive) == Filter(query, a, caseSensitive) + Filter(query, b, caseSensitive)
  {
    if a != [] {
      assert (a + b)[0] == a[0];
      assert (a + b)[1..] == a[1..] + b;
      FilterConcat(query, a[1..], b, caseSensitive);
    } else {
      assert a + b == b;
    }
  }

  /** Soundness and completeness: a line is in the result exactly when it is
      one of the lines and it matches. */
  lemma {:induction false} FilterMembership(query: string, ls: seq<string>, caseSensitive: bool, x: string)
    ensures x in Filter(query, ls, caseSensitive) <==> x in ls && Matches(x, query, caseSensitive)
  {
    if ls != [] {
      FilterMembership(query, ls[1..], caseSensitive, x);
      assert ls == [ls[0]] + ls[1..];
    }
  }

  /** No deduplication: a matching line occurs in the result as often as it
      occurs among the lines; a line that does not match never occurs. */
  lemma {:induction false} FilterMultiplicity(query: string, ls: seq<string>, caseSensitive: bool, x: string)
    ensures multiset(Filter(query, ls, caseSensitive))[x] ==
            if Matches(x, query, caseSensitive) then multiset(ls)[x] else 0
  {
    if ls != [] {
      FilterMultiplicity(query, ls[1..], caseSensitive, x);
      assert ls == [ls[0]] + ls[1..];
    }
  }

  /** The result is never longer than the input and has its length exactly
      when every line matches. */
  lemma {:induction false} FilterLength(query: string, ls: seq<string>, caseSensitive: bool)
    ensures |Filter(query, ls, caseSensitive)| <= |ls|
    ensures |Filter(query, ls, caseSensitive)| == |ls| <==> forall k :: 0 <= k < |ls| ==> Matches(ls[k], query, caseSensitive)
  {
    if ls != [] {
      FilterLength(query, ls[1..], caseSensitive);
      assert forall k :: 1 <= k < |ls| ==> ls[k] == ls[1..][k - 1];
    }
  }

  /** The empty query matches every line, under either case policy, so the
      result is all the lines in order. */
  lemma {:induction false} FilterEmptyQuery(ls: seq<string>, caseSensitive: bool)
    ensures Filter("", ls, caseSensitive) == ls
  {
    if ls != [] {
      ContainsEmpty(ls[0]);
      ContainsEmpty(Lower(ls[0]));
      assert Lower("") == "";
      FilterEmptyQuery(ls[1..], caseSensitive);
    }
  }

  /** What either search returns: lines of `contents` that match, with no
      '\n' in them. Empty contents give no lines at all. */
  lemma SearchResultLines(query: string, contents: string, caseSensitive: bool, x: string)
    requires x in Filter(query, Lines(contents), caseSensitive)
    ensures x in Lines(contents) && Matches(x, query, caseSensitive)
    ensures '\n' !in x
    ensures contents != []
  {
    FilterMembership(query, Lines(contents), caseSensitive, x);
    LinesHaveNoLineEnding(contents);
  }

  /** A final line ending in `contents` does not change the result. */
  lemma SearchIgnoresFinalLineEnding(query: string, contents: string, caseSensitive: bool)
    requires contents != [] && contents[|contents| - 1] != '\n'
    ensures Filter(query, Lines(contents + "\r\n"), caseSensitive) == Filter(query, Lines(contents), caseSensitive)
    ensures contents[|contents| - 1] != '\r' ==>
      Filter(query, Lines(contents + "\n"), caseSensitive) == Filter(query, Lines(contents), caseSensitive)
  {
    FinalLineEndingIsOptional(contents);
  }
}
