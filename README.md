# minigrep, modelled in Dafny

minigrep is a small command-line search tool: `minigrep <query> <filename>`
prints every line of the file that contains the query, and compares
case-insensitively when the `CASE_INSENSITIVE` environment variable is set.
This project models its library, `src/lib.rs`:

- `Text.dfy` (module `Text`) models the three operations of Rust's `str`
  that the search uses. `Lines` is `str::lines`: it splits at `'\n'`,
  drops a `'\r'` directly before a `'\n'`, and a final line ending adds no
  empty last line. `Contains` is `str::contains` with a string pattern,
  characterised by `OccursAt`. `Lower` is `to_lowercase`, restricted to
  ASCII letters.
- `Grep.dfy` (module `Grep`) models `search` and `search_case_insensitive`.
  Each is a method with the source's loop, which pushes each matching line
  onto the result. A loop invariant proves the method equal to `Filter`,
  the order-preserving filter of the lines by `Matches`. The lemmas then
  state what `Filter` promises: soundness, completeness, order, no
  deduplication and the empty query.
- `Scenarios.dfy` (module `Scenarios`) proves the two search unit tests
  about `Filter`, which both methods return.
- `Cli.dfy` (module `Cli`) models `Config::new` as `NewConfig`, and the
  search part of `run` as `Run`.

Returned lines are owned strings rather than slices borrowed from the
contents. Strings are sequences of Unicode scalar values. The source's
`contains` works on UTF-8 bytes, but for valid UTF-8 text a byte-level match
of a whole pattern is a character-level match, so the two agree.

The environment variable lookup is an input of type `VarLookup`, which is
the outcome of `env::var`: the value, `NotPresent` or `NotUnicode`. The code
sets `case_sensitive` to `env::var(..).is_err()`. So a variable whose value is
not valid Unicode leaves the search case-sensitive, even though the variable
is set. The model follows the code here, not the informal rule "any value
disables case-sensitivity".

## Model

| member | source | states |
|---|---|---|
| `Text.LinesSplit` | src/lib.rs:48 | the first line of `line + "\n" + rest`, where `line` has no `'\n'`, is `line` less a final `'\r'`, and the lines after it are the lines of `rest` |
| `Text.LinesOfOneLine` | src/lib.rs:48 | a non-empty text without `'\n'` is a single line, kept whole even when it ends in `'\r'` |
| `Text.LinesHaveNoLineEnding` | src/lib.rs:48 | no line contains `'\n'`, and a text has no lines exactly when it is empty |
| `Text.LinesCount` | src/lib.rs:48 | there is one line per line ending, plus one for an unterminated last line |
| `Text.FinalLineEndingIsOptional` | src/lib.rs:48 | appending `"\r\n"` to a text whose last character is not `'\n'` leaves its lines unchanged, and so does appending `'\n'` unless the text ends in `'\r'` |
| `Text.LinesOfJoinLines` | src/lib.rs:48 | writing lines that hold no `'\n'` and no final `'\r'`, each followed by `'\n'`, and splitting the result gives the same lines back |
| `Text.JoinLinesOfLines` | src/lib.rs:48 | for a text without `'\r'`, writing its lines each followed by `'\n'` gives the text back, with a `'\n'` added when the last line had none |
| `Text.LinesCons` | src/lib.rs:48 | a line with no `'\n'` and no final `'\r'`, followed by `'\n'`, is the first line of the text, and the rest are the lines after it |
| `Text.Contains` | src/lib.rs:49 | `Contains(text, pattern)` holds exactly when `pattern` occurs as a contiguous slice of `text` at some index |
| `Text.ContainsEmpty` | src/lib.rs:49 | the empty pattern is contained in every text |
| `Text.MissingCharacter` | src/lib.rs:49 | a text does not contain a pattern that holds a character the text lacks |
| `Text.OccurrenceSide` | src/lib.rs:49 | an occurrence of a pattern in `a + [c] + b`, where the pattern lacks `c`, lies in `a` or in `b` |
| `Text.Lower` | src/lib.rs:58 | lowercasing keeps the length, leaves no ASCII upper-case letter, keeps every other character, and maps `'A'..'Z'` to `'a'..'z'` |
| `Text.LowerIdempotent` | src/lib.rs:62 | lowercasing an already lowercased text changes nothing |
| `Grep.Search` | src/lib.rs:46-55 | the result is the order-preserving filter of the lines of `contents` by case-sensitive containment of `query` |
| `Grep.SearchCaseInsensitive` | src/lib.rs:57-68 | the result is the order-preserving filter of the original lines of `contents` by containment of the lowercased query in the lowercased line |
| `Grep.FilterConcat` | src/lib.rs:47-52 | the filter keeps order: filtering two runs of lines is filtering their concatenation |
| `Grep.FilterMembership` | src/lib.rs:48-50 | a line is in the result if and only if it is one of the lines and it matches (soundness and completeness) |
| `Grep.FilterMultiplicity` | src/lib.rs:48-50 | a matching line occurs in the result as often as among the lines, and a non-matching line never occurs (no deduplication) |
| `Grep.FilterLength` | src/lib.rs:48-50 | the result is never longer than the lines, and is as long exactly when every line matches |
| `Grep.FilterEmptyQuery` | src/lib.rs:49 | the empty query returns every line in order, under either case policy |
| `Grep.SearchResultLines` | src/lib.rs:48-50 | every returned line is a line of `contents` that matches and holds no `'\n'`, and empty contents return nothing |
| `Grep.SearchIgnoresFinalLineEnding` | src/lib.rs:48 | a final line ending in `contents` does not change the result |
| `Scenarios.CaseSensitiveScenario` | src/lib.rs:74-84 | searching the test text for `"duct"` case-sensitively gives exactly `["safe, fast, productive."]`, so `"Duct tape"` is excluded |
| `Scenarios.CaseInsensitiveScenario` | src/lib.rs:86-97 | searching the test text for `"rUsT"` case-insensitively gives exactly `["Rust:", "Trust me."]`, in their original case |
| `Cli.NewConfig` | src/lib.rs:13-27 | fails with `"not enough arguments"` exactly when there are fewer than 3 arguments; otherwise the query is `args[1]`, the file name `args[2]`, and the search is case-sensitive exactly when the variable lookup did not return a value |
| `Cli.NewConfigIgnoresExtraArguments` | src/lib.rs:18-19 | arguments after the file name do not change the configuration |
| `Cli.CaseSensitivityFromEnvironment` | src/lib.rs:20 | a set variable makes the search case-insensitive whatever its value; an unset or non-Unicode one keeps it case-sensitive |
| `Cli.ConfigScenarios` | src/lib.rs:100-121 | two arguments give `Err("not enough arguments")`; `["", "plerps", "plerps.txt"]` gives query `"plerps"` and file name `"plerps.txt"` |
| `Cli.Run` | src/lib.rs:30-44 | a read error is returned unchanged; otherwise the printed lines are the filter that `config.caseSensitive` selects |

## Left out

- Reading the file and printing: `fs::read_to_string` and `println!` in `run` are I/O. `Run` takes the outcome of the read as a parameter and returns the lines it would print, one per `println!`. Write failures are not modelled.
- Reading the process environment: `env::var("CASE_INSENSITIVE")` becomes the `VarLookup` parameter of `NewConfig`.
- Lower: models `to_lowercase` for ASCII letters only. Full Unicode lowercasing, including multi-character and context-dependent mappings such as the Greek final sigma, is not modelled. For that reason no lemma relates the case-insensitive result to the case-sensitive one.
- Borrowed slices: the source returns `&str` views into `contents`, and the model returns owned copies with the same text. Lifetimes are not modelled.
- Error type: `Box<dyn Error>` and `&'static str` both become the message string of `Result.Err`.
- The `correct_config` test builds a `Config` without its `case_sensitive` field, so it would not compile as written. `ConfigScenarios` states its intent, the query and the file name, for every variable lookup.
- The binary's `main` is not part of this model.
