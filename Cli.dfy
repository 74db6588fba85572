/** The command-line layer: building a configuration from the argument list
    and the CASE_INSENSITIVE environment variable, and the search that `run`
    performs on the text read from the configured file. */
module Cli {
  import opened Text
  import opened Grep

  /** The search settings of one invocation. */
  datatype Config = Config(query: string, filename: string, caseSensitive: bool)

  /** An operation's outcome: a value, or the message of the error. */
  datatype Result<T> = Ok(value: T) | Err(error: string)

  /** What looking up an environment variable gives: its value, or one of
      the two lookup errors (the variable is not set, or its value is not
      valid Unicode). */
  datatype VarLookup = Present(value: string) | NotPresent | NotUnicode

  /** The message `Config::new` fails with. */
  const NotEnoughArguments: string := "not enough arguments"

  /** `Config::new`: the argument list holds the program name, the query and
      the file name, in that order; later arguments are ignored. The search
      is case-sensitive unless the CASE_INSENSITIVE lookup succeeds. */
  function NewConfig(args: seq<string>, caseInsensitive: VarLookup): (r: Result<Config>)
    ensures r.Err? <==> |args| < 3
    ensures r.Err? ==> r.error == NotEnoughArguments
    ensures r.Ok? ==> r.value.query == args[1] && r.value.filename == args[2]
    ensures r.Ok? ==> (r.value.caseSensitive <==> !caseInsensitive.Present?)
  {
    if |args| < 3 then Err(NotEnoughArguments)
    else Ok(Config(args[1], args[2], !caseInsensitive.Present?))
  }

  /** Arguments after the file name never change the configuration. */
  lemma NewConfigIgnoresExtraArguments(args: seq<string>, extra: seq<string>, caseInsensitive: VarLookup)
    requires |args| >= 3
    ensures NewConfig(args + extra, caseInsensitive) == NewConfig(args, caseInsensitive)
  {
    assert (args + extra)[1] == args[1] && (args + extra)[2] == args[2];
  }

  /** Only a set, valid CASE_INSENSITIVE variable turns case-sensitivity
      off; its value does not matter, even when empty. */
  lemma CaseSensitivityFromEnvironment(args: seq<string>, value: string, other: string)
    requires |args| >= 3
    ensures !NewConfig(args, Present(value)).value.caseSensitive
    ensures NewConfig(args, Present(value)) == NewConfig(args, Present(other))
    ensures NewConfig(args, NotPresent).value.caseSensitive
    ensures NewConfig(args, NotUnicode).value.caseSensitive
  {
  }

  /** The unit tests' configurations: two empty arguments are not enough,
      and ["", "plerps", "plerps.txt"] gives query "plerps" and file
      "plerps.txt". */
  lemma ConfigScenarios(caseInsensitive: VarLookup)
    ensures NewConfig(["", ""], caseInsensitive) == Err("not enough arguments")
    ensures NewConfig(["", "plerps", "plerps.txt"], caseInsensitive).Ok?
    ensures NewConfig(["", "plerps", "plerps.txt"], caseInsensitive).value.query == "plerps"
    ensures NewConfig(["", "plerps", "plerps.txt"], caseInsensitive).value.filename == "plerps.txt"
  {
  }

  /** `run` without its I/O: `contents` is the outcome of reading
      `config.filename`, and the lines `run` would print are returned. A read
      error is passed on unchanged; otherwise the search that
      `config.caseSensitive` selects is run. */
  method Run(config: Config, contents: Result<string>) returns (r: Result<seq<string>>)
    ensures contents.Err? ==> r == Err(contents.error)
    ensures contents.Ok? ==> r == Ok(Filter(config.query, Lines(contents.value), config.caseSensitive))
  {
    if contents.Err? {
      return Err(contents.error);
    }
    var matches;
    if config.caseSensitive {
      matches := Search(config.query, contents.value);
    } else {
      matches := SearchCaseInsensitive(config.query, contents.value);
    }
    return Ok(matches);
  }
}
