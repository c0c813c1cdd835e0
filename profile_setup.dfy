/// The text handling of the profile set-up page (src/profile_setup_page.rs):
/// the names of the two profile files, the placeholders of the perf command
/// line, the search of cargo's JSON messages for the built executable, and
/// the split of a command line into environment assignments and the command.
module ProfileSetup {
  import opened Options
  import opened Text

  const TMP_FILE: string := "${TMP_FILE}"
  const PROGRAM_ARGUMENTS: string := "${PROGRAM_ARGUMENTS}"
  const PROGRAM: string := "${PROGRAM}"

  const PERF_DATA_EXTENSION: string := ".perf.data"
  const PERF_JSON_EXTENSION: string := ".perf.json"

  /** `"{profile_name}:{prefix}"`, the stem both profile files share. */
  function Stem(profileName: string, prefix: string): string
  {
    profileName + ":" + prefix
  }

  /** `format!("{profile_name}:{prefix}.perf.data")`. */
  function PerfFileName(profileName: string, prefix: string): (name: string)
    ensures |name| == |profileName| + |prefix| + 11
  {
    Stem(profileName, prefix) + PERF_DATA_EXTENSION
  }

  /** `format!("{profile_name}:{prefix}.perf.json")`. */
  function ProfileFileName(profileName: string, prefix: string): (name: string)
    ensures |name| == |profileName| + |prefix| + 11
  {
    Stem(profileName, prefix) + PERF_JSON_EXTENSION
  }

  /** The trace and the converted profile have the same stem, which starts
      with the project name, and differ only in their last four characters. */
  lemma FileNamesShareStem(profileName: string, prefix: string)
    ensures var data := PerfFileName(profileName, prefix);
            var json := ProfileFileName(profileName, prefix);
            var n := |profileName| + |prefix| + 7;
            && data[..n] == json[..n] == Stem(profileName, prefix) + ".perf."
            && data[..|profileName|] == profileName
            && data[|profileName|] == ':'
            && data[n..] == "data" && json[n..] == "json"
            && data != json
  {
    var stem := Stem(profileName, prefix) + ".perf.";
    assert PERF_DATA_EXTENSION == ".perf." + "data" by {
      assert forall i | 0 <= i < 10 :: PERF_DATA_EXTENSION[i] == (".perf." + "data")[i];
    }
    assert PERF_JSON_EXTENSION == ".perf." + "json" by {
      assert forall i | 0 <= i < 10 :: PERF_JSON_EXTENSION[i] == (".perf." + "json")[i];
    }
    assert PerfFileName(profileName, prefix) == stem + "data";
    assert ProfileFileName(profileName, prefix) == stem + "json";
    assert PerfFileName(profileName, prefix)[|stem|] == 'd' != 'j' == ProfileFileName(profileName, prefix)[|stem|];
  }

  /** The perf command as the start-profiling handler builds it: every
      `${TMP_FILE}` becomes the trace file name, then every
      `${PROGRAM_ARGUMENTS}` the program's arguments. */
  function PerfCommand(template: string, perfFile: string, programArguments: string): (command: string)
    ensures command == Join(Split(Join(Split(template, TMP_FILE), perfFile), PROGRAM_ARGUMENTS), programArguments)
  {
    var withFile := Replace(template, TMP_FILE, perfFile);
    ReplaceIsSplitJoin(template, TMP_FILE, perfFile);
    ReplaceIsSplitJoin(withFile, PROGRAM_ARGUMENTS, programArguments);
    Replace(withFile, PROGRAM_ARGUMENTS, programArguments)
  }

  /** A command without placeholders is run as typed. */
  lemma PerfCommandWithoutPlaceholders(template: string, perfFile: string, programArguments: string)
    requires !IsSubstring(TMP_FILE, template) && !IsSubstring(PROGRAM_ARGUMENTS, template)
    ensures PerfCommand(template, perfFile, programArguments) == template
  {
    ReplaceAbsent(template, TMP_FILE, perfFile);
    ReplaceAbsent(template, PROGRAM_ARGUMENTS, programArguments);
  }

  /** The `executable` field of a compiler message, as `Value::get` and
      `Value::as_str` see it. */
  datatype Executable = Missing | NotAString | Path(path: string)

  /** One item of cargo's JSON message stream: a message that did not parse,
      or a parsed one. */
  datatype CompilerMessage = Unparsable | Parsed(executable: Executable)

  datatype SetupError = CompilerOutputUnparsable | ProgramPathNotFound

  datatype SetupResult<+T> = Ok(value: T) | Err(error: SetupError)

  /** A message the search passes over: it parsed, and has no string
      `executable`. */
  predicate Skipped(m: CompilerMessage)
  {
    m.Parsed? && !m.executable.Path?
  }

  /** Where the search over cargo's messages stops: at the first message it
      does not pass over, or after the last one. */
  function StopIndex(messages: seq<CompilerMessage>): (k: nat)
    ensures k <= |messages|
    ensures forall j :: 0 <= j < k ==> Skipped(messages[j])
    ensures k < |messages| ==> !Skipped(messages[k])
    decreases |messages|
  {
    if |messages| == 0 || !Skipped(messages[0]) then 0 else 1 + StopIndex(messages[1..])
  }

  /** The loop of `start_profiling` over cargo's messages: at the first
      message with a string `executable`, `${PROGRAM}` in the perf command
      is replaced by that path and the loop ends. A message before it that
      does not parse ends the search with an error; so does a stream
      without an executable. The result is the perf command and the path. */
  method SubstituteProgram(perfCommand: string, messages: seq<CompilerMessage>)
    returns (res: SetupResult<(string, string)>)
    ensures var k := StopIndex(messages);
            && (k == |messages| ==> res == Err(ProgramPathNotFound))
            && (k < |messages| && messages[k].Unparsable? ==> res == Err(CompilerOutputUnparsable))
            && (k < |messages| && messages[k].Parsed? ==>
                  var path := messages[k].executable.path;
                  res == Ok((Replace(perfCommand, PROGRAM, path), path)))
  {
    var command := perfCommand;
    var programPath: Option<string> := None;
    var i := 0;
    while i < |messages|
      invariant 0 <= i <= StopIndex(messages)
      invariant programPath.None? && command == perfCommand
      decreases |messages| - i
    {
      var message := messages[i];
      if message.Unparsable? {
        return Err(CompilerOutputUnparsable);
      }
      if message.executable.Path? {
        command := Replace(command, PROGRAM, message.executable.path);
        programPath := Some(message.executable.path);
        break;
      }
      i := i + 1;
    }
    if programPath.None? {
      return Err(ProgramPathNotFound);
    }
    return Ok((command, programPath.value));
  }

  /** What `run_command` hands to the subprocess launcher: an environment
      assignment, `setenv(name, value, true)`. */
  datatype EnvVar = EnvVar(name: string, value: string)

  /** The token an assignment came from. */
  function AssignmentToken(e: EnvVar): string
  {
    e.name + "=" + e.value
  }

  /** The number of leading tokens that hold a `=`: while they last, the
      tokenizer is parsing flags. */
  function FlagCount(tokens: seq<string>): (k: nat)
    ensures k <= |tokens|
    ensures forall j :: 0 <= j < k ==> '=' in tokens[j]
    ensures k < |tokens| ==> '=' !in tokens[k]
    decreases |tokens|
  {
    if |tokens| == 0 || '=' !in tokens[0] then 0 else 1 + FlagCount(tokens[1..])
  }

  /** The tokenizer of `run_command`: the command text is split at every
      single space (so two spaces in a row give an empty token); while
      `parsing_flags` holds, a token with a `=` is an environment assignment
      split at its first `=`; the first token without one switches
      `parsing_flags` off, and it and every later token, with a `=` or not,
      is a word of the command. */
  method ParseCommandText(commandText: string) returns (env: seq<EnvVar>, command: seq<string>)
    ensures var tokens := Split(commandText, " ");
            && |env| == FlagCount(tokens)
            && (forall j :: 0 <= j < |env| ==> AssignmentToken(env[j]) == tokens[j] && '=' !in env[j].name)
            && command == tokens[FlagCount(tokens)..]
  {
    env, command := ParseTokens(Split(commandText, " "));
  }

  /** The loop of the tokenizer, over the tokens of the command text. */
  method ParseTokens(tokens: seq<string>) returns (env: seq<EnvVar>, command: seq<string>)
    ensures |env| == FlagCount(tokens)
    ensures forall j :: 0 <= j < |env| ==> AssignmentToken(env[j]) == tokens[j] && '=' !in env[j].name
    ensures command == tokens[FlagCount(tokens)..]
  {
    env := [];
    command := [];
    var parsingFlags := true;
    ghost var k := FlagCount(tokens);
    for i := 0 to |tokens|
      invariant parsingFlags <==> i <= k
      invariant parsingFlags ==> |env| == i && command == []
      invariant !parsingFlags ==> |env| == k && command == tokens[k..i]
      invariant forall j :: 0 <= j < |env| ==> AssignmentToken(env[j]) == tokens[j] && '=' !in env[j].name
    {
      var x := tokens[i];
      var split := SplitOnce(x, '=');
      if split.Some? && parsingFlags {
        env := env + [EnvVar(split.value.0, split.value.1)];
      } else {
        assert parsingFlags ==> i == k;
        command := command + [x];
        parsingFlags := false;
      }
    }
  }

  /** The assignments written back as the tokens they came from. */
  function AssignmentTokens(env: seq<EnvVar>): (tokens: seq<string>)
    ensures |tokens| == |env|
    ensures forall j :: 0 <= j < |env| ==> tokens[j] == AssignmentToken(env[j])
  {
    if |env| == 0 then [] else [AssignmentToken(env[0])] + AssignmentTokens(env[1..])
  }

  /** Nothing of the command text is lost or moved: the assignments, as
      tokens, followed by the command words, are the space-separated tokens,
      and joined with spaces they are the text. */
  lemma TokensReassemble(commandText: string, env: seq<EnvVar>, command: seq<string>)
    requires var tokens := Split(commandText, " ");
             && |env| == FlagCount(tokens)
             && (forall j :: 0 <= j < |env| ==> AssignmentToken(env[j]) == tokens[j])
             && command == tokens[FlagCount(tokens)..]
    ensures AssignmentTokens(env) + command == Split(commandText, " ")
    ensures Join(AssignmentTokens(env) + command, " ") == commandText
  {
    var tokens := Split(commandText, " ");
    var k := FlagCount(tokens);
    assert AssignmentTokens(env) == tokens[..k];
    assert tokens == tokens[..k] + tokens[k..];
    JoinSplit(commandText, " ");
  }
}
