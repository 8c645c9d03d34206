/** The engine's entry point: read the image from stdin, check it, build the
    analyzer, analyze, and print one JSON record. */
module CliWrapper {
  import opened Base
  import opened Text
  import opened Rekognition

  const NoInput: string := "No input data provided"
  const NotInitialized: string := "Rekognition analyzer not initialized"

  /** What one run of `main` does: whether it built an analyzer, the text it
      passed to `analyze_face` (None when not called), and the record it
      serialised and printed. */
  datatype MainRun = MainRun(constructedAnalyzer: bool, analyzed: Option<string>, printed: Report)

  /** `main`. `stdin` is what reading standard input gave (Err with `str(e)`
      when it raised), `isAvailable` the availability of the analyzer it would
      build, and `analysis` what `analyze_face` would return. */
  function Main(stdin: Result<string, string>, isAvailable: bool, analysis: Report): (run: MainRun)
    ensures stdin.Err? ==> run == MainRun(false, None, Failure(stdin.error))
    ensures run.constructedAnalyzer <==> stdin.Ok? && !AllIn(stdin.value, Py)
    ensures stdin.Ok? && AllIn(stdin.value, Py) ==> run.printed == Failure(NoInput)
    ensures run.analyzed.Some? <==> run.constructedAnalyzer && isAvailable
    ensures run.analyzed.Some? ==> run.analyzed.value == Trim(stdin.value, Py) && run.printed == analysis
    ensures run.constructedAnalyzer && !isAvailable ==> run.printed == Failure(NotInitialized)
  {
    match stdin
    case Err(e) => MainRun(false, None, Failure(e))
    case Ok(raw) =>
      var input := Trim(raw, Py);
      TrimEmptyIff(raw, Py);
      if input == "" then MainRun(false, None, Failure(NoInput))
      else if !isAvailable then MainRun(true, None, Failure(NotInitialized))
      else MainRun(true, Some(input), analysis)
  }

  /** Only the branch that calls `analyze_face` can report `available: True`,
      and it reports whatever the analyzer returned. Every other branch prints
      `available: False`. */
  lemma {:induction false} OnlyAnalysisIsAvailable(stdin: Result<string, string>, isAvailable: bool, analysis: Report)
    ensures Main(stdin, isAvailable, analysis).analyzed.None? ==> Main(stdin, isAvailable, analysis).printed.Failure?
  {
    match stdin
    case Err(_) =>
    case Ok(raw) => TrimEmptyIff(raw, Py);
  }

  /** One line written to the engine's standard output: Python's `repr` of a
      detection response, or a JSON document. */
  datatype Line = PyRepr(response: DetectResponse) | JsonLine(doc: Report)

  /** Standard output of the engine as written: the response that
      `analyze_face` echoes, then the record `main` prints. */
  function StdoutAsWritten(run: MainRun, echoed: Option<DetectResponse>): (out: seq<Line>)
    ensures |out| >= 1 && out[|out| - 1] == JsonLine(run.printed)
  {
    (if run.analyzed.Some? && echoed.Some? then [PyRepr(echoed.value)] else []) + [JsonLine(run.printed)]
  }

  /** On the success path, stdout as written holds two lines, the first not
      JSON: the relay's parse of the whole output then sees two documents. */
  lemma {:induction false} StrayPrintPrecedesDocument(stdin: Result<string, string>, response: DetectResponse, analysis: Report)
    requires stdin.Ok? && !AllIn(stdin.value, Py)
    ensures
      var out := StdoutAsWritten(Main(stdin, true, analysis), Some(response));
      |out| == 2 && out[0] == PyRepr(response) && out[1] == JsonLine(analysis)
  {
    var run := Main(stdin, true, analysis);
    assert run.analyzed.Some?;
  }

  /** Standard output of the engine without the stray echo: exactly the one
      record `main` prints. */
  function Stdout(run: MainRun): seq<Line> {
    [JsonLine(run.printed)]
  }

  /** Without the stray echo of aws_rekognition.py:52, every path of the
      engine prints a single JSON document (one line by construction of
      `Stdout`), and on each error path that document reports
      `available: False` with the cause. */
  lemma {:induction false} StdoutIsOneDocument(stdin: Result<string, string>, isAvailable: bool, analysis: Report)
    ensures var out := Stdout(Main(stdin, isAvailable, analysis));
      && |out| == 1 && out[0].JsonLine?
      && (stdin.Err? ==> out[0].doc == Failure(stdin.error))
      && (stdin.Ok? && AllIn(stdin.value, Py) ==> out[0].doc == Failure(NoInput))
      && (stdin.Ok? && !AllIn(stdin.value, Py) && !isAvailable ==> out[0].doc == Failure(NotInitialized))
      && (out[0].doc.Analysis? ==> out[0].doc == analysis)
  {
    OnlyAnalysisIsAvailable(stdin, isAvailable, analysis);
  }

  /** The engine process end to end, step by step as `main` takes them: read,
      strip, build the analyzer from the environment, analyze, and write the
      record that was actually produced. Stdout is given as the source writes
      it (with the echo) and as intended (without); the record is the one
      `Main` specifies. */
  method RunEngine(stdin: Result<string, string>, env: Env, clientFails: bool, detect: DetectOutcome)
    returns (asWritten: seq<Line>, intended: seq<Line>)
    ensures
      var available := Truthy(env.accessKeyId) && Truthy(env.secretAccessKey) && !clientFails;
      var run := Main(stdin, available, ReportOf(detect));
      && intended == Stdout(run)
      && asWritten == StdoutAsWritten(run, if detect.Returned? then Some(detect.response) else None)
  {
    var printed: Report;
    var echoed: Option<DetectResponse> := None;
    match stdin {
      case Err(e) =>
        printed := Failure(e);
      case Ok(raw) =>
        var input := Trim(raw, Py);
        if input == "" {
          printed := Failure(NoInput);
        } else {
          var analyzer := new RekognitionAnalyzer(env, clientFails);
          if !analyzer.isAvailable {
            printed := Failure(NotInitialized);
          } else {
            printed, echoed := analyzer.AnalyzeFace(detect);
          }
        }
    }
    var available := Truthy(env.accessKeyId) && Truthy(env.secretAccessKey) && !clientFails;
    assert printed == Main(stdin, available, ReportOf(detect)).printed;
    asWritten := (if echoed.Some? then [PyRepr(echoed.value)] else []) + [JsonLine(printed)];
    intended := [JsonLine(printed)];
  }
}
