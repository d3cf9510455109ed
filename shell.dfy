/** The interactive loop of `noms cmd` (the handler returned by `nomsCmd`), its
    fault boundary `try`, and the decision it takes on each line read. */
module Shell {
  import opened Wrappers
  import opened Text
  import opened LineReader

  /** The fields of the `opts` record that the `log` command sets; `maxCommits` keeps
      the zero value of `opts{}`. The time zone is not modelled. */
  datatype LogOptions = LogOptions(useColor: bool, path: string, oneline: bool, showGraph: bool, maxCommits: int)

  /** A command line that passed the argument checks and reaches the database. */
  datatype Command =
    | Version
    | ListDatasets(pattern: Option<string>)
    | Show(path: string)
    | Log(options: LogOptions)
    | Unrecognized(name: string)

  /** What the loop body makes of one line read successfully. */
  datatype Decision =
    | Skip                          // blank line: return 0 before parsing
    | Quit                          // `exit` or `quit`: return 1
    | MissingArgument(name: string) // `args[1]` of `show` or `log` is out of range: the body panics
    | Run(command: Command)

  /** How a call of the loop body ends: a return value, or a panic. */
  datatype Outcome = Returned(code: int) | Panicked

  /** `try`: the result of the body, or 0 when the body panicked. */
  function Try(o: Outcome): (v: int)
    ensures o.Panicked? ==> v == 0
    ensures o.Returned? ==> v == o.code
  {
    match o
    case Returned(v) => v
    case Panicked => 0
  }

  /** `parseArgs`: whitespace-separated fields of the line. */
  function ParseArgs(line: string): seq<string> {
    Fields(line)
  }

  /** The options the `log` command passes to nomsCmdLog. */
  function LogOptionsFor(args: seq<string>): (o: LogOptions)
    requires |args| >= 2
    ensures o.useColor && o.path == args[1] && o.maxCommits == 0
    ensures o.oneline == o.showGraph
    ensures !o.oneline <==> |args| > 2 && args[2] == "v"
  {
    var verbose := |args| > 2 && args[2] == "v";
    LogOptions(useColor := true, path := args[1], oneline := !verbose, showGraph := !verbose, maxCommits := 0)
  }

  /** A line whose first field is `exit` or `quit`. */
  predicate IsQuitLine(line: string) {
    var args := ParseArgs(TrimSpace(line));
    args != [] && (args[0] == "exit" || args[0] == "quit")
  }

  /** The decision the loop body takes on a line that was read without error. */
  function Decide(line: string): Decision {
    var t := TrimSpace(line);
    var args := ParseArgs(t);
    // A line that is not blank has a field (FieldsAreWords), so the second
    // test never holds; it spares the unfolding of that proof here.
    if t == "" || args == [] then
      Skip
    else
      var name := args[0];
      if name == "exit" || name == "quit" then Quit
      else if name == "version" then Run(Version)
      else if name == "ds" then Run(ListDatasets(if |args| > 1 then Some(args[1]) else None))
      else if name == "show" then (if |args| > 1 then Run(Show(args[1])) else MissingArgument(name))
      else if name == "log" then (if |args| > 1 then Run(Log(LogOptionsFor(args))) else MissingArgument(name))
      else Run(Unrecognized(name))
  }

  /** A blank line is skipped, `exit`/`quit` stop, `show` and `log` without a path
      fail on `args[1]`, and `show`/`log` with one take `args[1]` as the path. */
  lemma DecideCases(line: string)
    ensures Decide(line) == Skip <==> AllSpace(line)
    ensures Decide(line) == Quit <==> IsQuitLine(line)
    ensures Decide(line).MissingArgument? ==>
      var args := ParseArgs(TrimSpace(line));
      |args| == 1 && args[0] == Decide(line).name && (args[0] == "show" || args[0] == "log")
    ensures Decide(line).Run? && Decide(line).command.Log? ==>
      var args := ParseArgs(TrimSpace(line));
      |args| >= 2 && args[0] == "log" && Decide(line).command.options == LogOptionsFor(args)
    ensures Decide(line).Run? && Decide(line).command.Show? ==>
      var args := ParseArgs(TrimSpace(line));
      |args| >= 2 && args[0] == "show" && Decide(line).command.path == args[1]
  {
    TrimSpaceCuts(line);
    FieldsAreWords(TrimSpace(line));
  }

  /** The command each non-blank line becomes, by its first field: `version`;
      `ds` with its optional pattern `args[1]`; `show` and `log` with a path, or a
      missing argument without one; and any other name unrecognized. */
  lemma DecideCommands(line: string)
    ensures var args := ParseArgs(TrimSpace(line));
      && (|args| >= 1 && args[0] == "version" ==> Decide(line) == Run(Version))
      && (|args| >= 1 && args[0] == "ds" ==>
            Decide(line) == Run(ListDatasets(if |args| >= 2 then Some(args[1]) else None)))
      && (|args| >= 2 && args[0] == "show" ==> Decide(line) == Run(Show(args[1])))
      && (|args| >= 2 && args[0] == "log" ==> Decide(line) == Run(Log(LogOptionsFor(args))))
      && (|args| == 1 && (args[0] == "show" || args[0] == "log") ==> Decide(line) == MissingArgument(args[0]))
      && (|args| >= 1 && args[0] !in {"exit", "quit", "version", "ds", "show", "log"} ==>
            Decide(line) == Run(Unrecognized(args[0])))
  {
    var t := TrimSpace(line);
    if t == "" {
      assert ParseArgs(t) == [];
    }
  }

  /** The closure the loop passes to `try`, given what `readFromRL` returned.
      `effectPanics` says whether the calls made for the command on this
      goroutine (rebasing the database, resolving and printing values, the
      calling side of nomsCmdLog) panicked. */
  function Body(read: ReadResult, effectPanics: bool): Outcome {
    if read.err.Some? then
      Returned(1)
    else
      match Decide(read.text)
      case Skip => Returned(0)
      case Quit => Returned(1)
      case MissingArgument(_) => Panicked
      case Run(_) => if effectPanics then Panicked else Returned(0)
  }

  /** The loop stops exactly when the read failed (end of input included) or the line
      is `exit` or `quit`; a blank line, any other command and any panic continue it. */
  lemma StopsOnlyOnEndOrQuit(read: ReadResult, effectPanics: bool)
    ensures Try(Body(read, effectPanics)) != 0 <==> read.err.Some? || IsQuitLine(read.text)
    ensures Try(Body(read, effectPanics)) == 0 || Try(Body(read, effectPanics)) == 1
  {
    DecideCases(read.text);
  }

  /** `show` or `log` without a path indexes past the end of `args`; `try` recovers
      the panic and the loop continues. */
  lemma MissingPathContinues(read: ReadResult, effectPanics: bool)
    requires read.err.None?
    requires var args := ParseArgs(TrimSpace(read.text)); |args| == 1 && (args[0] == "show" || args[0] == "log")
    ensures Body(read, effectPanics) == Panicked && Try(Body(read, effectPanics)) == 0
  {
    DecideCases(read.text);
  }

  /** The body returned 0, so the loop goes on. */
  predicate Continues(read: ReadResult, effectPanics: bool) {
    Try(Body(read, effectPanics)) == 0
  }

  /** Reference definition of a shell session: the reads the loop makes from
      `events[pos]` on, when the current turn is the k-th. */
  function Session(events: seq<ReadEvent>, pos: nat, k: nat, effectPanics: nat -> bool): (s: seq<ReadResult>)
    requires pos <= |events|
    ensures s != [] && s[0] == ReadSpec(events, pos)
    decreases |events| - pos
  {
    var read := ReadSpec(events, pos);
    if Continues(read, effectPanics(k)) then
      StopsOnlyOnEndOrQuit(read, effectPanics(k));
      [read] + Session(events, read.next, k + 1, effectPanics)
    else
      [read]
  }

  /** The session from `events[pos]` on starts with the read made there; it goes
      on from where that read stopped exactly when the body returned 0. */
  lemma SessionUnfold(events: seq<ReadEvent>, pos: nat, k: nat, effectPanics: nat -> bool)
    requires pos <= |events|
    ensures var read := ReadSpec(events, pos);
      if Continues(read, effectPanics(k)) then
        pos < read.next <= |events| && Session(events, pos, k, effectPanics) == [read] + Session(events, read.next, k + 1, effectPanics)
      else
        Session(events, pos, k, effectPanics) == [read]
  {
    StopsOnlyOnEndOrQuit(ReadSpec(events, pos), effectPanics(k));
  }

  /** A read that makes the loop stop: it failed (end of input included), or its
      line is `exit` or `quit`. */
  predicate Ends(read: ReadResult) {
    read.err.Some? || IsQuitLine(read.text)
  }

  /** The last read of `s` ends the loop and no earlier one does. */
  predicate EndsAtLast(s: seq<ReadResult>) {
    s != [] && Ends(s[|s| - 1]) && forall i :: 0 <= i < |s| - 1 ==> !Ends(s[i])
  }

  lemma EndsAtLastCons(read: ReadResult, rest: seq<ReadResult>)
    requires !Ends(read) && EndsAtLast(rest)
    ensures EndsAtLast([read] + rest)
  {
    var s := [read] + rest;
    forall i | 0 <= i < |s| - 1
      ensures !Ends(s[i])
    {
      if i > 0 { assert s[i] == rest[i - 1]; }
    }
  }

  /** A session ends exactly at its first read that failed (end of input included)
      or returned `exit`/`quit`: every earlier read was a line of another kind. */
  lemma {:induction false} SessionEndsOnEndOrQuit(events: seq<ReadEvent>, pos: nat, k: nat, effectPanics: nat -> bool)
    requires pos <= |events|
    ensures EndsAtLast(Session(events, pos, k, effectPanics))
    decreases |events| - pos
  {
    var read := ReadSpec(events, pos);
    StopsOnlyOnEndOrQuit(read, effectPanics(k));
    SessionUnfold(events, pos, k, effectPanics);
    if Continues(read, effectPanics(k)) {
      SessionEndsOnEndOrQuit(events, read.next, k + 1, effectPanics);
      EndsAtLastCons(read, Session(events, read.next, k + 1, effectPanics));
    }
  }

  /** Successive reads of a session start where the previous one stopped. */
  lemma {:induction false} SessionIsSuccessive(events: seq<ReadEvent>, pos: nat, k: nat, effectPanics: nat -> bool, i: nat)
    requires pos <= |events|
    requires 0 < i < |Session(events, pos, k, effectPanics)|
    ensures var s := Session(events, pos, k, effectPanics);
      s[i - 1].next <= |events| && s[i] == ReadSpec(events, s[i - 1].next)
    decreases |events| - pos
  {
    var read := ReadSpec(events, pos);
    var rest := Session(events, read.next, k + 1, effectPanics);
    if i > 1 {
      SessionIsSuccessive(events, read.next, k + 1, effectPanics, i - 1);
    }
  }

  /** One turn of the shell loop, the k-th: `readFromRL`, then the body under `try`.
      It makes the first read of the session from `pos` on, and says whether the
      session goes on. */
  method Turn(events: seq<ReadEvent>, pos: nat, k: nat, effectPanics: nat -> bool) returns (read: ReadResult, continues: bool)
    requires pos <= |events|
    ensures continues ==> pos < read.next <= |events|
    ensures continues ==> Session(events, pos, k, effectPanics) == [read] + Session(events, read.next, k + 1, effectPanics)
    ensures !continues ==> Session(events, pos, k, effectPanics) == [read]
  {
    var line, err, next := ReadFromRL(events, pos);
    read := ReadResult(line, err, next);
    var r := Try(Body(read, effectPanics(k)));
    continues := r == 0;
    SessionUnfold(events, pos, k, effectPanics);
  }

  lemma Regroup<T>(a: seq<T>, x: T, b: seq<T>)
    ensures a + ([x] + b) == (a + [x]) + b
  {
  }

  /** The handler of `noms cmd`: turns until the body returns a non-zero value.
      The reads it makes are the session of the whole input. */
  method RunShell(events: seq<ReadEvent>, effectPanics: nat -> bool) returns (history: seq<ReadResult>)
    ensures history == Session(events, 0, 0, effectPanics)
  {
    var pos := 0;
    history := [];
    while true
      invariant pos <= |events|
      invariant Session(events, 0, 0, effectPanics) == history + Session(events, pos, |history|, effectPanics)
      decreases |events| - pos
    {
      var read, continues := Turn(events, pos, |history|, effectPanics);
      if !continues {
        history := history + [read];
        return;
      }
      Regroup(history, read, Session(events, read.next, |history| + 1, effectPanics));
      history := history + [read];
      pos := read.next;
    }
  }
}
