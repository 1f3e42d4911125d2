/**
  `RunDmdExample` in the example helper: parse the command line, connect,
  let the caller's `createFunction` build a project, check that it holds the
  requested sequence, then stop the device, load the project and run every
  sequence of the project in turn.

  For each sequence the helper switches to lite mode when the region of
  interest of its first frame is narrower than the DMD, starts it, aborts
  if the start returns -1, spins until the device reads RUNNING, stops it by
  hand only when the repeat count is 0 (the sequence would otherwise repeat
  forever), and spins while the device still reads RUNNING.

  The device, the vendor library and the caller's project builder are
  parameters: what they answer is given, what the helper does to the device
  is a log of commands.
*/
module DmdExample {
  import opened Wrappers
  import opened DriverCodes
  import opened CommandLine
  import opened Driver

  /** A sequence of the built project: its ID, and the ROI width in columns
      of the first frame of its first item (None when there is no such frame,
      so the lookup raises IndexError). */
  datatype SequenceInfo = SequenceInfo(id: int, firstRoiWidth: Option<int>)

  datatype Project = Project(sequences: seq<SequenceInfo>)

  /** What the device answers while one sequence runs: the StartSequence
      result, the run states polled until RUNNING, and those polled after. */
  datatype SequenceEnv = SequenceEnv(startResult: int, untilRunning: seq<RunState>, untilStopped: seq<RunState>)

  /** The host side: the result of `StartSystem`, the vendor's
      `DMD_3000_IMAGE_WIDTH_MAX`, and the device's answers for the k-th
      sequence run. */
  datatype Host = Host(startSystemResult: int, widthMax: int, device: nat -> SequenceEnv)

  /** Why the run raised an exception. */
  datatype Reason =
    | BadArgument(error: ParseError)   // IndexError or ValueError from the parser
    | IndexError                       // a sequence without a first frame
    | StartFailed                      // StartSequence returned -1

  /** How the run ends: `sys.exit(status)`, an uncaught exception, a busy wait
      that never ends, or a normal return. */
  datatype Ending = Exit(status: int) | Raise(reason: Reason) | Hang | Return

  datatype Run = Run(log: seq<Command>, ending: Ending)

  /** `project.FindSequence(id)`: the position of the first sequence with that ID. */
  function FindSequence(p: Project, id: int): (r: Option<nat>)
    ensures r.Some? ==> r.value < |p.sequences| && p.sequences[r.value].id == id
    ensures r.Some? ==> forall k :: 0 <= k < r.value ==> p.sequences[k].id != id
    ensures r.None? <==> forall k :: 0 <= k < |p.sequences| ==> p.sequences[k].id != id
    decreases |p.sequences|
  {
    if p.sequences == [] then None
    else if p.sequences[0].id == id then Some(0)
    else match FindSequence(Project(p.sequences[1..]), id)
      case None => None
      case Some(k) => Some(k + 1)
  }

  /** Lite mode is switched on for a ROI strictly between 0 and the DMD width. */
  predicate UsesLiteMode(width: int, widthMax: int) {
    0 < width < widthMax
  }

  /** One iteration of the loop over the project's sequences. */
  function RunSequence(s: SequenceInfo, env: SequenceEnv, manualStop: bool, widthMax: int): (r: Run)
    ensures !r.ending.Exit?
    ensures r.ending == Raise(IndexError) <==> s.firstRoiWidth.None?
    ensures r.ending == Raise(StartFailed) <==> s.firstRoiWidth.Some? && env.startResult == -1
    ensures r.ending == Raise(StartFailed) ==> |r.log| > 0 && r.log[|r.log| - 1] == StartSequence(s.id)
    ensures r.log == [] <==> s.firstRoiWidth.None?
    ensures r.ending == Return ==>
      WaitUntil(env.untilRunning, Reads(Running)).Some? && WaitUntil(env.untilStopped, ReadsOtherThan(Running)).Some?
  {
    match s.firstRoiWidth
    case None => Run([], Raise(IndexError))
    case Some(width) =>
      var started := (if UsesLiteMode(width, widthMax) then [SetLiteMode] else []) + [StartSequence(s.id)];
      if env.startResult == -1 then Run(started, Raise(StartFailed))
      else if WaitUntil(env.untilRunning, Reads(Running)).None? then Run(started, Hang)
      else
        var stopped := started + (if manualStop then [StopSequence] else []);
        if WaitUntil(env.untilStopped, ReadsOtherThan(Running)).None? then Run(stopped, Hang)
        else Run(stopped, Return)
  }

  /** The loop over the sequences from the k-th run on; it stops at the first
      sequence that does not return. */
  function RunSequences(seqs: seq<SequenceInfo>, host: Host, manualStop: bool, k: nat): (r: Run)
    ensures !r.ending.Exit?
    ensures seqs == [] ==> r == Run([], Return)
    ensures r.ending == Raise(StartFailed) ==> |r.log| > 0 && r.log[|r.log| - 1].StartSequence?
    decreases |seqs|
  {
    if seqs == [] then Run([], Return)
    else
      var first := RunSequence(seqs[0], host.device(k), manualStop, host.widthMax);
      if first.ending != Return then first
      else
        var rest := RunSequences(seqs[1..], host, manualStop, k + 1);
        Run(first.log + rest.log, rest.ending)
  }

  /** The whole helper. `create` is the caller's `createFunction`. */
  function RunDmdExample(argv: seq<string>, create: Settings -> Project, host: Host): (r: Run)
    ensures r.log == [] || (|r.log| >= 3 && r.log[..3] == Loaded)
  {
    match ParseArguments(HelperDefaults, argv)
    case Failure(e) => Run([], if e.UnknownOption? then Exit(2) else Raise(BadArgument(e)))
    case Success(parsed) =>
      var settings := parsed.settings;
      if host.startSystemResult != ErrorCode(ErrorNone) then Run([], Exit(-1))
      else
        var project := create(settings);
        if FindSequence(project, settings.sequenceId).None? then Run([], Exit(-1))
        else
          var loop := RunSequences(project.sequences, host, settings.repeatCount == Value(0), 0);
          assert (Loaded + loop.log)[..3] == Loaded;
          Run(Loaded + loop.log, loop.ending)
  }

  // ------------------------------------------------------------- properties

  /** The commands one sequence run can issue. */
  predicate SequenceCommandsOnly(log: seq<Command>) {
    forall k :: 0 <= k < |log| ==> log[k] == SetLiteMode || log[k].StartSequence? || log[k] == StopSequence
  }

  /** The log of a sequence run that got as far as its start. */
  lemma StartedLog(lite: bool, id: int, stop: bool)
    ensures var log := ((if lite then [SetLiteMode] else []) + [StartSequence(id)]) + (if stop then [StopSequence] else []);
      && log[0] == (if lite then SetLiteMode else StartSequence(id))
      && (SetLiteMode in log <==> lite)
      && (StopSequence in log <==> stop)
      && Starts(log) == 1
      && Occurrences(log, StopSequence) == (if stop then 1 else 0)
      && SequenceCommandsOnly(log)
  {
    StartedLogCounts(lite, id, stop);
  }

  /** The start and stop counts of such a log. */
  lemma StartedLogCounts(lite: bool, id: int, stop: bool)
    ensures var log := ((if lite then [SetLiteMode] else []) + [StartSequence(id)]) + (if stop then [StopSequence] else []);
      && Starts(log) == 1
      && Occurrences(log, StopSequence) == (if stop then 1 else 0)
  {
    var lites := if lite then [SetLiteMode] else [];
    var stops := if stop then [StopSequence] else [];
    SingleCommand(SetLiteMode);
    SingleCommand(StartSequence(id));
    SingleCommand(StopSequence);
    StartsConcat(lites, [StartSequence(id)]);
    StartsConcat(lites + [StartSequence(id)], stops);
    OccurrencesConcat(lites, [StartSequence(id)], StopSequence);
    OccurrencesConcat(lites + [StartSequence(id)], stops, StopSequence);
  }

  /** Lite mode is switched on, before the start, exactly when the first
      frame's ROI is strictly between 0 and the DMD width; each sequence that
      has a first frame is started once. */
  lemma LiteModeBeforeStart(s: SequenceInfo, env: SequenceEnv, manualStop: bool, widthMax: int)
    requires s.firstRoiWidth.Some?
    ensures var r := RunSequence(s, env, manualStop, widthMax);
      var lite := UsesLiteMode(s.firstRoiWidth.value, widthMax);
      && (SetLiteMode in r.log <==> lite)
      && r.log[0] == (if lite then SetLiteMode else StartSequence(s.id))
      && Starts(r.log) == 1
  {
    var lite := UsesLiteMode(s.firstRoiWidth.value, widthMax);
    var running := env.startResult != -1 && WaitUntil(env.untilRunning, Reads(Running)).Some?;
    StartedLog(lite, s.id, running && manualStop);
    StartedLog(lite, s.id, false);
    assert (if lite then [SetLiteMode] else []) + [StartSequence(s.id)]
      == ((if lite then [SetLiteMode] else []) + [StartSequence(s.id)]) + [];
  }

  /** Of all the results StartSequence can report, only -1 (ERROR_CRITICAL)
      aborts the run; the other error codes are ignored. */
  lemma OnlyCriticalStartAborts(s: SequenceInfo, env: SequenceEnv, manualStop: bool, widthMax: int, e: ErrorType)
    requires s.firstRoiWidth.Some?
    ensures RunSequence(s, env.(startResult := ErrorCode(e)), manualStop, widthMax).ending == Raise(StartFailed)
      <==> e == ErrorCritical
  {
    ErrorCodesDistinct(e, ErrorCritical);
  }

  /** The sequence is stopped by hand only when it would repeat forever, and
      only once the device has read RUNNING; a sequence run that returns has
      seen the device leave RUNNING. */
  lemma ManualStopOnlyWhenRepeating(s: SequenceInfo, env: SequenceEnv, manualStop: bool, widthMax: int)
    ensures var r := RunSequence(s, env, manualStop, widthMax);
      && (StopSequence in r.log <==>
            manualStop && s.firstRoiWidth.Some? && env.startResult != -1
            && WaitUntil(env.untilRunning, Reads(Running)).Some?)
      && (r.ending == Return ==> (StopSequence in r.log <==> manualStop))
      && Occurrences(r.log, StopSequence) <= 1
      && SequenceCommandsOnly(r.log)
  {
    if s.firstRoiWidth.Some? {
      var lite := UsesLiteMode(s.firstRoiWidth.value, widthMax);
      var running := env.startResult != -1 && WaitUntil(env.untilRunning, Reads(Running)).Some?;
      StartedLog(lite, s.id, running && manualStop);
      assert (if lite then [SetLiteMode] else []) + [StartSequence(s.id)]
        == ((if lite then [SetLiteMode] else []) + [StartSequence(s.id)]) + [];
    }
  }

  /** A loop over the sequences that returns has started each one once and
      stopped each one by hand if and only if the repeat count is 0; no loop
      starts more sequences than there are (AbortedLoop says which ones a
      loop that does not return has started). */
  lemma {:induction false} SequencesCounts(seqs: seq<SequenceInfo>, host: Host, manualStop: bool, k: nat)
    ensures var r := RunSequences(seqs, host, manualStop, k);
      && Starts(r.log) <= |seqs|
      && SequenceCommandsOnly(r.log)
      && (r.ending == Return ==>
            Starts(r.log) == |seqs| && Occurrences(r.log, StopSequence) == (if manualStop then |seqs| else 0))
    decreases |seqs|
  {
    if seqs != [] {
      var env := host.device(k);
      var first := RunSequence(seqs[0], env, manualStop, host.widthMax);
      ManualStopOnlyWhenRepeating(seqs[0], env, manualStop, host.widthMax);
      if seqs[0].firstRoiWidth.Some? {
        LiteModeBeforeStart(seqs[0], env, manualStop, host.widthMax);
      } else {
        assert first.log == [];
      }
      if first.ending == Return {
        var rest := RunSequences(seqs[1..], host, manualStop, k + 1);
        SequencesCounts(seqs[1..], host, manualStop, k + 1);
        SequenceCommandsJoin(first.log, rest.log);
        StartsConcat(first.log, rest.log);
        OccurrencesConcat(first.log, rest.log, StopSequence);
        OneStopIff(first.log, manualStop);
      }
    }
  }

  /** The run of the i-th of `seqs`, the loop having begun at run `k`. */
  function RunAt(seqs: seq<SequenceInfo>, host: Host, manualStop: bool, k: nat, i: nat): Run
    requires i < |seqs|
  {
    RunSequence(seqs[i], host.device(k + i), manualStop, host.widthMax)
  }

  /** Whether each of the runs of `seqs` returns, the loop having begun at run `k`. */
  function Returned(seqs: seq<SequenceInfo>, host: Host, manualStop: bool, k: nat): (ok: seq<bool>)
    ensures |ok| == |seqs|
    ensures forall j :: 0 <= j < |seqs| ==> ok[j] == (RunAt(seqs, host, manualStop, k, j).ending == Return)
    decreases |seqs|
  {
    if seqs == [] then []
    else
      RunAtShift(seqs, host, manualStop, k);
      [RunAt(seqs, host, manualStop, k, 0).ending == Return] + Returned(seqs[1..], host, manualStop, k + 1)
  }

  /** The position of the first false entry of `ok`, if any. */
  function FirstFalse(ok: seq<bool>): (r: Option<nat>)
    ensures r.Some? ==> r.value < |ok| && !ok[r.value] && forall j :: 0 <= j < r.value ==> ok[j]
    ensures r.None? <==> forall j :: 0 <= j < |ok| ==> ok[j]
    decreases |ok|
  {
    if ok == [] then None
    else if !ok[0] then Some(0)
    else
      match FirstFalse(ok[1..])
      case None => None
      case Some(i) => Some(i + 1)
  }

  /** The position of the first sequence whose run does not return, if any. */
  function FirstFailure(seqs: seq<SequenceInfo>, host: Host, manualStop: bool, k: nat): (r: Option<nat>)
    ensures r.Some? ==> r.value < |seqs| && RunAt(seqs, host, manualStop, k, r.value).ending != Return
    ensures r.Some? ==> forall j :: 0 <= j < r.value ==> RunAt(seqs, host, manualStop, k, j).ending == Return
    ensures r.None? <==> forall j :: 0 <= j < |seqs| ==> RunAt(seqs, host, manualStop, k, j).ending == Return
  {
    FirstFalse(Returned(seqs, host, manualStop, k))
  }

  /** Past the first run, the loop's flags are those of the loop's tail. */
  lemma ReturnedCons(seqs: seq<SequenceInfo>, host: Host, manualStop: bool, k: nat)
    requires seqs != []
    ensures Returned(seqs, host, manualStop, k)[1..] == Returned(seqs[1..], host, manualStop, k + 1)
  {
    var rest := Returned(seqs[1..], host, manualStop, k + 1);
    assert ([RunAt(seqs, host, manualStop, k, 0).ending == Return] + rest)[1..] == rest;
  }

  /** The runs of the loop's tail are the later runs of the whole loop. */
  lemma RunAtShift(seqs: seq<SequenceInfo>, host: Host, manualStop: bool, k: nat)
    requires seqs != []
    ensures forall j :: 1 <= j < |seqs| ==>
      RunAt(seqs, host, manualStop, k, j) == RunAt(seqs[1..], host, manualStop, k + 1, j - 1)
  {
  }

  /** Loop result `r` ends as the run of the sequence at position `failure`
      ended, when there is one, and returns otherwise; its log ends with that
      run's log, after one start for each sequence before it. */
  predicate AbortShape(r: Run, failure: Option<nat>, seqs: seq<SequenceInfo>, host: Host, manualStop: bool, k: nat) {
    && (r.ending == Return <==> failure.None?)
    && (failure.Some? ==>
          && failure.value < |seqs|
          && var fail := RunAt(seqs, host, manualStop, k, failure.value);
             && r.ending == fail.ending
             && |fail.log| <= |r.log|
             && r.log[|r.log| - |fail.log|..] == fail.log
             && Starts(r.log) == failure.value + Starts(fail.log))
  }

  /** A loop that does not return ends as the first failing sequence's run
      ended, having started each sequence before it once; its log ends with
      that run's log, so nothing is issued for the sequences after it. */
  lemma {:induction false} AbortedLoop(seqs: seq<SequenceInfo>, host: Host, manualStop: bool, k: nat)
    ensures AbortShape(RunSequences(seqs, host, manualStop, k), FirstFailure(seqs, host, manualStop, k), seqs, host, manualStop, k)
    decreases |seqs|
  {
    if seqs == [] {
      assert RunSequences(seqs, host, manualStop, k) == Run([], Return);
    } else if RunAt(seqs, host, manualStop, k, 0).ending != Return {
      AbortedFirst(seqs, host, manualStop, k);
    } else {
      AbortedLoop(seqs[1..], host, manualStop, k + 1);
      LoopCons(seqs, host, manualStop, k);
      AbortedLater(RunAt(seqs, host, manualStop, k, 0),
                   RunSequences(seqs[1..], host, manualStop, k + 1), FirstFailure(seqs[1..], host, manualStop, k + 1),
                   RunSequences(seqs, host, manualStop, k), FirstFailure(seqs, host, manualStop, k),
                   seqs, host, manualStop, k);
    }
  }

  /** The loop whose first sequence does not return. */
  lemma AbortedFirst(seqs: seq<SequenceInfo>, host: Host, manualStop: bool, k: nat)
    requires seqs != [] && RunAt(seqs, host, manualStop, k, 0).ending != Return
    ensures AbortShape(RunSequences(seqs, host, manualStop, k), FirstFailure(seqs, host, manualStop, k), seqs, host, manualStop, k)
  {
    var first := RunAt(seqs, host, manualStop, k, 0);
    LoopCons(seqs, host, manualStop, k);
    AbortShapeHere(first, seqs, host, manualStop, k);
    ShapeTransfer(first, RunSequences(seqs, host, manualStop, k), Some(0), FirstFailure(seqs, host, manualStop, k),
                  seqs, host, manualStop, k);
  }

  /** The loop whose first sequence returns, given the shape of the rest. */
  lemma AbortedLater(first: Run, rest: Run, later: Option<nat>, r: Run, failure: Option<nat>,
                     seqs: seq<SequenceInfo>, host: Host, manualStop: bool, k: nat)
    requires seqs != [] && first == RunAt(seqs, host, manualStop, k, 0) && first.ending == Return
    requires AbortShape(rest, later, seqs[1..], host, manualStop, k + 1)
    requires r == Run(first.log + rest.log, rest.ending)
    requires failure == if later.None? then None else Some(later.value + 1)
    ensures AbortShape(r, failure, seqs, host, manualStop, k)
  {
    LiteModeBeforeStart(seqs[0], host.device(k), manualStop, host.widthMax);
    AbortShapeCons(first, rest, later, seqs, host, manualStop, k);
  }


  /** One step of the loop and of the search for its first failure. */
  lemma LoopCons(seqs: seq<SequenceInfo>, host: Host, manualStop: bool, k: nat)
    requires seqs != []
    ensures var first := RunAt(seqs, host, manualStop, k, 0);
      var rest := RunSequences(seqs[1..], host, manualStop, k + 1);
      var failure := FirstFailure(seqs[1..], host, manualStop, k + 1);
      && (first.ending != Return ==>
            RunSequences(seqs, host, manualStop, k) == first && FirstFailure(seqs, host, manualStop, k) == Some(0))
      && (first.ending == Return ==>
            && RunSequences(seqs, host, manualStop, k) == Run(first.log + rest.log, rest.ending)
            && FirstFailure(seqs, host, manualStop, k) == if failure.None? then None else Some(failure.value + 1))
  {
    ReturnedCons(seqs, host, manualStop, k);
  }

  lemma ShapeTransfer(r: Run, r': Run, failure: Option<nat>, failure': Option<nat>,
                      seqs: seq<SequenceInfo>, host: Host, manualStop: bool, k: nat)
    requires r == r' && failure == failure' && AbortShape(r, failure, seqs, host, manualStop, k)
    ensures AbortShape(r', failure', seqs, host, manualStop, k)
  {
  }

  lemma AbortShapeHere(first: Run, seqs: seq<SequenceInfo>, host: Host, manualStop: bool, k: nat)
    requires seqs != [] && first == RunAt(seqs, host, manualStop, k, 0) && first.ending != Return
    ensures AbortShape(first, Some(0), seqs, host, manualStop, k)
  {
    assert first.log[|first.log| - |first.log|..] == first.log;
  }

  lemma AbortShapeCons(first: Run, rest: Run, failure: Option<nat>,
                       seqs: seq<SequenceInfo>, host: Host, manualStop: bool, k: nat)
    requires seqs != [] && first == RunAt(seqs, host, manualStop, k, 0)
    requires first.ending == Return && Starts(first.log) == 1
    requires AbortShape(rest, failure, seqs[1..], host, manualStop, k + 1)
    ensures AbortShape(Run(first.log + rest.log, rest.ending),
                       if failure.None? then None else Some(failure.value + 1), seqs, host, manualStop, k)
  {
    StartsConcat(first.log, rest.log);
    if failure.Some? {
      RunAtShift(seqs, host, manualStop, k);
      SuffixOfJoin(first.log, rest.log, |RunAt(seqs[1..], host, manualStop, k + 1, failure.value).log|);
    }
  }

  lemma LastOfSuffix<X>(a: seq<X>, b: seq<X>)
    requires 0 < |b| <= |a| && a[|a| - |b|..] == b
    ensures a[|a| - 1] == b[|b| - 1]
  {
    assert a[|a| - |b|..][|b| - 1] == a[|a| - 1];
  }

  lemma SuffixOfJoin<X>(a: seq<X>, b: seq<X>, n: nat)
    requires n <= |b|
    ensures (a + b)[|a + b| - n..] == b[|b| - n..]
  {
  }

  lemma OneStopIff(log: seq<Command>, stop: bool)
    requires (StopSequence in log <==> stop) && Occurrences(log, StopSequence) <= 1
    ensures Occurrences(log, StopSequence) == (if stop then 1 else 0)
  {
  }

  lemma SequenceCommandsJoin(a: seq<Command>, b: seq<Command>)
    requires SequenceCommandsOnly(a) && SequenceCommandsOnly(b)
    ensures SequenceCommandsOnly(a + b)
  {
    forall k | 0 <= k < |a + b|
      ensures (a + b)[k] == SetLiteMode || (a + b)[k].StartSequence? || (a + b)[k] == StopSequence
    {
      if k >= |a| {
        assert (a + b)[k] == b[k - |a|];
      }
    }
  }

  // ------------------------------------------------------------- the whole run

  /** A command line the parser rejects ends the run before any driver
      command: status 2 for an unknown option, an uncaught exception for a
      missing or non-integer value. */
  lemma BadArgumentsIssueNothing(argv: seq<string>, create: Settings -> Project, host: Host)
    requires ParseArguments(HelperDefaults, argv).Failure?
    ensures var r := RunDmdExample(argv, create, host);
      var e := ParseArguments(HelperDefaults, argv).error;
      && r.log == []
      && (e.UnknownOption? ==> r.ending == Exit(2))
      && (!e.UnknownOption? ==> r.ending == Raise(BadArgument(e)))
  {
  }

  /** A device that does not start makes the run exit with -1 before any driver command. */
  lemma ConnectFailureIssuesNothing(argv: seq<string>, create: Settings -> Project, host: Host)
    requires ParseArguments(HelperDefaults, argv).Success?
    requires host.startSystemResult != ErrorCode(ErrorNone)
    ensures RunDmdExample(argv, create, host) == Run([], Exit(-1))
  {
  }

  /** A project without the requested sequence makes the run exit with -1
      before any driver command. */
  lemma MissingSequenceIssuesNothing(argv: seq<string>, create: Settings -> Project, host: Host)
    requires ParseArguments(HelperDefaults, argv).Success?
    requires host.startSystemResult == ErrorCode(ErrorNone)
    requires var settings := ParseArguments(HelperDefaults, argv).value.settings;
      forall k :: 0 <= k < |create(settings).sequences| ==> create(settings).sequences[k].id != settings.sequenceId
    ensures RunDmdExample(argv, create, host) == Run([], Exit(-1))
  {
  }

  /** The device is stopped, then the project loaded and awaited, before any
      sequence is started. */
  lemma StartsFollowLoad(argv: seq<string>, create: Settings -> Project, host: Host)
    ensures var r := RunDmdExample(argv, create, host);
      forall k :: 0 <= k < |r.log| && r.log[k].StartSequence? ==> k >= 3
  {
    var r := RunDmdExample(argv, create, host);
    if r.log != [] {
      forall k | 0 <= k < 3
        ensures !r.log[k].StartSequence?
      {
        assert r.log[k] == r.log[..3][k];
      }
    }
  }

  /** The project is loaded exactly once in any run that reaches the device. */
  lemma LoadedOnce(argv: seq<string>, create: Settings -> Project, host: Host)
    ensures var r := RunDmdExample(argv, create, host);
      r.log != [] ==> Occurrences(r.log, LoadProject) == 1
  {
    var r := RunDmdExample(argv, create, host);
    if r.log != [] {
      var settings := ParseArguments(HelperDefaults, argv).value.settings;
      var loop := RunSequences(create(settings).sequences, host, settings.repeatCount == Value(0), 0);
      SequencesCounts(create(settings).sequences, host, settings.repeatCount == Value(0), 0);
      assert r.log == Loaded + loop.log;
      NoLoadIn(loop.log);
      OccurrencesConcat(Loaded, loop.log, LoadProject);
      LoadedCounts();
    }
  }

  lemma NoLoadIn(log: seq<Command>)
    requires SequenceCommandsOnly(log)
    ensures Occurrences(log, LoadProject) == 0
  {
    assert LoadProject !in log by {
      forall k | 0 <= k < |log|
        ensures log[k] != LoadProject
      {
      }
    }
  }

  /** A loop that raises because a start returned -1 has started the
      sequences up to the failing one, once each, and its last command is
      that sequence's start. */
  lemma StartFailedLoop(seqs: seq<SequenceInfo>, host: Host, manualStop: bool, k: nat)
    requires RunSequences(seqs, host, manualStop, k).ending == Raise(StartFailed)
    ensures var r := RunSequences(seqs, host, manualStop, k);
      var failure := FirstFailure(seqs, host, manualStop, k);
      && failure.Some?
      && RunAt(seqs, host, manualStop, k, failure.value).ending == Raise(StartFailed)
      && |r.log| > 0 && r.log[|r.log| - 1] == StartSequence(seqs[failure.value].id)
      && Starts(r.log) == failure.value + 1
  {
    AbortedLoop(seqs, host, manualStop, k);
    StartFailedShape(RunSequences(seqs, host, manualStop, k), FirstFailure(seqs, host, manualStop, k), seqs, host, manualStop, k);
  }

  lemma StartFailedShape(r: Run, failure: Option<nat>, seqs: seq<SequenceInfo>, host: Host, manualStop: bool, k: nat)
    requires AbortShape(r, failure, seqs, host, manualStop, k) && r.ending == Raise(StartFailed)
    ensures failure.Some? && failure.value < |seqs|
    ensures host.device(k + failure.value).startResult == -1
    ensures |r.log| > 0 && r.log[|r.log| - 1] == StartSequence(seqs[failure.value].id)
    ensures Starts(r.log) == failure.value + 1
  {
    var i := failure.value;
    var fail := RunAt(seqs, host, manualStop, k, i);
    RunAtIs(seqs, host, manualStop, k, i);
    LiteModeBeforeStart(seqs[i], host.device(k + i), manualStop, host.widthMax);
    LastOfSuffix(r.log, fail.log);
  }

  lemma StartFailedAt(seqs: seq<SequenceInfo>, host: Host, manualStop: bool, k: nat)
    requires RunSequences(seqs, host, manualStop, k).ending == Raise(StartFailed)
    ensures var i := FirstFailure(seqs, host, manualStop, k);
      i.Some? && RunAt(seqs, host, manualStop, k, i.value).ending == Raise(StartFailed)
  {
    AbortedLoop(seqs, host, manualStop, k);
  }

  lemma RunAtIs(seqs: seq<SequenceInfo>, host: Host, manualStop: bool, k: nat, i: nat)
    requires i < |seqs|
    ensures RunAt(seqs, host, manualStop, k, i) == RunSequence(seqs[i], host.device(k + i), manualStop, host.widthMax)
  {
  }

  /** A run that raises because a start returned -1 has loaded the project,
      started the sequences up to the failing one, once each, and issued
      nothing after that start. */
  lemma AbortedRun(argv: seq<string>, create: Settings -> Project, host: Host)
    requires RunDmdExample(argv, create, host).ending == Raise(StartFailed)
    ensures ParseArguments(HelperDefaults, argv).Success?
    ensures var r := RunDmdExample(argv, create, host);
      var settings := ParseArguments(HelperDefaults, argv).value.settings;
      var seqs := create(settings).sequences;
      var failure := FirstFailure(seqs, host, settings.repeatCount == Value(0), 0);
      && failure.Some?
      && host.device(failure.value).startResult == -1
      && r.log[..3] == Loaded
      && r.log[|r.log| - 1] == StartSequence(seqs[failure.value].id)
      && Starts(r.log) == failure.value + 1
  {
    var settings := ParseArguments(HelperDefaults, argv).value.settings;
    var seqs := create(settings).sequences;
    var manualStop := settings.repeatCount == Value(0);
    var loop := RunSequences(seqs, host, manualStop, 0);
    assert RunDmdExample(argv, create, host) == Run(Loaded + loop.log, loop.ending);
    StartFailedLoop(seqs, host, manualStop, 0);
    StartsConcat(Loaded, loop.log);
    LoadedCounts();
  }

  /** A run that returns has started every sequence of the project once and
      stopped the device once before the load and once per sequence when the
      repeat count is 0 (no stop per sequence otherwise). */
  lemma CompletedRun(argv: seq<string>, create: Settings -> Project, host: Host)
    requires RunDmdExample(argv, create, host).ending == Return
    ensures var r := RunDmdExample(argv, create, host);
      var settings := ParseArguments(HelperDefaults, argv).value.settings;
      var n := |create(settings).sequences|;
      && Starts(r.log) == n
      && Occurrences(r.log, StopSequence) == 1 + (if settings.repeatCount == Value(0) then n else 0)
  {
    var settings := ParseArguments(HelperDefaults, argv).value.settings;
    var loop := RunSequences(create(settings).sequences, host, settings.repeatCount == Value(0), 0);
    SequencesCounts(create(settings).sequences, host, settings.repeatCount == Value(0), 0);
    StartsConcat(Loaded, loop.log);
    OccurrencesConcat(Loaded, loop.log, StopSequence);
    LoadedCounts();
  }

  /** Without `-r` the helper's repeat count stays 0, so a run that returns
      has stopped every sequence by hand. */
  lemma DefaultRepeatStopsByHand(argv: seq<string>, create: Settings -> Project, host: Host)
    requires RunDmdExample(argv, create, host).ending == Return
    requires forall j :: 1 <= j < |argv| ==> argv[j] != "-r" && argv[j] != "-f"
    ensures var settings := ParseArguments(HelperDefaults, argv).value.settings;
      Occurrences(RunDmdExample(argv, create, host).log, StopSequence) == 1 + |create(settings).sequences|
  {
    HelperDefaultsSurvive(argv);
    CompletedRun(argv, create, host);
  }
}
