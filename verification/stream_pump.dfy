/**
  The streaming `main` of both programs: stop the device and wait until it
  reads STOPPED, load the project, then pump frames from the deque into the
  device's streaming buffer, start the sequence once the buffer is full, and
  finally stop and wait while the device still reads RUNNING.

  Each loop iteration reads the device through one observation of the
  environment trace: the number of items in the streaming buffer, the run
  state, and the key code `waitKey` returns. Only the fields the iteration's
  branch actually reads matter.
*/
module StreamPump {
  import opened Wrappers
  import opened DriverCodes
  import opened ImageLoading
  import opened Driver
  import opened SeqFacts

  /** The buffer threshold below which frames are submitted, and the sequence started. */
  datatype PumpConfig = PumpConfig(threshold: int, sequenceId: int)

  /** The root program fills the buffer to 100 items. */
  const RootConfig := PumpConfig(100, DefaultSequenceId)

  /** The `Streaming/` program fills it to 500. */
  const StreamingConfig := PumpConfig(500, DefaultSequenceId)

  /** What one iteration can read from the device and the keyboard. */
  datatype Obs = Obs(occupancy: int, runState: RunState, keyCode: int)

  datatype Loop = Loop(deque: seq<Frame>, frameNum: int, keyPress: char, log: seq<Command>)

  /** The state at loop entry: `frameNum = 1`, `keyPress = '0'`. */
  function LoopStart(images: seq<Frame>, log: seq<Command>): Loop {
    Loop(images, 1, '0', log)
  }

  datatype StepResult = Continue(next: Loop) | Break(last: Loop)

  /** `log` extends `prefix`. */
  predicate Extends(log: seq<Command>, prefix: seq<Command>) {
    |prefix| <= |log| && log[..|prefix|] == prefix
  }

  /** Every command after the first `from` of `log` is a submission or a Start of `id`. */
  predicate PumpCommandsOnly(log: seq<Command>, from: nat, id: int) {
    forall k :: from <= k < |log| ==> log[k].AddStreamingSequenceItem? || log[k] == StartSequence(id)
  }

  /** The commands one pass of the loop body issues: below the threshold, a
      submission of the head of the deque (none if the deque is empty, the
      pass then breaks); at or above it, a Start if the device reads STOPPED. */
  function Issued(cfg: PumpConfig, s: Loop, o: Obs): (r: seq<Command>)
    ensures |r| <= 1
    ensures Submitted(r) == (if o.occupancy < cfg.threshold && s.deque != [] then [s.deque[0]] else [])
    ensures Starts(r) == (if o.occupancy >= cfg.threshold && o.runState == Stopped then 1 else 0)
    ensures PumpCommandsOnly(r, 0, cfg.sequenceId)
  {
    if o.occupancy < cfg.threshold then
      if s.deque == [] then []
      else
        SingleCommand(AddStreamingSequenceItem(s.deque[0]));
        [AddStreamingSequenceItem(s.deque[0])]
    else if o.runState == Stopped then
      SingleCommand(StartSequence(cfg.sequenceId));
      [StartSequence(cfg.sequenceId)]
    else []
  }

  /** One pass of the loop body. Below the threshold it pops the head of the
      deque and submits it, or breaks if the deque is empty; at or above the
      threshold it starts the sequence if the device reads STOPPED and then
      reads a key. */
  function Step(cfg: PumpConfig, s: Loop, o: Obs): (r: StepResult)
    ensures r.Break? <==> o.occupancy < cfg.threshold && s.deque == []
    ensures r.Break? ==> r.last == s
    ensures r.Continue? ==> r.next.log == s.log + Issued(cfg, s, o)
    ensures r.Continue? ==> Submitted(Issued(cfg, s, o)) + r.next.deque == s.deque
    ensures r.Continue? ==> r.next.frameNum == s.frameNum + |Submitted(Issued(cfg, s, o))|
    ensures r.Continue? ==> r.next.keyPress == (if o.occupancy < cfg.threshold then s.keyPress else KeyChar(o.keyCode))
  {
    if o.occupancy < cfg.threshold then
      if s.deque == [] then Break(s)
      else
        Continue(s.(
          deque := s.deque[1..],
          frameNum := s.frameNum + 1,
          log := s.log + [AddStreamingSequenceItem(s.deque[0])]))
    else
      var start := if o.runState == Stopped then [StartSequence(cfg.sequenceId)] else [];
      Continue(s.(log := s.log + start, keyPress := KeyChar(o.keyCode)))
  }

  datatype Exit = QuitRequested | OutOfImages

  /** Where the loop got to: its last state, why it exited (None: the trace
      ended while it was still running), and how many observations it used. */
  datatype LoopEnd = LoopEnd(state: Loop, exit: Option<Exit>, used: nat)

  /** What RunLoop promises about the end `r` of the loop run from `s` over
      `trace`: how far it got and why it stopped, ... */
  predicate LoopExit(s: Loop, trace: seq<Obs>, r: LoopEnd) {
    && r.used <= |trace|
    && (r.exit.None? ==> r.used == |trace|)
    && (r.exit == Some(QuitRequested) ==> IsQuitKey(r.state.keyPress))
    && (r.exit == Some(OutOfImages) ==> r.used >= 1 && r.state.deque == [])
  }

  /** ... what it appended to the log and took from the deque, ... */
  predicate LoopLinks(cfg: PumpConfig, s: Loop, r: LoopEnd) {
    && Extends(r.state.log, s.log) && PumpCommandsOnly(r.state.log, |s.log|, cfg.sequenceId)
    && Submitted(r.state.log) + r.state.deque == Submitted(s.log) + s.deque
    && r.state.frameNum - |Submitted(r.state.log)| == s.frameNum - |Submitted(s.log)|
  }

  /** ... and how many commands the observations it used account for. */
  predicate LoopCounts(cfg: PumpConfig, s: Loop, trace: seq<Obs>, r: LoopEnd)
    requires r.used <= |trace|
  {
    && Starts(r.state.log) == Starts(s.log) + StartReads(cfg, trace[..r.used])
    && |Submitted(r.state.log)| + (if r.exit == Some(OutOfImages) then 1 else 0)
      == |Submitted(s.log)| + BelowReads(cfg, trace[..r.used])
  }

  /** The `while keyPress != 'q' and keyPress != 'Q'` loop over a trace of
      observations. Frames leave the deque in order and each is submitted
      once; `frameNum` grows by one per submission. */
  function RunLoop(cfg: PumpConfig, s: Loop, trace: seq<Obs>): (r: LoopEnd)
    ensures r.used <= |trace|
    ensures r.exit.None? ==> r.used == |trace|
    ensures r.exit == Some(QuitRequested) ==> IsQuitKey(r.state.keyPress)
    ensures r.exit == Some(OutOfImages) ==>
      r.used >= 1 && r.state.deque == []
    ensures Extends(r.state.log, s.log) && PumpCommandsOnly(r.state.log, |s.log|, cfg.sequenceId)
    ensures Submitted(r.state.log) + r.state.deque == Submitted(s.log) + s.deque
    ensures r.state.frameNum - |Submitted(r.state.log)| == s.frameNum - |Submitted(s.log)|
    ensures Starts(r.state.log) == Starts(s.log) + StartReads(cfg, trace[..r.used])
    ensures |Submitted(r.state.log)| + (if r.exit == Some(OutOfImages) then 1 else 0)
      == |Submitted(s.log)| + BelowReads(cfg, trace[..r.used])
    decreases |trace|
  {
    if IsQuitKey(s.keyPress) || trace == [] then
      assert trace[..0] == [];
      LoopEnd(s, if trace == [] && !IsQuitKey(s.keyPress) then None else Some(QuitRequested), 0)
    else match Step(cfg, s, trace[0])
      case Break(t) =>
        ReadsOfOne(cfg, trace);
        LoopEnd(t, Some(OutOfImages), 1)
      case Continue(t) =>
        var e := RunLoop(cfg, t, trace[1..]);
        ContinueEnd(cfg, s, trace, t, e);
        LoopEnd(e.state, e.exit, e.used + 1)
  }

  /** A pass that continues to `t`, followed by the rest of the loop `e`,
      keeps the loop's contract. */
  lemma ContinueEnd(cfg: PumpConfig, s: Loop, trace: seq<Obs>, t: Loop, e: LoopEnd)
    requires trace != [] && Step(cfg, s, trace[0]) == Continue(t)
    requires LoopExit(t, trace[1..], e) && LoopLinks(cfg, t, e) && LoopCounts(cfg, t, trace[1..], e)
    ensures var r := LoopEnd(e.state, e.exit, e.used + 1);
      LoopExit(s, trace, r) && LoopLinks(cfg, s, r) && LoopCounts(cfg, s, trace, r)
  {
    LinksEnd(cfg, s, trace[0], t, e);
    CountsEnd(cfg, s, trace, t, e);
  }

  lemma LinksEnd(cfg: PumpConfig, s: Loop, o: Obs, t: Loop, e: LoopEnd)
    requires Step(cfg, s, o) == Continue(t) && LoopLinks(cfg, t, e)
    ensures LoopLinks(cfg, s, e)
  {
    StepLinks(cfg, s, Issued(cfg, s, o), t, e.state);
  }

  lemma CountsEnd(cfg: PumpConfig, s: Loop, trace: seq<Obs>, t: Loop, e: LoopEnd)
    requires trace != [] && Step(cfg, s, trace[0]) == Continue(t)
    requires e.used <= |trace[1..]| && LoopCounts(cfg, t, trace[1..], e)
    ensures LoopCounts(cfg, s, trace, LoopEnd(e.state, e.exit, e.used + 1))
  {
    StartsStep(cfg, s, trace[0], t);
    SubmitsStep(cfg, s, trace[0], t);
    ReadsCons(cfg, trace, e.used + 1);
  }

  /** A pass issues a Start exactly when it reads full and STOPPED, ... */
  lemma StartsStep(cfg: PumpConfig, s: Loop, o: Obs, t: Loop)
    requires Step(cfg, s, o) == Continue(t)
    ensures Starts(t.log) == Starts(s.log) + (if o.occupancy >= cfg.threshold && o.runState == Stopped then 1 else 0)
  {
    StartsConcat(s.log, Issued(cfg, s, o));
  }

  /** ... and, when it continues, submits exactly when it reads below the threshold. */
  lemma SubmitsStep(cfg: PumpConfig, s: Loop, o: Obs, t: Loop)
    requires Step(cfg, s, o) == Continue(t)
    ensures |Submitted(t.log)| == |Submitted(s.log)| + (if o.occupancy < cfg.threshold then 1 else 0)
  {
    SubmittedConcat(s.log, Issued(cfg, s, o));
  }

  lemma ReadsOfOne(cfg: PumpConfig, trace: seq<Obs>)
    requires trace != [] && trace[0].occupancy < cfg.threshold
    ensures StartReads(cfg, trace[..1]) == 0 && BelowReads(cfg, trace[..1]) == 1
  {
    assert trace[..1][1..] == [];
  }

  /** Gluing commands `i` issued by one pass onto the rest of the loop keeps
      the loop's invariants. */
  lemma StepLinks(cfg: PumpConfig, s: Loop, i: seq<Command>, t: Loop, u: Loop)
    requires t.log == s.log + i && Submitted(i) + t.deque == s.deque
    requires t.frameNum == s.frameNum + |Submitted(i)|
    requires PumpCommandsOnly(i, 0, cfg.sequenceId)
    requires Extends(u.log, t.log) && PumpCommandsOnly(u.log, |t.log|, cfg.sequenceId)
    requires Submitted(u.log) + u.deque == Submitted(t.log) + t.deque
    requires u.frameNum - |Submitted(u.log)| == t.frameNum - |Submitted(t.log)|
    ensures Extends(u.log, s.log) && PumpCommandsOnly(u.log, |s.log|, cfg.sequenceId)
    ensures Submitted(u.log) + u.deque == Submitted(s.log) + s.deque
    ensures u.frameNum - |Submitted(u.log)| == s.frameNum - |Submitted(s.log)|
  {
    ExtendsLink(cfg, s.log, i, t.log, u.log);
    SubmittedConcat(s.log, i);
    Assoc(Submitted(s.log), Submitted(i), t.deque);
  }

  lemma ExtendsLink(cfg: PumpConfig, a: seq<Command>, i: seq<Command>, b: seq<Command>, c: seq<Command>)
    requires b == a + i && PumpCommandsOnly(i, 0, cfg.sequenceId)
    requires Extends(c, b) && PumpCommandsOnly(c, |b|, cfg.sequenceId)
    ensures Extends(c, a) && PumpCommandsOnly(c, |a|, cfg.sequenceId)
  {
    assert c[..|a|] == c[..|b|][..|a|];
    forall k | |a| <= k < |b|
      ensures c[k].AddStreamingSequenceItem? || c[k] == StartSequence(cfg.sequenceId)
    {
      assert c[k] == b[k] == i[k - |a|];
    }
  }

  // ------------------------------------------------------------ counting guards over a trace

  /** The observations that read at or above the threshold and STOPPED. */
  function StartReads(cfg: PumpConfig, trace: seq<Obs>): nat {
    if trace == [] then 0
    else
      var here := if trace[0].occupancy >= cfg.threshold && trace[0].runState == Stopped then 1 else 0;
      here + StartReads(cfg, trace[1..])
  }

  /** The observations that read below the threshold. */
  function BelowReads(cfg: PumpConfig, trace: seq<Obs>): nat {
    if trace == [] then 0
    else (if trace[0].occupancy < cfg.threshold then 1 else 0) + BelowReads(cfg, trace[1..])
  }

  /** The reads of the first `n` observations: those of the first, then
      those of the next `n - 1`. */
  lemma ReadsCons(cfg: PumpConfig, trace: seq<Obs>, n: nat)
    requires 1 <= n <= |trace|
    ensures StartReads(cfg, trace[..n])
      == (if trace[0].occupancy >= cfg.threshold && trace[0].runState == Stopped then 1 else 0)
         + StartReads(cfg, trace[1..][..n - 1])
    ensures BelowReads(cfg, trace[..n])
      == (if trace[0].occupancy < cfg.threshold then 1 else 0) + BelowReads(cfg, trace[1..][..n - 1])
  {
    var used := trace[..n];
    assert used[0] == trace[0] && used[1..] == trace[1..][..n - 1];
  }

  /** While the buffer never fills, the loop never starts the sequence. */
  lemma {:induction false} NoStartBelowThreshold(cfg: PumpConfig, s: Loop, trace: seq<Obs>)
    requires forall k :: 0 <= k < |trace| ==> trace[k].occupancy < cfg.threshold
    ensures Starts(RunLoop(cfg, s, trace).state.log) == Starts(s.log)
  {
    NoStartReads(cfg, trace[..RunLoop(cfg, s, trace).used]);
  }

  lemma {:induction false} NoStartReads(cfg: PumpConfig, trace: seq<Obs>)
    requires forall k :: 0 <= k < |trace| ==> trace[k].occupancy < cfg.threshold
    ensures StartReads(cfg, trace) == 0
    decreases |trace|
  {
    if trace != [] {
      NoStartReads(cfg, trace[1..]);
    }
  }

  lemma {:induction false} NoBelowReads(cfg: PumpConfig, trace: seq<Obs>)
    requires forall k :: 0 <= k < |trace| ==> trace[k].occupancy >= cfg.threshold
    ensures BelowReads(cfg, trace) == 0
    decreases |trace|
  {
    if trace != [] {
      NoBelowReads(cfg, trace[1..]);
    }
  }

  /** While the buffer stays full, no frame is submitted and the deque is untouched. */
  lemma NoSubmitWhileFull(cfg: PumpConfig, s: Loop, trace: seq<Obs>)
    requires forall k :: 0 <= k < |trace| ==> trace[k].occupancy >= cfg.threshold
    ensures var e := RunLoop(cfg, s, trace);
      Submitted(e.state.log) == Submitted(s.log) && e.state.deque == s.deque
  {
    var e := RunLoop(cfg, s, trace);
    NoBelowReads(cfg, trace[..e.used]);
    assert e.exit != Some(OutOfImages);
    var a := Submitted(s.log);
    assert Submitted(e.state.log)[..|a|] == (Submitted(e.state.log) + e.state.deque)[..|a|];
  }

  /** With the buffer below the threshold throughout, the loop submits the
      whole deque in order, one frame per observation, and breaks on the next
      observation. */
  lemma {:induction false} DrainBelowThreshold(cfg: PumpConfig, s: Loop, trace: seq<Obs>)
    requires !IsQuitKey(s.keyPress)
    requires |trace| > |s.deque|
    requires forall k :: 0 <= k < |trace| ==> trace[k].occupancy < cfg.threshold
    ensures var e := RunLoop(cfg, s, trace);
      && e.exit == Some(OutOfImages) && e.used == |s.deque| + 1
      && e.state.log == s.log + AddAll(s.deque)
      && e.state.frameNum == s.frameNum + |s.deque|
    decreases |s.deque|
  {
    if s.deque == [] {
      assert s.log + AddAll(s.deque) == s.log;
    } else {
      var t := DrainStep(cfg, s, trace[0]);
      var rest := trace[1..];
      TailBelow(cfg, trace);
      DrainBelowThreshold(cfg, t, rest);
      RunLoopContinue(cfg, s, trace);
      DrainGlue(s.log, s.deque, RunLoop(cfg, t, rest).state.log);
    }
  }

  /** One pass below the threshold with frames left: pop and submit the head. */
  lemma DrainStep(cfg: PumpConfig, s: Loop, o: Obs) returns (t: Loop)
    requires o.occupancy < cfg.threshold && s.deque != []
    ensures Step(cfg, s, o) == Continue(t)
    ensures t.log == s.log + [AddStreamingSequenceItem(s.deque[0])]
    ensures t.deque == s.deque[1..] && t.frameNum == s.frameNum + 1 && t.keyPress == s.keyPress
  {
    t := Step(cfg, s, o).next;
  }

  lemma TailBelow(cfg: PumpConfig, trace: seq<Obs>)
    requires trace != []
    requires forall k :: 0 <= k < |trace| ==> trace[k].occupancy < cfg.threshold
    ensures forall k :: 0 <= k < |trace[1..]| ==> trace[1..][k].occupancy < cfg.threshold
  {
    forall k | 0 <= k < |trace[1..]|
      ensures trace[1..][k].occupancy < cfg.threshold
    {
      assert trace[1..][k] == trace[k + 1];
    }
  }

  /** RunLoop after a pass that continues is the rest of the loop from the next state. */
  lemma RunLoopContinue(cfg: PumpConfig, s: Loop, trace: seq<Obs>)
    requires !IsQuitKey(s.keyPress) && trace != [] && Step(cfg, s, trace[0]).Continue?
    ensures var e1 := RunLoop(cfg, Step(cfg, s, trace[0]).next, trace[1..]);
      RunLoop(cfg, s, trace) == LoopEnd(e1.state, e1.exit, e1.used + 1)
  {
  }

  lemma DrainGlue(log: seq<Command>, deque: seq<Frame>, end: seq<Command>)
    requires deque != []
    requires end == (log + [AddStreamingSequenceItem(deque[0])]) + AddAll(deque[1..])
    ensures end == log + AddAll(deque)
  {
    AddAllCons(deque);
    Assoc(log, [AddStreamingSequenceItem(deque[0])], AddAll(deque[1..]));
  }

  lemma AddAllCons(deque: seq<Frame>)
    requires deque != []
    ensures AddAll(deque) == [AddStreamingSequenceItem(deque[0])] + AddAll(deque[1..])
  {
  }


  /** One submission per frame, in order. */
  function AddAll(frames: seq<Frame>): (r: seq<Command>)
    ensures |r| == |frames|
    ensures forall k :: 0 <= k < |frames| ==> r[k] == AddStreamingSequenceItem(frames[k])
  {
    seq(|frames|, k requires 0 <= k < |frames| => AddStreamingSequenceItem(frames[k]))
  }

  /** Two saturated iterations that both read STOPPED issue Start twice. */
  lemma StartIsReissued(cfg: PumpConfig, images: seq<Frame>, code: int)
    requires !IsQuitKey(KeyChar(code))
    ensures var full := Obs(cfg.threshold, Stopped, code);
      Starts(RunLoop(cfg, LoopStart(images, []), [full, full]).state.log) == 2
  {
    var full := Obs(cfg.threshold, Stopped, code);
    var s := LoopStart(images, []);
    var s1 := Step(cfg, s, full).next;
    var s2 := Step(cfg, s1, full).next;
    assert s1.log == [StartSequence(cfg.sequenceId)];
    assert s2.log == [StartSequence(cfg.sequenceId), StartSequence(cfg.sequenceId)];
    assert [full, full][1..] == [full];
    assert RunLoop(cfg, s1, [full]).state == s2;
  }

  // ------------------------------------------------------------ the whole session

  /** The three traces the session reads: polls while waiting for STOPPED
      before the load, one observation per loop iteration, and polls while
      waiting for the device to leave RUNNING after the final stop. */
  datatype Env = Env(beforeLoad: seq<RunState>, loop: seq<Obs>, afterStop: seq<RunState>)

  datatype Phase = StoppingBeforeLoad | Pumping | StoppingAtEnd

  /** A finished session (`main` returns 0), or one that spins forever in a phase. */
  datatype Session =
    | Finished(log: seq<Command>, frameNum: int, exit: Exit)
    | Stalled(log: seq<Command>, phase: Phase)

  /** `main` from the first StopSequence on. */
  function RunSession(cfg: PumpConfig, images: seq<Frame>, env: Env): (r: Session)
    ensures |r.log| >= 1 && r.log[0] == StopSequence
    ensures r.Stalled? && r.phase == StoppingBeforeLoad <==> WaitUntil(env.beforeLoad, Reads(Stopped)).None?
  {
    match WaitUntil(env.beforeLoad, Reads(Stopped))
    case None => Stalled([StopSequence], StoppingBeforeLoad)
    case Some(_) =>
      var e := RunLoop(cfg, LoopStart(images, Loaded), env.loop);
      assert e.state.log[..3] == Loaded;
      if e.exit.None? then Stalled(e.state.log, Pumping)
      else match WaitUntil(env.afterStop, ReadsOtherThan(Running))
        case None => Stalled(e.state.log + [StopSequence], StoppingAtEnd)
        case Some(_) => Finished(e.state.log + [StopSequence], e.state.frameNum, e.exit.value)
  }

  /** What the loop leaves behind when it runs after the load commands. */
  lemma {:induction false} LoopAfterLoad(cfg: PumpConfig, images: seq<Frame>, trace: seq<Obs>)
    ensures var e := RunLoop(cfg, LoopStart(images, Loaded), trace);
      && e.state.log == Loaded + e.state.log[3..]
      && StopSequence !in e.state.log[3..] && LoadProject !in e.state.log[3..]
      && Submitted(e.state.log) + e.state.deque == images
      && e.state.frameNum == 1 + |Submitted(e.state.log)|
  {
    var e := RunLoop(cfg, LoopStart(images, Loaded), trace);
    LoadedPrefix(e.state.log, cfg.sequenceId);
    LoadedCounts();
  }

  lemma LoadedPrefix(log: seq<Command>, id: int)
    requires Extends(log, Loaded) && PumpCommandsOnly(log, 3, id)
    ensures log == Loaded + log[3..]
    ensures StopSequence !in log[3..] && LoadProject !in log[3..]
  {
    var rest := log[3..];
    forall k | 0 <= k < |rest|
      ensures rest[k] != StopSequence && rest[k] != LoadProject
    {
      assert rest[k] == log[k + 3];
    }
  }

  /** The project is loaded only after the stop and only once the device has
      read STOPPED, and the load is awaited before anything else happens. */
  lemma LoadAfterStop(cfg: PumpConfig, images: seq<Frame>, env: Env)
    ensures var r := RunSession(cfg, images, env);
      && (LoadProject in r.log <==> WaitUntil(env.beforeLoad, Reads(Stopped)).Some?)
      && (LoadProject in r.log ==> |r.log| >= 3 && r.log[..3] == [StopSequence, LoadProject, WaitForLoadComplete])
  {
    var r := RunSession(cfg, images, env);
    if WaitUntil(env.beforeLoad, Reads(Stopped)).Some? {
      var e := RunLoop(cfg, LoopStart(images, Loaded), env.loop);
      assert e.state.log[..3] == Loaded;
      assert r.log[1] == LoadProject;
      assert r.log[..3] == Loaded;
    } else {
      assert r.log == [StopSequence];
    }
  }

  /** The session's log once the project is loaded: the loop's log, followed by
      the final stop if the loop exited. */
  lemma SessionLog(cfg: PumpConfig, images: seq<Frame>, env: Env)
    requires WaitUntil(env.beforeLoad, Reads(Stopped)).Some?
    ensures var e := RunLoop(cfg, LoopStart(images, Loaded), env.loop);
      var r := RunSession(cfg, images, env);
      && r.log == (if e.exit.None? then e.state.log else e.state.log + [StopSequence])
      && (r.Finished? <==> e.exit.Some? && WaitUntil(env.afterStop, ReadsOtherThan(Running)).Some?)
      && (r.Finished? ==> r.frameNum == e.state.frameNum && r.exit == e.exit.value)
  {
  }

  /** Frames reach the device in deque order, each at most once. */
  lemma {:induction false} SubmittedInOrder(cfg: PumpConfig, images: seq<Frame>, env: Env)
    ensures Submitted(RunSession(cfg, images, env).log) <= images
  {
    var r := RunSession(cfg, images, env);
    if WaitUntil(env.beforeLoad, Reads(Stopped)).None? {
      assert r.log == [StopSequence];
      SingleCommand(StopSequence);
    } else {
      SessionLog(cfg, images, env);
      var e := RunLoop(cfg, LoopStart(images, Loaded), env.loop);
      LoopAfterLoad(cfg, images, env.loop);
      FinalStopSubmitsNothing(e.state.log);
      PrefixOfJoin(Submitted(e.state.log), e.state.deque, images);
    }
  }

  lemma FinalStopSubmitsNothing(log: seq<Command>)
    ensures Submitted(log + [StopSequence]) == Submitted(log)
  {
    SubmittedConcat(log, [StopSequence]);
    SingleCommand(StopSequence);
  }

  /** A finished session ends with exactly one StopSequence after the loop
      (two in all, counting the one before the load), returns only once the
      device reads something other than RUNNING, and has counted one frame
      number per submission. If it ran out of images, it submitted them all. */
  lemma {:induction false} FinishedSession(cfg: PumpConfig, images: seq<Frame>, env: Env)
    requires RunSession(cfg, images, env).Finished?
    ensures var r := RunSession(cfg, images, env);
      && r.log[|r.log| - 1] == StopSequence
      && Occurrences(r.log, StopSequence) == 2
      && WaitUntil(env.afterStop, ReadsOtherThan(Running)).Some?
      && r.frameNum == 1 + |Submitted(r.log)|
      && (r.exit == OutOfImages ==> Submitted(r.log) == images)
  {
    var r := RunSession(cfg, images, env);
    SessionLog(cfg, images, env);
    var e := RunLoop(cfg, LoopStart(images, Loaded), env.loop);
    LoopAfterLoad(cfg, images, env.loop);
    FinalStopSubmitsNothing(e.state.log);
    StopCount(e.state.log);
  }

  /** A log that starts with the load commands and then only pumps, followed
      by the final stop, holds two stops. */
  lemma StopCount(log: seq<Command>)
    requires |log| >= 3 && log == Loaded + log[3..] && StopSequence !in log[3..]
    ensures Occurrences(log + [StopSequence], StopSequence) == 2
  {
    SingleCommand(StopSequence);
    OccurrencesConcat(log, [StopSequence], StopSequence);
    OccurrencesConcat(Loaded, log[3..], StopSequence);
    LoadedCounts();
  }
}
