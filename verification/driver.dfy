/**
  The device seen from the host programs: the commands they issue to the
  driver, the run-state polls they spin on, and the key code `cv2.waitKey`
  returns. The device itself is not modelled; what it reports comes from
  environment traces, and what the programs do to it is a log of commands.
*/
module Driver {
  import opened Wrappers
  import opened DriverCodes
  import opened ImageLoading

  /** The driver calls the programs issue, in the order they issue them. */
  datatype Command =
    | StopSequence
    | LoadProject
    | WaitForLoadComplete
    | AddStreamingSequenceItem(frame: Frame)
    | StartSequence(sequenceId: int)
    | SetLiteMode

  /** The condition a busy wait on the run state spins until. */
  datatype WaitCond = Reads(state: RunState) | ReadsOtherThan(state: RunState)

  predicate Holds(c: WaitCond, s: RunState) {
    match c
    case Reads(t) => s == t
    case ReadsOtherThan(t) => s != t
  }

  /** A busy wait over the run states the device reports, poll by poll: the
      index of the poll that ends it, or None if the trace never satisfies it
      (the program would spin forever). */
  function WaitUntil(polls: seq<RunState>, c: WaitCond): (r: Option<nat>)
    ensures r.Some? ==> r.value < |polls| && Holds(c, polls[r.value])
    ensures r.Some? ==> forall k :: 0 <= k < r.value ==> !Holds(c, polls[k])
    ensures r.None? <==> forall k :: 0 <= k < |polls| ==> !Holds(c, polls[k])
    decreases |polls|
  {
    if polls == [] then None
    else if Holds(c, polls[0]) then Some(0)
    else match WaitUntil(polls[1..], c)
      case None => None
      case Some(i) => Some(i + 1)
  }

  /** The character the programs derive from a `waitKey` code:
      `chr(k % 256)` below 128, `'?'` otherwise. Python's `%` by 256 never
      yields a negative value, and neither does Dafny's. */
  function KeyChar(code: int): (c: char)
    ensures code % 256 < 128 ==> c as int == code % 256
    ensures code % 256 >= 128 ==> c == '?'
  {
    if code % 256 < 128 then (code % 256) as char else '?'
  }

  predicate IsQuitKey(c: char) {
    c == 'q' || c == 'Q'
  }

  /** The loop stops exactly on the key codes congruent to `'q'` or `'Q'`
      modulo 256. */
  lemma QuitKeyCodes(code: int)
    ensures IsQuitKey(KeyChar(code)) <==> code % 256 == 'q' as int || code % 256 == 'Q' as int
  {
  }

  /** `waitKey` reports -1 when no key was pressed, which reads as `'?'`, so
      an idle keyboard never ends the loop. */
  lemma NoKeyIsNoQuit()
    ensures KeyChar(-1) == '?' && !IsQuitKey(KeyChar(-1))
  {
  }

  /** The number of times `cmd` occurs in `log`. */
  function Occurrences(log: seq<Command>, cmd: Command): (n: nat)
    ensures n <= |log|
    ensures n == 0 <==> cmd !in log
  {
    if log == [] then 0
    else Occurrences(log[..|log| - 1], cmd) + (if log[|log| - 1] == cmd then 1 else 0)
  }

  lemma {:induction false} OccurrencesConcat(a: seq<Command>, b: seq<Command>, cmd: Command)
    ensures Occurrences(a + b, cmd) == Occurrences(a, cmd) + Occurrences(b, cmd)
    decreases |b|
  {
    if b == [] {
      assert a + b == a;
    } else {
      var b0 := b[..|b| - 1];
      assert (a + b)[..|a + b| - 1] == a + b0;
      OccurrencesConcat(a, b0, cmd);
    }
  }

  /** The frames a log submits, in submission order. */
  function Submitted(log: seq<Command>): (r: seq<Frame>)
    ensures |r| <= |log|
  {
    if log == [] then []
    else
      var last := log[|log| - 1];
      Submitted(log[..|log| - 1]) + (if last.AddStreamingSequenceItem? then [last.frame] else [])
  }

  lemma {:induction false} SubmittedConcat(a: seq<Command>, b: seq<Command>)
    ensures Submitted(a + b) == Submitted(a) + Submitted(b)
    decreases |b|
  {
    if b == [] {
      assert a + b == a;
    } else {
      var b0 := b[..|b| - 1];
      assert (a + b)[..|a + b| - 1] == a + b0;
      SubmittedConcat(a, b0);
    }
  }

  /** The number of StartSequence commands in a log. */
  function Starts(log: seq<Command>): (n: nat)
    ensures n <= |log|
  {
    if log == [] then 0
    else Starts(log[..|log| - 1]) + (if log[|log| - 1].StartSequence? then 1 else 0)
  }

  lemma {:induction false} StartsConcat(a: seq<Command>, b: seq<Command>)
    ensures Starts(a + b) == Starts(a) + Starts(b)
    decreases |b|
  {
    if b == [] {
      assert a + b == a;
    } else {
      var b0 := b[..|b| - 1];
      assert (a + b)[..|a + b| - 1] == a + b0;
      StartsConcat(a, b0);
    }
  }

  lemma SingleCommand(c: Command)
    ensures Submitted([c]) == (if c.AddStreamingSequenceItem? then [c.frame] else [])
    ensures Starts([c]) == (if c.StartSequence? then 1 else 0)
    ensures Occurrences([c], StopSequence) == (if c == StopSequence then 1 else 0)
  {
    assert [c][..0] == [];
  }

  /** The commands both programs issue before anything else reaches the
      device: stop what is running, load the project, wait for the load. */
  const Loaded := [StopSequence, LoadProject, WaitForLoadComplete]

  lemma LoadedCounts()
    ensures Submitted(Loaded) == [] && Starts(Loaded) == 0
    ensures Occurrences(Loaded, StopSequence) == 1 && Occurrences(Loaded, LoadProject) == 1
  {
    assert Loaded[..2][..1] == [StopSequence];
    assert Loaded[..2] == [StopSequence, LoadProject];
    assert [StopSequence][..0] == [];
  }
}
