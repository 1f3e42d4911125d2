/**
  `GaugedQueue`: an unbounded FIFO queue that counts its puts and gets and
  periodically samples its throughput.

  Time is abstracted away: a sample is recorded as the operation count at
  which it was taken, and the "previous timestamp" fields are reduced to
  whether a start mark has been recorded. The first put (get) only records
  the start mark; every later put (get) takes a sample when the number of
  earlier puts (gets) is a multiple of `measurePer`. Both counters are raised
  before the inherited queue operation runs, so a get that raises Empty still
  counts.
*/
module GaugedQueue {
  import opened Wrappers
  import opened SeqFacts

  const DefaultMeasurePer: int := 100

  /** Errors the gauge itself raises: `count % 0` (ZeroDivisionError) and
      arithmetic on a start mark that was never recorded (TypeError on None). */
  datatype SamplingError = ModuloByZero | NoStartMark

  datatype Gauge = MarkStart | TakeSample | NoSample

  /** The gauge step both put and get perform before touching the queue. */
  function GaugeStep(marked: bool, count: nat, measurePer: int): (r: Result<Gauge, SamplingError>)
    ensures r == Success(MarkStart) <==> !marked
    ensures r.Failure? <==> marked && measurePer == 0
    ensures r == Success(TakeSample) <==> marked && measurePer != 0 && count % measurePer == 0
  {
    if !marked then Success(MarkStart)
    else if measurePer == 0 then Failure(ModuloByZero)
    else if count % measurePer == 0 then Success(TakeSample)
    else Success(NoSample)
  }

  datatype Queue<T> = Queue(
    items: seq<T>,
    putMarked: bool,
    getMarked: bool,
    putCount: nat,
    getCount: nat,
    measurePer: int,
    putSamples: seq<nat>,
    getSamples: seq<nat>)

  function NewQueue<T>(measurePer: int): Queue<T> {
    Queue([], false, false, 0, 0, measurePer, [], [])
  }

  /** The put side and the get side have each recorded a start mark exactly
      when they have run at least once. */
  predicate MarksMatchCounts<T>(q: Queue<T>) {
    (q.putMarked <==> q.putCount > 0) && (q.getMarked <==> q.getCount > 0)
  }

  /** `put`: append to the tail; only the put counter, put mark and put samples change. */
  function Put<T>(q: Queue<T>, x: T): (r: Result<Queue<T>, SamplingError>)
    ensures r.Failure? <==> q.putMarked && q.measurePer == 0
    ensures r.Success? ==> var p := r.value;
      && p.items == q.items + [x]
      && p.putCount == q.putCount + 1 && p.putMarked
      && p.getCount == q.getCount && p.getMarked == q.getMarked && p.getSamples == q.getSamples
      && p.measurePer == q.measurePer
      && p.putSamples == q.putSamples + (if q.putMarked && q.putCount % q.measurePer == 0 then [q.putCount] else [])
    ensures r.Success? && MarksMatchCounts(q) ==> MarksMatchCounts(r.value)
  {
    match GaugeStep(q.putMarked, q.putCount, q.measurePer)
    case Failure(e) => Failure(e)
    case Success(g) =>
      Success(q.(
        items := q.items + [x],
        putMarked := true,
        putCount := q.putCount + 1,
        putSamples := if g == TakeSample then q.putSamples + [q.putCount] else q.putSamples))
  }

  /** How `get` waits: `block=False`, `block=True` with no timeout, or with one. */
  datatype GetMode = NonBlocking | BlockForever | BlockFor(timeout: real)

  datatype GetOutcome<T> =
    | Got(item: T, queue: Queue<T>)
    | RaisedEmpty(queue: Queue<T>)
    | RaisedValueError(queue: Queue<T>)   // a negative timeout
    | BlocksForever(queue: Queue<T>)      // nothing else can ever put in a sequential run
    | Crashed(error: SamplingError)

  /** The inherited `Queue.get` on an unbounded queue, run without other threads. */
  function Dequeue<T>(q: Queue<T>, mode: GetMode): (r: GetOutcome<T>)
    ensures !r.Crashed?
    ensures r.Got? <==> q.items != [] && !(mode.BlockFor? && mode.timeout < 0.0)
    ensures r.Got? ==> r.item == q.items[0] && r.queue == q.(items := q.items[1..])
    ensures !r.Got? ==> r.queue == q
    ensures r.RaisedValueError? <==> mode.BlockFor? && mode.timeout < 0.0
    ensures r.BlocksForever? <==> mode.BlockForever? && q.items == []
  {
    match mode
    case NonBlocking =>
      if q.items == [] then RaisedEmpty(q) else Got(q.items[0], q.(items := q.items[1..]))
    case BlockForever =>
      if q.items == [] then BlocksForever(q) else Got(q.items[0], q.(items := q.items[1..]))
    case BlockFor(t) =>
      if t < 0.0 then RaisedValueError(q)
      else if q.items == [] then RaisedEmpty(q)
      else Got(q.items[0], q.(items := q.items[1..]))
  }

  /** `get`, with its throughput sample measured against its own start mark. */
  function Get<T>(q: Queue<T>, mode: GetMode): (r: GetOutcome<T>)
    ensures r.Crashed? <==> q.getMarked && q.measurePer == 0
    ensures !r.Crashed? ==> var p := r.queue;
      && p.getCount == q.getCount + 1 && p.getMarked
      && p.putCount == q.putCount && p.putMarked == q.putMarked && p.putSamples == q.putSamples
      && p.measurePer == q.measurePer
      && p.getSamples == q.getSamples + (if q.getMarked && q.getCount % q.measurePer == 0 then [q.getCount] else [])
    ensures r.Got? <==> !r.Crashed? && q.items != [] && !(mode.BlockFor? && mode.timeout < 0.0)
    ensures r.Got? ==> r.item == q.items[0] && r.queue.items == q.items[1..]
    ensures !r.Got? && !r.Crashed? ==> r.queue.items == q.items
    ensures r.RaisedEmpty? <==> !r.Crashed? && q.items == [] && (mode.NonBlocking? || (mode.BlockFor? && mode.timeout >= 0.0))
    ensures r.Crashed? || MarksMatchCounts(q) ==> r.Crashed? || MarksMatchCounts(r.queue)
  {
    match GaugeStep(q.getMarked, q.getCount, q.measurePer)
    case Failure(e) => Crashed(e)
    case Success(g) =>
      Dequeue(q.(
        getMarked := true,
        getCount := q.getCount + 1,
        getSamples := if g == TakeSample then q.getSamples + [q.getCount] else q.getSamples), mode)
  }

  /** `get` as the source writes it: the sampling branch computes the rate from the
      PUT side's start mark, so it raises TypeError while no put has happened yet. */
  function GetAsWritten<T>(q: Queue<T>, mode: GetMode): (r: GetOutcome<T>)
    ensures q.putMarked ==> r == Get(q, mode)
    ensures r != Get(q, mode) ==> r == Crashed(NoStartMark)
  {
    if GaugeStep(q.getMarked, q.getCount, q.measurePer) == Success(TakeSample) && !q.putMarked then
      Crashed(NoStartMark)
    else
      Get(q, mode)
  }

  // ------------------------------------------------------------ sequences of operations

  /** Putting the items of `xs` one after the other. */
  function PutAll<T>(q: Queue<T>, xs: seq<T>): (r: Result<Queue<T>, SamplingError>)
    ensures r.Success? ==> r.value.items == q.items + xs && r.value.putCount == q.putCount + |xs|
    ensures r.Failure? ==> q.measurePer == 0 && xs != []
    decreases |xs|
  {
    if xs == [] then Success(q)
    else match Put(q, xs[0])
      case Failure(e) => Failure(e)
      case Success(q1) =>
        assert q.items + [xs[0]] + xs[1..] == q.items + xs;
        PutAll(q1, xs[1..])
  }

  /** `n` non-blocking gets, each Empty caught by the caller: the items received and the final queue. */
  function NonBlockingGets<T>(q: Queue<T>, n: nat): (r: Result<(seq<T>, Queue<T>), SamplingError>)
    ensures r.Success? ==> |r.value.0| <= n && r.value.0 + r.value.1.items == q.items
    ensures r.Failure? ==> q.measurePer == 0 && n > 0
    decreases n
  {
    if n == 0 then Success(([], q))
    else
      var o := Get(q, NonBlocking);
      if o.Crashed? then Failure(o.error)
      else
        var rest :- NonBlockingGets(o.queue, n - 1);
        assert o.Got? ==> [o.item] + rest.0 + rest.1.items == [o.item] + o.queue.items == q.items;
        Success(((if o.Got? then [o.item] else []) + rest.0, rest.1))
  }

  /** The counts in `[lo, hi)` at which an operation samples: every positive multiple of `m`. */
  function Schedule(lo: nat, hi: nat, m: int): seq<nat>
    requires m != 0
    decreases hi - lo
  {
    if lo >= hi then []
    else (if lo >= 1 && lo % m == 0 then [lo] else []) + Schedule(lo + 1, hi, m)
  }

  lemma {:induction false} ScheduleMembers(lo: nat, hi: nat, m: int, k: nat)
    requires m != 0
    ensures k in Schedule(lo, hi, m) <==> lo <= k < hi && k >= 1 && k % m == 0
    decreases hi - lo
  {
    if lo < hi {
      ScheduleMembers(lo + 1, hi, m, k);
    }
  }

  /** `p` is what a run of puts of `xs` makes of `q`: the items appended in
      order, only the put counter raised, samples at exactly the scheduled counts. */
  ghost predicate PutsEffect<T>(q: Queue<T>, xs: seq<T>, p: Queue<T>)
    requires q.measurePer != 0
  {
    && p.items == q.items + xs
    && p.putCount == q.putCount + |xs|
    && p.getCount == q.getCount && p.getSamples == q.getSamples && p.measurePer == q.measurePer
    && p.putSamples == q.putSamples + Schedule(q.putCount, q.putCount + |xs|, q.measurePer)
    && MarksMatchCounts(p)
  }

  /** A run of puts appends its items in order, raises only the put counter, and
      samples at exactly the scheduled counts. */
  lemma {:induction false} PutAllEffect<T>(q: Queue<T>, xs: seq<T>)
    requires q.measurePer != 0 && MarksMatchCounts(q)
    ensures PutAll(q, xs).Success? && PutsEffect(q, xs, PutAll(q, xs).value)
    decreases |xs|
  {
    if xs != [] {
      var q1 := Put(q, xs[0]).value;
      PutAllEffect(q1, xs[1..]);
      assert PutAll(q, xs) == PutAll(q1, xs[1..]);
      PutsEffectCons(q, xs, q1, PutAll(q1, xs[1..]).value);
    }
  }

  /** A first put followed by a run of the rest is a run of all. */
  lemma PutsEffectCons<T>(q: Queue<T>, xs: seq<T>, q1: Queue<T>, p: Queue<T>)
    requires q.measurePer != 0 && MarksMatchCounts(q) && xs != [] && Put(q, xs[0]) == Success(q1)
    requires PutsEffect(q1, xs[1..], p)
    ensures PutsEffect(q, xs, p)
  {
    ScheduleHead(q.putCount, q.putCount + |xs|, q.measurePer);
    var head := if q.putCount >= 1 && q.putCount % q.measurePer == 0 then [q.putCount] else [];
    var tail := Schedule(q.putCount + 1, q.putCount + |xs|, q.measurePer);
    assert (q.putSamples + head) + tail == q.putSamples + (head + tail);
    assert (q.items + [xs[0]]) + xs[1..] == q.items + xs;
  }

  /** The schedule from `lo` on: `lo` itself when due, then the rest. */
  lemma ScheduleHead(lo: nat, hi: nat, m: int)
    requires m != 0 && lo < hi
    ensures Schedule(lo, hi, m) == (if lo >= 1 && lo % m == 0 then [lo] else []) + Schedule(lo + 1, hi, m)
  {
  }

  /** A run of `n` non-blocking gets takes the queue's first `n` items in order
      and raises the get counter by `n`, counting the gets that raised Empty. */
  lemma {:induction false} NonBlockingGetsEffect<T>(q: Queue<T>, n: nat)
    requires q.measurePer != 0 && MarksMatchCounts(q)
    ensures NonBlockingGets(q, n).Success?
    ensures var (got, p) := NonBlockingGets(q, n).value;
      var k := if n <= |q.items| then n else |q.items|;
      && got == q.items[..k]
      && p.items == q.items[k..]
      && p.getCount == q.getCount + n
      && p.putCount == q.putCount && p.putMarked == q.putMarked && p.putSamples == q.putSamples
      && p.measurePer == q.measurePer
      && MarksMatchCounts(p)
    decreases n
  {
    if n > 0 {
      var o := Get(q, NonBlocking);
      var q1 := o.queue;
      NonBlockingGetsEffect(q1, n - 1);
      var (rest, p) := NonBlockingGets(q1, n - 1).value;
      NonBlockingGetsStep(q, n);
      var k := if n <= |q.items| then n else |q.items|;
      if o.Got? {
        TakeAfterHead(q.items, k);
      }
    }
  }

  /** One non-blocking get followed by the remaining `n - 1`. */
  lemma NonBlockingGetsStep<T>(q: Queue<T>, n: nat)
    requires n > 0 && !Get(q, NonBlocking).Crashed? && NonBlockingGets(Get(q, NonBlocking).queue, n - 1).Success?
    ensures var o := Get(q, NonBlocking);
      var (rest, p) := NonBlockingGets(o.queue, n - 1).value;
      NonBlockingGets(q, n) == Success(((if o.Got? then [o.item] else []) + rest, p))
  {
  }

  lemma NonBlockingGetsUnfold<T>(q: Queue<T>, n: nat)
    requires q.measurePer != 0 && MarksMatchCounts(q) && n > 0
    ensures NonBlockingGets(q, n).Success?
    ensures var q1 := Get(q, NonBlocking).queue;
      && MarksMatchCounts(q1) && q1.measurePer == q.measurePer
      && q1.getCount == q.getCount + 1
      && q1.getSamples == q.getSamples + (if q.getCount >= 1 && q.getCount % q.measurePer == 0 then [q.getCount] else [])
      && NonBlockingGets(q1, n - 1).Success?
      && NonBlockingGets(q, n).value.1 == NonBlockingGets(q1, n - 1).value.1
  {
    NonBlockingGetsEffect(q, n);
    NonBlockingGetsEffect(Get(q, NonBlocking).queue, n - 1);
  }

  /** Gets follow the same sampling schedule as puts. */
  lemma {:induction false} NonBlockingGetsSamples<T>(q: Queue<T>, n: nat)
    requires q.measurePer != 0 && MarksMatchCounts(q)
    ensures NonBlockingGets(q, n).Success?
    ensures NonBlockingGets(q, n).value.1.getSamples
         == q.getSamples + Schedule(q.getCount, q.getCount + n, q.measurePer)
    decreases n
  {
    var c, m := q.getCount, q.measurePer;
    if n > 0 {
      NonBlockingGetsUnfold(q, n);
      var q1 := Get(q, NonBlocking).queue;
      var sample := if c >= 1 && c % m == 0 then [c] else [];
      NonBlockingGetsSamples(q1, n - 1);
      var tail := Schedule(c + 1, c + n, m);
      assert Schedule(c, c + n, m) == sample + tail;
      assert NonBlockingGets(q, n).value.1.getSamples == (q.getSamples + sample) + tail;
      Assoc(q.getSamples, sample, tail);
    } else {
      assert Schedule(c, c, m) == [];
      assert q.getSamples + [] == q.getSamples;
    }
  }

  /** FIFO law: what is put is got back in the same order. */
  lemma {:induction false} FifoLaw<T>(xs: seq<T>, m: int)
    requires m != 0
    ensures PutAll(NewQueue<T>(m), xs).Success?
    ensures var q := PutAll(NewQueue<T>(m), xs).value;
      && NonBlockingGets(q, |xs|).Success?
      && NonBlockingGets(q, |xs|).value.0 == xs
      && NonBlockingGets(q, |xs|).value.1.items == []
  {
    PutAllEffect(NewQueue<T>(m), xs);
    var q := PutAll(NewQueue<T>(m), xs).value;
    NonBlockingGetsEffect(q, |xs|);
  }

  /** Puts on a fresh queue sample exactly at the positive multiples of `m` below the
      number of puts; the first put only records the start mark. */
  lemma PutSampleSchedule<T>(xs: seq<T>, m: int, k: nat)
    requires m != 0
    ensures PutAll(NewQueue<T>(m), xs).Success?
    ensures k in PutAll(NewQueue<T>(m), xs).value.putSamples <==> 1 <= k < |xs| && k % m == 0
  {
    PutAllEffect(NewQueue<T>(m), xs);
    ScheduleMembers(0, |xs|, m, k);
  }

  /** With `measurePer == 0` the first put succeeds and the second fails on `% 0`. */
  lemma ZeroMeasurePerBreaksSecondPut<T>(x: T, y: T)
    ensures Put(NewQueue<T>(0), x).Success?
    ensures Put(Put(NewQueue<T>(0), x).value, y) == Failure(ModuloByZero)
  {
  }

  /** As written, `n` empty non-blocking gets on a queue nobody has put into, with
      `n` a positive multiple of `measurePer`, make the next get raise TypeError
      where the corrected get raises Empty. With the default of 100 this is the
      101st get. */
  lemma GetAsWrittenCrashesBeforeFirstPut<T>(m: int, n: nat)
    requires m != 0 && n >= 1 && n % m == 0
    ensures NonBlockingGets(NewQueue<T>(m), n).Success?
    ensures var q := NonBlockingGets(NewQueue<T>(m), n).value.1;
      && GetAsWritten(q, NonBlocking) == Crashed(NoStartMark)
      && Get(q, NonBlocking).RaisedEmpty?
  {
    NonBlockingGetsEffect(NewQueue<T>(m), n);
  }
}
