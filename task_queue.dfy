/**
 * The database task queue (src/queue.mjs): a FIFO executor built on one array.
 *
 * `addToQueue` puts a task at index 0; the periodic tick takes the LAST element
 * (the oldest task) only when the array is non-empty and its last element is not
 * the `false` placeholder; `run` replaces that task by the placeholder, awaits the
 * task and then pops the placeholder.  The `await` is split into two atomic steps:
 * the synchronous start of `run`, and its resumption when the task settles.  A task
 * that throws never reaches the final `pop`, so the placeholder stays forever.
 */
module TaskQueue {
  import opened Wrappers

  /** One array element: a queued task, or the `false` placeholder that marks a running task. */
  datatype Slot<T> = Task(task: T) | Placeholder

  /** `lastItem(arr)`: `arr[arr.length - 1]`, which is `undefined` on an empty array. */
  function LastItem<T>(arr: seq<Slot<T>>): (r: Option<Slot<T>>)
    ensures r.None? <==> |arr| == 0
    ensures r.Some? ==> r.value == arr[|arr| - 1]
  {
    if |arr| == 0 then None else Some(arr[|arr| - 1])
  }

  /** `isEmpty(arr)` */
  predicate IsEmpty<T>(arr: seq<Slot<T>>): (r: bool)
    ensures r <==> LastItem(arr).None?
  {
    |arr| == 0
  }

  /** The placeholder is at the end: the tick regards `run` as busy. */
  predicate Busy<T>(arr: seq<Slot<T>>) {
    |arr| > 0 && arr[|arr| - 1].Placeholder?
  }

  /** The tick's guard: `lastItem(queue) !== false && !isEmpty(queue)`. */
  predicate CanStart<T>(arr: seq<Slot<T>>): (r: bool)
    ensures r <==> |arr| > 0 && arr[|arr| - 1].Task?
    ensures r <==> !IsEmpty(arr) && !Busy(arr)
  {
    var last := LastItem(arr);
    !(last.Some? && last.value.Placeholder?) && !IsEmpty(arr)
  }

  /** `arr.pop()` as an update of the array (popping an empty array leaves it empty). */
  function Pop<T>(arr: seq<Slot<T>>): seq<Slot<T>> {
    if |arr| == 0 then arr else arr[..|arr| - 1]
  }

  /** Every placeholder sits at the very end: at most one, and only as the last element. */
  ghost predicate WellFormed<T>(arr: seq<Slot<T>>) {
    forall i :: 0 <= i < |arr| - 1 ==> arr[i].Task?
  }

  /** The tasks still waiting, oldest first (the array holds them newest first). */
  function Waiting<T>(arr: seq<Slot<T>>): seq<T> {
    if |arr| == 0 then []
    else Waiting(arr[1..]) + (if arr[0].Task? then [arr[0].task] else [])
  }

  /** Number of placeholders in the array: the number of runs the tick believes active. */
  function Placeholders<T>(arr: seq<Slot<T>>): nat {
    if |arr| == 0 then 0
    else Placeholders(arr[1..]) + (if arr[0].Placeholder? then 1 else 0)
  }

  /**
   * The queue's whole state: the array, and whether a `run` call is suspended at
   * `await func()` (the promise the tick dropped on the floor).
   */
  datatype QState<T> = QState(arr: seq<Slot<T>>, inFlight: bool)

  /** What the queue's code keeps true: a well-formed array, with the placeholder present while a run is in flight. */
  ghost predicate Inv<T>(s: QState<T>) {
    WellFormed(s.arr) && (s.inFlight ==> Busy(s.arr))
  }

  /** A task threw: the placeholder is still at the end but no run will ever pop it. */
  predicate Stalled<T>(s: QState<T>) {
    Busy(s.arr) && !s.inFlight
  }

  /**
   * The atomic steps of the queue: `addToQueue(t)`, one firing of the interval timer (`Timer`),
   * and the resumption of the in-flight `run` when its task resolves or rejects.
   */
  datatype Event<T> = Add(task: T) | Timer | Resolved | Rejected

  /** The state after one step, and the task the step started (if any). */
  datatype Step<T> = Step(next: QState<T>, started: Option<T>)

  function Next<T>(s: QState<T>, e: Event<T>): (step: Step<T>)
    ensures step.started.Some? ==> e.Timer? && CanStart(s.arr) && step.next.inFlight
    ensures e.Add? ==> |step.next.arr| == |s.arr| + 1 && step.next.inFlight == s.inFlight
    ensures e.Timer? ==> |step.next.arr| == |s.arr|
    ensures (e.Resolved? || e.Rejected?) ==> !step.next.inFlight && |step.next.arr| <= |s.arr|
  {
    match e
    case Add(t) => Step(QState([Task(t)] + s.arr, s.inFlight), None)
    case Timer =>
      if CanStart(s.arr) then
        Step(QState(s.arr[..|s.arr| - 1] + [Placeholder], true), Some(s.arr[|s.arr| - 1].task))
      else Step(s, None)
    case Resolved =>
      if s.inFlight then Step(QState(Pop(s.arr), false), None) else Step(s, None)
    case Rejected =>
      // the rejection escapes `run` before its final `pop`
      if s.inFlight then Step(QState(s.arr, false), None) else Step(s, None)
  }

  /** The tasks started along a run of events, and the state reached. */
  datatype Trace<T> = Trace(last: QState<T>, started: seq<T>)

  function Replay<T>(s: QState<T>, es: seq<Event<T>>): Trace<T>
    decreases |es|
  {
    if |es| == 0 then Trace(s, [])
    else
      var step := Next(s, es[0]);
      var rest := Replay(step.next, es[1..]);
      Trace(rest.last, StartedBy(step) + rest.started)
  }

  /** The task an event enqueues, as a sequence. */
  function AddedBy<T>(e: Event<T>): seq<T> {
    if e.Add? then [e.task] else []
  }

  /** The tasks enqueued by a run of events, in enqueue order. */
  function Added<T>(es: seq<Event<T>>): seq<T> {
    if |es| == 0 then [] else AddedBy(es[0]) + Added(es[1..])
  }

  // ---------------------------------------------------------------------------
  // Properties of the array

  /** Taking the last element takes the oldest waiting task. */
  lemma {:induction false} WaitingLast<T>(arr: seq<Slot<T>>)
    requires |arr| > 0 && arr[|arr| - 1].Task?
    ensures Waiting(arr) == [arr[|arr| - 1].task] + Waiting(arr[..|arr| - 1])
  {
    if |arr| > 1 {
      var rest := arr[1..];
      assert rest[..|rest| - 1] == arr[..|arr| - 1][1..];
      WaitingLast(rest);
    }
  }

  /** The placeholder at the end is not a waiting task. */
  lemma {:induction false} WaitingPlaceholderLast<T>(arr: seq<Slot<T>>)
    requires |arr| > 0 && arr[|arr| - 1].Placeholder?
    ensures Waiting(arr) == Waiting(arr[..|arr| - 1])
  {
    if |arr| > 1 {
      var rest := arr[1..];
      assert rest[..|rest| - 1] == arr[..|arr| - 1][1..];
      WaitingPlaceholderLast(rest);
    }
  }

  /** A well-formed array holds at most one placeholder, and holds one exactly when it is busy. */
  lemma {:induction false} AtMostOnePlaceholder<T>(arr: seq<Slot<T>>)
    requires WellFormed(arr)
    ensures Placeholders(arr) <= 1
    ensures Placeholders(arr) == 1 <==> Busy(arr)
  {
    if |arr| > 0 {
      assert WellFormed(arr[1..]);
      AtMostOnePlaceholder(arr[1..]);
      if |arr| > 1 {
        assert arr[0].Task?;
      }
    }
  }

  // ---------------------------------------------------------------------------
  // Properties of single steps

  /** Every step keeps the invariant. */
  lemma NextKeepsInv<T>(s: QState<T>, e: Event<T>)
    requires Inv(s)
    ensures Inv(Next(s, e).next)
  {
  }

  /** `addToQueue(t)` yields `[t] + old`: every existing element keeps its place, and t becomes the newest waiting task. */
  lemma AddPrepends<T>(s: QState<T>, t: T)
    ensures Next(s, Add(t)) == Step(QState([Task(t)] + s.arr, s.inFlight), None)
    ensures Waiting(Next(s, Add(t)).next.arr) == Waiting(s.arr) + [t]
  {
  }

  /**
   * A tick starts a task exactly when the array is non-empty and does not end in
   * the placeholder; it then starts the oldest waiting task and leaves the
   * placeholder in that task's place.  Otherwise it changes nothing.
   */
  lemma TickStartsOldest<T>(s: QState<T>)
    requires Inv(s)
    ensures var step := Next(s, Timer);
      && (step.started.Some? <==> |s.arr| > 0 && !Busy(s.arr))
      && (step.started.None? ==> step.next == s)
      && (step.started.Some? ==>
            && !s.inFlight
            && step.started.value == Waiting(s.arr)[0]
            && step.next.arr == s.arr[..|s.arr| - 1] + [Placeholder]
            && step.next.inFlight
            && Waiting(step.next.arr) == Waiting(s.arr)[1..])
  {
    var step := Next(s, Timer);
    if CanStart(s.arr) {
      WaitingLast(s.arr);
      var a := step.next.arr;
      assert a[..|a| - 1] == s.arr[..|s.arr| - 1];
      WaitingPlaceholderLast(a);
    }
  }

  /** No second task starts while one is in flight. */
  lemma NoTickWhileInFlight<T>(s: QState<T>)
    requires Inv(s) && s.inFlight
    ensures Next(s, Timer) == Step(s, None)
  {
  }

  /**
   * When the in-flight task resolves, `run` pops exactly the placeholder: the
   * array is the one it saw minus its last element, waiting tasks untouched.
   */
  lemma ResolvePopsPlaceholder<T>(s: QState<T>)
    requires Inv(s) && s.inFlight
    ensures s.arr[|s.arr| - 1] == Placeholder
    ensures Next(s, Resolved).next == QState(s.arr[..|s.arr| - 1], false)
    ensures Waiting(Next(s, Resolved).next.arr) == Waiting(s.arr)
    ensures !Busy(Next(s, Resolved).next.arr)
  {
    WaitingPlaceholderLast(s.arr);
  }

  /** When the in-flight task rejects, the placeholder stays and the queue is stalled. */
  lemma RejectStalls<T>(s: QState<T>)
    requires Inv(s) && s.inFlight
    ensures Next(s, Rejected).next == QState(s.arr, false)
    ensures Stalled(Next(s, Rejected).next)
  {
  }

  // ---------------------------------------------------------------------------
  // Properties of runs of events

  /** The tasks a step starts, as a sequence. */
  function StartedBy<T>(step: Step<T>): seq<T> {
    if step.started.Some? then [step.started.value] else []
  }

  /** One step of FIFO: what it starts, followed by what then waits, is what waited followed by what it enqueued. */
  lemma StepFifo<T>(s: QState<T>, e: Event<T>)
    requires Inv(s)
    ensures StartedBy(Next(s, e)) + Waiting(Next(s, e).next.arr) == Waiting(s.arr) + AddedBy(e)
  {
    var step := Next(s, e);
    match e
    case Add(t) =>
      AddPrepends(s, t);
    case Timer =>
      TickStartsOldest(s);
      if step.started.Some? {
        var w := Waiting(s.arr);
        assert w == [w[0]] + w[1..];
      }
    case Resolved =>
      if s.inFlight { ResolvePopsPlaceholder(s); }
    case Rejected =>
  }

  /** Every run of events keeps the invariant. */
  lemma {:induction false} ReplayKeepsInv<T>(s: QState<T>, es: seq<Event<T>>)
    requires Inv(s)
    ensures Inv(Replay(s, es).last)
    decreases |es|
  {
    if |es| > 0 {
      NextKeepsInv(s, es[0]);
      ReplayKeepsInv(Next(s, es[0]).next, es[1..]);
    }
  }

  /** Replaying a non-empty run: its first step, then the rest. */
  lemma ReplayCons<T>(s: QState<T>, es: seq<Event<T>>)
    requires |es| > 0
    ensures var step := Next(s, es[0]);
      var rest := Replay(step.next, es[1..]);
      && Replay(s, es).last == rest.last
      && Replay(s, es).started == StartedBy(step) + rest.started
      && Added(es) == AddedBy(es[0]) + Added(es[1..])
  {
  }

  /** Regrouping the two halves of the FIFO equation. */
  lemma FifoCompose<T>(a: seq<T>, b: seq<T>, c: seq<T>, w: seq<T>, w1: seq<T>, d: seq<T>, e: seq<T>)
    requires a + w1 == w + d
    requires b + c == w1 + e
    ensures (a + b) + c == w + (d + e)
  {
    calc {
      (a + b) + c;
      a + (b + c);
      a + (w1 + e);
      (a + w1) + e;
      (w + d) + e;
    }
  }

  /**
   * FIFO: along any run of events, the tasks started followed by the tasks still
   * waiting are exactly the tasks that were waiting followed by the tasks enqueued,
   * in order.  So tasks start in the order they were enqueued.
   */
  lemma {:induction false} ReplayFifo<T>(s: QState<T>, es: seq<Event<T>>)
    requires Inv(s)
    ensures Replay(s, es).started + Waiting(Replay(s, es).last.arr) == Waiting(s.arr) + Added(es)
    decreases |es|
  {
    if |es| > 0 {
      var step := Next(s, es[0]);
      NextKeepsInv(s, es[0]);
      StepFifo(s, es[0]);
      ReplayFifo(step.next, es[1..]);
      ReplayCons(s, es);
      var rest := Replay(step.next, es[1..]);
      FifoCompose(StartedBy(step), rest.started, Waiting(rest.last.arr),
                  Waiting(s.arr), Waiting(step.next.arr), AddedBy(es[0]), Added(es[1..]));
    }
  }

  /** Corollary: the tasks started are a prefix of the tasks in enqueue order. */
  lemma StartedInEnqueueOrder<T>(s: QState<T>, es: seq<Event<T>>)
    requires Inv(s)
    ensures var started := Replay(s, es).started;
      |started| <= |Waiting(s.arr) + Added(es)| &&
      started == (Waiting(s.arr) + Added(es))[..|started|]
  {
    ReplayFifo(s, es);
    var t := Replay(s, es);
    assert (t.started + Waiting(t.last.arr))[..|t.started|] == t.started;
  }

  /**
   * While the placeholder is at the end and no run resolves, nothing starts and
   * the placeholder stays: at most one task is ever in progress.
   */
  lemma {:induction false} NothingStartsUntilResolve<T>(s: QState<T>, es: seq<Event<T>>)
    requires Inv(s) && Busy(s.arr)
    requires forall i :: 0 <= i < |es| ==> !es[i].Resolved?
    ensures Replay(s, es).started == []
    ensures Busy(Replay(s, es).last.arr)
    decreases |es|
  {
    if |es| > 0 {
      NextKeepsInv(s, es[0]);
      var n := Next(s, es[0]).next;
      assert Busy(n.arr) by {
        if es[0].Add? { assert n.arr[|n.arr| - 1] == s.arr[|s.arr| - 1]; }
      }
      NothingStartsUntilResolve(n, es[1..]);
    }
  }

  /** One step from a stalled state starts nothing and keeps the queue stalled. */
  lemma StalledStep<T>(s: QState<T>, e: Event<T>)
    requires Stalled(s)
    ensures Next(s, e).started.None?
    ensures Stalled(Next(s, e).next)
    ensures Waiting(Next(s, e).next.arr) == Waiting(s.arr) + AddedBy(e)
  {
  }

  /**
   * After a task has thrown, every later tick is a no-op: whatever is enqueued,
   * no task ever runs again and the queue stays stalled.
   */
  lemma {:induction false} StalledForever<T>(s: QState<T>, es: seq<Event<T>>)
    requires Stalled(s)
    ensures Replay(s, es).started == []
    ensures Stalled(Replay(s, es).last)
    ensures Waiting(Replay(s, es).last.arr) == Waiting(s.arr) + Added(es)
    decreases |es|
  {
    if |es| > 0 {
      StalledStep(s, es[0]);
      var step := Next(s, es[0]);
      StalledForever(step.next, es[1..]);
      ReplayCons(s, es);
      var rest := Replay(step.next, es[1..]);
      FifoCompose([], [], Waiting(rest.last.arr), Waiting(s.arr), Waiting(step.next.arr), AddedBy(es[0]), Added(es[1..]));
    }
  }

  /** Replaying two runs of events one after the other. */
  lemma {:induction false} ReplayAppend<T>(s: QState<T>, a: seq<Event<T>>, b: seq<Event<T>>)
    ensures var first := Replay(s, a);
      Replay(s, a + b) == Trace(Replay(first.last, b).last, first.started + Replay(first.last, b).started)
    decreases |a|
  {
    if |a| == 0 {
      assert a + b == b;
    } else {
      assert (a + b)[0] == a[0] && (a + b)[1..] == a[1..] + b;
      var step := Next(s, a[0]);
      ReplayAppend(step.next, a[1..], b);
      var mid := Replay(step.next, a[1..]);
      var tail := Replay(mid.last, b);
      assert StartedBy(step) + (mid.started + tail.started) == (StartedBy(step) + mid.started) + tail.started;
    }
  }

  /** `addToQueue` called once per task, in order. */
  function Enqueues<T>(ts: seq<T>): seq<Event<T>> {
    if |ts| == 0 then [] else [Add(ts[0])] + Enqueues(ts[1..])
  }

  /** The slots a run of enqueues leaves in front of the array: newest first. */
  function NewestFirst<T>(ts: seq<T>): seq<Slot<T>> {
    if |ts| == 0 then [] else NewestFirst(ts[1..]) + [Task(ts[0])]
  }

  /** Enqueueing only prepends, and starts nothing. */
  lemma {:induction false} EnqueuesPrepend<T>(s: QState<T>, ts: seq<T>)
    ensures Replay(s, Enqueues(ts)) == Trace(QState(NewestFirst(ts) + s.arr, s.inFlight), [])
    decreases |ts|
  {
    if |ts| > 0 {
      var n := Next(s, Add(ts[0])).next;
      EnqueuesPrepend(n, ts[1..]);
      assert NewestFirst(ts[1..]) + n.arr == NewestFirst(ts) + s.arr;
    }
  }

  /**
   * A run that completes normally: the tick starts the oldest task, tasks enqueued
   * meanwhile go to the front, and the final `pop` leaves exactly the array the
   * tick saw minus its last element, behind those new tasks.
   */
  lemma RunThroughEnqueues<T>(s: QState<T>, ts: seq<T>)
    requires Inv(s) && CanStart(s.arr)
    ensures var r := Replay(s, [Timer] + Enqueues(ts) + [Resolved]);
      && r.started == [s.arr[|s.arr| - 1].task]
      && r.last == QState(NewestFirst(ts) + s.arr[..|s.arr| - 1], false)
  {
    var s1 := Next(s, Timer).next;
    assert Replay(s, [Timer]) == Trace(s1, [s.arr[|s.arr| - 1].task]);
    EnqueuesPrepend(s1, ts);
    var s2 := QState(NewestFirst(ts) + s1.arr, true);
    assert Replay(s2, [Resolved]) == Trace(QState(Pop(s2.arr), false), []);
    assert Pop(s2.arr) == NewestFirst(ts) + s.arr[..|s.arr| - 1];
    ReplayAppend(s, [Timer], Enqueues(ts));
    ReplayAppend(s, [Timer] + Enqueues(ts), [Resolved]);
  }

  // ---------------------------------------------------------------------------
  // The Queue class

  class Queue<T> {
    /** The timer period handed to the constructor; timing itself is not modelled. */
    var interval: int
    /** `#queue`: waiting tasks newest first, and possibly the placeholder at the end. */
    var items: seq<Slot<T>>
    /** A `run` call is suspended at `await func()`. */
    ghost var inFlight: bool

    ghost function State(): QState<T>
      reads this
    {
      QState(items, inFlight)
    }

    ghost predicate Valid()
      reads this
    {
      Inv(State())
    }

    /** `new Queue(interval)`: an empty array; `start()` is the repeated `Tick`. */
    constructor (interval: int)
      ensures Valid() && this.interval == interval
      ensures items == [] && !inFlight
    {
      this.interval := interval;
      items := [];
      inFlight := false;
    }

    /** `addToQueue(func)`: `#queue.unshift(func)`. */
    method AddToQueue(func: T)
      requires Valid()
      modifies this`items
      ensures Valid()
      ensures items == [Task(func)] + old(items)
      ensures Waiting(items) == Waiting(old(items)) + [func]
      ensures State() == Next(old(State()), Add(func)).next
    {
      AddPrepends(State(), func);
      NextKeepsInv(State(), Add(func));
      items := [Task(func)] + items;
    }

    /**
     * The synchronous start of `run(arr)`: pop the oldest task, push the `false`
     * placeholder, and hand the task over to be awaited.
     */
    method Run() returns (func: T)
      requires Valid() && CanStart(items)
      modifies this`items, this`inFlight
      ensures Valid() && inFlight
      ensures func == old(items)[|old(items)| - 1].task
      ensures items == old(items)[..|old(items)| - 1] + [Placeholder]
    {
      var last := items[|items| - 1];
      items := items[..|items| - 1];
      func := last.task;
      items := items + [Placeholder];
      inFlight := true;
    }

    /** One firing of the interval timer set up by `start()`. */
    method Tick() returns (started: Option<T>)
      requires Valid()
      modifies this`items, this`inFlight
      ensures Valid()
      ensures Step(State(), started) == Next(old(State()), Timer)
      ensures started.Some? <==> old(CanStart(items))
      ensures started.Some? ==> started.value == Waiting(old(items))[0]
    {
      TickStartsOldest(State());
      if LastItem(items) != Some(Placeholder) && !IsEmpty(items) {
        var func := Run();
        started := Some(func);
      } else {
        started := None;
      }
    }

    /**
     * The resumption of the in-flight `run` once its task settles: after a normal
     * completion `arr.pop()` removes the placeholder; after a throw the rejection
     * leaves `run` before that line and the array is unchanged.
     */
    method Settle(threw: bool)
      requires Valid() && inFlight
      modifies this`items, this`inFlight
      ensures Valid() && !inFlight
      ensures old(items)[|old(items)| - 1] == Placeholder
      ensures items == if threw then old(items) else old(items)[..|old(items)| - 1]
      ensures State() == Next(old(State()), if threw then Rejected else Resolved).next
    {
      if threw {
        RejectStalls(State());
      } else {
        ResolvePopsPlaceholder(State());
        items := Pop(items);
      }
      inFlight := false;
    }
  }
}
