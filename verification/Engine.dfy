/** The engine: a loop that drains two channels into tasks, and the counter of the tasks in flight. */
module Engine {
  import opened Net
  import opened Counting

  // ----- The dispatch loop -----

  /** What happens next while the loop waits: something outside, or a branch of the select that is ready. */
  datatype Happening<T, U> =
    | SendFlow(flow: T)
    | SendDatagram(datagram: U)
    | CloseFlows
    | CloseDatagrams
    | FlowBranch
    | DatagramBranch

  /** One channel as the loop sees it. `gone` is its sender; `open` is whether the loop still polls it. */
  datatype Channel<T> = Channel(queue: seq<T>, gone: bool, spawned: seq<T>, open: bool)

  datatype Loop<T, U> = Loop(flows: Channel<T>, datagrams: Channel<U>)

  function Put<T>(c: Channel<T>, x: T): Channel<T> {
    if c.gone then c else c.(queue := c.queue + [x])
  }

  /** A branch of the select: the next in the queue is spawned, a closed and empty channel is polled no more. */
  function Take<T>(c: Channel<T>): Channel<T> {
    if !c.open then c
    else if c.queue != [] then c.(queue := c.queue[1..], spawned := c.spawned + [c.queue[0]])
    else if c.gone then c.(open := false)
    else c
  }

  function Turn<T, U>(l: Loop<T, U>, h: Happening<T, U>): Loop<T, U> {
    match h
    case SendFlow(flow) => l.(flows := Put(l.flows, flow))
    case SendDatagram(datagram) => l.(datagrams := Put(l.datagrams, datagram))
    case CloseFlows => l.(flows := l.flows.(gone := true))
    case CloseDatagrams => l.(datagrams := l.datagrams.(gone := true))
    case FlowBranch => l.(flows := Take(l.flows))
    case DatagramBranch => l.(datagrams := Take(l.datagrams))
  }

  predicate Drained<T, U>(l: Loop<T, U>) {
    !l.flows.open && !l.datagrams.open
  }

  function Turns<T, U>(l: Loop<T, U>, history: seq<Happening<T, U>>): Loop<T, U>
    decreases |history|
  {
    if Drained(l) || history == [] then l else Turns(Turn(l, history[0]), history[1..])
  }

  function IsFlowTurn<T, U>(h: Happening<T, U>): bool {
    h.FlowBranch?
  }

  function IsDatagramTurn<T, U>(h: Happening<T, U>): bool {
    h.DatagramBranch?
  }

  /** The turns a closed channel still asks of the select: one for each in its queue, and one to find it closed. */
  function TurnsLeft<T>(c: Channel<T>): nat {
    if c.open then |c.queue| + 1 else 0
  }

  /** Its sender is gone, and the loop polls it unless it has found it empty. */
  predicate Settled<T>(c: Channel<T>) {
    c.gone && (!c.open ==> c.queue == [])
  }

  lemma TakeSpendsATurn<T>(c: Channel<T>)
    requires Settled(c)
    ensures var c' := Take(c);
            && Settled(c')
            && TurnsLeft(c') == (if TurnsLeft(c) == 0 then 0 else TurnsLeft(c) - 1)
            && c'.spawned + c'.queue == c.spawned + c.queue
  {
  }

  /**
   * Once both channels are closed, the loop ends exactly when the select has given each branch its turns,
   * in whatever order and among whatever else; and then all that was queued is spawned, in order.
   */
  lemma {:induction false} ClosedLoopDrainsExactlyWhen<T, U>(l: Loop<T, U>, history: seq<Happening<T, U>>)
    requires Settled(l.flows) && Settled(l.datagrams)
    ensures var end := Turns(l, history);
            && (Drained(end) <==>
                  && TurnsLeft(l.flows) <= Count(history, IsFlowTurn)
                  && TurnsLeft(l.datagrams) <= Count(history, IsDatagramTurn))
            && (Drained(end) ==>
                  && end.flows.spawned == l.flows.spawned + l.flows.queue
                  && end.datagrams.spawned == l.datagrams.spawned + l.datagrams.queue)
    decreases |history|
  {
    if !Drained(l) && history != [] {
      ClosedLoopDrainsExactlyWhen(Turn(l, history[0]), history[1..]);
      CountFirst(history, IsFlowTurn);
      CountFirst(history, IsDatagramTurn);
      TakeSpendsATurn(l.flows);
      TakeSpendsATurn(l.datagrams);
    }
  }

  class Engine<T, U> {
    var flows: seq<T>            // queued flows
    var flowsGone: bool          // their sender is gone
    var datagrams: seq<U>
    var datagramsGone: bool
    var stopped: bool
    /** Everything ever queued, and everything handed to a task, in order. */
    ghost var flowsSent: seq<T>
    ghost var datagramsSent: seq<U>
    ghost var flowsSpawned: seq<T>
    ghost var datagramsSpawned: seq<U>

    ghost function View(flowsOpen: bool, datagramsOpen: bool): Loop<T, U>
      reads this
    {
      Loop(Channel(flows, flowsGone, flowsSpawned, flowsOpen), Channel(datagrams, datagramsGone, datagramsSpawned, datagramsOpen))
    }

    ghost predicate Valid()
      reads this
    {
      && flowsSent == flowsSpawned + flows
      && datagramsSent == datagramsSpawned + datagrams
    }

    constructor (flows: seq<T>, datagrams: seq<U>)
      ensures Valid() && flowsSent == flows && datagramsSent == datagrams && !stopped
      ensures !flowsGone && !datagramsGone
    {
      this.flows, this.datagrams := flows, datagrams;
      flowsGone, datagramsGone, stopped := false, false, false;
      flowsSent, datagramsSent, flowsSpawned, datagramsSpawned := flows, datagrams, [], [];
    }

    /** A closed channel takes nothing more. */
    method Outside(h: Happening<T, U>)
      requires Valid() && !h.FlowBranch? && !h.DatagramBranch?
      modifies this
      ensures Valid() && stopped == old(stopped)
      ensures forall f, d :: View(f, d) == Turn(old(View(f, d)), h)
      ensures old(flowsGone) ==> flowsGone && flows == old(flows)
      ensures old(datagramsGone) ==> datagramsGone && datagrams == old(datagrams)
      ensures old(flowsSent) <= flowsSent && old(datagramsSent) <= datagramsSent
    {
      match h {
        case SendFlow(flow) =>
          if !flowsGone {
            flows, flowsSent := flows + [flow], flowsSent + [flow];
          }
        case SendDatagram(datagram) =>
          if !datagramsGone {
            datagrams, datagramsSent := datagrams + [datagram], datagramsSent + [datagram];
          }
        case CloseFlows => flowsGone := true;
        case CloseDatagrams => datagramsGone := true;
      }
    }

    /**
     * `Engine::run`, for as much of a history as is given. Whatever the select chooses, every flow and
     * datagram queued is spawned once, in order; the loop is done only with both channels closed and empty,
     * and takes every turn it is given until then.
     */
    method Run(history: seq<Happening<T, U>>) returns (done: bool)
      requires Valid() && flowsSpawned == [] && datagramsSpawned == [] && !stopped
      modifies this
      ensures Valid()
      ensures done ==> stopped && flowsGone && datagramsGone
      ensures done ==> flowsSpawned == flowsSent && datagramsSpawned == datagramsSent
      ensures !done ==> !stopped
      ensures var end := Turns(old(View(true, true)), history);
              View(end.flows.open, end.datagrams.open) == end && done == Drained(end)
    {
      var flowsOpen, datagramsOpen := true, true;
      ghost var start := View(true, true);
      for i := 0 to |history|
        invariant Valid() && !stopped
        invariant flowsOpen || datagramsOpen
        invariant Turns(View(flowsOpen, datagramsOpen), history[i..]) == Turns(start, history)
        invariant !flowsOpen ==> flowsGone && flows == []
        invariant !datagramsOpen ==> datagramsGone && datagrams == []
      {
        ghost var before := View(flowsOpen, datagramsOpen);
        assert history[i..][0] == history[i] && history[i..][1..] == history[i + 1..];
        match history[i] {
          case FlowBranch =>
            if flowsOpen {
              if flows != [] {
                assert flowsSpawned + flows == (flowsSpawned + [flows[0]]) + flows[1..];
                flowsSpawned := flowsSpawned + [flows[0]];
                flows := flows[1..];
              } else if flowsGone {
                flowsOpen := false;
              }
            }
          case DatagramBranch =>
            if datagramsOpen {
              if datagrams != [] {
                assert datagramsSpawned + datagrams == (datagramsSpawned + [datagrams[0]]) + datagrams[1..];
                datagramsSpawned := datagramsSpawned + [datagrams[0]];
                datagrams := datagrams[1..];
              } else if datagramsGone {
                datagramsOpen := false;
              }
            }
          case _ =>
            Outside(history[i]);
        }
        assert View(flowsOpen, datagramsOpen) == Turn(before, history[i]);
        if !flowsOpen && !datagramsOpen {
          stopped := true;
          return true;
        }
      }
      return false;
    }
  }

  // ----- The tasks in flight -----

  /** A flow's task. Its guard exists from its first poll on; a task dropped before that never had one. */
  datatype Task = Spawned | Opening | Copying | Over(result: Result) | DroppedUnpolled

  datatype Result = NeverOpened | Copied | Aborted

  datatype Counters = Counters(tasks: seq<Task>, active: int, flowsOpened: nat, flowsFailed: nat)

  datatype TaskEvent =
    | Spawn
    | FirstPoll(task: nat)
    | StreamOpened(task: nat)
    | StreamFailed(task: nat)
    | Ended(task: nat)      // the copy ends, or the task is aborted or unwinds after its first poll
    | DroppedEarly(task: nat)

  predicate Possible(c: Counters, e: TaskEvent) {
    match e
    case Spawn => true
    case FirstPoll(t) => t < |c.tasks| && c.tasks[t].Spawned?
    case StreamOpened(t) => t < |c.tasks| && c.tasks[t].Opening?
    case StreamFailed(t) => t < |c.tasks| && c.tasks[t].Opening?
    case Ended(t) => t < |c.tasks| && (c.tasks[t].Opening? || c.tasks[t].Copying?)
    case DroppedEarly(t) => t < |c.tasks| && c.tasks[t].Spawned?
  }

  function Happen(c: Counters, e: TaskEvent): Counters
    requires Possible(c, e)
  {
    match e
    case Spawn => c.(tasks := c.tasks + [Spawned], active := c.active + 1)
    case FirstPoll(t) => c.(tasks := c.tasks[t := Opening])
    case StreamOpened(t) => c.(tasks := c.tasks[t := Copying], flowsOpened := c.flowsOpened + 1)
    case StreamFailed(t) => c.(tasks := c.tasks[t := Over(NeverOpened)], flowsFailed := c.flowsFailed + 1, active := c.active - 1)
    case Ended(t) =>
      c.(tasks := c.tasks[t := Over(if c.tasks[t].Copying? then Copied else Aborted)], active := c.active - 1)
    case DroppedEarly(t) => c.(tasks := c.tasks[t := DroppedUnpolled])
  }

  function IsLive(t: Task): bool {
    t.Spawned? || t.Opening? || t.Copying?
  }

  function IsLost(t: Task): bool {
    t.DroppedUnpolled?
  }

  function HasOpened(t: Task): bool {
    t.Copying? || t == Over(Copied)
  }

  function HasFailed(t: Task): bool {
    t == Over(NeverOpened)
  }

  const NO_TASKS := Counters([], 0, 0, 0)

  /**
   * The active count is the live tasks and, with them for ever, those dropped before their first poll; the
   * other counts are of the streams that opened and of those that did not.
   */
  predicate Accounted(c: Counters) {
    && c.active == Count(c.tasks, IsLive) + Count(c.tasks, IsLost)
    && c.flowsOpened == Count(c.tasks, HasOpened)
    && c.flowsFailed == Count(c.tasks, HasFailed)
  }

  lemma HappenKeepsAccount(c: Counters, e: TaskEvent)
    requires Accounted(c) && Possible(c, e)
    ensures Accounted(Happen(c, e))
    ensures Happen(c, e).active >= 0
  {
    if e.Spawn? {
      CountAppend(c.tasks, Spawned, IsLive);
      CountAppend(c.tasks, Spawned, IsLost);
      CountAppend(c.tasks, Spawned, HasOpened);
      CountAppend(c.tasks, Spawned, HasFailed);
    } else {
      var t := Happen(c, e).tasks[e.task];
      CountUpdate(c.tasks, e.task, t, IsLive);
      CountUpdate(c.tasks, e.task, t, IsLost);
      CountUpdate(c.tasks, e.task, t, HasOpened);
      CountUpdate(c.tasks, e.task, t, HasFailed);
    }
  }

  ghost predicate IsHistory(cs: seq<Counters>) {
    && cs != [] && cs[0] == NO_TASKS
    && forall i :: 0 <= i < |cs| - 1 ==> exists e :: Possible(cs[i], e) && cs[i + 1] == Happen(cs[i], e)
  }

  lemma {:induction false} AlwaysAccounted(cs: seq<Counters>, k: nat)
    requires IsHistory(cs) && k < |cs|
    ensures Accounted(cs[k])
  {
    if k > 0 {
      AlwaysAccounted(cs, k - 1);
      var i := k - 1;
      var e :| Possible(cs[i], e) && cs[i + 1] == Happen(cs[i], e);
      HappenKeepsAccount(cs[i], e);
    }
  }

  /**
   * At every moment the count of active flows is the number of live flow tasks exactly when no task has
   * been dropped before its first poll; it is never below it, and so a decrement never wraps. Streams
   * opened and failed are each counted once.
   */
  lemma ActiveFlowsExactWhen(cs: seq<Counters>, k: nat)
    requires IsHistory(cs) && k < |cs|
    ensures cs[k].active == Count(cs[k].tasks, IsLive) <==>
            forall t :: 0 <= t < |cs[k].tasks| ==> !cs[k].tasks[t].DroppedUnpolled?
    ensures cs[k].active >= Count(cs[k].tasks, IsLive)
    ensures cs[k].flowsOpened == Count(cs[k].tasks, HasOpened) && cs[k].flowsFailed == Count(cs[k].tasks, HasFailed)
  {
    AlwaysAccounted(cs, k);
    CountZero(cs[k].tasks, IsLost);
    assert forall t :: 0 <= t < |cs[k].tasks| ==> (IsLost(cs[k].tasks[t]) <==> cs[k].tasks[t].DroppedUnpolled?);
  }
}
