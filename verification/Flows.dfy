/** Relayed flows and the two pools of permits they draw on. */
module Flows {
  import opened Counting

  datatype Pool = General | Dns

  function Capacity(p: Pool): nat {
    match p
    case General => 64
    case Dns => 8
  }

  datatype Outcome =
    | NotConnected     // refused before any permit is asked for
    | PermitTimedOut
    | ConnectFailed
    | ConnectTimedOut
    | Abandoned        // its caller gave up while it waited or connected
    | Dropped          // an open stream, let go

  datatype Stage = Waiting | Connecting | Open | Over(outcome: Outcome)

  datatype Flow = Flow(pool: Pool, stage: Stage)

  /** `free` is what each semaphore has left. */
  datatype Budget = Budget(flows: seq<Flow>, freeGeneral: int, freeDns: int, failed: nat, active: int)

  function Free(b: Budget, p: Pool): int {
    match p
    case General => b.freeGeneral
    case Dns => b.freeDns
  }

  function Take(b: Budget, p: Pool, n: int): Budget {
    match p
    case General => b.(freeGeneral := b.freeGeneral - n)
    case Dns => b.(freeDns := b.freeDns - n)
  }

  datatype Event =
    | OpenFlow(pool: Pool, connected: bool)
    | Acquire(flow: nat)
    | PermitTimeout(flow: nat)
    | ConnectOk(flow: nat)
    | ConnectError(flow: nat)
    | ConnectTimeout(flow: nat)
    | Abandon(flow: nat)
    | DropStream(flow: nat)

  /** Waits in the line of its pool. A flow joins at the end of the line, so the line is in the order of the flows. */
  predicate InLine(f: Flow, p: Pool) {
    f.pool == p && f.stage.Waiting?
  }

  predicate FirstInLine(b: Budget, f: nat)
    requires f < |b.flows|
  {
    forall g :: 0 <= g < f ==> !InLine(b.flows[g], b.flows[f].pool)
  }

  /** A semaphore hands out its permits first come, first served. */
  predicate Possible(b: Budget, e: Event) {
    match e
    case OpenFlow(_, _) => true
    case Acquire(f) =>
      f < |b.flows| && b.flows[f].stage.Waiting? && FirstInLine(b, f) && Free(b, b.flows[f].pool) > 0
    case PermitTimeout(f) => f < |b.flows| && b.flows[f].stage.Waiting?
    case ConnectOk(f) => f < |b.flows| && b.flows[f].stage.Connecting?
    case ConnectError(f) => f < |b.flows| && b.flows[f].stage.Connecting?
    case ConnectTimeout(f) => f < |b.flows| && b.flows[f].stage.Connecting?
    case Abandon(f) => f < |b.flows| && (b.flows[f].stage.Waiting? || b.flows[f].stage.Connecting?)
    case DropStream(f) => f < |b.flows| && b.flows[f].stage.Open?
  }

  function Become(b: Budget, f: nat, s: Stage): Budget
    requires f < |b.flows|
  {
    b.(flows := b.flows[f := b.flows[f].(stage := s)])
  }

  /** A permit is let go when the future or the stream that holds it is dropped. */
  function Happen(b: Budget, e: Event): Budget
    requires Possible(b, e)
  {
    match e
    case OpenFlow(pool, connected) =>
      b.(flows := b.flows + [Flow(pool, if connected then Waiting else Over(NotConnected))])
    case Acquire(f) => Take(Become(b, f, Connecting), b.flows[f].pool, 1)
    case PermitTimeout(f) => Become(b, f, Over(PermitTimedOut)).(failed := b.failed + 1)
    case ConnectOk(f) => Become(b, f, Open).(active := b.active + 1)
    case ConnectError(f) => Take(Become(b, f, Over(ConnectFailed)).(failed := b.failed + 1), b.flows[f].pool, -1)
    case ConnectTimeout(f) => Take(Become(b, f, Over(ConnectTimedOut)).(failed := b.failed + 1), b.flows[f].pool, -1)
    case Abandon(f) =>
      Take(Become(b, f, Over(Abandoned)), b.flows[f].pool, if b.flows[f].stage.Connecting? then -1 else 0)
    case DropStream(f) => Take(Become(b, f, Over(Dropped)).(active := b.active - 1), b.flows[f].pool, -1)
  }

  /** What a flow may be counted as. */
  datatype Trait = Holds(pool: Pool) | IsOpen | IsFailure

  predicate Has(f: Flow, t: Trait) {
    match t
    case Holds(p) => f.pool == p && (f.stage.Connecting? || f.stage.Open?)
    case IsOpen => f.stage.Open?
    case IsFailure =>
      f.stage.Over? && (f.stage.outcome.PermitTimedOut? || f.stage.outcome.ConnectFailed? || f.stage.outcome.ConnectTimedOut?)
  }

  function Of(t: Trait): Flow -> bool {
    f => Has(f, t)
  }

  function One(f: Flow, t: Trait): nat {
    if Has(f, t) then 1 else 0
  }

  const UNUSED := Budget([], 64, 8, 0, 0)

  /** The books of a budget against the tallies of its flows. */
  predicate Balances(b: Budget, general: int, dns: int, failures: int, opens: int) {
    && b.freeGeneral >= 0 && b.freeDns >= 0
    && b.freeGeneral + general == Capacity(General)
    && b.freeDns + dns == Capacity(Dns)
    && b.failed == failures
    && b.active == opens
  }

  /** Permits are neither lost nor made: what is free and what is held is the whole of each pool. */
  predicate Conserved(b: Budget) {
    Balances(b, Count(b.flows, Of(Holds(General))), Count(b.flows, Of(Holds(Dns))),
             Count(b.flows, Of(IsFailure)), Count(b.flows, Of(IsOpen)))
  }

  /** How an event changes a tally. */
  function Change(b: Budget, e: Event, t: Trait): int
    requires Possible(b, e)
  {
    if e.OpenFlow? then One(Flow(e.pool, if e.connected then Waiting else Over(NotConnected)), t)
    else One(Happen(b, e).flows[e.flow], t) - One(b.flows[e.flow], t)
  }

  lemma CountChanges(b: Budget, e: Event, t: Trait)
    requires Possible(b, e)
    ensures Count(Happen(b, e).flows, Of(t)) == Count(b.flows, Of(t)) + Change(b, e, t)
  {
    if e.OpenFlow? {
      CountAppend(b.flows, Flow(e.pool, if e.connected then Waiting else Over(NotConnected)), Of(t));
    } else {
      CountUpdate(b.flows, e.flow, Happen(b, e).flows[e.flow], Of(t));
    }
  }

  lemma BooksFollow(b: Budget, e: Event, general: int, dns: int, failures: int, opens: int)
    requires Possible(b, e)
    requires Balances(b, general, dns, failures, opens)
    ensures Balances(Happen(b, e), general + Change(b, e, Holds(General)), dns + Change(b, e, Holds(Dns)),
                     failures + Change(b, e, IsFailure), opens + Change(b, e, IsOpen))
  {
  }

  lemma HappenConserves(b: Budget, e: Event)
    requires Conserved(b) && Possible(b, e)
    ensures Conserved(Happen(b, e))
  {
    CountChanges(b, e, Holds(General));
    CountChanges(b, e, Holds(Dns));
    CountChanges(b, e, IsFailure);
    CountChanges(b, e, IsOpen);
    BooksFollow(b, e, Count(b.flows, Of(Holds(General))), Count(b.flows, Of(Holds(Dns))),
                Count(b.flows, Of(IsFailure)), Count(b.flows, Of(IsOpen)));
  }

  ghost predicate IsHistory(bs: seq<Budget>) {
    && bs != [] && bs[0] == UNUSED
    && forall i :: 0 <= i < |bs| - 1 ==> exists e :: Possible(bs[i], e) && bs[i + 1] == Happen(bs[i], e)
  }

  /** In every reachable state both pools add up, and the failures counted are the failures there were. */
  lemma {:induction false} PermitsConserved(bs: seq<Budget>, k: nat)
    requires IsHistory(bs) && k < |bs|
    ensures Conserved(bs[k])
  {
    if k > 0 {
      PermitsConserved(bs, k - 1);
      var i := k - 1;
      var e :| Possible(bs[i], e) && bs[i + 1] == Happen(bs[i], e);
      HappenConserves(bs[i], e);
    }
  }

  /** Where there is a line there is a head of it, no further back than any given flow in it. */
  lemma {:induction false} LineHasAHead(b: Budget, f: nat) returns (head: nat)
    requires f < |b.flows| && b.flows[f].stage.Waiting?
    ensures head <= f && InLine(b.flows[head], b.flows[f].pool) && FirstInLine(b, head)
    decreases f
  {
    head := f;
    if !FirstInLine(b, f) {
      var g :| 0 <= g < f && InLine(b.flows[g], b.flows[f].pool);
      head := LineHasAHead(b, g);
    }
  }

  ghost predicate SomebodyCanTake(b: Budget, p: Pool) {
    exists g: nat :: Possible(b, Acquire(g)) && b.flows[g].pool == p
  }

  /** While a pool has a line, somebody in it can take a permit exactly when one is free. */
  lemma FreePermitIsTaken(b: Budget, f: nat)
    requires f < |b.flows| && b.flows[f].stage.Waiting?
    ensures SomebodyCanTake(b, b.flows[f].pool) <==> Free(b, b.flows[f].pool) > 0
  {
    var head := LineHasAHead(b, f);
    hide FirstInLine;
    assert Possible(b, Acquire(head)) <==> Free(b, b.flows[head].pool) > 0;
  }

  /**
   * Bulk traffic cannot starve a pool. A waiting flow gets its permit exactly when it is at the head of its own
   * pool's line and the pool is not all held; and while any waits, one can exactly when the pool is not all held.
   */
  lemma PermitsAreTakenExactlyWhen(b: Budget, f: nat)
    requires Conserved(b)
    requires f < |b.flows| && b.flows[f].stage.Waiting?
    ensures var p := b.flows[f].pool;
            var spare := Count(b.flows, Of(Holds(p))) < Capacity(p);
            && (Possible(b, Acquire(f)) <==> FirstInLine(b, f) && spare)
            && (SomebodyCanTake(b, p) <==> spare)
  {
    var p := b.flows[f].pool;
    hide FirstInLine, Has, Count;
    assert Free(b, p) > 0 <==> Count(b.flows, Of(Holds(p))) < Capacity(p);
    FreePermitIsTaken(b, f);
  }

  /** In every reachable state, a DNS query waits for other queries alone: those ahead of it, and 8 that hold permits. */
  lemma DnsIsNeverStarvedByBulkTraffic(bs: seq<Budget>, k: nat, f: nat)
    requires IsHistory(bs) && k < |bs|
    requires f < |bs[k].flows| && bs[k].flows[f] == Flow(Dns, Waiting)
    ensures var b := bs[k];
            && (Possible(b, Acquire(f)) <==> FirstInLine(b, f) && Count(b.flows, Of(Holds(Dns))) < 8)
            && (SomebodyCanTake(b, Dns) <==> Count(b.flows, Of(Holds(Dns))) < 8)
  {
    PermitsConserved(bs, k);
    hide IsHistory, FirstInLine, Has, Count, Possible, Conserved, SomebodyCanTake;
    PermitsAreTakenExactlyWhen(bs[k], f);
  }

  /** How many stand before a flow in the line of its pool. */
  function Ahead(b: Budget, f: nat): nat
    requires f < |b.flows|
  {
    Count(b.flows[..f], LineOf(b.flows[f].pool))
  }

  function LineOf(p: Pool): Flow -> bool {
    f => InLine(f, p)
  }

  /**
   * Nobody is overtaken: what happens moves a waiting flow forward by one when someone ahead of it in its own
   * line stops waiting, and leaves it where it is otherwise.
   */
  lemma NobodyIsOvertaken(b: Budget, e: Event, f: nat)
    requires Possible(b, e)
    requires f < |b.flows| && b.flows[f].stage.Waiting? && Happen(b, e).flows[f].stage.Waiting?
    ensures var left := !e.OpenFlow? && e.flow < f && InLine(b.flows[e.flow], b.flows[f].pool);
            Ahead(Happen(b, e), f) == Ahead(b, f) - (if left then 1 else 0)
  {
    var now, inLine := Happen(b, e).flows, LineOf(b.flows[f].pool);
    HappenMovesOne(b, e);
    hide Happen, Possible, Count;
    if e.OpenFlow? {
      assert now[..f] == now[..|b.flows|][..f];
    } else {
      CountUpdateBefore(b.flows, e.flow, now[e.flow], f, inLine);
    }
  }

  lemma HeadHasNobodyAhead(b: Budget, f: nat)
    requires f < |b.flows|
    ensures Ahead(b, f) == 0 <==> FirstInLine(b, f)
  {
    CountZero(b.flows[..f], LineOf(b.flows[f].pool));
  }

  /**
   * A flow opened while the tunnel is connected joins the end of its pool's line, and takes a permit at once exactly when
   * there is no line and one is free. Opened while it is not, it is over, holds nothing and never will, and counts as nothing.
   */
  lemma NewFlowJoinsTheLine(b: Budget, pool: Pool, connected: bool)
    ensures var now, f := Happen(b, OpenFlow(pool, connected)), |b.flows|;
            && |now.flows| == f + 1 && now.flows[..f] == b.flows && now == b.(flows := now.flows)
            && if connected then
                 && now.flows[f] == Flow(pool, Waiting) && Ahead(now, f) == Count(b.flows, LineOf(pool))
                 && (Possible(now, Acquire(f)) <==> Count(b.flows, LineOf(pool)) == 0 && Free(b, pool) > 0)
               else
                 && now.flows[f] == Flow(pool, Over(NotConnected))
                 && forall t :: Count(now.flows, Of(t)) == Count(b.flows, Of(t))
  {
    var now, f := Happen(b, OpenFlow(pool, connected)), |b.flows|;
    assert now.flows[..f] == b.flows;
    if connected {
      HeadHasNobodyAhead(now, f);
      hide FirstInLine, Count;
    } else {
      forall t
        ensures Count(now.flows, Of(t)) == Count(b.flows, Of(t))
      {
        CountAppend(b.flows, now.flows[f], Of(t));
      }
    }
  }

  /** A new flow goes to the end; anything else is about one flow, which then no longer waits. */
  lemma HappenMovesOne(b: Budget, e: Event)
    requires Possible(b, e)
    ensures var now := Happen(b, e).flows;
            if e.OpenFlow? then |now| == |b.flows| + 1 && now[..|b.flows|] == b.flows
            else
              && e.flow < |b.flows| && now == b.flows[e.flow := now[e.flow]]
              && now[e.flow].pool == b.flows[e.flow].pool && !now[e.flow].stage.Waiting?
  {
    hide FirstInLine;
  }

  /** What one flow does leaves the other pool as it was. */
  lemma PoolsAreIndependent(b: Budget, e: Event, p: Pool)
    requires Possible(b, e)
    requires (if e.OpenFlow? then e.pool else b.flows[e.flow].pool) != p
    ensures Free(Happen(b, e), p) == Free(b, p)
    ensures Count(Happen(b, e).flows, Of(Holds(p))) == Count(b.flows, Of(Holds(p)))
  {
    if e.OpenFlow? {
      CountAppend(b.flows, Flow(e.pool, if e.connected then Waiting else Over(NotConnected)), Of(Holds(p)));
    } else {
      CountUpdate(b.flows, e.flow, Happen(b, e).flows[e.flow], Of(Holds(p)));
    }
  }
}
