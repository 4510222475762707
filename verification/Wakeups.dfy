/** The stack loop, one stream and a shutdown handle, interleaved step by step: no wakeup is lost. */
module Wakeups {
  /** Where the loop is. It looks at everything in order, then sleeps unless it has been woken. */
  datatype Phase = AtTop | TakingOutbound | FillingInbound | Deciding | Asleep | Exited

  /** What the stream's owner is in the middle of: it changes a channel first and wakes the loop second. */
  datatype Midway = Idle | HalfDropped | MustWake

  datatype State = State(
    phase: Phase,
    woken: bool,          // the sticky flag of the poller
    queued: nat,          // chunks on their way to the device
    outClosed: bool, outClosedSeen: bool,
    inQueued: nat,        // chunks on their way to the reader
    waiting: nat,         // chunks the stack could not hand over yet
    inClosed: bool, inClosedSeen: bool,
    stopAsked: bool,
    owner: Midway,        // the task that owns the stream
    stopper: Midway       // whoever holds the shutdown handle
  )

  datatype Event =
    // The stream's owner: one call at a time, each a change and then a wake.
    | Write
    | Read
    | Shutdown
    | DropOutbound
    | DropInbound
    | OwnerWakes
    // The shutdown handle.
    | AskToStop
    | StopperWakes
    // The device.
    | Packet
    // The loop.
    | CheckStop
    | TakeChunk
    | DoneTaking
    | HandOver
    | DoneFilling
    | Decide
    | Rouse

  predicate Enabled(s: State, e: Event, depth: nat) {
    match e
    case Write => s.owner.Idle? && !s.outClosed && s.queued < depth
    case Read => s.owner.Idle? && s.inQueued > 0
    case Shutdown => s.owner.Idle?
    case DropOutbound => s.owner.Idle? && !s.inClosed
    case DropInbound => s.owner.HalfDropped?
    case OwnerWakes => s.owner.MustWake?
    case AskToStop => s.stopper.Idle?
    case StopperWakes => s.stopper.MustWake?
    case Packet => true
    case CheckStop => s.phase.AtTop?
    case TakeChunk => s.phase.TakingOutbound? && s.queued > 0
    case DoneTaking => s.phase.TakingOutbound? && s.queued == 0
    case HandOver => s.phase.FillingInbound? && s.waiting > 0 && s.inQueued < depth && !s.inClosed
    case DoneFilling => s.phase.FillingInbound? && (s.waiting == 0 || s.inQueued >= depth || s.inClosed)
    case Decide => s.phase.Deciding?
    case Rouse => s.phase.Asleep? && s.woken
  }

  function Step(s: State, e: Event, depth: nat): State
    requires Enabled(s, e, depth)
  {
    match e
    case Write => s.(queued := s.queued + 1, owner := MustWake)
    case Read => s.(inQueued := s.inQueued - 1, owner := MustWake)
    case Shutdown => s.(outClosed := true, owner := MustWake)
    case DropOutbound => s.(outClosed := true, owner := HalfDropped)
    case DropInbound => s.(inClosed := true, owner := MustWake)
    case OwnerWakes => s.(woken := true, owner := Idle)
    case AskToStop => s.(stopAsked := true, stopper := MustWake)
    case StopperWakes => s.(woken := true, stopper := Idle)
    case Packet => s.(waiting := s.waiting + 1, woken := true)
    case CheckStop => s.(phase := if s.stopAsked then Exited else TakingOutbound)
    case TakeChunk => s.(queued := s.queued - 1)
    case DoneTaking => s.(phase := FillingInbound, outClosedSeen := s.outClosed)
    case HandOver => s.(waiting := s.waiting - 1, inQueued := s.inQueued + 1)
    case DoneFilling => s.(phase := Deciding, inClosedSeen := s.inClosed)
    case Decide => if s.woken then s.(phase := AtTop, woken := false) else s.(phase := Asleep)
    case Rouse => s.(phase := AtTop, woken := false)
  }

  const INITIAL := State(AtTop, false, 0, false, false, 0, 0, false, false, false, Idle, Idle)

  /** Work for the taking end that the loop has not seen. */
  predicate OutboundUnseen(s: State) {
    s.queued > 0 || (s.outClosed && !s.outClosedSeen)
  }

  /** Work for the filling end: a slot free with something to put in it, or a close unobserved. */
  predicate InboundUnseen(s: State, depth: nat) {
    (s.waiting > 0 && s.inQueued < depth && !s.inClosed) || (s.inClosed && !s.inClosedSeen)
  }

  predicate WakePending(s: State) {
    s.woken || !s.owner.Idle? || !s.stopper.Idle?
  }

  predicate Inv(s: State, depth: nat) {
    && (s.stopAsked && !s.phase.AtTop? && !s.phase.Exited? ==> WakePending(s))
    && (OutboundUnseen(s) && (s.phase.FillingInbound? || s.phase.Deciding? || s.phase.Asleep?) ==> s.woken || !s.owner.Idle?)
    && (InboundUnseen(s, depth) && (s.phase.Deciding? || s.phase.Asleep?) ==> s.woken || !s.owner.Idle?)
  }

  lemma StepKeepsInv(s: State, e: Event, depth: nat)
    requires Inv(s, depth) && Enabled(s, e, depth)
    ensures Inv(Step(s, e, depth), depth)
  {
  }

  ghost predicate IsRun(states: seq<State>, depth: nat) {
    && states != []
    && states[0] == INITIAL
    && forall i :: 0 <= i < |states| - 1 ==>
         exists e :: Enabled(states[i], e, depth) && states[i + 1] == Step(states[i], e, depth)
  }

  lemma {:induction false} EveryMoment(states: seq<State>, k: nat, depth: nat)
    requires IsRun(states, depth) && k < |states|
    ensures Inv(states[k], depth)
  {
    if k > 0 {
      EveryMoment(states, k - 1, depth);
      var i := k - 1;
      var e :| Enabled(states[i], e, depth) && states[i + 1] == Step(states[i], e, depth);
      StepKeepsInv(states[i], e, depth);
    }
  }

  /**
   * In no interleaving is the loop asleep, with no wake raised or on its way, while a chunk is queued,
   * a freed slot could be filled, a close is unobserved or a stop has been asked for.
   */
  lemma NoLostWakeup(states: seq<State>, k: nat, depth: nat)
    requires IsRun(states, depth) && k < |states|
    requires states[k].phase.Asleep? && !WakePending(states[k])
    ensures states[k].queued == 0
    ensures states[k].outClosed ==> states[k].outClosedSeen
    ensures states[k].waiting == 0 || states[k].inQueued >= depth || states[k].inClosed
    ensures states[k].inClosed ==> states[k].inClosedSeen
    ensures !states[k].stopAsked
  {
    EveryMoment(states, k, depth);
  }

  /** The loop's own steps from the top to the next sleep, when it finds nothing to do. */
  function IdlePass(s: State, depth: nat): State
    requires s.phase.Asleep? && s.woken && !s.stopAsked && s.queued == 0 && s.waiting == 0
  {
    var s1 := Step(s, Rouse, depth);
    var s2 := Step(s1, CheckStop, depth);
    var s3 := Step(s2, DoneTaking, depth);
    var s4 := Step(s3, DoneFilling, depth);
    Step(s4, Decide, depth)
  }

  /**
   * Why the drop closes before it wakes. From any quiet moment, a drop that woke first and closed after
   * the loop's next pass would leave it asleep for good over a close it never saw.
   */
  lemma WakingBeforeClosingLosesTheClose(s: State, depth: nat)
    requires s.phase.Asleep? && !WakePending(s) && !s.stopAsked
    requires s.queued == 0 && s.waiting == 0 && !s.outClosed && !s.inClosed
    ensures var after := IdlePass(s.(woken := true), depth).(outClosed := true, inClosed := true);
            after.phase.Asleep? && !WakePending(after) && after.outClosed && !after.outClosedSeen
  {
  }
}
