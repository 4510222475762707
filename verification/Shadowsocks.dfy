/** The Shadowsocks tunnel: what it retains, and the probe that proves a server before anything trusts it. */
module Shadowsocks {
  import opened Net

  datatype State = Disconnected | ConnectingNow | Connected | Failed

  /** Running out of time is reported as a configuration error too, but unlike one it does not end the probe. */
  datatype TunnelError = Config | Auth | Dns | Transport | ProbeTimedOut

  /** How one resolver answers a probe: what comes of it, and how long that takes. */
  datatype Answer = Answer(after: nat, error: Option<TunnelError>)

  /** The session `prepare` makes, or why it cannot. */
  datatype Prepared = Session(server: string, context: nat, peer: IpAddr) | CannotPrepare(error: TunnelError)

  const U32_MAX := 0xFFFF_FFFF

  /** The share of the budget each resolver gets. */
  function Share(budget: nat, resolvers: nat): nat
    requires resolvers > 0
  {
    budget / (if resolvers <= U32_MAX then resolvers else U32_MAX)
  }

  /** The attempt at one resolver ends with its answer, or when its share is spent. */
  predicate AnswersInTime(a: Answer, share: nat) {
    a.after <= share
  }

  function Spent(a: Answer, share: nat): nat {
    if AnswersInTime(a, share) then a.after else share
  }

  function TotalSpent(answers: seq<Answer>, share: nat): nat {
    if answers == [] then 0
    else TotalSpent(answers[..|answers| - 1], share) + Spent(answers[|answers| - 1], share)
  }

  /** What the attempt amounts to: a timeout reads as its own error. */
  function Verdict(a: Answer, share: nat): Option<TunnelError> {
    if AnswersInTime(a, share) then a.error else Some(ProbeTimedOut)
  }

  predicate GoesOn(v: Option<TunnelError>) {
    v.Some? && v.value != Config
  }

  lemma {:induction false} AttemptsFitTheirShares(answers: seq<Answer>, share: nat)
    ensures TotalSpent(answers, share) <= |answers| * share
  {
    if answers != [] {
      AttemptsFitTheirShares(answers[..|answers| - 1], share);
    }
  }

  lemma SharesFitTheBudget(budget: nat, n: nat)
    requires n > 0
    ensures n * (budget / n) <= budget
  {
  }

  /** However many resolvers are tried, one share each, the budget covers them. */
  lemma ProbeFitsItsBudget(answers: seq<Answer>, tried: nat, budget: nat)
    requires 0 < |answers| <= U32_MAX && tried <= |answers|
    ensures TotalSpent(answers[..tried], Share(budget, |answers|)) <= budget
  {
    var share := Share(budget, |answers|);
    AttemptsFitTheirShares(answers[..tried], share);
    SharesFitTheBudget(budget, |answers|);
    FewerSharesCostLess(tried, |answers|, share);
  }

  lemma FewerSharesCostLess(m: nat, n: nat, share: nat)
    requires m <= n
    ensures m * share <= n * share
  {
  }

  /** What the resolvers, asked in order, come to: the first verdict not worth going on from, or the last one. */
  function Decision(answers: seq<Answer>, share: nat): Option<TunnelError>
    requires answers != []
  {
    var first := Verdict(answers[0], share);
    if |answers| == 1 || !GoesOn(first) then first else Decision(answers[1..], share)
  }

  lemma {:induction false} DecisionIs(answers: seq<Answer>, share: nat, tried: nat)
    requires 0 < tried <= |answers|
    requires forall i :: 0 <= i < tried - 1 ==> GoesOn(Verdict(answers[i], share))
    requires tried < |answers| ==> !GoesOn(Verdict(answers[tried - 1], share))
    ensures Decision(answers, share) == Verdict(answers[tried - 1], share)
  {
    if tried > 1 {
      DecisionIs(answers[1..], share, tried - 1);
    }
  }

  /**
   * `probe_once`: each resolver in order until one answers. A configuration error is the same for all of
   * them and ends the loop; any other failure is remembered and the next one tried.
   */
  method ProbeOnce(answers: seq<Answer>, budget: nat) returns (error: Option<TunnelError>, elapsed: nat, ghost tried: nat)
    ensures tried <= |answers|
    ensures answers == [] ==> error == Some(Config) && elapsed == 0
    ensures answers != [] ==> error == Decision(answers, Share(budget, |answers|))
    ensures answers != [] ==>
              var share := Share(budget, |answers|);
              && tried > 0
              && (forall i :: 0 <= i < tried - 1 ==> GoesOn(Verdict(answers[i], share)))
              && error == Verdict(answers[tried - 1], share)
              && (tried < |answers| ==> !GoesOn(error))
              && elapsed == TotalSpent(answers[..tried], share)
  {
    if |answers| == 0 {
      return Some(Config), 0, 0;
    }
    var share := Share(budget, |answers|);
    var last := None;
    tried, elapsed := 0, 0;
    for i := 0 to |answers|
      invariant tried == i
      invariant forall j :: 0 <= j < i ==> GoesOn(Verdict(answers[j], share))
      invariant i > 0 ==> last == Verdict(answers[i - 1], share)
      invariant elapsed == TotalSpent(answers[..i], share)
    {
      assert answers[..i + 1][..i] == answers[..i];
      tried, elapsed := i + 1, elapsed + Spent(answers[i], share);
      if AnswersInTime(answers[i], share) {
        match answers[i].error {
          case None =>
            DecisionIs(answers, share, tried);
            return None, elapsed, tried;
          case Some(Config) =>
            DecisionIs(answers, share, tried);
            return Some(Config), elapsed, tried;
          case Some(e) => last := Some(e);
        }
      } else {
        last := Some(ProbeTimedOut);
      }
    }
    DecisionIs(answers, share, tried);
    return last, elapsed, tried;
  }

  /** A resolver that stays silent for its whole share, or fails of itself, is passed over. */
  predicate PassedOver(a: Answer, share: nat) {
    a.after > share || (a.error.Some? && a.error != Some(Config))
  }

  /** In its share, after only resolvers passed over, the `i`-th one says `e`. */
  predicate Says(answers: seq<Answer>, share: nat, i: nat, e: Option<TunnelError>) {
    && i < |answers| && answers[i].after <= share && answers[i].error == e
    && forall j :: 0 <= j < i ==> PassedOver(answers[j], share)
  }

  /**
   * What a probe means: it succeeds exactly when some resolver answers within its share, none before it having ended
   * the probe; a configuration error in the same place ends it; and with all passed over it is the last one's failure,
   * silence being one.
   */
  ghost predicate ProbeMeans(answers: seq<Answer>, share: nat, error: Option<TunnelError>)
    requires answers != []
  {
    var last := answers[|answers| - 1];
    && (error == None <==> exists i: nat :: Says(answers, share, i, None))
    && (error == Some(Config) <==> exists i: nat :: Says(answers, share, i, Some(Config)))
    && ((forall j :: 0 <= j < |answers| ==> PassedOver(answers[j], share)) ==>
          error == if last.after <= share then last.error else Some(ProbeTimedOut))
  }

  lemma OutcomeMeans(answers: seq<Answer>, share: nat, tried: nat, error: Option<TunnelError>)
    requires 0 < tried <= |answers| && error == Verdict(answers[tried - 1], share)
    requires forall i :: 0 <= i < tried - 1 ==> GoesOn(Verdict(answers[i], share))
    requires tried < |answers| ==> !GoesOn(error)
    ensures ProbeMeans(answers, share, error)
  {
    assert forall a: Answer :: PassedOver(a, share) <==> GoesOn(Verdict(a, share));
    if !GoesOn(error) {
      assert Says(answers, share, tried - 1, error);
    }
  }

  class ShadowsocksTunnel {
    var server: Option<string>
    var context: Option<nat>
    var peer: Option<IpAddr>
    var state: State
    const probeTimeout: nat

    /** Connected exactly when everything a flow needs is held; nothing is held half. */
    ghost predicate Valid()
      reads this
    {
      && (state.Connected? <==> server.Some?)
      && (server.Some? <==> context.Some?)
      && (server.Some? <==> peer.Some?)
      && !state.ConnectingNow?
    }

    constructor (probeTimeout: nat)
      ensures Valid() && state.Disconnected? && this.probeTimeout == probeTimeout
    {
      server, context, peer, state := None, None, None, Disconnected;
      this.probeTimeout := probeTimeout;
    }

    /** `connect`, for what `prepare` makes of the profile and how its resolvers answer. A reconnect starts here too. */
    method Connect(prepared: Prepared, answers: seq<Answer>) returns (error: Option<TunnelError>)
      requires Valid()
      modifies this
      ensures Valid()
      ensures error.None? <==> state.Connected?
      ensures error.Some? ==> state.Failed?
      ensures error.None? ==> prepared.Session? && answers != []
      ensures error.None? ==> server == Some(prepared.server) && context == Some(prepared.context) && peer == Some(prepared.peer)
      ensures prepared.CannotPrepare? ==> error == Some(prepared.error)
      ensures prepared.Session? && answers == [] ==> error == Some(Config)
      ensures prepared.Session? && 0 < |answers| <= U32_MAX ==> ProbeMeans(answers, probeTimeout / |answers|, error)
    {
      state := ConnectingNow;
      match prepared {
        case Session(s, c, p) =>
          server, context, peer := Some(s), Some(c), Some(p);
          var spent;
          error, spent := Probe(answers);
          if error.Some? {
            server, context, peer := None, None, None;
            state := Failed;
            return;
          }
          state := Connected;
        case CannotPrepare(e) =>
          server, context, peer := None, None, None;
          state := Failed;
          return Some(e);
      }
    }

    /** `probe`: the loop under one ceiling, which the shares reach only if there are more resolvers than a `u32` counts. */
    method Probe(answers: seq<Answer>) returns (error: Option<TunnelError>, spent: nat)
      ensures answers == [] ==> error == Some(Config)
      ensures error.None? ==> exists i: nat :: Says(answers, Share(probeTimeout, |answers|), i, None)
      ensures 0 < |answers| <= U32_MAX ==>
                && ProbeMeans(answers, probeTimeout / |answers|, error)
                && error == Decision(answers, probeTimeout / |answers|)
      ensures spent <= probeTimeout
    {
      ghost var tried;
      error, spent, tried := ProbeOnce(answers, probeTimeout);
      if answers != [] {
        OutcomeMeans(answers, Share(probeTimeout, |answers|), tried, error);
      }
      if 0 < |answers| <= U32_MAX {
        ProbeFitsItsBudget(answers, tried, probeTimeout);
      }
      if spent > probeTimeout {
        return Some(ProbeTimedOut), probeTimeout;
      }
    }

    method Disconnect()
      requires Valid()
      modifies this
      ensures Valid() && state.Disconnected?
    {
      server, context, peer := None, None, None;
      state := Disconnected;
    }
  }
}
