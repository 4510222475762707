/** What the commands do to the machine, and when replaying an undo list restores it. */
module RouteSystem {
  import opened Net
  import opened RouteCommands

  datatype Content = Foreign(text: string) | Written(servers: seq<IpAddr>)

  datatype Sys = Sys(
    table: Table,
    resolv: Option<Content>,
    backup: Option<Content>,
    wifiDns: seq<IpAddr>
  )

  function Read(s: Sys, f: File): Option<Content> {
    match f
    case ResolvConf => s.resolv
    case Backup => s.backup
  }

  function Store(s: Sys, f: File, c: Content): Sys {
    match f
    case ResolvConf => s.(resolv := Some(c))
    case Backup => s.(backup := Some(c))
  }

  predicate Succeeds(s: Sys, c: RouteCommand) {
    match c
    case Add(dest, _) => dest !in s.table
    case Del(dest, hop) => dest in s.table && s.table[dest] == hop
    case DelAny(dest) => dest in s.table
    case CopyFile(src, _) => Read(s, src).Some?
    case WriteResolvConf(_) => true
    case SetDnsServers(_) => true
  }

  /** A command that fails changes nothing. */
  function Exec(s: Sys, c: RouteCommand): Sys {
    if !Succeeds(s, c) then s
    else
      match c
      case Add(dest, hop) => s.(table := s.table[dest := hop])
      case Del(dest, _) => s.(table := s.table - {dest})
      case DelAny(dest) => s.(table := s.table - {dest})
      case CopyFile(src, dst) => Store(s, dst, Read(s, src).value)
      case WriteResolvConf(servers) => s.(resolv := Some(Written(servers)))
      case SetDnsServers(servers) => s.(wifiDns := servers)
  }

  /** Every command in turn, failures ignored: a revert, or a replayed record. */
  function RunAll(s: Sys, cmds: seq<RouteCommand>): Sys
    decreases |cmds|
  {
    if cmds == [] then s
    else RunAll(Exec(s, cmds[0]), cmds[1..])
  }

  /** After the first `k` commands. */
  function RunFirst(s: Sys, cmds: seq<RouteCommand>, k: nat): Sys
    requires k <= |cmds|
  {
    if k == 0 then s else Exec(RunFirst(s, cmds, k - 1), cmds[k - 1])
  }

  /** Each of the first `k` commands succeeds: as far as an apply that stops at the first failure gets. */
  ghost predicate Reaches(s: Sys, cmds: seq<RouteCommand>, k: nat)
    requires k <= |cmds|
  {
    k == 0 || (Reaches(s, cmds, k - 1) && Succeeds(RunFirst(s, cmds, k - 1), cmds[k - 1]))
  }

  /** The kernel drops every route through an interface that has gone. */
  function InterfaceGone(s: Sys, name: string): Sys {
    s.(table := map x | x in s.table && s.table[x] != Dev(name) :: s.table[x])
  }

  predicate IsUndo(c: RouteCommand) {
    c.Del? || c.DelAny? || c == CopyFile(Backup, ResolvConf) || c == SetDnsServers([])
  }

  predicate AllUndo(cmds: seq<RouteCommand>) {
    forall c :: c in cmds ==> IsUndo(c)
  }

  predicate RemovedBy(cmds: seq<RouteCommand>, x: Prefix, h: NextHop) {
    Del(x, h) in cmds || DelAny(x) in cmds
  }

  function Without(t: Table, cmds: seq<RouteCommand>): Table {
    map x | x in t && !RemovedBy(cmds, x, t[x]) :: t[x]
  }

  /** Undo lists commute into one filter: the order of the commands does not matter to the result. */
  lemma {:induction false} ReplayIsAFilter(s: Sys, cmds: seq<RouteCommand>)
    requires AllUndo(cmds)
    ensures RunAll(s, cmds) == Sys(
      Without(s.table, cmds),
      if CopyFile(Backup, ResolvConf) in cmds && s.backup.Some? then s.backup else s.resolv,
      s.backup,
      if SetDnsServers([]) in cmds then [] else s.wifiDns)
    decreases |cmds|
  {
    if cmds == [] {
      assert Without(s.table, cmds) == s.table;
    } else {
      ReplayIsAFilter(Exec(s, cmds[0]), cmds[1..]);
      FirstUndoFilters(s, cmds);
      assert forall c :: c in cmds <==> c == cmds[0] || c in cmds[1..];
    }
  }

  lemma FirstUndoFilters(s: Sys, cmds: seq<RouteCommand>)
    requires cmds != [] && IsUndo(cmds[0])
    ensures Without(Exec(s, cmds[0]).table, cmds[1..]) == Without(s.table, cmds)
  {
    var c, rest, next := cmds[0], cmds[1..], Exec(s, cmds[0]);
    assert forall d :: d in cmds <==> d == c || d in rest;
    forall x
      ensures x in Without(next.table, rest) <==> x in Without(s.table, cmds)
    {
      if x in s.table {
        assert RemovedBy(cmds, x, s.table[x]) <==> RemovedBy([c], x, s.table[x]) || RemovedBy(rest, x, s.table[x]);
      }
    }
  }

  /** The state of the machine before any run: its routes and its resolver file. */
  datatype Baseline = Baseline(table: Table, resolv: Option<Content>)

  predicate AtBase(s: Sys, base: Baseline) {
    && s.table == base.table
    && s.resolv == base.resolv
    && (s.backup.None? || s.backup == base.resolv)
  }

  /** What must hold of the machine for `cmds` to be a way back to `base`. */
  ghost predicate Undoable(s: Sys, cmds: seq<RouteCommand>, base: Baseline) {
    && (forall x :: x in base.table ==>
          x in s.table && s.table[x] == base.table[x] && !RemovedBy(cmds, x, base.table[x]))
    && (forall x :: x in s.table && x !in base.table ==> RemovedBy(cmds, x, s.table[x]))
    && (s.backup.None? || s.backup == base.resolv)
    && (s.resolv == base.resolv || (CopyFile(Backup, ResolvConf) in cmds && s.backup.Some?))
  }

  /** Replaying an undo list restores the baseline exactly when the machine is undoable by it. */
  lemma ReplayRestoresExactlyWhen(s: Sys, cmds: seq<RouteCommand>, base: Baseline)
    requires AllUndo(cmds)
    ensures AtBase(RunAll(s, cmds), base) <==> Undoable(s, cmds, base)
  {
    ReplayIsAFilter(s, cmds);
    var t := Without(s.table, cmds);
    if AtBase(RunAll(s, cmds), base) {
      forall x | x in base.table
        ensures x in s.table && s.table[x] == base.table[x] && !RemovedBy(cmds, x, base.table[x])
      {
        assert x in t;
      }
      forall x | x in s.table && x !in base.table
        ensures RemovedBy(cmds, x, s.table[x])
      {
        assert x !in t;
      }
    }
    if Undoable(s, cmds, base) {
      assert t.Keys == base.table.Keys;
      assert t == base.table;
    }
  }

  /** The commands the operating system does not turn down. */
  function Heeded(cmds: seq<RouteCommand>, refused: seq<bool>): seq<RouteCommand>
    requires |refused| == |cmds|
  {
    if cmds == [] then []
    else (if refused[0] then [] else [cmds[0]]) + Heeded(cmds[1..], refused[1..])
  }

  /** A replay in which some commands are turned down, for whatever reason: it carries on past them. */
  function RunSome(s: Sys, cmds: seq<RouteCommand>, refused: seq<bool>): Sys
    requires |refused| == |cmds|
    decreases |cmds|
  {
    if cmds == [] then s
    else RunSome(if refused[0] then s else Exec(s, cmds[0]), cmds[1..], refused[1..])
  }

  lemma {:induction false} RunSomeRunsHeeded(s: Sys, cmds: seq<RouteCommand>, refused: seq<bool>)
    requires |refused| == |cmds|
    ensures RunSome(s, cmds, refused) == RunAll(s, Heeded(cmds, refused))
    ensures forall c :: c in Heeded(cmds, refused) ==> c in cmds
    decreases |cmds|
  {
    if cmds != [] {
      RunSomeRunsHeeded(if refused[0] then s else Exec(s, cmds[0]), cmds[1..], refused[1..]);
      var rest := Heeded(cmds[1..], refused[1..]);
      assert Heeded(cmds, refused) == if refused[0] then rest else [cmds[0]] + rest;
      assert ([cmds[0]] + rest)[1..] == rest;
    }
  }

  /**
   * A replay does not look at how its commands fare. With some of them turned down it still restores the
   * baseline exactly when those that ran cover every stranded route, and the copy back if the file needs it.
   */
  lemma RefusedReplayRestoresExactlyWhen(s: Sys, cmds: seq<RouteCommand>, refused: seq<bool>, base: Baseline)
    requires |refused| == |cmds|
    requires AllUndo(cmds) && Undoable(s, cmds, base)
    ensures var ran := Heeded(cmds, refused);
            AtBase(RunSome(s, cmds, refused), base) <==>
            && (forall x :: x in s.table && x !in base.table ==> RemovedBy(ran, x, s.table[x]))
            && (s.resolv == base.resolv || CopyFile(Backup, ResolvConf) in ran)
  {
    RunSomeRunsHeeded(s, cmds, refused);
    ReplayRestoresExactlyWhen(s, Heeded(cmds, refused), base);
  }

  /** A replay cut short is still undoable, so it can be replayed again from the start. */
  lemma UndoStepKeepsUndoable(s: Sys, c: RouteCommand, cmds: seq<RouteCommand>, base: Baseline)
    requires Undoable(s, cmds, base)
    requires IsUndo(c) && c in cmds
    ensures Undoable(Exec(s, c), cmds, base)
  {
  }

  lemma LostInterfaceKeepsUndoable(s: Sys, name: string, cmds: seq<RouteCommand>, base: Baseline)
    requires Undoable(s, cmds, base)
    requires forall x :: x in base.table ==> base.table[x] != Dev(name)
    ensures Undoable(InterfaceGone(s, name), cmds, base)
  {
  }

  /** What a plan asks of the machine it runs on: no route through its interface, no host route to its server. */
  predicate FreeOf(t: Table, plan: RoutePlan) {
    && (forall x :: x in t ==> t[x] != Dev(plan.interface))
    && (plan.mode.Default? ==> HostRoute(plan.serverIp) !in t)
  }

  lemma RevertListIsUndo(platform: Platform, plan: RoutePlan)
    ensures AllUndo(RevertList(platform, plan))
  {
  }

  /** Revert deletes only routes into the interface, and in default mode the pin. */
  lemma RevertRemovesOnly(platform: Platform, plan: RoutePlan)
    ensures forall x, h :: RemovedBy(RevertList(platform, plan), x, h) ==>
              h == Dev(plan.interface) || (plan.mode.Default? && x == HostRoute(plan.serverIp))
  {
  }

  /** Every route `apply` adds is one `revert` deletes, and nothing clear of the plan is. */
  lemma RevertMatchesApply(platform: Platform, plan: RoutePlan)
    ensures forall x, h :: Add(x, h) in ApplyList(platform, plan) ==>
              RemovedBy(RevertList(platform, plan), x, h)
    ensures forall t, x :: FreeOf(t, plan) && x in t ==>
              !RemovedBy(RevertList(platform, plan), x, t[x])
  {
    RevertRemovesOnly(platform, plan);
    var tun := Dev(plan.interface);
    var revert := RevertList(platform, plan);
    if plan.mode.Test? {
      var dests := TestDestinations(plan);
      forall x, h | Add(x, h) in ApplyList(platform, plan)
        ensures RemovedBy(revert, x, h)
      {
        var i :| 0 <= i < |dests| && Add(dests[i], tun) == Add(x, h);
        assert revert[i] == Del(x, h);
      }
    } else {
      var halves := V6Halves(plan) + V4Halves();
      var pin := HostRoute(plan.serverIp);
      assert revert[|halves|] == PinDel(platform, plan);
      forall x, h | Add(x, h) in ApplyList(platform, plan)
        ensures RemovedBy(revert, x, h)
      {
        if Add(x, h) != PinAdd(plan) {
          assert x in halves && h == tun;
          var i :| 0 <= i < |halves| && halves[i] == x;
          assert revert[i] == Del(x, h);
        }
      }
    }
  }

  /** At the baseline, a plan's own undo list is a way back. */
  lemma BaselineIsUndoable(s: Sys, platform: Platform, plan: RoutePlan, base: Baseline)
    requires AtBase(s, base)
    requires FreeOf(base.table, plan)
    ensures Undoable(s, RevertList(platform, plan), base)
  {
    RevertMatchesApply(platform, plan);
  }

  /**
   * Replaying the record of a default-mode run that never installed anything. On Linux the pin is
   * deleted whatever it goes through, so a host route to the server that was there before is lost.
   */
  lemma UnusedRecordIsHarmlessExactlyWhen(s: Sys, plan: RoutePlan, base: Baseline)
    requires AtBase(s, base)
    requires plan.mode.Default?
    requires forall x :: x in base.table ==> base.table[x] != Dev(plan.interface)
    ensures AtBase(RunAll(s, RevertList(Linux, plan)), base) <==> HostRoute(plan.serverIp) !in base.table
  {
    var revert := RevertList(Linux, plan);
    RevertListIsUndo(Linux, plan);
    ReplayRestoresExactlyWhen(s, revert, base);
    if HostRoute(plan.serverIp) in base.table {
      var halves := V6Halves(plan) + V4Halves();
      assert revert[|halves|] == DelAny(HostRoute(plan.serverIp));
    } else {
      BaselineIsUndoable(s, Linux, plan, base);
    }
  }

  lemma DefaultApplyShape(platform: Platform, plan: RoutePlan, n: nat)
    requires plan.mode.Default?
    requires n == |V4Halves() + V6Halves(plan)|
    ensures var apply := ApplyList(platform, plan);
            && apply[0] == PinAdd(plan)
            && (forall i :: 0 < i <= n ==> apply[i] == Add((V4Halves() + V6Halves(plan))[i - 1], Dev(plan.interface)))
            && apply[n + 1..] == DnsApply(platform, plan)
  {
  }

  lemma AddStepKeeps(s: Sys, c: RouteCommand, revert: seq<RouteCommand>, base: Baseline)
    requires Undoable(s, revert, base)
    requires c.Add? && RemovedBy(revert, c.dest, c.hop)
    ensures Undoable(Exec(s, c), revert, base)
  {
  }

  lemma DnsStepKeeps(s: Sys, platform: Platform, plan: RoutePlan, i: nat, base: Baseline)
    requires plan.mode.Default?
    requires i < |DnsApply(platform, plan)|
    requires Undoable(s, RevertList(platform, plan), base)
    requires i == 0 ==> s.resolv == base.resolv
    requires i == 1 ==> s.backup.Some?
    ensures var s' := Exec(s, DnsApply(platform, plan)[i]);
            && Undoable(s', RevertList(platform, plan), base)
            && (i == 0 ==> s'.resolv == base.resolv)
            && (i == 0 && platform.Linux? && Succeeds(s, DnsApply(platform, plan)[i]) ==> s'.backup.Some?)
  {
    var revert := RevertList(platform, plan);
    assert revert[|revert| - 1] == DnsRevert(platform)[0];
  }

  /** Where an apply list stands on the resolver file before its `k`-th command. */
  ghost predicate ApplyKeeps(s: Sys, platform: Platform, plan: RoutePlan, k: nat, base: Baseline)
    requires k <= |ApplyList(platform, plan)|
  {
    var n := |V4Halves() + V6Halves(plan)|;
    && Undoable(s, RevertList(platform, plan), base)
    && (plan.mode.Test? || k <= n + 1 ==> s.resolv == base.resolv)
    && (plan.mode.Default? && platform.Linux? && k == n + 2 ==> s.backup.Some?)
  }

  /** Every command of an apply, whether or not it succeeds, leaves the machine undoable by the revert list. */
  lemma ApplyStepKeeps(s: Sys, platform: Platform, plan: RoutePlan, k: nat, base: Baseline)
    requires k < |ApplyList(platform, plan)|
    requires ApplyKeeps(s, platform, plan, k, base)
    ensures var c := ApplyList(platform, plan)[k];
            && Undoable(Exec(s, c), RevertList(platform, plan), base)
            && (Succeeds(s, c) ==> ApplyKeeps(Exec(s, c), platform, plan, k + 1, base))
  {
    var apply := ApplyList(platform, plan);
    var n := |V4Halves() + V6Halves(plan)|;
    RevertMatchesApply(platform, plan);
    if plan.mode.Default? {
      DefaultApplyShape(platform, plan, n);
    }
    if plan.mode.Test? || k <= n {
      assert apply[k].Add? && apply[k] in apply;
      AddStepKeeps(s, apply[k], RevertList(platform, plan), base);
    } else {
      assert apply[k] == apply[n + 1..][k - n - 1];
      DnsStepKeeps(s, platform, plan, k - n - 1, base);
    }
  }
}
