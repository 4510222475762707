/** What a finished apply routes where, why the server stays reachable, and when test mode undoes itself. */
module RouteProperties {
  import opened Net
  import opened RouteCommands
  import opened RouteSystem

  predicate NoDeletes(cmds: seq<RouteCommand>) {
    forall c :: c in cmds ==> !c.Del? && !c.DelAny?
  }

  /** `t` is `t0` and, beside it, exactly the routes that `done` adds. */
  ghost predicate Grown(t0: Table, t: Table, done: seq<RouteCommand>) {
    && (forall x :: x in t0 ==> x in t && t[x] == t0[x])
    && (forall x, h :: Add(x, h) in done ==> x !in t0 && x in t && t[x] == h)
    && (forall x :: x in t && x !in t0 ==> Add(x, t[x]) in done)
  }

  lemma StepGrows(t0: Table, s: Sys, done: seq<RouteCommand>, c: RouteCommand)
    requires Grown(t0, s.table, done)
    requires Succeeds(s, c) && !c.Del? && !c.DelAny?
    ensures Grown(t0, Exec(s, c).table, done + [c])
  {
    var t := Exec(s, c).table;
    assert forall d :: d in done + [c] <==> d in done || d == c;
  }

  /** An apply adds its own routes and touches no other. */
  lemma {:induction false} AppliedTable(s: Sys, cmds: seq<RouteCommand>, k: nat)
    requires k <= |cmds|
    requires NoDeletes(cmds)
    requires Reaches(s, cmds, k)
    ensures Grown(s.table, RunFirst(s, cmds, k).table, cmds[..k])
  {
    if k > 0 {
      var c, mid := cmds[k - 1], RunFirst(s, cmds, k - 1);
      assert Succeeds(mid, c) && c in cmds;
      AppliedTable(s, cmds, k - 1);
      StepGrows(s.table, mid, cmds[..k - 1], c);
      assert cmds[..k] == cmds[..k - 1] + [c];
    }
  }

  lemma ApplyHasNoDeletes(platform: Platform, plan: RoutePlan)
    ensures NoDeletes(ApplyList(platform, plan))
  {
  }

  /** What a default-mode apply adds: the pin, and the halves of each family it captures. */
  lemma DefaultApplyAdds(platform: Platform, plan: RoutePlan, x: Prefix, h: NextHop)
    requires plan.mode.Default?
    ensures Add(x, h) in ApplyList(platform, plan) <==>
            || Add(x, h) == PinAdd(plan)
            || (h == Dev(plan.interface) && x.len == 1 && x.key < 2 && (x.family.V4? || plan.ipv6Available))
  {
    var n := |V4Halves() + V6Halves(plan)|;
    var apply, tun := ApplyList(platform, plan), Dev(plan.interface);
    DefaultApplyShape(platform, plan, n);
    assert apply[1] == Add(Half(V4, 0), tun) && apply[2] == Add(Half(V4, 1), tun);
    if plan.ipv6Available {
      assert apply[3] == Add(Half(V6, 0), tun) && apply[4] == Add(Half(V6, 1), tun);
    }
    if h == tun && x.len == 1 && x.key < 2 && (x.family.V4? || plan.ipv6Available) {
      assert x == Half(x.family, 0) || x == Half(x.family, 1);
    }
    assert forall i :: n < i < |apply| ==> apply[i] == DnsApply(platform, plan)[i - n - 1];
  }

  /** The table after every command of the apply list. */
  function FullyApplied(s: Sys, platform: Platform, plan: RoutePlan): Table {
    RunFirst(s, ApplyList(platform, plan), |ApplyList(platform, plan)|).table
  }

  ghost predicate Completes(s: Sys, platform: Platform, plan: RoutePlan) {
    Reaches(s, ApplyList(platform, plan), |ApplyList(platform, plan)|)
  }

  lemma FullyAppliedTable(s: Sys, platform: Platform, plan: RoutePlan)
    requires Completes(s, platform, plan)
    ensures Grown(s.table, FullyApplied(s, platform, plan), ApplyList(platform, plan))
  {
    var apply := ApplyList(platform, plan);
    ApplyHasNoDeletes(platform, plan);
    AppliedTable(s, apply, |apply|);
    assert apply[..|apply|] == apply;
  }

  /** No route that was there before, the default included, is changed; the server goes out the original gateway. */
  lemma DefaultApplyKeepsRoutes(s: Sys, platform: Platform, plan: RoutePlan)
    requires plan.mode.Default?
    requires Completes(s, platform, plan)
    ensures var t := FullyApplied(s, platform, plan);
            && (forall x :: x in s.table ==> x in t && t[x] == s.table[x])
            && Lookup(t, plan.serverIp) == Some(Via(plan.originalGateway))
  {
    FullyAppliedTable(s, platform, plan);
    DefaultApplyAdds(platform, plan, HostRoute(plan.serverIp), Via(plan.originalGateway));
  }

  lemma {:induction false} AddsKeepFiles(s: Sys, cmds: seq<RouteCommand>, k: nat)
    requires k <= |cmds| && forall i :: 0 <= i < k ==> cmds[i].Add?
    ensures RunFirst(s, cmds, k) == s.(table := RunFirst(s, cmds, k).table)
  {
    if k > 0 {
      AddsKeepFiles(s, cmds, k - 1);
    }
  }

  /**
   * Names are resolved by the plan's servers, and by them alone: a completed default-mode apply leaves them in the
   * resolver file, the old one kept beside it, or on macOS in the service's settings. Test mode leaves both alone.
   */
  lemma ApplySetsResolvers(s: Sys, platform: Platform, plan: RoutePlan)
    requires Completes(s, platform, plan)
    ensures var now := RunFirst(s, ApplyList(platform, plan), |ApplyList(platform, plan)|);
            if plan.mode.Test? then now == s.(table := now.table)
            else if platform.Linux? then
              now == s.(table := now.table, resolv := Some(Written(plan.dnsServers)), backup := s.resolv) && s.resolv.Some?
            else now == s.(table := now.table, wifiDns := plan.dnsServers)
  {
    var apply := ApplyList(platform, plan);
    var n := |V4Halves() + V6Halves(plan)|;
    if plan.mode.Test? {
      AddsKeepFiles(s, apply, |apply|);
    } else {
      DefaultApplyShape(platform, plan, n);
      assert apply[n + 1..] == DnsApply(platform, plan) && |apply| == n + 1 + |DnsApply(platform, plan)|;
      assert forall i :: 0 <= i <= n ==> apply[i].Add?;
      hide ApplyList;
      AddsKeepFiles(s, apply, n + 1);
      ResolverSteps(s, apply, n + 1, platform, plan);
    }
  }

  lemma ResolverSteps(s: Sys, cmds: seq<RouteCommand>, k: nat, platform: Platform, plan: RoutePlan)
    requires |cmds| == k + |DnsApply(platform, plan)| && cmds[k..] == DnsApply(platform, plan) && Reaches(s, cmds, |cmds|)
    ensures var mid, now := RunFirst(s, cmds, k), RunFirst(s, cmds, |cmds|);
            if platform.Linux? then
              now == mid.(resolv := Some(Written(plan.dnsServers)), backup := mid.resolv) && mid.resolv.Some?
            else now == mid.(wifiDns := plan.dnsServers)
  {
    var mid := RunFirst(s, cmds, k);
    assert cmds[k] == cmds[k..][0] == DnsApply(platform, plan)[0];
    assert RunFirst(s, cmds, k + 1) == Exec(mid, cmds[k]);
    if platform.Linux? {
      assert cmds[k + 1] == cmds[k..][1] == DnsApply(platform, plan)[1];
      assert Reaches(s, cmds, k + 1);
      hide RunFirst, Reaches;
    }
  }

  /**
   * Split default: after a completed default-mode apply, an address of a captured family, other than
   * the server's, goes where a route of length 2 or more already took it, and into the interface otherwise.
   */
  lemma SplitDefaultCaptures(s: Sys, platform: Platform, plan: RoutePlan, a: IpAddr)
    requires plan.mode.Default?
    requires Completes(s, platform, plan)
    requires a != plan.serverIp
    requires a.family.V4? || plan.ipv6Available
    ensures var specific := LookupWithin(s.table, a, Width(a.family), 2);
            Lookup(FullyApplied(s, platform, plan), a) ==
            if specific.Some? then specific else Some(Dev(plan.interface))
  {
    var t := FullyApplied(s, platform, plan);
    LookupWithinSplits(t, a, Width(a.family), 2);
    LongLookupUnchanged(s, platform, plan, a, 2);
    EveryAddressIsInOneHalf(a);
    FullyAppliedTable(s, platform, plan);
    DefaultApplyAdds(platform, plan, NetOf(a, 1), Dev(plan.interface));
  }

  /** On a host without IPv6, its routes are left as they were. */
  lemma SplitDefaultLeavesIpv6(s: Sys, platform: Platform, plan: RoutePlan, a: IpAddr)
    requires plan.mode.Default?
    requires Completes(s, platform, plan)
    requires a != plan.serverIp
    requires a.family.V6? && !plan.ipv6Available
    ensures Lookup(FullyApplied(s, platform, plan), a) == Lookup(s.table, a)
  {
    LongLookupUnchanged(s, platform, plan, a, 0);
  }

  lemma LongLookupUnchanged(s: Sys, platform: Platform, plan: RoutePlan, a: IpAddr, floor: nat)
    requires plan.mode.Default?
    requires Completes(s, platform, plan)
    requires a != plan.serverIp
    requires floor == 2 || (floor == 0 && a.family.V6? && !plan.ipv6Available)
    ensures LookupWithin(FullyApplied(s, platform, plan), a, Width(a.family), floor) ==
            LookupWithin(s.table, a, Width(a.family), floor)
  {
    var t := FullyApplied(s, platform, plan);
    FullyAppliedTable(s, platform, plan);
    HostRouteIsInjective(a, plan.serverIp);
    forall l | floor <= l <= Width(a.family)
      ensures var p := NetOf(a, l); (p in t <==> p in s.table) && (p in t ==> t[p] == s.table[p])
    {
      var p := NetOf(a, l);
      if p in t {
        DefaultApplyAdds(platform, plan, p, t[p]);
      }
    }
    LookupWithinAgrees(t, s.table, a, Width(a.family), floor);
  }

  /** Every route that is not the baseline's is one the plan adds. */
  predicate Ours(t: Table, base: Table, platform: Platform, plan: RoutePlan) {
    forall x :: x in t && x !in base ==> Add(x, t[x]) in ApplyList(platform, plan)
  }

  /** In default mode, any route into the interface comes with the server's pin. */
  predicate EscapeRoute(t: Table, plan: RoutePlan) {
    plan.mode.Default? && (exists x :: x in t && t[x] == Dev(plan.interface)) ==>
      HostRoute(plan.serverIp) in t && t[HostRoute(plan.serverIp)].Via?
  }

  /** With its escape route, the tunnel's own transport is never routed into the tunnel. */
  lemma EscapeRouteReachesServer(t: Table, plan: RoutePlan)
    requires plan.mode.Default?
    requires EscapeRoute(t, plan)
    ensures Lookup(t, plan.serverIp) != Some(Dev(plan.interface))
  {
    LookupIsLongestMatch(t, plan.serverIp, Dev(plan.interface));
  }

  /** Where the escape route stands before the `k`-th command of an apply. */
  predicate PinFirst(t: Table, plan: RoutePlan, k: nat) {
    plan.mode.Default? ==>
      if k == 0 then forall x :: x in t ==> t[x] != Dev(plan.interface)
      else HostRoute(plan.serverIp) in t && t[HostRoute(plan.serverIp)].Via?
  }

  lemma ApplyStepKeepsEscape(s: Sys, platform: Platform, plan: RoutePlan, k: nat, base: Table)
    requires k < |ApplyList(platform, plan)|
    requires Ours(s.table, base, platform, plan)
    requires PinFirst(s.table, plan, k)
    ensures var c := ApplyList(platform, plan)[k];
            && EscapeRoute(s.table, plan)
            && Ours(Exec(s, c).table, base, platform, plan)
            && (Succeeds(s, c) ==> PinFirst(Exec(s, c).table, plan, k + 1))
  {
    hide ApplyList, HostRoute, AddAll, DnsApply, Half;
    var c := ApplyList(platform, plan)[k];
    assert c in ApplyList(platform, plan);
    ApplyHasNoDeletes(platform, plan);
    if plan.mode.Default? {
      DefaultApplyShape(platform, plan, |V4Halves() + V6Halves(plan)|);
    }
  }

  /** Deletes run so far have left nothing they name. */
  predicate Swept(s: Sys, done: seq<RouteCommand>) {
    && (forall x :: x in s.table ==> !RemovedBy(done, x, s.table[x]))
    && (CopyFile(Backup, ResolvConf) in done ==> s.backup.None? || s.resolv == s.backup)
  }

  lemma RevertStepSweeps(s: Sys, cmds: seq<RouteCommand>, i: nat)
    requires i < |cmds|
    requires AllUndo(cmds)
    requires Swept(s, cmds[..i])
    ensures Swept(Exec(s, cmds[i]), cmds[..i + 1])
  {
    assert cmds[..i + 1] == cmds[..i] + [cmds[i]];
    assert cmds[i] in cmds;
  }

  /** The revert list deletes both halves before the pin, so the escape route outlives what needs it. */
  lemma RevertStepKeepsEscape(s: Sys, platform: Platform, plan: RoutePlan, i: nat, base: Table)
    requires i < |RevertList(platform, plan)|
    requires Ours(s.table, base, platform, plan)
    requires FreeOf(base, plan)
    requires forall x :: x in base ==> x in s.table && s.table[x] == base[x]
    requires EscapeRoute(s.table, plan)
    requires Swept(s, RevertList(platform, plan)[..i])
    ensures Ours(Exec(s, RevertList(platform, plan)[i]).table, base, platform, plan)
    ensures EscapeRoute(Exec(s, RevertList(platform, plan)[i]).table, plan)
  {
    var c := RevertList(platform, plan)[i];
    RevertListIsUndo(platform, plan);
    assert c in RevertList(platform, plan);
    if plan.mode.Default? {
      RevertOrder(platform, plan, i);
      if c == PinDel(platform, plan) {
        NothingThroughInterface(s, platform, plan, i, base);
      }
    }
  }

  /** The only command that deletes a host route is the pin's, and both halves of each family come before it. */
  lemma RevertOrder(platform: Platform, plan: RoutePlan, i: nat)
    requires plan.mode.Default?
    requires i < |RevertList(platform, plan)|
    ensures var revert, tun := RevertList(platform, plan), Dev(plan.interface);
            if revert[i] == PinDel(platform, plan) then
              forall x: Prefix :: x.len == 1 && x.key < 2 && (x.family.V4? || plan.ipv6Available) ==>
                Del(x, tun) in revert[..i]
            else
              !revert[i].DelAny? && (revert[i].Del? ==> revert[i].dest.len == 1)
  {
    var revert, tun := RevertList(platform, plan), Dev(plan.interface);
    var halves := V6Halves(plan) + V4Halves();
    var n := |halves|;
    assert forall j :: 0 <= j < n ==> revert[j] == Del(halves[j], tun);
    assert revert[n] == PinDel(platform, plan);
    assert revert[n + 1] == DnsRevert(platform)[0];
    if i == n {
      assert revert[..i][n - 2] == Del(Half(V4, 0), tun) && revert[..i][n - 1] == Del(Half(V4, 1), tun);
      if plan.ipv6Available {
        assert revert[..i][0] == Del(Half(V6, 0), tun) && revert[..i][1] == Del(Half(V6, 1), tun);
      }
      forall x: Prefix | x.len == 1 && x.key < 2 && (x.family.V4? || plan.ipv6Available)
        ensures Del(x, tun) in revert[..i]
      {
        assert x == Half(x.family, 0) || x == Half(x.family, 1);
      }
    }
  }

  lemma NothingThroughInterface(s: Sys, platform: Platform, plan: RoutePlan, i: nat, base: Table)
    requires plan.mode.Default?
    requires i < |RevertList(platform, plan)|
    requires RevertList(platform, plan)[i] == PinDel(platform, plan)
    requires Ours(s.table, base, platform, plan)
    requires FreeOf(base, plan)
    requires forall x :: x in base ==> x in s.table && s.table[x] == base[x]
    requires Swept(s, RevertList(platform, plan)[..i])
    ensures forall x :: x in s.table ==> s.table[x] != Dev(plan.interface)
  {
    var tun := Dev(plan.interface);
    RevertOrder(platform, plan, i);
    forall x | x in s.table
      ensures s.table[x] != tun
    {
      if s.table[x] == tun {
        DefaultApplyAdds(platform, plan, x, tun);
      }
    }
  }

  /** How many deletes of halves a default-mode undo list starts with; the pin's comes next. */
  function HalfDeletes(plan: RoutePlan): nat {
    |V6Halves(plan) + V4Halves()|
  }

  lemma DefaultRevertShape(platform: Platform, plan: RoutePlan)
    requires plan.mode.Default?
    ensures var cmds, n := RevertList(platform, plan), HalfDeletes(plan);
            && |cmds| == n + 2
            && (forall j :: 0 <= j < n ==>
                  cmds[j] == Del((V6Halves(plan) + V4Halves())[j], Dev(plan.interface)) && cmds[j].dest.len == 1)
            && cmds[n] == PinDel(platform, plan) && cmds[n + 1] == DnsRevert(platform)[0]
            && Distinct(cmds)
  {
  }

  lemma {:induction false} HeededAre(cmds: seq<RouteCommand>, refused: seq<bool>, c: RouteCommand)
    requires |refused| == |cmds|
    ensures c in Heeded(cmds, refused) <==> exists i :: 0 <= i < |cmds| && cmds[i] == c && !refused[i]
  {
    if cmds != [] {
      var rest := cmds[1..];
      HeededAre(rest, refused[1..], c);
      if i :| 0 <= i < |cmds| && cmds[i] == c && !refused[i] {
        assert i > 0 ==> rest[i - 1] == c && !refused[1..][i - 1];
      }
      if i :| 0 <= i < |rest| && rest[i] == c && !refused[1..][i] {
        assert cmds[i + 1] == c && !refused[i + 1];
      }
    }
  }

  /** In a list without repeats, a command has been run if its turn has come and it was not turned down. */
  lemma HeededSoFar(cmds: seq<RouteCommand>, refused: seq<bool>, k: nat, j: nat)
    requires |refused| == |cmds| && k <= |cmds| && j < |cmds| && Distinct(cmds)
    ensures cmds[j] in Heeded(cmds[..k], refused[..k]) <==> j < k && !refused[j]
  {
    HeededAre(cmds[..k], refused[..k], cmds[j]);
    if j < k {
      assert cmds[..k][j] == cmds[j] && refused[..k][j] == refused[j];
    }
  }

  /** A half whose delete was turned down while its route stood. */
  ghost predicate HalfStranded(s: Sys, platform: Platform, plan: RoutePlan, refused: seq<bool>, j: nat)
    requires plan.mode.Default? && |refused| == |RevertList(platform, plan)|
  {
    j < HalfDeletes(plan) <= |refused| && refused[j] && Succeeds(s, RevertList(platform, plan)[j])
  }

  /** The routes after `k` commands of a replay of which some were turned down. */
  function RoutesAfter(s: Sys, platform: Platform, plan: RoutePlan, refused: seq<bool>, k: nat): Table
    requires |refused| == |RevertList(platform, plan)| && k <= |refused|
  {
    RunSome(s, RevertList(platform, plan)[..k], refused[..k]).table
  }

  /** The commands run so far, and the table they leave. */
  lemma ReplayedSoFar(s: Sys, platform: Platform, plan: RoutePlan, refused: seq<bool>, k: nat)
    returns (ran: seq<RouteCommand>)
    requires plan.mode.Default? && |refused| == |RevertList(platform, plan)| && k <= |refused|
    ensures RoutesAfter(s, platform, plan, refused, k) == Without(s.table, ran)
    ensures forall c :: c in ran ==> c in RevertList(platform, plan)
    ensures forall j :: 0 <= j < |refused| ==> (RevertList(platform, plan)[j] in ran <==> j < k && !refused[j])
  {
    var cmds := RevertList(platform, plan);
    ran := Heeded(cmds[..k], refused[..k]);
    RevertListIsUndo(platform, plan);
    RunSomeRunsHeeded(s, cmds[..k], refused[..k]);
    ReplayIsAFilter(s, ran);
    DefaultRevertShape(platform, plan);
    hide RevertList, Heeded;
    forall j | 0 <= j < |refused|
      ensures cmds[j] in ran <==> j < k && !refused[j]
    {
      HeededSoFar(cmds, refused, k, j);
    }
  }

  /** What is routed into the interface is a half, and it is still there if its delete has not been run. */
  lemma ThroughInterface(s: Sys, platform: Platform, plan: RoutePlan, base: Table, x: Prefix) returns (j: nat)
    requires plan.mode.Default?
    requires Ours(s.table, base, platform, plan) && FreeOf(base, plan)
    requires forall x :: x in base ==> x in s.table && s.table[x] == base[x]
    requires x in s.table && s.table[x] == Dev(plan.interface)
    ensures j < HalfDeletes(plan) < |RevertList(platform, plan)|
    ensures RevertList(platform, plan)[j] == Del(x, Dev(plan.interface))
  {
    var halves := V6Halves(plan) + V4Halves();
    DefaultApplyAdds(platform, plan, x, Dev(plan.interface));
    DefaultRevertShape(platform, plan);
    assert x == Half(x.family, 0) || x == Half(x.family, 1);
    assert x in halves;
    j :| 0 <= j < |halves| && halves[j] == x;
  }

  /** The pin is there until its delete is run. */
  lemma PinStands(s: Sys, platform: Platform, plan: RoutePlan, base: Table, ran: seq<RouteCommand>)
    requires plan.mode.Default?
    requires Ours(s.table, base, platform, plan) && FreeOf(base, plan)
    requires HostRoute(plan.serverIp) in s.table && forall c :: c in ran ==> c in RevertList(platform, plan)
    ensures HostRoute(plan.serverIp) in Without(s.table, ran) <==> PinDel(platform, plan) !in ran
  {
    var pin := HostRoute(plan.serverIp);
    DefaultApplyAdds(platform, plan, pin, s.table[pin]);
    DefaultRevertShape(platform, plan);
    assert s.table[pin] == Via(plan.originalGateway);
    assert RemovedBy(ran, pin, s.table[pin]) ==> PinDel(platform, plan) in ran;
  }

  /**
   * A replay in which some commands are turned down, at every moment of it. The server's escape route stands
   * exactly until the pin's delete is run with a half still there, its own delete having been turned down.
   */
  lemma RefusedReplayKeepsEscapeExactlyWhen(s: Sys, platform: Platform, plan: RoutePlan, base: Table,
                                            refused: seq<bool>, k: nat)
    requires plan.mode.Default? && |refused| == |RevertList(platform, plan)| && k <= |refused|
    requires Ours(s.table, base, platform, plan) && FreeOf(base, plan)
    requires forall x :: x in base ==> x in s.table && s.table[x] == base[x]
    requires EscapeRoute(s.table, plan)
    ensures var n := HalfDeletes(plan);
            n < |refused| &&
            (EscapeRoute(RoutesAfter(s, platform, plan, refused, k), plan) <==>
               k <= n || refused[n] || forall j :: 0 <= j < n ==> !HalfStranded(s, platform, plan, refused, j))
  {
    var cmds, n, tun := RevertList(platform, plan), HalfDeletes(plan), Dev(plan.interface);
    var ran := ReplayedSoFar(s, platform, plan, refused, k);
    var t := RoutesAfter(s, platform, plan, refused, k);
    DefaultRevertShape(platform, plan);
    if HostRoute(plan.serverIp) in s.table {
      PinStands(s, platform, plan, base, ran);
    }
    hide RevertList, RoutesAfter, Ours, FreeOf;
    if k > n && !refused[n] {
      if j :| 0 <= j < n && HalfStranded(s, platform, plan, refused, j) {
        var x := cmds[j].dest;
        assert !RemovedBy(ran, x, tun);
        assert x in t && t[x] == tun;
      }
      if x :| x in t && t[x] == tun {
        var j := ThroughInterface(s, platform, plan, base, x);
        assert HalfStranded(s, platform, plan, refused, j);
      }
    }
  }

  /** What the server's lookup sees once the pin's delete has run: the baseline's routes, and a stranded half. */
  lemma ServerSees(s: Sys, platform: Platform, plan: RoutePlan, base: Table, refused: seq<bool>, k: nat, l: nat)
    requires plan.mode.Default? && |refused| == |RevertList(platform, plan)| && HalfDeletes(plan) < k <= |refused|
    requires Ours(s.table, base, platform, plan) && FreeOf(base, plan)
    requires forall x :: x in base ==> x in s.table && s.table[x] == base[x]
    requires !refused[HalfDeletes(plan)] && l <= Width(plan.serverIp.family)
    ensures var t, x := RoutesAfter(s, platform, plan, refused, k), NetOf(plan.serverIp, l);
            && (x in base ==> x in t && t[x] == base[x])
            && (x in t && x !in base ==> l == 1 && t[x] == Dev(plan.interface))
  {
    var x := NetOf(plan.serverIp, l);
    var ran := ReplayedSoFar(s, platform, plan, refused, k);
    DefaultRevertShape(platform, plan);
    if HostRoute(plan.serverIp) in s.table {
      PinStands(s, platform, plan, base, ran);
    }
    if x in base {
      RevertMatchesApply(platform, plan);
      assert !RemovedBy(RevertList(platform, plan), x, base[x]);
    } else if x in s.table {
      DefaultApplyAdds(platform, plan, x, s.table[x]);
    }
  }

  /**
   * Once the pin's delete is run, the server's own traffic goes into its tunnel exactly when the half that
   * holds the server was stranded and no route of the baseline of length 2 or more takes it elsewhere.
   */
  lemma ServerFallsIntoTunnelExactlyWhen(s: Sys, platform: Platform, plan: RoutePlan, base: Table,
                                         refused: seq<bool>, k: nat)
    requires plan.mode.Default? && |refused| == |RevertList(platform, plan)| && HalfDeletes(plan) < k <= |refused|
    requires Ours(s.table, base, platform, plan) && FreeOf(base, plan)
    requires forall x :: x in base ==> x in s.table && s.table[x] == base[x]
    requires !refused[HalfDeletes(plan)]
    ensures Lookup(RoutesAfter(s, platform, plan, refused, k), plan.serverIp) == Some(Dev(plan.interface)) <==>
            && LookupWithin(base, plan.serverIp, Width(plan.serverIp.family), 2).None?
            && exists j :: 0 <= j < HalfDeletes(plan) && HalfStranded(s, platform, plan, refused, j)
                           && RevertList(platform, plan)[j] == Del(NetOf(plan.serverIp, 1), Dev(plan.interface))
  {
    var t, a, tun := RoutesAfter(s, platform, plan, refused, k), plan.serverIp, Dev(plan.interface);
    forall l | 0 <= l <= Width(a.family)
      ensures var x := NetOf(a, l);
              (x in base ==> x in t && t[x] == base[x]) && (x in t && x !in base ==> l == 1 && t[x] == tun)
    {
      ServerSees(s, platform, plan, base, refused, k, l);
    }
    LookupWithinAgrees(t, base, a, Width(a.family), 2);
    LookupWithinSplits(t, a, Width(a.family), 2);
    NeverThrough(base, plan, a, Width(a.family), 2);
    HalfStays(s, platform, plan, base, refused, k);
  }

  lemma {:induction false} NeverThrough(base: Table, plan: RoutePlan, a: IpAddr, len: nat, floor: nat)
    requires FreeOf(base, plan) && floor <= len <= Width(a.family)
    ensures LookupWithin(base, a, len, floor) != Some(Dev(plan.interface))
  {
    if NetOf(a, len) !in base && len > floor {
      NeverThrough(base, plan, a, len - 1, floor);
    }
  }

  /** The half that holds the server is there after such a replay exactly when it was stranded. */
  lemma HalfStays(s: Sys, platform: Platform, plan: RoutePlan, base: Table, refused: seq<bool>, k: nat)
    requires plan.mode.Default? && |refused| == |RevertList(platform, plan)| && HalfDeletes(plan) < k <= |refused|
    requires Ours(s.table, base, platform, plan) && FreeOf(base, plan)
    requires forall x :: x in base ==> x in s.table && s.table[x] == base[x]
    ensures var t, x := RoutesAfter(s, platform, plan, refused, k), NetOf(plan.serverIp, 1);
            x in t && t[x] == Dev(plan.interface) <==>
            exists j :: 0 <= j < HalfDeletes(plan) && HalfStranded(s, platform, plan, refused, j)
                        && RevertList(platform, plan)[j] == Del(x, Dev(plan.interface))
  {
    var t, x, tun := RoutesAfter(s, platform, plan, refused, k), NetOf(plan.serverIp, 1), Dev(plan.interface);
    var cmds, n := RevertList(platform, plan), HalfDeletes(plan);
    var ran := ReplayedSoFar(s, platform, plan, refused, k);
    DefaultRevertShape(platform, plan);
    hide RevertList, RoutesAfter, Ours, FreeOf;
    if j :| 0 <= j < n && HalfStranded(s, platform, plan, refused, j) && cmds[j] == Del(x, tun) {
      assert !RemovedBy(ran, x, tun);
    }
    if x in t && t[x] == tun {
      var j := ThroughInterface(s, platform, plan, base, x);
      assert HalfStranded(s, platform, plan, refused, j);
    }
  }

  predicate Distinct<T(==)>(s: seq<T>) {
    forall i, j :: 0 <= i < j < |s| ==> s[i] != s[j]
  }

  lemma NeedingHostRoutesAre(cidrs: seq<IpNet>, dns: seq<IpAddr>)
    ensures forall d :: d in NeedingHostRoutes(cidrs, dns) <==> d in dns && !Covered(cidrs, d)
    ensures Distinct(dns) ==> Distinct(NeedingHostRoutes(cidrs, dns))
  {
    if dns != [] {
      NeedingHostRoutesAre(cidrs, dns[1..]);
    }
  }

  /**
   * Test mode never names one destination twice when the listed networks and the resolvers are each
   * without repeats: a resolver that a prefix covers gets no host route of its own.
   */
  lemma TestDestinationsDoNotCollide(plan: RoutePlan)
    requires plan.mode.Test?
    requires Distinct(Networks(plan.mode.cidrs))
    requires Distinct(plan.dnsServers)
    ensures Distinct(TestDestinations(plan))
  {
    var cidrs := plan.mode.cidrs;
    var nets := Networks(cidrs);
    var hosts := NeedingHostRoutes(cidrs, plan.dnsServers);
    NeedingHostRoutesAre(cidrs, plan.dnsServers);
    if plan.mode.captureDns {
      forall i, j | 0 <= i < j < |HostRoutes(hosts)|
        ensures HostRoutes(hosts)[i] != HostRoutes(hosts)[j]
      {
        HostRouteIsInjective(hosts[i], hosts[j]);
      }
      forall i, j | 0 <= i < |nets| && 0 <= j < |hosts|
        ensures nets[i] != HostRoute(hosts[j])
      {
        assert cidrs[i] in cidrs && hosts[j] in hosts;
        assert !Contains(Network(cidrs[i]), hosts[j]);
      }
    }
  }

  /** What test mode routes: the listed networks, and with DNS capture the resolvers none of them holds. */
  lemma TestDestinationsAre(plan: RoutePlan, x: Prefix)
    requires plan.mode.Test?
    ensures x in TestDestinations(plan) <==>
              || (exists c :: c in plan.mode.cidrs && x == Network(c))
              || (plan.mode.captureDns &&
                  exists d :: d in plan.dnsServers && !Covered(plan.mode.cidrs, d) && x == HostRoute(d))
  {
    var cidrs, dns := plan.mode.cidrs, plan.dnsServers;
    var hosts := NeedingHostRoutes(cidrs, dns);
    NeedingHostRoutesAre(cidrs, dns);
    NetworksAre(cidrs, x);
    HostRoutesAre(hosts, x);
    hide NetOf, Covered;
  }

  lemma NetworksAre(cidrs: seq<IpNet>, x: Prefix)
    ensures x in Networks(cidrs) <==> exists c :: c in cidrs && x == Network(c)
  {
    if c :| c in cidrs && x == Network(c) {
      var i :| 0 <= i < |cidrs| && cidrs[i] == c;
      assert Networks(cidrs)[i] == x;
    }
    if x in Networks(cidrs) {
      var i :| 0 <= i < |cidrs| && Networks(cidrs)[i] == x;
      assert cidrs[i] in cidrs;
    }
  }

  lemma HostRoutesAre(dns: seq<IpAddr>, x: Prefix)
    ensures x in HostRoutes(dns) <==> exists d :: d in dns && x == HostRoute(d)
  {
    if d :| d in dns && x == HostRoute(d) {
      var i :| 0 <= i < |dns| && dns[i] == d;
      assert HostRoutes(dns)[i] == x;
    }
    if x in HostRoutes(dns) {
      var i :| 0 <= i < |dns| && HostRoutes(dns)[i] == x;
      assert dns[i] in dns;
    }
  }

  /** With DNS capture, every resolver is inside some route test mode installs. */
  lemma CapturedResolversAreRouted(plan: RoutePlan, d: IpAddr)
    requires plan.mode.Test? && plan.mode.captureDns
    requires d in plan.dnsServers
    ensures exists x :: x in TestDestinations(plan) && Contains(x, d)
  {
    var cidrs := plan.mode.cidrs;
    var hosts := NeedingHostRoutes(cidrs, plan.dnsServers);
    NeedingHostRoutesAre(cidrs, plan.dnsServers);
    if Covered(cidrs, d) {
      var i :| 0 <= i < |cidrs| && Contains(Network(cidrs[i]), d);
      assert Networks(cidrs)[i] in TestDestinations(plan);
    } else {
      var i :| 0 <= i < |hosts| && hosts[i] == d;
      assert HostRoutes(hosts)[i] in TestDestinations(plan);
    }
  }

  /** A test-mode apply gets through exactly when its destinations are new to the table and named once. */
  lemma TestApplyCompletesExactlyWhen(s: Sys, platform: Platform, plan: RoutePlan)
    requires plan.mode.Test?
    ensures Completes(s, platform, plan) <==>
            Distinct(TestDestinations(plan)) && forall x :: x in TestDestinations(plan) ==> x !in s.table
  {
    var dests := TestDestinations(plan);
    TestApplyReachesExactlyWhen(s, ApplyList(platform, plan), dests, Dev(plan.interface), |dests|);
    assert dests[..|dests|] == dests;
  }

  lemma {:induction false} TestApplyReachesExactlyWhen(s: Sys, apply: seq<RouteCommand>, dests: seq<Prefix>, tun: NextHop, k: nat)
    requires apply == AddAll(dests, tun)
    requires k <= |dests|
    ensures Reaches(s, apply, k) <==> Distinct(dests[..k]) && forall x :: x in dests[..k] ==> x !in s.table
  {
    if k > 0 {
      hide AddAll, Succeeds, RunFirst, Distinct;
      TestApplyReachesExactlyWhen(s, apply, dests, tun, k - 1);
      assert dests[..k] == dests[..k - 1] + [dests[k - 1]];
      DistinctAppend(dests[..k - 1], dests[k - 1]);
      if Reaches(s, apply, k - 1) {
        TestApplyStep(s, apply, dests, tun, k - 1);
      }
    }
  }

  lemma DistinctAppend<T>(s: seq<T>, x: T)
    ensures Distinct(s + [x]) <==> Distinct(s) && x !in s
  {
    var t := s + [x];
    assert forall i :: 0 <= i < |s| ==> t[i] == s[i];
    if x in s {
      var i :| 0 <= i < |s| && s[i] == x;
      assert t[i] == t[|s|];
    }
  }

  lemma TestApplyStep(s: Sys, apply: seq<RouteCommand>, dests: seq<Prefix>, tun: NextHop, k: nat)
    requires apply == AddAll(dests, tun)
    requires k < |dests| && Reaches(s, apply, k)
    ensures Succeeds(RunFirst(s, apply, k), apply[k]) <==> dests[k] !in s.table && dests[k] !in dests[..k]
  {
    AppliedTable(s, apply, k);
    NextAddSucceedsExactlyWhen(s.table, RunFirst(s, apply, k), apply[..k], dests[..k], tun, dests[k]);
  }

  lemma NextAddSucceedsExactlyWhen(t0: Table, s: Sys, done: seq<RouteCommand>, dests: seq<Prefix>, tun: NextHop, x: Prefix)
    requires done == AddAll(dests, tun)
    requires Grown(t0, s.table, done)
    ensures Succeeds(s, Add(x, tun)) <==> x !in t0 && x !in dests
  {
    if x in dests {
      var i :| 0 <= i < |dests| && dests[i] == x;
      assert done[i] == Add(x, tun);
    }
  }

  /** A destination holds `a` more closely than any route already there. */
  ghost predicate Captured(t: Table, dests: seq<Prefix>, a: IpAddr) {
    exists x :: x in dests && Contains(x, a) && forall y :: y in t && Contains(y, a) ==> y.len < x.len
  }

  /** What an apply needs of the machine it starts on: no destination taken, none named twice, and a resolver file to keep. */
  ghost predicate Startable(base: Baseline, platform: Platform, plan: RoutePlan) {
    match plan.mode
    case Test(_, _) =>
      Distinct(TestDestinations(plan)) && forall x :: x in TestDestinations(plan) ==> x !in base.table
    case Default =>
      && HostRoute(plan.serverIp) !in base.table
      && (forall x :: x in V4Halves() + V6Halves(plan) ==> x !in base.table)
      && (platform.Linux? ==> base.resolv.Some?)
  }

  /** An apply none of whose commands is turned down gets through exactly when the machine is ready for it. */
  lemma ApplyCompletesExactlyWhen(s: Sys, platform: Platform, plan: RoutePlan)
    ensures Completes(s, platform, plan) <==> Startable(Baseline(s.table, s.resolv), platform, plan)
  {
    if plan.mode.Test? {
      TestApplyCompletesExactlyWhen(s, platform, plan);
    } else {
      var halves := V4Halves() + V6Halves(plan);
      var apply, n := ApplyList(platform, plan), |halves|;
      DefaultApplyShape(platform, plan, n);
      hide ApplyList, HostRoute, NoDeletes, Succeeds, RunFirst;
      ApplyHasNoDeletes(platform, plan);
      DefaultDestinationsDiffer(platform, plan);
      AddsReachExactlyWhen(s, apply, n + 1);
      AddsKeepFiles(s, apply, n + 1);
      DestinationsFree(apply, halves, HostRoute(plan.serverIp), s.table);
      DnsReachesExactlyWhen(s, platform, plan, n);
    }
  }

  lemma DestinationsFree(cmds: seq<RouteCommand>, halves: seq<Prefix>, pin: Prefix, t: Table)
    requires |cmds| > |halves|
    requires cmds[0].Add? && cmds[0].dest == pin
    requires forall i :: 0 < i <= |halves| ==> cmds[i].Add? && cmds[i].dest == halves[i - 1]
    ensures (forall i :: 0 <= i < |halves| + 1 ==> cmds[i].Add? && cmds[i].dest !in t) <==>
            pin !in t && forall x :: x in halves ==> x !in t
  {
    if forall i :: 0 <= i < |halves| + 1 ==> cmds[i].Add? && cmds[i].dest !in t {
      forall x | x in halves
        ensures x !in t
      {
        var i :| 0 <= i < |halves| && halves[i] == x;
        assert cmds[i + 1].dest == x;
      }
    }
  }

  lemma DefaultDestinationsDiffer(platform: Platform, plan: RoutePlan)
    requires plan.mode.Default?
    ensures var n := |V4Halves() + V6Halves(plan)|;
            forall i, j :: 0 <= i < j < n + 1 ==> ApplyList(platform, plan)[i].dest != ApplyList(platform, plan)[j].dest
  {
    var halves := V4Halves() + V6Halves(plan);
    DefaultApplyShape(platform, plan, |halves|);
    assert HostRoute(plan.serverIp).len > 1;
    assert forall i, j :: 0 <= i < j < |halves| ==> halves[i] != halves[j];
    assert forall i :: 0 <= i < |halves| ==> halves[i].len == 1;
  }

  lemma {:induction false} AddsReachExactlyWhen(s: Sys, cmds: seq<RouteCommand>, k: nat)
    requires k <= |cmds| && NoDeletes(cmds)
    requires forall i :: 0 <= i < k ==> cmds[i].Add?
    requires forall i, j :: 0 <= i < j < k ==> cmds[i].dest != cmds[j].dest
    ensures Reaches(s, cmds, k) <==> forall i :: 0 <= i < k ==> cmds[i].Add? && cmds[i].dest !in s.table
  {
    if k > 0 {
      AddsReachExactlyWhen(s, cmds, k - 1);
      if Reaches(s, cmds, k - 1) {
        NewDestination(s, cmds, k - 1);
        hide NoDeletes, RunFirst;
      }
    }
  }

  /** Adds to other destinations leave one as free as it was. */
  lemma NewDestination(s: Sys, cmds: seq<RouteCommand>, k: nat)
    requires k < |cmds| && NoDeletes(cmds) && Reaches(s, cmds, k)
    requires forall i :: 0 <= i <= k ==> cmds[i].Add?
    requires forall i :: 0 <= i < k ==> cmds[i].dest != cmds[k].dest
    ensures cmds[k].dest in RunFirst(s, cmds, k).table <==> cmds[k].dest in s.table
  {
    AppliedTable(s, cmds, k);
    hide Reaches, RunFirst, NoDeletes;
    assert forall c :: c in cmds[..k] ==> c.Add? && c.dest != cmds[k].dest;
  }

  /** Of the resolver steps, only the copy of the file can fail, for want of one. */
  lemma DnsReachesExactlyWhen(s: Sys, platform: Platform, plan: RoutePlan, n: nat)
    requires plan.mode.Default? && n == |V4Halves() + V6Halves(plan)|
    requires RunFirst(s, ApplyList(platform, plan), n + 1).resolv == s.resolv
    ensures Completes(s, platform, plan) <==>
            Reaches(s, ApplyList(platform, plan), n + 1) && (platform.Linux? ==> s.resolv.Some?)
  {
    var apply := ApplyList(platform, plan);
    DefaultApplyShape(platform, plan, n);
    assert apply[n + 1] == apply[n + 1..][0] == DnsApply(platform, plan)[0];
    if platform.Linux? {
      assert apply[n + 2] == apply[n + 1..][1] == DnsApply(platform, plan)[1];
      assert |apply| == n + 3;
      assert Reaches(s, apply, n + 3) <==> Reaches(s, apply, n + 2);
    }
  }

  /** `t` is `t0` and a route to `tun` for each of `dests`, none of which `t0` had. */
  ghost predicate Extended(t0: Table, t: Table, dests: seq<Prefix>, tun: NextHop) {
    && (forall x :: x in t0 ==> x in t && t[x] == t0[x])
    && (forall x :: x in dests ==> x !in t0 && x in t && t[x] == tun)
    && (forall x :: x in t && x !in t0 ==> x in dests)
  }

  lemma CapturedGoToTheInterface(t0: Table, t: Table, dests: seq<Prefix>, tun: NextHop, a: IpAddr)
    requires Extended(t0, t, dests, tun)
    requires Captured(t0, dests, a)
    ensures Lookup(t, a) == Some(tun)
  {
    var x :| x in dests && Contains(x, a) && forall y :: y in t0 && Contains(y, a) ==> y.len < x.len;
    LookupWithinFinds(t, a, Width(a.family));
    var q :| LongestMatch(t, a, q) && Lookup(t, a) == Some(t[q]);
    assert q.len >= x.len;
  }

  lemma OthersGoWhereTheyWent(t0: Table, t: Table, dests: seq<Prefix>, tun: NextHop, a: IpAddr)
    requires Extended(t0, t, dests, tun)
    requires !Captured(t0, dests, a)
    ensures Lookup(t, a) == Lookup(t0, a)
  {
    LookupWithinFinds(t, a, Width(a.family));
    if Lookup(t, a).Some? {
      var q :| LongestMatch(t, a, q) && Lookup(t, a) == Some(t[q]);
      assert q in t0;
      assert LongestMatch(t0, a, q);
      LookupIsLongestMatch(t0, a, t[q]);
    } else {
      LookupIsLongestMatch(t0, a, tun);
    }
  }

  /** After a completed test-mode apply the interface gets the captured addresses, and every other goes where it went. */
  lemma TestModeCaptures(s: Sys, platform: Platform, plan: RoutePlan, a: IpAddr)
    requires plan.mode.Test?
    requires Completes(s, platform, plan)
    ensures Lookup(FullyApplied(s, platform, plan), a) ==
            if Captured(s.table, TestDestinations(plan), a) then Some(Dev(plan.interface)) else Lookup(s.table, a)
  {
    var t, dests, tun := FullyApplied(s, platform, plan), TestDestinations(plan), Dev(plan.interface);
    FullyAppliedTable(s, platform, plan);
    GrownIsExtended(s.table, t, dests, tun);
    if Captured(s.table, dests, a) {
      CapturedGoToTheInterface(s.table, t, dests, tun, a);
    } else {
      OthersGoWhereTheyWent(s.table, t, dests, tun, a);
    }
  }

  lemma GrownIsExtended(t0: Table, t: Table, dests: seq<Prefix>, tun: NextHop)
    requires Grown(t0, t, AddAll(dests, tun))
    ensures Extended(t0, t, dests, tun)
  {
    var done := AddAll(dests, tun);
    forall x | x in dests
      ensures Add(x, tun) in done
    {
      var i :| 0 <= i < |dests| && dests[i] == x;
      assert done[i] == Add(x, tun);
    }
    assert forall x, h :: Add(x, h) in done ==> x in dests;
  }

  /** Test mode has no pin: its server stays outside the tunnel exactly when no destination captures it. */
  lemma TestModeReachesServerExactlyWhen(s: Sys, platform: Platform, plan: RoutePlan)
    requires plan.mode.Test?
    requires Completes(s, platform, plan)
    requires FreeOf(s.table, plan)
    ensures Lookup(FullyApplied(s, platform, plan), plan.serverIp) != Some(Dev(plan.interface)) <==>
            !Captured(s.table, TestDestinations(plan), plan.serverIp)
  {
    TestModeCaptures(s, platform, plan, plan.serverIp);
    LookupIsLongestMatch(s.table, plan.serverIp, Dev(plan.interface));
  }

  /** A completed test-mode apply followed by its revert is the identity on the machine. */
  lemma TestModeUndoesItself(s: Sys, platform: Platform, plan: RoutePlan)
    requires plan.mode.Test?
    requires Completes(s, platform, plan)
    ensures RunAll(RunFirst(s, ApplyList(platform, plan), |ApplyList(platform, plan)|), RevertList(platform, plan)) == s
  {
    var apply, revert := ApplyList(platform, plan), RevertList(platform, plan);
    var s' := RunFirst(s, apply, |apply|);
    var dests, tun := TestDestinations(plan), Dev(plan.interface);
    FullyAppliedTable(s, platform, plan);
    GrownIsExtended(s.table, s'.table, dests, tun);
    TestApplyOnlyAdds(s, platform, plan, |apply|);
    RevertListIsUndo(platform, plan);
    ReplayIsAFilter(s', revert);
    DelAllUndoes(s.table, s'.table, dests, tun);
  }

  lemma DelAllUndoes(t0: Table, t: Table, dests: seq<Prefix>, tun: NextHop)
    requires Extended(t0, t, dests, tun)
    ensures Without(t, DelAll(dests, tun)) == t0
  {
    var revert := DelAll(dests, tun);
    forall x, h
      ensures RemovedBy(revert, x, h) <==> x in dests && h == tun
    {
      if x in dests && h == tun {
        var i :| 0 <= i < |dests| && dests[i] == x;
        assert revert[i] == Del(x, h);
      }
    }
    assert Without(t, revert).Keys == t0.Keys;
  }

  lemma {:induction false} TestApplyOnlyAdds(s: Sys, platform: Platform, plan: RoutePlan, k: nat)
    requires plan.mode.Test?
    requires k <= |ApplyList(platform, plan)|
    ensures RunFirst(s, ApplyList(platform, plan), k) == s.(table := RunFirst(s, ApplyList(platform, plan), k).table)
  {
    if k > 0 {
      TestApplyOnlyAdds(s, platform, plan, k - 1);
    }
  }
}
