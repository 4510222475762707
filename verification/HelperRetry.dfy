/**
 * The daemon recovers only when it starts. A start that fails halfway leaves its record, and the next
 * start in the same daemon overwrites it unreplayed. This is what any number of starts leaves behind.
 */
module HelperRetry {
  import opened Net
  import opened RouteCommands
  import opened RouteSystem
  import opened RouteProperties

  /** A start: one that failed after `reached` of its commands, or one that came up and was later dropped cleanly. */
  datatype Attempt = Failed(plan: RoutePlan, reached: nat) | Worked(plan: RoutePlan)

  /** The attempt is one the machine allowed: it got exactly as far as it says, on an interface of its own. */
  ghost predicate Genuine(s: Sys, platform: Platform, a: Attempt) {
    && (forall x :: x in s.table ==> s.table[x] != Dev(a.plan.interface))
    && match a
       case Failed(plan, k) => k < |ApplyList(platform, plan)| && Reaches(s, ApplyList(platform, plan), k)
       case Worked(plan) => Completes(s, platform, plan)
  }

  /** The machine after an attempt, its interface gone. */
  function AfterAttempt(s: Sys, platform: Platform, a: Attempt): Sys {
    var apply := ApplyList(platform, a.plan);
    match a
    case Failed(plan, k) => InterfaceGone(RunFirst(s, apply, if k <= |apply| then k else 0), plan.interface)
    case Worked(plan) => InterfaceGone(RunAll(RunFirst(s, apply, |apply|), RevertList(platform, plan)), plan.interface)
  }

  function AfterAll(s: Sys, platform: Platform, attempts: seq<Attempt>): Sys {
    if attempts == [] then s
    else AfterAttempt(AfterAll(s, platform, attempts[..|attempts| - 1]), platform, attempts[|attempts| - 1])
  }

  ghost predicate AllGenuine(s: Sys, platform: Platform, attempts: seq<Attempt>) {
    attempts != [] ==>
      var front := attempts[..|attempts| - 1];
      AllGenuine(s, platform, front) && Genuine(AfterAll(s, platform, front), platform, attempts[|attempts| - 1])
  }

  /** An attempt that got past its pin and then failed. */
  predicate Strands(a: Attempt) {
    a.Failed? && a.plan.mode.Default? && a.reached > 0
  }

  /** The pins that failed attempts leave, by destination. */
  function Stranded(attempts: seq<Attempt>): Table {
    if attempts == [] then map[]
    else
      var front, last := Stranded(attempts[..|attempts| - 1]), attempts[|attempts| - 1];
      if Strands(last) then front[HostRoute(last.plan.serverIp) := Via(last.plan.originalGateway)] else front
  }

  // ----- One attempt -----

  /** Every route an apply adds goes through the interface, but for the pin. */
  lemma AppliedHops(platform: Platform, plan: RoutePlan)
    ensures forall x, h :: Add(x, h) in ApplyList(platform, plan) ==>
              h == Dev(plan.interface) || (plan.mode.Default? && Add(x, h) == PinAdd(plan))
  {
  }

  lemma PinComesFirst(platform: Platform, plan: RoutePlan, k: nat)
    requires plan.mode.Default? && k <= |ApplyList(platform, plan)|
    ensures PinAdd(plan) in ApplyList(platform, plan)[..k] <==> k > 0
  {
    DefaultApplyShape(platform, plan, |V4Halves() + V6Halves(plan)|);
    if k > 0 {
      assert ApplyList(platform, plan)[..k][0] == PinAdd(plan);
    }
  }

  /** All that a failed start leaves in the table is its pin, if it got that far; and the pin is new to it. */
  lemma FailedStartStrandsOnlyThePin(s: Sys, platform: Platform, plan: RoutePlan, k: nat)
    requires Genuine(s, platform, Failed(plan, k))
    ensures var pin := HostRoute(plan.serverIp);
            AfterAttempt(s, platform, Failed(plan, k)).table ==
            if plan.mode.Default? && k > 0 then s.table[pin := Via(plan.originalGateway)] else s.table
    ensures plan.mode.Default? && k > 0 ==> HostRoute(plan.serverIp) !in s.table
  {
    var apply := ApplyList(platform, plan);
    var t := RunFirst(s, apply, k).table;
    ApplyHasNoDeletes(platform, plan);
    AppliedTable(s, apply, k);
    AppliedHops(platform, plan);
    if plan.mode.Default? {
      PinComesFirst(platform, plan, k);
    }
    hide ApplyList, Reaches, RunFirst, HostRoute, NoDeletes, Grown;
    var pinned := plan.mode.Default? && k > 0;
    assert forall c :: c in apply[..k] ==> c in apply;
    StrandedTable(s.table, t, apply[..k], HostRoute(plan.serverIp), plan.originalGateway, pinned, plan.interface);
  }

  /** What is left of a grown table once the interface has gone: the one route that does not go through it. */
  lemma StrandedTable(t0: Table, t: Table, done: seq<RouteCommand>, dest: Prefix, gateway: IpAddr, pinned: bool, name: string)
    requires Grown(t0, t, done)
    requires forall x :: x in t0 ==> t0[x] != Dev(name)
    requires forall x, h :: Add(x, h) in done ==> h == Dev(name) || (pinned && x == dest && h == Via(gateway))
    requires pinned ==> Add(dest, Via(gateway)) in done
    ensures (map x | x in t && t[x] != Dev(name) :: t[x]) == if pinned then t0[dest := Via(gateway)] else t0
    ensures pinned ==> dest !in t0
  {
  }

  /** A start that works and is dropped leaves the table as it found it, pins stranded by others included. */
  lemma WorkingStartUndoesItself(s: Sys, platform: Platform, plan: RoutePlan)
    requires Genuine(s, platform, Worked(plan))
    ensures AfterAttempt(s, platform, Worked(plan)).table == s.table
  {
    var apply, revert := ApplyList(platform, plan), RevertList(platform, plan);
    var up := RunFirst(s, apply, |apply|);
    FullyAppliedTable(s, platform, plan);
    RevertListIsUndo(platform, plan);
    ReplayIsAFilter(up, revert);
    RevertMatchesApply(platform, plan);
    RevertRemovesOnly(platform, plan);
    if plan.mode.Default? {
      DefaultApplyAdds(platform, plan, HostRoute(plan.serverIp), Via(plan.originalGateway));
    }
    hide ApplyList, RevertList, Reaches, RunFirst, RunAll, RemovedBy, HostRoute;
    UndoneTable(s.table, up.table, apply, revert);
  }

  lemma UndoneTable(t0: Table, t: Table, apply: seq<RouteCommand>, revert: seq<RouteCommand>)
    requires Grown(t0, t, apply)
    requires forall x, h :: Add(x, h) in apply ==> RemovedBy(revert, x, h)
    requires forall x :: x in t0 ==> !RemovedBy(revert, x, t0[x])
    ensures Without(t, revert) == t0
  {
    hide RemovedBy;
    assert Without(t, revert).Keys == t0.Keys;
  }

  /** The resolver file is the baseline's, and so is any backup. */
  predicate KeptResolver(s: Sys, base: Baseline) {
    s.resolv == base.resolv && (s.backup.None? || s.backup == base.resolv)
  }

  /** Where the files stand after `k` commands of an apply with `n` halves. */
  predicate FilesAt(now: Sys, platform: Platform, plan: RoutePlan, k: nat, base: Baseline) {
    var n := |V4Halves() + V6Halves(plan)|;
    && (now.backup.None? || now.backup == base.resolv)
    && (plan.mode.Test? || platform.MacOs? || k < n + 3 ==> now.resolv == base.resolv)
    && (plan.mode.Default? && platform.Linux? && k >= n + 2 && base.resolv.Some? ==> now.backup == base.resolv)
  }

  lemma FilesNext(now: Sys, platform: Platform, plan: RoutePlan, k: nat, base: Baseline)
    requires k < |ApplyList(platform, plan)| && FilesAt(now, platform, plan, k, base)
    ensures FilesAt(Exec(now, ApplyList(platform, plan)[k]), platform, plan, k + 1, base)
  {
    var apply, n := ApplyList(platform, plan), |V4Halves() + V6Halves(plan)|;
    if plan.mode.Default? {
      DefaultApplyShape(platform, plan, n);
      hide ApplyList, HostRoute;
      if k <= n {
        assert apply[k].Add?;
      } else {
        assert apply[k] == apply[n + 1..][k - n - 1];
      }
    } else {
      assert apply[k].Add?;
    }
  }

  lemma {:induction false} ApplyFiles(s: Sys, platform: Platform, plan: RoutePlan, k: nat, base: Baseline)
    requires k <= |ApplyList(platform, plan)| && KeptResolver(s, base)
    ensures FilesAt(RunFirst(s, ApplyList(platform, plan), k), platform, plan, k, base)
  {
    if k > 0 {
      ApplyFiles(s, platform, plan, k - 1, base);
      FilesNext(RunFirst(s, ApplyList(platform, plan), k - 1), platform, plan, k - 1, base);
    }
  }

  /** A failed start leaves the resolver file as it was, and so does one that worked and was dropped. */
  lemma AttemptKeepsResolver(s: Sys, platform: Platform, a: Attempt, base: Baseline)
    requires Genuine(s, platform, a) && KeptResolver(s, base)
    ensures KeptResolver(AfterAttempt(s, platform, a), base)
  {
    var apply, revert := ApplyList(platform, a.plan), RevertList(platform, a.plan);
    var n := |V4Halves() + V6Halves(a.plan)|;
    if a.plan.mode.Default? {
      DefaultApplyShape(platform, a.plan, n);
      assert |apply| == n + 1 + |DnsApply(platform, a.plan)|;
    }
    if a.Failed? {
      ApplyFiles(s, platform, a.plan, a.reached, base);
    } else {
      ApplyFiles(s, platform, a.plan, |apply|, base);
      RevertListIsUndo(platform, a.plan);
      ReplayIsAFilter(RunFirst(s, apply, |apply|), revert);
      ApplyCompletesExactlyWhen(s, platform, a.plan);
      if a.plan.mode.Default? {
        assert revert[|revert| - 1] == DnsRevert(platform)[0];
      }
    }
  }

  // ----- Any number of attempts -----

  /** After any attempts the table is what it was and, beside it, exactly the stranded pins. */
  lemma {:induction false} AttemptsStrandOnlyPins(s: Sys, platform: Platform, attempts: seq<Attempt>)
    requires AllGenuine(s, platform, attempts)
    ensures AfterAll(s, platform, attempts).table == s.table + Stranded(attempts)
    ensures s.table.Keys !! Stranded(attempts).Keys
  {
    if attempts != [] {
      var n := |attempts| - 1;
      var front, last := attempts[..n], attempts[n];
      var before := AfterAll(s, platform, front);
      AttemptsStrandOnlyPins(s, platform, front);
      if last.Failed? {
        FailedStartStrandsOnlyThePin(before, platform, last.plan, last.reached);
      } else {
        WorkingStartUndoesItself(before, platform, last.plan);
      }
      hide AfterAttempt, Genuine, HostRoute;
      PinAdded(s.table, Stranded(front), HostRoute(last.plan.serverIp), Via(last.plan.originalGateway));
    }
  }

  lemma PinAdded(t: Table, pins: Table, pin: Prefix, hop: NextHop)
    ensures (t + pins)[pin := hop] == t + pins[pin := hop]
    ensures t.Keys !! pins.Keys && pin !in t ==> t.Keys !! pins[pin := hop].Keys
  {
  }

  lemma {:induction false} AttemptsKeepResolver(s: Sys, platform: Platform, attempts: seq<Attempt>, base: Baseline)
    requires AllGenuine(s, platform, attempts) && KeptResolver(s, base)
    ensures KeptResolver(AfterAll(s, platform, attempts), base)
  {
    if attempts != [] {
      var n := |attempts| - 1;
      AttemptsKeepResolver(s, platform, attempts[..n], base);
      AttemptKeepsResolver(AfterAll(s, platform, attempts[..n]), platform, attempts[n], base);
    }
  }

  /** Every stranded pin is some failed attempt's. */
  lemma {:induction false} StrandedHasACause(attempts: seq<Attempt>)
    ensures forall x :: x in Stranded(attempts) ==> exists a :: a in attempts && Strands(a) && HostRoute(a.plan.serverIp) == x
  {
    if attempts != [] {
      var n := |attempts| - 1;
      var front, last := attempts[..n], attempts[n];
      StrandedHasACause(front);
      hide HostRoute;
      assert attempts == front + [last];
      forall x | x in Stranded(attempts)
        ensures exists a :: a in attempts && Strands(a) && HostRoute(a.plan.serverIp) == x
      {
        if x in Stranded(front) {
          var a :| a in front && Strands(a) && HostRoute(a.plan.serverIp) == x;
          assert a in attempts;
        } else {
          assert last in attempts;
        }
      }
    }
  }

  /** The pin of a failed attempt is still there as it left it. */
  predicate PinStands(pins: Table, a: Attempt) {
    HostRoute(a.plan.serverIp) in pins && pins[HostRoute(a.plan.serverIp)] == Via(a.plan.originalGateway)
  }

  predicate AllPinsStand(pins: Table, attempts: seq<Attempt>) {
    forall a :: a in attempts && Strands(a) ==> PinStands(pins, a)
  }

  lemma OnePinMore(front: seq<Attempt>, last: Attempt)
    requires AllPinsStand(Stranded(front), front)
    requires Strands(last) ==> HostRoute(last.plan.serverIp) !in Stranded(front)
    ensures AllPinsStand(Stranded(front + [last]), front + [last])
  {
    hide HostRoute;
    assert (front + [last])[..|front|] == front;
  }

  /** A pin that strands is new to the table, and so to the pins stranded before it. */
  lemma PinIsNew(s: Sys, platform: Platform, attempts: seq<Attempt>)
    requires attempts != [] && AllGenuine(s, platform, attempts)
    ensures var front, last := attempts[..|attempts| - 1], attempts[|attempts| - 1];
            AllGenuine(s, platform, front) && (Strands(last) ==> HostRoute(last.plan.serverIp) !in Stranded(front))
  {
    var front, last := attempts[..|attempts| - 1], attempts[|attempts| - 1];
    hide AfterAttempt, HostRoute, Genuine, Stranded;
    AttemptsStrandOnlyPins(s, platform, front);
    if Strands(last) {
      FailedStartStrandsOnlyThePin(AfterAll(s, platform, front), platform, last.plan, last.reached);
    }
  }

  lemma NoPins()
    ensures AllPinsStand(Stranded([]), [])
  {
  }

  lemma {:induction false} StrandedStands(s: Sys, platform: Platform, attempts: seq<Attempt>)
    requires AllGenuine(s, platform, attempts)
    ensures AllPinsStand(Stranded(attempts), attempts)
  {
    hide *;
    if attempts == [] {
      NoPins();
    } else {
      var n := |attempts| - 1;
      PinIsNew(s, platform, attempts);
      StrandedStands(s, platform, attempts[..n]);
      OnePinMore(attempts[..n], attempts[n]);
      assert attempts == attempts[..n] + [attempts[n]];
    }
  }

  // ----- What a record recovers of them -----

  lemma PinRemovedExactlyWhen(platform: Platform, first: RoutePlan, second: RoutePlan)
    requires first.mode.Default?
    ensures RemovedBy(RevertList(platform, second), HostRoute(first.serverIp), Via(first.originalGateway)) <==>
            second.mode.Default? && PinDel(platform, second) == PinDel(platform, first)
  {
    var revert := RevertList(platform, second);
    if second.mode.Default? {
      var n := |V6Halves(second) + V4Halves()|;
      assert revert[n] == PinDel(platform, second);
      HostRouteIsInjective(first.serverIp, second.serverIp);
    }
  }

  /** The record of `plan` deletes the pin that `a` stranded. */
  predicate Recovers(platform: Platform, plan: RoutePlan, a: Attempt) {
    plan.mode.Default? && PinDel(platform, plan) == PinDel(platform, a.plan)
  }

  /**
   * After any attempts, from any table, a replay of `plan`'s record brings the table to the baseline's if
   * and only if that record deletes every route the machine had beyond the baseline and every stranded pin.
   * The machine need not have started at its baseline: a daemon goes on after a refused recovery.
   */
  lemma RecordRecoversTableExactlyWhen(s: Sys, base: Baseline, platform: Platform, attempts: seq<Attempt>, plan: RoutePlan)
    requires AllGenuine(s, platform, attempts) && FreeOf(base.table, plan)
    requires forall x :: x in base.table ==> x in s.table && s.table[x] == base.table[x]
    ensures var revert := RevertList(platform, plan);
            RunAll(AfterAll(s, platform, attempts), revert).table == base.table <==>
            && (forall x :: x in s.table && x !in base.table ==> RemovedBy(revert, x, s.table[x]))
            && RecoversAll(platform, plan, attempts)
  {
    var after, revert := AfterAll(s, platform, attempts), RevertList(platform, plan);
    AttemptsStrandOnlyPins(s, platform, attempts);
    StrandedStands(s, platform, attempts);
    StrandedHasACause(attempts);
    RevertListIsUndo(platform, plan);
    ReplayIsAFilter(after, revert);
    RevertMatchesApply(platform, plan);
    forall a | a in attempts && Strands(a)
      ensures RemovedBy(revert, HostRoute(a.plan.serverIp), Via(a.plan.originalGateway)) <==> Recovers(platform, plan, a)
    {
      PinRemovedExactlyWhen(platform, a.plan, plan);
    }
    hide AfterAll, AllGenuine, RevertList, RunAll, HostRoute, PinDel, RemovedBy;
    FilteredTable(base.table, s.table, Stranded(attempts), revert);
    StrandedRemoved(platform, attempts, plan, revert, Stranded(attempts));
  }

  /** The record deletes every route of a table. */
  predicate Clears(revert: seq<RouteCommand>, t: Table) {
    forall x :: x in t ==> RemovedBy(revert, x, t[x])
  }

  predicate RecoversAll(platform: Platform, plan: RoutePlan, attempts: seq<Attempt>) {
    forall a :: a in attempts && Strands(a) ==> Recovers(platform, plan, a)
  }

  lemma StrandedRemoved(platform: Platform, attempts: seq<Attempt>, plan: RoutePlan, revert: seq<RouteCommand>, pins: Table)
    requires forall a :: a in attempts && Strands(a) ==> PinStands(pins, a)
    requires forall x :: x in pins ==> exists a :: a in attempts && Strands(a) && HostRoute(a.plan.serverIp) == x
    requires forall a :: a in attempts && Strands(a) ==>
               (RemovedBy(revert, HostRoute(a.plan.serverIp), Via(a.plan.originalGateway)) <==> Recovers(platform, plan, a))
    ensures Clears(revert, pins) <==> RecoversAll(platform, plan, attempts)
  {
    hide RemovedBy, HostRoute, Recovers, Strands;
    if Clears(revert, pins) {
      forall a | a in attempts && Strands(a)
        ensures Recovers(platform, plan, a)
      {
        assert HostRoute(a.plan.serverIp) in pins;
      }
    }
    if RecoversAll(platform, plan, attempts) {
      forall x | x in pins
        ensures RemovedBy(revert, x, pins[x])
      {
        var a :| a in attempts && Strands(a) && HostRoute(a.plan.serverIp) == x;
        assert Recovers(platform, plan, a);
      }
    }
  }

  lemma FilteredTable(base: Table, t: Table, extra: Table, revert: seq<RouteCommand>)
    requires forall x :: x in base ==> x in t && t[x] == base[x] && !RemovedBy(revert, x, base[x])
    requires t.Keys !! extra.Keys
    ensures Without(t + extra, revert) == base <==>
            && (forall x :: x in t && x !in base ==> RemovedBy(revert, x, t[x]))
            && Clears(revert, extra)
  {
    hide RemovedBy;
    var w := Without(t + extra, revert);
    if w == base {
      forall x | x in t && x !in base
        ensures RemovedBy(revert, x, t[x])
      {
        assert x !in w;
      }
      forall x | x in extra
        ensures RemovedBy(revert, x, extra[x])
      {
        assert x !in w;
      }
    }
    if (forall x :: x in t && x !in base ==> RemovedBy(revert, x, t[x])) && Clears(revert, extra) {
      assert w.Keys == base.Keys;
    }
  }

  /**
   * From the baseline: after any attempts, the record on disk restores routes and resolver file if and only
   * if it deletes every pin that was stranded. It is the record of the newest start, and deletes one pin at most.
   */
  lemma OverwrittenRecordRecoversExactlyWhen(s: Sys, base: Baseline, platform: Platform, attempts: seq<Attempt>, plan: RoutePlan)
    requires AtBase(s, base) && AllGenuine(s, platform, attempts) && FreeOf(base.table, plan)
    ensures AtBase(RunAll(AfterAll(s, platform, attempts), RevertList(platform, plan)), base) <==>
            RecoversAll(platform, plan, attempts)
  {
    var after, revert := AfterAll(s, platform, attempts), RevertList(platform, plan);
    RecordRecoversTableExactlyWhen(s, base, platform, attempts, plan);
    AttemptsKeepResolver(s, platform, attempts, base);
    RevertListIsUndo(platform, plan);
    ReplayIsAFilter(after, revert);
  }

  /** A start that works and is dropped takes its record with it, and leaves every pin stranded before it. */
  lemma SuccessLeavesEarlierPins(s: Sys, base: Baseline, platform: Platform, attempts: seq<Attempt>, plan: RoutePlan)
    requires AtBase(s, base) && AllGenuine(s, platform, attempts + [Worked(plan)])
    ensures AfterAll(s, platform, attempts + [Worked(plan)]).table == base.table + Stranded(attempts)
    ensures AtBase(AfterAll(s, platform, attempts + [Worked(plan)]), base) <==> forall a :: a in attempts ==> !Strands(a)
  {
    var all := attempts + [Worked(plan)];
    assert all[..|attempts|] == attempts;
    AttemptsStrandOnlyPins(s, platform, all);
    AttemptsStrandOnlyPins(s, platform, attempts);
    AttemptsKeepResolver(s, platform, all, base);
    StrandedStands(s, platform, attempts);
    StrandedHasACause(attempts);
    assert Stranded(all) == Stranded(attempts);
    hide AfterAll, AllGenuine, HostRoute;
    if forall a :: a in attempts ==> !Strands(a) {
      assert Stranded(attempts) == map[];
    }
    if AfterAll(s, platform, all).table == base.table {
      assert forall x :: x in Stranded(attempts) ==> x in base.table + Stranded(attempts);
    }
  }

  // ----- A concrete case -----

  function Dotted(a: nat, b: nat, c: nat, d: nat): IpAddr
    requires a < 256 && b < 256 && c < 256 && d < 256
  {
    V4AddressesFit();
    hide Pow2;
    Addr(V4, ((a * 256 + b) * 256 + c) * 256 + d)
  }

  lemma V4AddressesFit()
    ensures Pow2(32) == 0x1_0000_0000
  {
    assert Pow2(8) == 256;
    PowersMultiply(8, 8);
    PowersMultiply(16, 16);
  }

  lemma {:induction false} PowersMultiply(m: nat, n: nat)
    ensures Pow2(m + n) == Pow2(m) * Pow2(n)
  {
    if m > 0 {
      PowersMultiply(m - 1, n);
      assert Pow2(m + n) == 2 * Pow2(m - 1 + n);
    }
  }

  /**
   * Default mode to one server fails after its pin; the next start, in default mode to another server,
   * writes its record over the first. If the daemon is killed there, the first pin is never removed.
   */
  lemma OverwrittenRecordCanLoseAPin()
    ensures var gateway, lan := Dotted(192, 168, 1, 1), NetOf(Dotted(192, 168, 1, 0), 24);
            var first := RoutePlan("tun0", Default, Dotted(203, 0, 113, 7), gateway, [Dotted(9, 9, 9, 9)], false);
            var second := first.(serverIp := Dotted(198, 51, 100, 20));
            var base := Baseline(map[lan := Dev("eth0")], Some(Foreign("nameserver 192.168.1.1")));
            var s := Sys(base.table, base.resolv, None, []);
            var attempts := [Failed(first, 1)];
            && AtBase(s, base) && FreeOf(base.table, first) && FreeOf(base.table, second)
            && AllGenuine(s, Linux, attempts)
            && !AtBase(RunAll(AfterAll(s, Linux, attempts), RevertList(Linux, second)), base)
  {
    var gateway, lan := Dotted(192, 168, 1, 1), NetOf(Dotted(192, 168, 1, 0), 24);
    var first := RoutePlan("tun0", Default, Dotted(203, 0, 113, 7), gateway, [Dotted(9, 9, 9, 9)], false);
    var second := first.(serverIp := Dotted(198, 51, 100, 20));
    var base := Baseline(map[lan := Dev("eth0")], Some(Foreign("nameserver 192.168.1.1")));
    var s := Sys(base.table, base.resolv, None, []);
    var attempts := [Failed(first, 1)];
    LosesAPin(s, base, first, second);
  }

  /** Any two default-mode plans to different servers, the first failing right after its pin. */
  lemma LosesAPin(s: Sys, base: Baseline, first: RoutePlan, second: RoutePlan)
    requires AtBase(s, base) && FreeOf(base.table, first) && FreeOf(base.table, second)
    requires first.mode.Default? && second.mode.Default? && first.serverIp != second.serverIp
    ensures AllGenuine(s, Linux, [Failed(first, 1)])
    ensures !AtBase(RunAll(AfterAll(s, Linux, [Failed(first, 1)]), RevertList(Linux, second)), base)
  {
    var attempts, apply := [Failed(first, 1)], ApplyList(Linux, first);
    DefaultApplyShape(Linux, first, |V4Halves() + V6Halves(first)|);
    assert attempts[..0] == [];
    assert AfterAll(s, Linux, []) == s && AllGenuine(s, Linux, []);
    assert RunFirst(s, apply, 0) == s && Reaches(s, apply, 0) && Succeeds(s, apply[0]);
    assert Reaches(s, apply, 1);
    assert Genuine(s, Linux, attempts[0]);
    OverwrittenRecordRecoversExactlyWhen(s, base, Linux, attempts, second);
    HostRouteIsInjective(first.serverIp, second.serverIp);
    assert attempts[0] in attempts && Strands(attempts[0]) && !Recovers(Linux, second, attempts[0]);
  }

  /** A default-mode retry to a server whose pin is stranded stops at its first command, the pin being there already. */
  lemma RetryToTheSameServerFails(s: Sys, platform: Platform, attempts: seq<Attempt>, second: RoutePlan)
    requires AllGenuine(s, platform, attempts) && HostRoute(second.serverIp) !in s.table
    requires second.mode.Default?
    ensures Reaches(AfterAll(s, platform, attempts), ApplyList(platform, second), 1) <==>
            forall a :: a in attempts && Strands(a) ==> a.plan.serverIp != second.serverIp
  {
    var after, apply := AfterAll(s, platform, attempts), ApplyList(platform, second);
    AttemptsStrandOnlyPins(s, platform, attempts);
    StrandedStands(s, platform, attempts);
    StrandedHasACause(attempts);
    DefaultApplyShape(platform, second, |V4Halves() + V6Halves(second)|);
    assert RunFirst(after, apply, 0) == after;
    assert Reaches(after, apply, 1) <==> Reaches(after, apply, 0) && Succeeds(after, apply[0]);
    assert Reaches(after, apply, 1) <==> HostRoute(second.serverIp) !in Stranded(attempts);
    forall a | a in attempts && Strands(a)
      ensures a.plan.serverIp == second.serverIp <==> HostRoute(a.plan.serverIp) == HostRoute(second.serverIp)
    {
      HostRouteIsInjective(a.plan.serverIp, second.serverIp);
    }
  }
}
