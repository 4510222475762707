/** The helper's use of the same record and guard: a tunnel's start, its drop, and a daemon's life over both. */
module HelperTunnel {
  import opened Net
  import opened RouteCommands
  import opened RouteSystem
  import opened RouteProperties
  import opened RouteSession
  import HelperRetry

  datatype StartResult = DiedStarting | StartFailed | Up(tunnel: Tunnel)

  predicate NoneThrough(t: Table, name: string) {
    forall x :: x in t ==> t[x] != Dev(name)
  }

  /** An apply that stopped at a command turned down, and the interface gone: what is left of those before it. */
  ghost predicate FellShort(was: Sys, now: Sys, platform: Platform, plan: RoutePlan) {
    exists k: nat ::
      && k < |ApplyList(platform, plan)| && Reaches(was, ApplyList(platform, plan), k)
      && now == InterfaceGone(RunFirst(was, ApplyList(platform, plan), k), plan.interface)
  }

  /**
   * What the routes of a start make of the machine `h`, given its fates and with `rest` of them left. It comes up
   * exactly when every command is let through and nothing after them fails. One that fails after them has them undone;
   * one that fails at them is left as `HelperRetry` says.
   */
  ghost predicate InstallMakes(h: Snapshot, fates: seq<Fate>, plan: RoutePlan, late: bool, up: bool, dead: bool,
                               now: Snapshot, rest: seq<Fate>, platform: Platform, base: Baseline)
  {
    var a, n := |ApplyList(platform, plan)|, |RevertList(platform, plan)|;
    && Spent(fates, rest, dead)
    && now.record == h.record && now.plan == h.plan && now.lost == h.lost && (h.thwarted ==> now.thwarted)
    && (Refused !in fates ==> now.thwarted == h.thwarted)
    && (up <==> GoesUp(h.sys, fates, platform, plan) && !late)
    && (GoesUp(h.sys, fates, platform, plan) ==> a <= |fates|)
    && (up ==> !dead && rest == fates[a..] && now.thwarted == h.thwarted)
    && (GoesUp(h.sys, fates, platform, plan) && late ==>
          && (dead <==> !Survives(fates[a..], n))
          && (dead || Astray(now) || AtBase(now.sys, base))
          && (Undisturbed(fates[a..], n) ==> now.thwarted == h.thwarted && rest == fates[a..][n..]))
    && (!up && !dead ==> NoneThrough(now.sys.table, plan.interface))
    && (!GoesUp(h.sys, fates, platform, plan) && !dead && DeviceLost !in fates ==> FellShort(h.sys, now.sys, platform, plan))
  }

  /**
   * What a start makes of the machine: its record first, and nothing if that fails; then the routes. Its record
   * stays on disk whatever comes of them.
   */
  ghost predicate StartMakes(h: Snapshot, fates: seq<Fate>, plan: RoutePlan, pid: nat, late: bool, up: bool, dead: bool,
                             now: Snapshot, rest: seq<Fate>, platform: Platform, base: Baseline)
  {
    if PlanRejected(plan) then
      !up && !dead && rest == fates && now == h.(sys := InterfaceGone(h.sys, plan.interface))
    else if !SaveWorks(fates) then
      && !up && Spent(fates, rest, dead) && now.thwarted == h.thwarted
      && (now.record == h.record || now.record.Corrupt?)
      && (h.lost ==> now.lost) && (now.lost ==> h.lost || !AtBase(h.sys, base))
      && NoneThrough(now.sys.table, plan.interface)
    else
      var mid := AfterSave(h, fates, plan.interface, pid, plan, platform, base);
      InstallMakes(mid, Rest(Rest(fates)), plan, late, up, dead, now, rest, platform, base)
  }

  /** A start on a machine ready for it, which nothing disturbs: up; or, failing late, at the baseline with its record kept. */
  ghost predicate Ready(h: Snapshot, fates: seq<Fate>, plan: RoutePlan, late: bool, platform: Platform, base: Baseline) {
    && !Astray(h) && AtBase(h.sys, base) && !PlanRejected(plan) && Startable(base, platform, plan)
    && Undisturbed(fates, StartEffects(platform, plan, late))
  }

  function StartEffects(platform: Platform, plan: RoutePlan, late: bool): nat {
    2 + |ApplyList(platform, plan)| + (if late then |RevertList(platform, plan)| else 0)
  }

  lemma ReadyStarts(h: Snapshot, fates: seq<Fate>, plan: RoutePlan, pid: nat, late: bool, up: bool, dead: bool,
                    now: Snapshot, rest: seq<Fate>, platform: Platform, base: Baseline)
    requires Ready(h, fates, plan, late, platform, base) && NotOfBase(plan.interface, base)
    requires StartMakes(h, fates, plan, pid, late, up, dead, now, rest, platform, base)
    ensures up == !late && !dead && !Astray(now)
    ensures now.record == Saved(plan.interface, RevertList(platform, plan), pid) && now.plan == plan
    ensures late ==> AtBase(now.sys, base)
    ensures |fates| >= StartEffects(platform, plan, late) && rest == fates[StartEffects(platform, plan, late)..]
  {
    hide ApplyList, RevertList, GoesUp, Spent, FellShort, NoneThrough, Startable, InstallMakes;
    var later := Rest(Rest(fates));
    var mid := AfterSave(h, fates, plan.interface, pid, plan, platform, base);
    StartStages(fates, plan, late, platform);
    ReadySaves(h, fates, plan, late, platform, base);
    assert mid.sys == h.sys && !Astray(mid);
    hide Undisturbed, Survives, AtBase, Ready, AfterSave, Struck;
    ReadyInstalls(mid, later, plan, late, up, dead, now, rest, platform, base);
  }

  lemma ReadyInstalls(h: Snapshot, fates: seq<Fate>, plan: RoutePlan, late: bool, up: bool, dead: bool,
                      now: Snapshot, rest: seq<Fate>, platform: Platform, base: Baseline)
    requires InstallMakes(h, fates, plan, late, up, dead, now, rest, platform, base)
    requires GoesUp(h.sys, fates, platform, plan) && !Astray(h) && |ApplyList(platform, plan)| <= |fates|
    requires late ==> Undisturbed(fates[|ApplyList(platform, plan)|..], |RevertList(platform, plan)|)
    ensures up == !late && !dead && !Astray(now) && now.record == h.record && now.plan == h.plan
    ensures late ==> AtBase(now.sys, base)
    ensures rest == if late then fates[|ApplyList(platform, plan)|..][|RevertList(platform, plan)|..]
                    else fates[|ApplyList(platform, plan)|..]
  {
    assert late ==> Survives(fates[|ApplyList(platform, plan)|..], |RevertList(platform, plan)|);
    hide ApplyList, RevertList, GoesUp, Spent, FellShort, NoneThrough, AtBase, Undisturbed, Survives;
  }

  lemma StartStages(fates: seq<Fate>, plan: RoutePlan, late: bool, platform: Platform)
    requires Undisturbed(fates, StartEffects(platform, plan, late))
    ensures var a, n, later := |ApplyList(platform, plan)|, |RevertList(platform, plan)|, Rest(Rest(fates));
            && a <= |later| && (late ==> Undisturbed(later[a..], n))
            && |fates| >= StartEffects(platform, plan, late)
            && fates[StartEffects(platform, plan, late)..] == if late then later[a..][n..] else later[a..]
  {
    hide ApplyList, RevertList;
    assert Rest(Rest(fates)) == fates[2..];
  }

  class Tunnel {
    const host: Host
    const plan: RoutePlan
    var guard: Option<RouteGuard>

    constructor (host: Host, plan: RoutePlan, guard: RouteGuard)
      ensures this.host == host && this.plan == plan && this.guard == Some(guard)
    {
      this.host, this.plan, this.guard := host, plan, Some(guard);
    }

    /** Its guard is armed, and the record on disk is the one that undoes it. */
    ghost predicate Holding()
      reads this, host, if guard.Some? then {guard.value} else {}
    {
      && host.Valid()
      && guard.Some? && guard.value.active && guard.value.host == host && guard.value.plan == plan
      && host.record.Saved? && host.plan == plan
    }

    /**
     * `Tunnel::start`, once its interface is up: the record, then the routes. A later step that fails drops the
     * guard. Nothing is asked of the machine: a start away from the baseline lets go of whatever record
     * there was, and the history says so. `top` is the moment at which all of the routes were in.
     */
    static method Start(host: Host, plan: RoutePlan, pid: nat, lateFailure: bool) returns (r: StartResult, ghost top: nat)
      requires host.Valid() && FreeOf(host.base.table, plan)
      modifies host
      ensures host.Valid() && old(host.history) <= host.history && old(host.moves) <= host.moves
      ensures r.Up? ==> fresh(r.tunnel) && r.tunnel.host == host && r.tunnel.plan == plan
      ensures r.Up? ==> r.tunnel.Holding() && fresh(r.tunnel.guard.value)
      ensures StartMakes(old(host.Now()), old(host.fates), plan, pid, lateFailure, r.Up?, r.DiedStarting?,
                         host.Now(), host.fates, host.platform, host.base)
      ensures Ready(old(host.Now()), old(host.fates), plan, lateFailure, host.platform, host.base) ==>
                |old(host.history)| <= top < |host.history| && FullyUp(host.history[top], host.platform, plan, host.base)
    {
      hide Safe, AtBase, InterfaceGone, RevertList, ApplyList, IsHistory, RecordFits, FullyUp, Startable, Undisturbed;
      hide FreeOf, NotOfBase, RunSome, Refusals, PlanRejected, GotTo, Spent, SaveWorks, InstallMakes, StartMakes, IsTold;
      hide NoneThrough, AfterSave, Ready, Struck, GoesUp, Works, Astray;
      PlanIsNotOfBase(plan, host.base);
      ghost var h, fates := host.Now(), host.fates;
      top := 0;
      if Ready(h, fates, plan, lateFailure, host.platform, host.base) {
        ReadySaves(h, fates, plan, lateFailure, host.platform, host.base);
      }
      var revert := RevertCommands(host.platform, plan);
      if revert.FullDefaultPrefix? {
        host.LoseInterface(plan.interface);
        StartRejected(h, fates, plan, pid, lateFailure, host.platform, host.base);
        return StartFailed, top;
      }
      var o := host.Save(plan.interface, pid, revert.list, plan);
      ghost var mid := host.Now();
      if o != Ran(true) {
        host.LoseInterface(plan.interface);
        StartNotSaved(h, fates, plan, pid, lateFailure, o.Dead?, mid, host.fates, host.platform, host.base);
        return if o.Dead? then DiedStarting else StartFailed, top;
      }
      r, top := Install(host, plan, lateFailure);
      StartInstalled(h, fates, plan, pid, lateFailure, r.Up?, r.DiedStarting?, host.Now(), host.fates,
                     host.platform, host.base);
    }

    /** The routes, and the steps after them. */
    static method Install(host: Host, plan: RoutePlan, lateFailure: bool) returns (r: StartResult, ghost top: nat)
      requires host.Valid() && FreeOf(host.base.table, plan)
      requires host.record.Saved? && host.plan == plan
      requires Astray(host.Now()) || AtBase(host.sys, host.base)
      modifies host
      ensures host.Valid() && old(host.history) <= host.history && old(host.moves) <= host.moves
      ensures r.Up? ==> fresh(r.tunnel) && r.tunnel.host == host && r.tunnel.plan == plan
      ensures r.Up? ==> r.tunnel.Holding() && fresh(r.tunnel.guard.value)
      ensures InstallMakes(old(host.Now()), old(host.fates), plan, lateFailure, r.Up?, r.DiedStarting?,
                           host.Now(), host.fates, host.platform, host.base)
      ensures GoesUp(old(host.sys), old(host.fates), host.platform, plan)
              && (DeviceLost !in old(host.fates) || Undisturbed(old(host.fates), |ApplyList(host.platform, plan)|)) ==>
                |old(host.history)| - 1 <= top < |host.history| && FullyUp(host.history[top], host.platform, plan, host.base)
    {
      hide Safe, AtBase, InterfaceGone, RevertList, ApplyList, IsHistory, RecordFits, FullyUp, Startable, Undisturbed;
      hide FreeOf, NotOfBase, RunSome, Refusals, PlanRejected, GotTo, Spent, InstallMakes, IsTold, GoesUp, Survives;
      hide Astray, FellShort, NoneThrough;
      PlanIsNotOfBase(plan, host.base);
      ghost var h, fates := host.Now(), host.fates;
      top := 0;
      var applied := RouteGuard.Apply(host, plan);
      ghost var mid, later := host.Now(), host.fates;
      match applied
      case DiedApplying =>
        InstallDied(h, fates, plan, lateFailure, mid, later, host.platform, host.base);
        return DiedStarting, top;
      case ApplyFailed =>
        host.LoseInterface(plan.interface);
        InstallFailed(h, fates, plan, lateFailure, mid, later, host.platform, host.base);
        return StartFailed, top;
      case Guarded(guard) =>
        LastIsNow(host);
        top := |host.history| - 1;
        OnwardSys(h, mid, false);
        if DeviceLost !in fates || Undisturbed(fates, |ApplyList(host.platform, plan)|) {
          GuardedMeansFullyUp(mid, h.sys, |ApplyList(host.platform, plan)|, host.platform, plan, host.base);
        }
        if lateFailure {
          var o := guard.RevertNow();
          ghost var undone := host.Now();
          host.LoseInterface(plan.interface);
          InstallUndone(h, fates, plan, mid, later, o.Dead?, undone, host.fates, host.platform, host.base);
          return if o.Dead? then DiedStarting else StartFailed, top;
        }
        InstallUp(h, fates, plan, mid, later, host.platform, host.base);
        var tunnel := new Tunnel(host, plan, guard);
        return Up(tunnel), top;
    }

    /** The drop: the routes first, then the stack and its interface, then the record. */
    method Drop() returns (o: RouteSession.Outcome)
      requires Holding() && FreeOf(host.base.table, plan)
      modifies this, host, guard.value
      ensures host.Valid() && old(host.history) <= host.history && old(host.moves) <= host.moves
      ensures guard.None?
      ensures DropMakes(old(host.Now()), old(host.fates), plan, o.Dead?, host.Now(), host.fates, host.platform, host.base)
    {
      hide Safe, AtBase, InterfaceGone, RevertList, ApplyList, IsHistory, Undisturbed, FreeOf, NotOfBase, RunSome;
      hide Refusals, PlanRejected, Spent, Survives, Works, Onward, DropMakes, Astray, IsTold, NoneThrough, Struck;
      PlanIsNotOfBase(plan, host.base);
      ghost var h, fates := host.Now(), host.fates;
      var g := guard.value;
      guard := None;
      o := g.RevertNow();
      ghost var undone, mid := host.Now(), host.fates;
      UndoneOnward(h, undone, Refused in fates);
      host.LoseInterface(plan.interface);
      if o.Dead? {
        DropDied(h, fates, undone, mid, plan, host.platform, host.base);
        return;
      }
      ghost var gone := host.Now();
      GoneKeepsBase(undone, plan, host.base);
      o := host.Clear(plan.interface);
      LetGoOnward(gone, host.Now(), host.base);
      DropCleared(h, fates, undone, mid, plan, o.Dead?, host.Now(), host.fates, host.platform, host.base);
    }
  }

  lemma GoneKeepsBase(h: Snapshot, plan: RoutePlan, base: Baseline)
    requires NotOfBase(plan.interface, base)
    ensures var gone := h.(sys := InterfaceGone(h.sys, plan.interface));
            && NoneThrough(gone.sys.table, plan.interface)
            && (Astray(gone) <==> Astray(h)) && (AtBase(h.sys, base) ==> AtBase(gone.sys, base))
  {
    if AtBase(h.sys, base) {
      BaselineKeepsItsRoutes(h.sys, plan.interface, base);
    }
  }

  // ----- The parts of an install -----

  lemma StartRejected(h: Snapshot, fates: seq<Fate>, plan: RoutePlan, pid: nat, late: bool, platform: Platform, base: Baseline)
    requires PlanRejected(plan)
    ensures StartMakes(h, fates, plan, pid, late, false, false, h.(sys := InterfaceGone(h.sys, plan.interface)), fates,
                       platform, base)
  {
  }

  lemma StartNotSaved(h: Snapshot, fates: seq<Fate>, plan: RoutePlan, pid: nat, late: bool, dead: bool,
                      mid: Snapshot, rest: seq<Fate>, platform: Platform, base: Baseline)
    requires !PlanRejected(plan) && !SaveWorks(fates) && Spent(fates, rest, dead) && mid.thwarted == h.thwarted
    requires mid.record == h.record || mid.record.Corrupt?
    requires (h.lost ==> mid.lost) && (mid.lost ==> h.lost || !AtBase(h.sys, base))
    ensures StartMakes(h, fates, plan, pid, late, false, dead, mid.(sys := InterfaceGone(mid.sys, plan.interface)), rest,
                       platform, base)
  {
    hide PlanRejected, Spent, SaveWorks, AtBase;
  }

  lemma StartInstalled(h: Snapshot, fates: seq<Fate>, plan: RoutePlan, pid: nat, late: bool, up: bool, dead: bool,
                       now: Snapshot, rest: seq<Fate>, platform: Platform, base: Baseline)
    requires !PlanRejected(plan) && SaveWorks(fates)
    requires InstallMakes(AfterSave(h, fates, plan.interface, pid, plan, platform, base), Rest(Rest(fates)), plan, late,
                          up, dead, now, rest, platform, base)
    ensures StartMakes(h, fates, plan, pid, late, up, dead, now, rest, platform, base)
  {
    hide InstallMakes, AfterSave, SaveWorks;
  }

  lemma InstallDied(h: Snapshot, fates: seq<Fate>, plan: RoutePlan, late: bool, now: Snapshot, rest: seq<Fate>,
                    platform: Platform, base: Baseline)
    requires now == h.(sys := now.sys) && Spent(fates, rest, true) && !GoesUp(h.sys, fates, platform, plan)
    ensures InstallMakes(h, fates, plan, late, false, true, now, rest, platform, base)
  {
  }

  lemma InstallFailed(h: Snapshot, fates: seq<Fate>, plan: RoutePlan, late: bool, mid: Snapshot, rest: seq<Fate>,
                      platform: Platform, base: Baseline)
    requires mid == h.(sys := mid.sys) && Spent(fates, rest, false) && !GoesUp(h.sys, fates, platform, plan)
    requires DeviceLost !in fates ==>
               exists k: nat :: GotTo(h.sys, mid.sys, ApplyList(platform, plan), k) && k != |ApplyList(platform, plan)|
    ensures InstallMakes(h, fates, plan, late, false, false, mid.(sys := InterfaceGone(mid.sys, plan.interface)), rest,
                         platform, base)
  {
    hide ApplyList, RevertList, GoesUp, Spent, Reaches, RunFirst;
  }

  lemma InstallUndone(h: Snapshot, fates: seq<Fate>, plan: RoutePlan, mid: Snapshot, later: seq<Fate>, dead: bool,
                      undone: Snapshot, rest: seq<Fate>, platform: Platform, base: Baseline)
    requires mid == h.(sys := mid.sys) && GoesUp(h.sys, fates, platform, plan) && NotOfBase(plan.interface, base)
    requires |ApplyList(platform, plan)| <= |fates| && later == fates[|ApplyList(platform, plan)|..]
    requires Spent(fates, later, false) && Spent(later, rest, dead)
    requires dead <==> !Survives(later, |RevertList(platform, plan)|)
    requires dead || Astray(undone) || AtBase(undone.sys, base)
    requires undone.record == mid.record && undone.plan == mid.plan && undone.lost == mid.lost
    requires (mid.thwarted ==> undone.thwarted) && (Refused !in later ==> undone.thwarted == mid.thwarted)
    requires Undisturbed(later, |RevertList(platform, plan)|) ==>
               undone.thwarted == mid.thwarted && rest == later[|RevertList(platform, plan)|..]
    ensures InstallMakes(h, fates, plan, true, false, dead, undone.(sys := InterfaceGone(undone.sys, plan.interface)), rest,
                         platform, base)
  {
    GoneKeepsBase(undone, plan, base);
    SpentThen(fates, later, rest, dead);
    SpentAreOld(fates, later, false);
    hide ApplyList, RevertList, GoesUp, Spent, InterfaceGone, AtBase, NoneThrough;
  }

  lemma InstallUp(h: Snapshot, fates: seq<Fate>, plan: RoutePlan, now: Snapshot, rest: seq<Fate>,
                  platform: Platform, base: Baseline)
    requires now == h.(sys := now.sys) && GoesUp(h.sys, fates, platform, plan) && Spent(fates, rest, false)
    requires |ApplyList(platform, plan)| <= |fates| && rest == fates[|ApplyList(platform, plan)|..]
    ensures InstallMakes(h, fates, plan, false, true, false, now, rest, platform, base)
  {
  }

  lemma ReadySaves(h: Snapshot, fates: seq<Fate>, plan: RoutePlan, late: bool, platform: Platform, base: Baseline)
    requires Ready(h, fates, plan, late, platform, base) && NotOfBase(plan.interface, base)
    ensures !PlanRejected(plan) && SaveWorks(fates) && Undisturbed(Rest(Rest(fates)), |ApplyList(platform, plan)|)
    ensures forall pid :: AfterSave(h, fates, plan.interface, pid, plan, platform, base).sys == h.sys
    ensures GoesUp(h.sys, Rest(Rest(fates)), platform, plan)
  {
    var later := Rest(Rest(fates));
    assert later == fates[2..] && Undisturbed(later, |ApplyList(platform, plan)|);
    BaselineGoesUp(h.sys, later, platform, plan, base);
  }

  /** A start that fell short is an attempt as `HelperRetry` has them: all of the table it changed is its own pin. */
  lemma FellShortStrandsOnlyThePin(s: Sys, now: Sys, platform: Platform, plan: RoutePlan)
    requires FellShort(s, now, platform, plan) && NoneThrough(s.table, plan.interface)
    ensures exists k: nat ::
              && HelperRetry.Genuine(s, platform, HelperRetry.Failed(plan, k))
              && now == HelperRetry.AfterAttempt(s, platform, HelperRetry.Failed(plan, k))
    ensures now.table == s.table || (plan.mode.Default? && HostRoute(plan.serverIp) !in s.table
                                     && now.table == s.table[HostRoute(plan.serverIp) := Via(plan.originalGateway)])
  {
    var k: nat :|
      && k < |ApplyList(platform, plan)| && Reaches(s, ApplyList(platform, plan), k)
      && now == InterfaceGone(RunFirst(s, ApplyList(platform, plan), k), plan.interface);
    hide ApplyList, Reaches, RunFirst, InterfaceGone, HostRoute;
    assert HelperRetry.Genuine(s, platform, HelperRetry.Failed(plan, k));
    HelperRetry.FailedStartStrandsOnlyThePin(s, platform, plan, k);
  }

  // ----- The parts of a drop -----

  /**
   * What a drop makes of the machine: the routes undone and the interface gone, and then the record. Only being
   * killed cuts it short.
   */
  ghost predicate DropMakes(h: Snapshot, fates: seq<Fate>, plan: RoutePlan, dead: bool, now: Snapshot, rest: seq<Fate>,
                            platform: Platform, base: Baseline)
  {
    var n := |RevertList(platform, plan)|;
    && Spent(fates, rest, dead) && Onward(h, now, Refused in fates)
    && (dead <==> !Survives(fates, n + 1))
    && (!dead ==>
          && (Astray(now) || AtBase(now.sys, base)) && NoneThrough(now.sys.table, plan.interface)
          && now.record == if Works(fates[n]) then Absent else h.record)
    && (dead ==> now.record == h.record)
    && (Undisturbed(fates, n + 1) ==> now.thwarted == h.thwarted && rest == fates[n + 1..])
  }

  lemma DropDied(h: Snapshot, fates: seq<Fate>, undone: Snapshot, rest: seq<Fate>, plan: RoutePlan,
                 platform: Platform, base: Baseline)
    requires Onward(h, undone, Refused in fates) && Spent(fates, rest, true) && undone.record == h.record
    requires !Survives(fates, |RevertList(platform, plan)|)
    ensures DropMakes(h, fates, plan, true, undone.(sys := InterfaceGone(undone.sys, plan.interface)), rest, platform, base)
  {
    hide RevertList, Spent;
  }

  lemma DropCleared(h: Snapshot, fates: seq<Fate>, undone: Snapshot, mid: seq<Fate>, plan: RoutePlan, dead: bool,
                    now: Snapshot, rest: seq<Fate>, platform: Platform, base: Baseline)
    requires var n := |RevertList(platform, plan)|;
             Survives(fates, n) && mid == fates[n..] && (Undisturbed(fates, n) ==> undone.thwarted == h.thwarted)
    requires Onward(h, undone, Refused in fates) && undone.record == h.record && Spent(fates, mid, false)
    requires var gone := undone.(sys := InterfaceGone(undone.sys, plan.interface));
             && (Astray(gone) || AtBase(gone.sys, base)) && NoneThrough(gone.sys.table, plan.interface)
             && Onward(gone, now, false) && (AtBase(gone.sys, base) ==> now.sys == gone.sys)
             && now.sys == Struck(gone.sys, First(mid), plan.interface)
             && now.record == (if Works(First(mid)) then Absent else gone.record)
    requires rest == Rest(mid) && (dead <==> First(mid).Killed?)
    ensures DropMakes(h, fates, plan, dead, now, rest, platform, base)
  {
    var n := |RevertList(platform, plan)|;
    OneMore(fates, n);
    hide RevertList, Spent, AtBase, Survives, Undisturbed, Works, NoneThrough, Astray, InterfaceGone;
    SpentOne(mid);
    SpentThen(fates, mid, rest, dead);
    var gone := undone.(sys := InterfaceGone(undone.sys, plan.interface));
    OnwardSys(undone, gone, false);
    OnwardThen(h, undone, gone, Refused in fates, false, Refused in fates);
    OnwardThen(h, gone, now, Refused in fates, false, Refused in fates);
    StruckStaysClear(gone.sys, First(mid), plan.interface);
    StillAtBase(gone, now, base);
  }

  lemma OneMore(fates: seq<Fate>, n: nat)
    requires Survives(fates, n)
    ensures Survives(fates, n + 1) <==> !First(fates[n..]).Killed?
    ensures !First(fates[n..]).Killed? ==> n < |fates| && First(fates[n..]) == fates[n]
    ensures Undisturbed(fates, n + 1) ==> Undisturbed(fates, n) && n < |fates| && Rest(fates[n..]) == fates[n + 1..]
  {
  }

  lemma StruckStaysClear(s: Sys, f: Fate, name: string)
    requires NoneThrough(s.table, name)
    ensures NoneThrough(Struck(s, f, name).table, name)
  {
  }

  lemma StillAtBase(gone: Snapshot, now: Snapshot, base: Baseline)
    requires Onward(gone, now, false) && (Astray(gone) || AtBase(gone.sys, base))
    requires AtBase(gone.sys, base) ==> now.sys == gone.sys
    ensures Astray(now) || AtBase(now.sys, base)
  {
  }

  // ----- A daemon -----

  datatype ConnectRequest = ConnectRequest(plan: RoutePlan, lateFailure: bool)

  datatype DaemonExit = Died | CleanExit

  /** What a connect and its disconnect make of the machine. It is the end of the daemon only if it is killed. */
  ghost predicate RequestMakes(h: Snapshot, fates: seq<Fate>, r: ConnectRequest, pid: nat, exit: DaemonExit,
                               now: Snapshot, rest: seq<Fate>, platform: Platform, base: Baseline)
  {
    && Spent(fates, rest, exit.Died?)
    && (now.record == h.record || (now.record.Saved? ==> now.record.pid == pid))
    && (!Astray(h) && AtBase(h.sys, base) && Accepted(r, platform, base) && Undisturbed(fates, RequestEffects(platform, r)) ==>
          && exit.CleanExit? && !Astray(now) && AtBase(now.sys, base)
          && (now.record.Absent? <==> !r.lateFailure)
          && RequestEffects(platform, r) <= |fates| && rest == fates[RequestEffects(platform, r)..])
  }

  /** A request the code takes and the machine has room for. */
  ghost predicate Accepted(r: ConnectRequest, platform: Platform, base: Baseline) {
    !PlanRejected(r.plan) && Startable(base, platform, r.plan)
  }

  /** How many effects a request has that nothing disturbs. */
  function RequestEffects(platform: Platform, r: ConnectRequest): nat {
    2 + |ApplyList(platform, r.plan)| + |RevertList(platform, r.plan)| + (if r.lateFailure then 0 else 1)
  }

  lemma RequestStages(fates: seq<Fate>, r: ConnectRequest, platform: Platform)
    requires Undisturbed(fates, RequestEffects(platform, r))
    ensures var m, n := StartEffects(platform, r.plan, r.lateFailure), |RevertList(platform, r.plan)|;
            && m <= |fates| && Undisturbed(fates, m)
            && (if r.lateFailure then m == RequestEffects(platform, r)
                else
                  && Undisturbed(fates[m..], n + 1) && Works(fates[m..][n]) && Survives(fates[m..], n + 1)
                  && fates[m..][n + 1..] == fates[RequestEffects(platform, r)..])
  {
    hide ApplyList, RevertList;
  }

  lemma RequestIsReady(h: Snapshot, fates: seq<Fate>, r: ConnectRequest, platform: Platform, base: Baseline)
    requires !Astray(h) && AtBase(h.sys, base) && Accepted(r, platform, base)
    requires Undisturbed(fates, RequestEffects(platform, r))
    ensures Ready(h, fates, r.plan, r.lateFailure, platform, base)
  {
    RequestStages(fates, r, platform);
  }

  /** A start that did not come up. */
  lemma RequestFailed(h: Snapshot, fates: seq<Fate>, r: ConnectRequest, pid: nat, dead: bool, now: Snapshot, rest: seq<Fate>,
                      platform: Platform, base: Baseline)
    requires StartMakes(h, fates, r.plan, pid, r.lateFailure, false, dead, now, rest, platform, base)
    requires NotOfBase(r.plan.interface, base)
    ensures RequestMakes(h, fates, r, pid, if dead then Died else CleanExit, now, rest, platform, base)
  {
    SpentOne(fates);
    StartSpends(h, fates, r.plan, pid, r.lateFailure, false, dead, now, rest, platform, base);
    if !Astray(h) && AtBase(h.sys, base) && Accepted(r, platform, base) && Undisturbed(fates, RequestEffects(platform, r)) {
      RequestIsReady(h, fates, r, platform, base);
      ReadyStarts(h, fates, r.plan, pid, r.lateFailure, false, dead, now, rest, platform, base);
      RequestStages(fates, r, platform);
    }
    hide StartMakes, Spent, ApplyList, RevertList, AtBase;
  }

  /** One that did, and its drop. */
  lemma RequestServed(h: Snapshot, fates: seq<Fate>, r: ConnectRequest, pid: nat, up: Snapshot, mid: seq<Fate>,
                      dead: bool, now: Snapshot, rest: seq<Fate>, platform: Platform, base: Baseline)
    requires StartMakes(h, fates, r.plan, pid, r.lateFailure, true, false, up, mid, platform, base)
    requires DropMakes(up, mid, r.plan, dead, now, rest, platform, base) && NotOfBase(r.plan.interface, base)
    ensures RequestMakes(h, fates, r, pid, if dead then Died else CleanExit, now, rest, platform, base)
  {
    hide StartMakes, Spent, ApplyList, RevertList, AtBase, Accepted, Ready, NoneThrough, Works, Survives;
    StartSpends(h, fates, r.plan, pid, r.lateFailure, true, false, up, mid, platform, base);
    DropSpends(up, mid, r.plan, dead, now, rest, platform, base);
    SpentThen(fates, mid, rest, dead);
    if !Astray(h) && AtBase(h.sys, base) && Accepted(r, platform, base) && Undisturbed(fates, RequestEffects(platform, r)) {
      RequestIsReady(h, fates, r, platform, base);
      ReadyStarts(h, fates, r.plan, pid, r.lateFailure, true, false, up, mid, platform, base);
      RequestStages(fates, r, platform);
      hide Undisturbed, RequestEffects, StartEffects;
    }
  }

  lemma DropSpends(h: Snapshot, fates: seq<Fate>, plan: RoutePlan, dead: bool, now: Snapshot, rest: seq<Fate>,
                   platform: Platform, base: Baseline)
    requires DropMakes(h, fates, plan, dead, now, rest, platform, base)
    ensures Spent(fates, rest, dead)
    ensures now.record == h.record || now.record.Absent?
  {
    hide Spent, RevertList, AtBase, NoneThrough;
  }

  lemma StartSpends(h: Snapshot, fates: seq<Fate>, plan: RoutePlan, pid: nat, late: bool, up: bool, dead: bool,
                    now: Snapshot, rest: seq<Fate>, platform: Platform, base: Baseline)
    requires StartMakes(h, fates, plan, pid, late, up, dead, now, rest, platform, base)
    ensures Spent(fates, rest, dead)
    ensures up ==> !late
    ensures now.record == h.record || (now.record.Saved? ==> now.record.pid == pid)
  {
    SpentOne(fates);
    SpentTwo(fates);
    if !PlanRejected(plan) && SaveWorks(fates) {
      SpentThen(fates, Rest(Rest(fates)), rest, dead);
    }
    hide Spent, RevertList, ApplyList, GoesUp, FellShort, NoneThrough, AtBase;
  }

  /** One connect and its disconnect. A start that fails is the client's to hear of; the daemon goes on. */
  method ServeRequest(host: Host, pid: nat, r: ConnectRequest) returns (exit: DaemonExit)
    requires host.Valid() && FreeOf(host.base.table, r.plan)
    modifies host
    ensures host.Valid() && old(host.history) <= host.history && old(host.moves) <= host.moves
    ensures RequestMakes(old(host.Now()), old(host.fates), r, pid, exit, host.Now(), host.fates, host.platform, host.base)
    ensures Ready(old(host.Now()), old(host.fates), r.plan, r.lateFailure, host.platform, host.base) ==>
              CameUp(host.history, host.platform, r.plan, host.base)
  {
    hide Safe, AtBase, InterfaceGone, RevertList, ApplyList, IsHistory, RecordFits, FullyUp, Startable, Undisturbed;
    hide FreeOf, NotOfBase, PlanRejected, Spent, StartMakes, DropMakes, RequestMakes, Ready, IsTold, Astray, Onward, CameUp;
    PlanIsNotOfBase(r.plan, host.base);
    ghost var h, fates := host.Now(), host.fates;
    var result;
    ghost var top;
    result, top := Tunnel.Start(host, r.plan, pid, r.lateFailure);
    ghost var up, mid, history := host.Now(), host.fates, host.history;
    var dead := result.DiedStarting?;
    if result.Up? {
      var o := result.tunnel.Drop();
      dead := o.Dead?;
      RequestServed(h, fates, r, pid, up, mid, dead, host.Now(), host.fates, host.platform, host.base);
    } else {
      RequestFailed(h, fates, r, pid, dead, up, mid, host.platform, host.base);
    }
    if Ready(h, fates, r.plan, r.lateFailure, host.platform, host.base) {
      assert host.history[top] == history[top];
      CameUpWhen(host.history, top, host.platform, r.plan, host.base);
    }
    exit := if dead then Died else CleanExit;
  }

  lemma CameUpWhen(history: seq<Snapshot>, i: nat, platform: Platform, plan: RoutePlan, base: Baseline)
    requires i < |history| && FullyUp(history[i], platform, plan, base)
    ensures CameUp(history, platform, plan, base)
  {
    hide FullyUp;
  }

  /** Fates that leave each of some requests alone, one after another. */
  predicate Steady(fates: seq<Fate>, platform: Platform, requests: seq<ConnectRequest>)
    decreases |requests|
  {
    requests != [] ==>
      var n := RequestEffects(platform, requests[0]);
      Undisturbed(fates, n) && Steady(fates[n..], platform, requests[1..])
  }

  predicate SteadyAfter(fates: seq<Fate>, n: nat, platform: Platform, requests: seq<ConnectRequest>) {
    n <= |fates| && Steady(fates[n..], platform, requests)
  }

  /** A machine at its baseline, requests it has room for, and nothing that disturbs them. */
  ghost predicate AllSmooth(h: Snapshot, fates: seq<Fate>, requests: seq<ConnectRequest>, platform: Platform, base: Baseline) {
    && !Astray(h) && AtBase(h.sys, base)
    && (forall r :: r in requests ==> Accepted(r, platform, base))
    && Steady(fates, platform, requests)
  }

  ghost predicate AllCameUp(history: seq<Snapshot>, requests: seq<ConnectRequest>, platform: Platform, base: Baseline) {
    forall r :: r in requests ==> CameUp(history, platform, r.plan, base)
  }

  /**
   * What requests one after another make of the machine. Nothing but being killed ends the daemon; with nothing in
   * their way they all come up, those that then fail late included, and only the last's record can be left.
   */
  ghost predicate RequestsMake(h: Snapshot, fates: seq<Fate>, requests: seq<ConnectRequest>, pid: nat, exit: DaemonExit,
                               now: Snapshot, rest: seq<Fate>, history: seq<Snapshot>, platform: Platform, base: Baseline)
  {
    && Spent(fates, rest, exit.Died?)
    && (now.record == h.record || (now.record.Saved? ==> now.record.pid == pid))
    && (AllSmooth(h, fates, requests, platform, base) ==>
          && exit.CleanExit? && !Astray(now) && AtBase(now.sys, base) && AllCameUp(history, requests, platform, base)
          && (now.record.Absent? <==>
                if requests == [] then h.record.Absent? else !requests[|requests| - 1].lateFailure))
  }

  lemma NothingAsked(h: Snapshot, fates: seq<Fate>, pid: nat, history: seq<Snapshot>, platform: Platform, base: Baseline)
    ensures RequestsMake(h, fates, [], pid, CleanExit, h, fates, history, platform, base)
  {
    SpentOne(fates);
  }

  lemma FirstAsked(h: Snapshot, fates: seq<Fate>, requests: seq<ConnectRequest>, platform: Platform, base: Baseline)
    requires requests != [] && AllSmooth(h, fates, requests, platform, base)
    ensures Ready(h, fates, requests[0].plan, requests[0].lateFailure, platform, base)
    ensures Accepted(requests[0], platform, base) && Undisturbed(fates, RequestEffects(platform, requests[0]))
  {
    hide AtBase, Accepted, RequestEffects, Undisturbed;
    assert requests[0] in requests;
    RequestIsReady(h, fates, requests[0], platform, base);
  }

  /** The daemon killed at its first request. */
  lemma FirstKilled(h: Snapshot, fates: seq<Fate>, requests: seq<ConnectRequest>, pid: nat, now: Snapshot, rest: seq<Fate>,
                    history: seq<Snapshot>, platform: Platform, base: Baseline)
    requires requests != [] && RequestMakes(h, fates, requests[0], pid, Died, now, rest, platform, base)
    ensures RequestsMake(h, fates, requests, pid, Died, now, rest, history, platform, base)
  {
    if AllSmooth(h, fates, requests, platform, base) {
      FirstAsked(h, fates, requests, platform, base);
    }
    hide AllSmooth, Spent, Accepted, AtBase, Undisturbed, RequestEffects;
  }

  lemma OneRequestMore(h: Snapshot, fates: seq<Fate>, requests: seq<ConnectRequest>, pid: nat, mid: Snapshot,
                       midFates: seq<Fate>, exit: DaemonExit, now: Snapshot, rest: seq<Fate>, history: seq<Snapshot>,
                       platform: Platform, base: Baseline)
    requires requests != [] && RequestMakes(h, fates, requests[0], pid, CleanExit, mid, midFates, platform, base)
    requires Ready(h, fates, requests[0].plan, requests[0].lateFailure, platform, base) ==>
               CameUp(history, platform, requests[0].plan, base)
    requires RequestsMake(mid, midFates, requests[1..], pid, exit, now, rest, history, platform, base)
    ensures RequestsMake(h, fates, requests, pid, exit, now, rest, history, platform, base)
  {
    SpentThen(fates, midFates, rest, exit.Died?);
    hide Spent, Accepted, AtBase, Undisturbed, RequestEffects, CameUp, Ready;
    if AllSmooth(h, fates, requests, platform, base) {
      FirstAsked(h, fates, requests, platform, base);
      assert forall r :: r in requests <==> r == requests[0] || r in requests[1..];
      assert requests[1..] != [] ==> requests[1..][|requests| - 2] == requests[|requests| - 1];
    }
  }

  /** The requests of a daemon's clients, in turn. */
  method ServeRequests(host: Host, pid: nat, requests: seq<ConnectRequest>) returns (exit: DaemonExit)
    requires host.Valid()
    requires forall r :: r in requests ==> FreeOf(host.base.table, r.plan)
    modifies host
    ensures host.Valid() && old(host.history) <= host.history && old(host.moves) <= host.moves
    ensures RequestsMake(old(host.Now()), old(host.fates), requests, pid, exit, host.Now(), host.fates, host.history,
                         host.platform, host.base)
    ensures requests == [] ==> host.history == old(host.history)
    decreases |requests|
  {
    hide FreeOf, IsTold, Spent, AllSmooth, RequestMakes, RequestsMake, Ready, CameUp;
    ghost var h, fates := host.Now(), host.fates;
    if requests == [] {
      NothingAsked(h, fates, pid, host.history, host.platform, host.base);
      return CleanExit;
    }
    exit := ServeRequest(host, pid, requests[0]);
    ghost var mid, midFates, history := host.Now(), host.fates, host.history;
    if exit.Died? {
      FirstKilled(h, fates, requests, pid, mid, midFates, history, host.platform, host.base);
      return;
    }
    exit := ServeRequests(host, pid, requests[1..]);
    CameUpStill(history, host.history, host.platform, requests[0].plan, host.base);
    OneRequestMore(h, fates, requests, pid, mid, midFates, exit, host.Now(), host.fates, host.history,
                   host.platform, host.base);
  }

  /** Nothing keeps a daemon's recovery from its end: no live owner, no unreadable record, and no fate in its way. */
  ghost predicate Recoverable(h: Snapshot, fates: seq<Fate>, alive: bool) {
    && !Astray(h) && !h.record.Corrupt? && (h.record.Saved? ==> !alive)
    && Undisturbed(fates, RecoveryEffects(h.record))
  }

  /**
   * A daemon from its recovery to its exit: it goes on whatever recovery said, and after every start that
   * failed. Unless some record was let go of away from the baseline, or an undo command that mattered
   * turned down, the machine was safe at every moment. `ready` is the moment it begins to serve.
   */
  method DaemonLife(host: Host, pid: nat, name: string, alive: bool, requests: seq<ConnectRequest>)
    returns (exit: DaemonExit, ghost ready: nat)
    requires host.Valid() && NotOfBase(name, host.base)
    requires host.record.Saved? ==> host.record.pid != pid
    requires forall r :: r in requests ==> FreeOf(host.base.table, r.plan)
    modifies host
    ensures host.Valid() && old(host.history) <= host.history && old(host.moves) <= host.moves
    ensures !Astray(host.Now()) ==> forall h :: h in host.history ==> Safe(h, host.platform, host.base)
    ensures host.record == old(host.record) || (host.record.Saved? ==> host.record.pid == pid)
    ensures Spent(old(host.fates), host.fates, exit.Died?)
    // Before it serves anybody, a stale record is replayed and gone, and the baseline back.
    ensures |old(host.history)| - 1 <= ready < |host.history| && (requests == [] ==> ready == |host.history| - 1)
    ensures Recoverable(old(host.Now()), old(host.fates), alive) ==> Tidy(host.history[ready], host.base)
    // With nothing in the way of the requests either, every tunnel comes up and the machine ends as it was.
    ensures Recoverable(old(host.Now()), old(host.fates), alive)
            && (forall r :: r in requests ==> Accepted(r, host.platform, host.base))
            && SteadyAfter(old(host.fates), RecoveryEffects(old(host.record)), host.platform, requests) ==>
              && exit.CleanExit? && !Astray(host.Now()) && AtBase(host.sys, host.base)
              && AllCameUp(host.history, requests, host.platform, host.base)
              && (host.record.Absent? <==> requests == [] || !requests[|requests| - 1].lateFailure)
  {
    hide Safe, AtBase, IsHistory, IsTold, FullyUp, Steady, CameUp, RunSome, Refusals, Spent, Onward, FreeOf, NotOfBase;
    hide Undisturbed, Survives, Works, Accepted, RequestsMake, AllCameUp, Recoverable, Tidy;
    ghost var h, fates := host.Now(), host.fates;
    if Recoverable(h, fates, alive) {
      WhenRecoverable(h, fates, alive);
    }
    var recovery := host.RecoverIfStale(name, pid, alive);
    LastIsNow(host);
    ready := |host.history| - 1;
    ghost var mid, midFates, history := host.Now(), host.fates, host.history;
    if Recoverable(h, fates, alive) {
      IsTidy(h, mid, Refused in fates, host.base);
    }
    if recovery.DiedRecovering? {
      exit := Died;
    } else {
      exit := ServeRequests(host, pid, requests);
      DaemonServed(h, fates, alive, mid, midFates, requests, pid, exit, host.Now(), host.fates, host.history,
                   host.platform, host.base);
    }
    assert host.history[ready] == mid;
    SafeThroughout(host);
  }

  lemma WhenRecoverable(h: Snapshot, fates: seq<Fate>, alive: bool)
    requires Recoverable(h, fates, alive)
    ensures !Astray(h) && !h.record.Corrupt? && (h.record.Saved? ==> !alive) && Undisturbed(fates, RecoveryEffects(h.record))
    ensures RecoveryEffects(h.record) <= |fates|
  {
  }

  lemma IsTidy(h: Snapshot, now: Snapshot, refused: bool, base: Baseline)
    requires !Astray(h) && Onward(h, now, refused) && now.thwarted == h.thwarted
    requires now.record.Absent? && (Astray(now) || AtBase(now.sys, base))
    ensures Tidy(now, base)
  {
  }

  lemma DaemonServed(h: Snapshot, fates: seq<Fate>, alive: bool, mid: Snapshot, midFates: seq<Fate>,
                     requests: seq<ConnectRequest>, pid: nat, exit: DaemonExit, now: Snapshot, rest: seq<Fate>,
                     history: seq<Snapshot>, platform: Platform, base: Baseline)
    requires Spent(fates, midFates, false) && (mid.record == h.record || mid.record.Absent?)
    requires RequestsMake(mid, midFates, requests, pid, exit, now, rest, history, platform, base)
    requires Recoverable(h, fates, alive) ==>
               Tidy(mid, base) && RecoveryEffects(h.record) <= |fates| && midFates == fates[RecoveryEffects(h.record)..]
    ensures Spent(fates, rest, exit.Died?)
    ensures now.record == h.record || (now.record.Saved? ==> now.record.pid == pid)
    ensures Recoverable(h, fates, alive) && (forall r :: r in requests ==> Accepted(r, platform, base))
            && Steady(midFates, platform, requests) ==>
              && exit.CleanExit? && !Astray(now) && AtBase(now.sys, base) && AllCameUp(history, requests, platform, base)
              && (now.record.Absent? <==> requests == [] || !requests[|requests| - 1].lateFailure)
  {
    SpentThen(fates, midFates, rest, exit.Died?);
    hide Spent, Accepted, AtBase, Recoverable, AllCameUp, Steady, RecoveryEffects;
  }
}
