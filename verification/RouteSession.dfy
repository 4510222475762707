/** One machine, its crash record, and the command-line runs that share them. Any run may be killed at any effect. */
module RouteSession {
  import opened Net
  import opened RouteCommands
  import opened RouteSystem
  import opened RouteProperties

  /** The record file. A write cut short leaves a file that does not parse. */
  datatype Record = Absent | Corrupt | Saved(interface: string, revert: seq<RouteCommand>, pid: nat)

  /** What befalls the next effect of a process. */
  datatype Fate =
    | Normal
    | Refused     // the operating system turns the effect down
    | DeviceLost  // the interface goes, and its routes with it, just before the effect
    | Killed      // the process dies before the effect

  datatype Outcome = Dead | Ran(ok: bool)

  datatype Recovery = NothingRecorded | OwnRecord | Recovered | StillRunning | Unreadable | DiedRecovering

  datatype Exit = WasKilled | Errored | Stopped

  /** A process's fates run out when it is killed. */
  function First(fates: seq<Fate>): Fate {
    if fates == [] then Killed else fates[0]
  }

  /** The effect goes ahead. */
  predicate Works(f: Fate) {
    f.Normal? || f.DeviceLost?
  }

  function Rest(fates: seq<Fate>): seq<Fate> {
    if fates == [] then [] else fates[1..]
  }

  predicate Undisturbed(fates: seq<Fate>, n: nat) {
    n <= |fates| && forall i :: 0 <= i < n ==> fates[i].Normal?
  }

  /** A process gets through its first `n` effects alive. */
  predicate Survives(fates: seq<Fate>, n: nat) {
    n <= |fates| && forall i :: 0 <= i < n ==> !fates[i].Killed?
  }

  /** From `before` to `now` a process has spent some fates, and lives. */
  predicate Lived(before: seq<Fate>, now: seq<Fate>) {
    && |now| <= |before| && now == before[|before| - |now|..]
    && Survives(before, |before| - |now|)
  }

  /** It was killed by the last fate it spent, or by having none. */
  predicate Perished(before: seq<Fate>, now: seq<Fate>) {
    && |now| <= |before| && now == before[|before| - |now|..]
    && (now != [] ==> |now| < |before| && before[|before| - |now| - 1].Killed?)
  }

  /** What a process that is `dead`, or is not, has done with its fates. */
  predicate Spent(before: seq<Fate>, now: seq<Fate>, dead: bool) {
    if dead then Perished(before, now) else Lived(before, now)
  }

  lemma SpentOne(fates: seq<Fate>)
    ensures Spent(fates, fates, false)
    ensures Spent(fates, Rest(fates), First(fates).Killed?)
  {
  }

  lemma SpentTwo(fates: seq<Fate>)
    ensures Spent(fates, Rest(fates), First(fates).Killed?)
    ensures !First(fates).Killed? ==> Spent(fates, Rest(Rest(fates)), First(Rest(fates)).Killed?)
  {
    SpentOne(fates);
    if !First(fates).Killed? {
      SpentOne(Rest(fates));
      hide Spent;
      SpentThen(fates, Rest(fates), Rest(Rest(fates)), First(Rest(fates)).Killed?);
    }
  }

  lemma SpentNext(fates: seq<Fate>, n: nat)
    requires Survives(fates, n)
    ensures Spent(fates, fates[n..], false)
    ensures Spent(fates, Rest(fates[n..]), First(fates[n..]).Killed?)
  {
  }

  lemma SpentThen(before: seq<Fate>, mid: seq<Fate>, now: seq<Fate>, dead: bool)
    requires Spent(before, mid, false) && Spent(mid, now, dead)
    ensures Spent(before, now, dead)
  {
    var m, n := |before| - |mid|, |mid| - |now|;
    assert now == mid[n..] == before[m..][n..] == before[m + n..];
    assert forall i :: m <= i < m + n ==> before[i] == mid[i - m];
  }

  lemma SpentAreOld(before: seq<Fate>, now: seq<Fate>, dead: bool)
    requires Spent(before, now, dead)
    ensures forall f :: f in now ==> f in before
  {
  }

  function Refusals(fates: seq<Fate>): seq<bool> {
    seq(|fates|, i requires 0 <= i < |fates| => fates[i].Refused?)
  }

  /**
   * The machine at one moment, with the plan whose record is on disk. `thwarted` is whether an undo
   * command with something to undo has been turned down; `lost`, whether a record has been let go of
   * away from the baseline. While neither has happened the machine has a way back.
   */
  datatype Snapshot = Snapshot(sys: Sys, record: Record, plan: RoutePlan, thwarted: bool, lost: bool)

  predicate Astray(h: Snapshot) {
    h.thwarted || h.lost
  }

  /** With no usable record the machine is at its baseline; with one, the record leads back to it. */
  ghost predicate Safe(h: Snapshot, platform: Platform, base: Baseline) {
    match h.record
    case Absent => AtBase(h.sys, base)
    case Corrupt => AtBase(h.sys, base)
    case Saved(_, revert, _) =>
      && revert == RevertList(platform, h.plan)
      && !PlanRejected(h.plan)
      && FreeOf(base.table, h.plan)
      && Undoable(h.sys, revert, base)
      && Ours(h.sys.table, base.table, platform, h.plan)
      && EscapeRoute(h.sys.table, h.plan)
  }

  /** A record on disk is always that of a plan the code accepts and the baseline has room for. */
  ghost predicate RecordFits(h: Snapshot, platform: Platform, base: Baseline) {
    h.record.Saved? ==>
      h.record.revert == RevertList(platform, h.plan) && !PlanRejected(h.plan) && FreeOf(base.table, h.plan)
  }

  // ----- What happens to the machine, one atomic move at a time -----

  datatype Move =
    | Lose(name: string)               // the kernel takes an interface away
    | Perform(command: RouteCommand)   // a command of the recorded plan's
    | TurnDown(command: RouteCommand)  // an undo command of its, with something to undo
    | Empty                            // a record is opened for writing
    | Write(interface: string, plan: RoutePlan, pid: nat)
    | Remove

  /** An undo command would change something that has to be put back. */
  predicate Matters(s: Sys, c: RouteCommand) {
    Exec(s, c).table != s.table || Exec(s, c).resolv != s.resolv
  }

  predicate NotOfBase(name: string, base: Baseline) {
    forall x :: x in base.table ==> base.table[x] != Dev(name)
  }

  /** A record always comes before the commands it undoes. */
  predicate Possible(h: Snapshot, m: Move, platform: Platform, base: Baseline) {
    match m
    case Lose(name) => NotOfBase(name, base)
    case Perform(c) => h.record.Saved? && (c in ApplyList(platform, h.plan) || c in RevertList(platform, h.plan))
    case TurnDown(c) => h.record.Saved? && c in RevertList(platform, h.plan) && Matters(h.sys, c)
    case Empty => true
    case Write(_, p, _) => h.record.Corrupt? && !PlanRejected(p) && FreeOf(base.table, p)
    case Remove => true
  }

  function After(h: Snapshot, m: Move, platform: Platform, base: Baseline): Snapshot {
    match m
    case Lose(name) => h.(sys := InterfaceGone(h.sys, name))
    case Perform(c) => h.(sys := Exec(h.sys, c))
    case TurnDown(_) => h.(thwarted := true)
    case Empty => h.(record := Corrupt, lost := h.lost || !AtBase(h.sys, base))
    case Write(interface, p, pid) => h.(record := Saved(interface, RevertList(platform, p), pid), plan := p)
    case Remove => h.(record := Absent, lost := h.lost || !AtBase(h.sys, base))
  }

  /** Every state the machine has been in, and the one move that led from each to the next. */
  ghost predicate IsHistory(history: seq<Snapshot>, moves: seq<Move>, platform: Platform, base: Baseline) {
    && |history| == |moves| + 1
    && forall i :: 0 <= i < |moves| ==>
         Possible(history[i], moves[i], platform, base) && history[i + 1] == After(history[i], moves[i], platform, base)
  }

  /** The history is one of atomic moves that has come to `h`, and the machine was safe at every moment until astray. */
  ghost predicate IsTold(history: seq<Snapshot>, moves: seq<Move>, h: Snapshot, platform: Platform, base: Baseline) {
    && IsHistory(history, moves, platform, base) && history != []
    && history[|history| - 1] == h
    && RecordFits(h, platform, base) && (Astray(h) || Safe(h, platform, base))
    && forall g :: g in history ==> RecordFits(g, platform, base) && (Astray(g) || Safe(g, platform, base))
  }

  /** The machine goes astray only when an effective undo is turned down, or a record is let go of away from the baseline. */
  lemma {:induction false} AstrayHasACause(history: seq<Snapshot>, moves: seq<Move>, k: nat, platform: Platform, base: Baseline)
    requires IsHistory(history, moves, platform, base) && k < |history|
    ensures history[k].thwarted ==> history[0].thwarted || exists i :: 0 <= i < k && moves[i].TurnDown?
    ensures history[k].lost ==>
              history[0].lost || exists i :: 0 <= i < k && (moves[i].Empty? || moves[i].Remove?) && !AtBase(history[i].sys, base)
  {
    if k > 0 {
      AstrayHasACause(history, moves, k - 1, platform, base);
      var i := k - 1;
      assert history[i + 1] == After(history[i], moves[i], platform, base);
    }
  }

  /** Going astray is for good, and a record is only let go of away from the baseline after an undo was turned down. */
  predicate Onward(h: Snapshot, now: Snapshot, refused: bool) {
    && (h.thwarted ==> now.thwarted) && (h.lost ==> now.lost)
    && (now.lost ==> h.lost || now.thwarted)
    && (!refused ==> now.thwarted == h.thwarted)
  }

  lemma OnwardSys(h: Snapshot, now: Snapshot, refused: bool)
    requires now == h.(sys := now.sys)
    ensures Onward(h, now, refused) && (Astray(now) <==> Astray(h))
  {
  }

  lemma UndoneOnward(h: Snapshot, now: Snapshot, refused: bool)
    requires (h.thwarted ==> now.thwarted) && now.lost == h.lost && (!refused ==> now.thwarted == h.thwarted)
    ensures Onward(h, now, refused)
  {
  }

  /** A record let go of when the machine is at its baseline, or already astray. */
  lemma LetGoOnward(h: Snapshot, now: Snapshot, base: Baseline)
    requires Astray(h) || AtBase(h.sys, base)
    requires now.thwarted == h.thwarted && (h.lost ==> now.lost) && (now.lost ==> h.lost || !AtBase(h.sys, base))
    ensures Onward(h, now, false) && (Astray(now) <==> Astray(h))
  {
  }

  lemma OnwardThen(h: Snapshot, mid: Snapshot, now: Snapshot, refused: bool, later: bool, either: bool)
    requires Onward(h, mid, refused) && Onward(mid, now, later) && (refused || later ==> either)
    ensures Onward(h, now, either)
  {
  }

  lemma SafeAfterLoss(h: Snapshot, name: string, platform: Platform, base: Baseline)
    requires Safe(h, platform, base)
    requires NotOfBase(name, base)
    ensures Safe(h.(sys := InterfaceGone(h.sys, name)), platform, base)
  {
    var s := InterfaceGone(h.sys, name);
    if h.record.Saved? {
      LostInterfaceKeepsUndoable(h.sys, name, h.record.revert, base);
    } else {
      assert s.table == h.sys.table;
    }
  }

  lemma SafeAtBase(h: Snapshot, platform: Platform, base: Baseline)
    requires AtBase(h.sys, base) && RecordFits(h, platform, base)
    ensures Safe(h, platform, base)
  {
    if h.record.Saved? {
      BaselineIsUndoable(h.sys, platform, h.plan, base);
    }
  }

  lemma BaselineKeepsItsRoutes(s: Sys, name: string, base: Baseline)
    requires AtBase(s, base) && NotOfBase(name, base)
    ensures InterfaceGone(s, name) == s
  {
    assert InterfaceGone(s, name).table == s.table;
  }

  predicate SaveWorks(fates: seq<Fate>) {
    Works(First(fates)) && Works(First(Rest(fates)))
  }

  /** The machine after a record is saved: whatever record there was is let go of first. */
  ghost function AfterSave(h: Snapshot, fates: seq<Fate>, interface: string, pid: nat, plan: RoutePlan,
                           platform: Platform, base: Baseline): Snapshot
  {
    var mid := Struck(h.sys, First(fates), interface);
    var now := Struck(mid, First(Rest(fates)), interface);
    Snapshot(now, Saved(interface, RevertList(platform, plan), pid), plan, h.thwarted, h.lost || !AtBase(mid, base))
  }

  /** The machine as a command finds it. */
  function Struck(s: Sys, f: Fate, name: string): Sys {
    if f.DeviceLost? then InterfaceGone(s, name) else s
  }

  class Host {
    const platform: Platform
    var sys: Sys
    var record: Record
    /** One fate for each effect to come. */
    var fates: seq<Fate>

    ghost const base: Baseline
    /** The plan whose record is on disk, when there is one. */
    ghost var plan: RoutePlan
    ghost var thwarted: bool
    ghost var lost: bool
    ghost var history: seq<Snapshot>
    ghost var moves: seq<Move>

    ghost function Now(): Snapshot
      reads this
    {
      Snapshot(sys, record, plan, thwarted, lost)
    }

    ghost predicate Told(h: Snapshot)
      reads this
    {
      IsTold(history, moves, h, platform, base)
    }

    ghost predicate Valid()
      reads this
    {
      Told(Now())
    }

    constructor (platform: Platform, sys: Sys, ghost anyPlan: RoutePlan)
      requires sys.backup.None? || sys.backup == sys.resolv
      ensures Valid() && this.platform == platform && this.sys == sys && record.Absent?
      ensures base == Baseline(sys.table, sys.resolv) && fates == [] && !thwarted && !lost
      ensures history == [Now()] && moves == []
    {
      this.platform := platform;
      this.sys := sys;
      this.record := Absent;
      this.fates := [];
      this.base := Baseline(sys.table, sys.resolv);
      this.plan := anyPlan;
      this.thwarted, this.lost := false, false;
      this.history := [Snapshot(sys, Absent, anyPlan, false, false)];
      this.moves := [];
    }

    /** Records that the machine has moved from `h`, in the model only. */
    ghost method Note(h: Snapshot, m: Move)
      requires Told(h) && Possible(h, m, platform, base)
      requires var h' := After(h, m, platform, base);
               && sys == h'.sys && record == h'.record
               && (Astray(h') || Safe(h', platform, base))
      modifies this`plan, this`thwarted, this`lost, this`history, this`moves
      ensures Valid() && Now() == After(h, m, platform, base)
      ensures history == old(history) + [Now()] && moves == old(moves) + [m]
    {
      hide Safe, AtBase, FreeOf, ApplyList, RevertList, Matters, PlanRejected, NotOfBase, InterfaceGone, Exec;
      assert RecordFits(h, platform, base);
      var h' := After(h, m, platform, base);
      plan, thwarted, lost := h'.plan, h'.thwarted, h'.lost;
      history, moves := history + [h'], moves + [m];
    }

    /** What befalls the next effect, the loss of the interface having happened if it was that. */
    method NextFate(name: string) returns (f: Fate)
      requires Valid() && NotOfBase(name, base)
      modifies this
      ensures Valid() && old(history) <= history && old(moves) <= moves
      ensures f == First(old(fates)) && fates == Rest(old(fates))
      ensures Now() == old(Now()).(sys := Struck(old(sys), f, name))
    {
      if fates == [] {
        return Killed;
      }
      f := fates[0];
      fates := fates[1..];
      if f == DeviceLost {
        LoseInterface(name);
      }
    }

    /** The kernel takes the interface away. */
    method LoseInterface(name: string)
      requires Valid() && NotOfBase(name, base)
      modifies this
      ensures Valid() && old(history) <= history && old(moves) <= moves && fates == old(fates)
      ensures Now() == old(Now()).(sys := InterfaceGone(old(sys), name))
    {
      ghost var h := Now();
      if !Astray(h) {
        SafeAfterLoss(h, name, platform, base);
      }
      sys := InterfaceGone(sys, name);
      Note(h, Lose(name));
    }

    /** Runs one command of the recorded plan's, for a process whose interface is `name`. */
    method Execute(c: RouteCommand, name: string, ghost undoing: bool) returns (o: Outcome)
      requires Valid() && NotOfBase(name, base)
      requires record.Saved? && c in if undoing then RevertList(platform, plan) else ApplyList(platform, plan)
      requires !Astray(Now()) ==>
                 && Safe(Now().(sys := Exec(sys, c)), platform, base)
                 && Safe(Now().(sys := Exec(InterfaceGone(sys, name), c)), platform, base)
      modifies this
      ensures Valid() && old(history) <= history && old(moves) <= moves && fates == Rest(old(fates))
      ensures match First(old(fates)) {
                case Killed => o.Dead? && Now() == old(Now())
                case Refused => o == Ran(false) &&
                                Now() == old(Now()).(thwarted := old(thwarted) || (undoing && Matters(old(sys), c)))
                case f => var s := Struck(old(sys), f, name);
                          o == Ran(Succeeds(s, c)) && Now() == old(Now()).(sys := Exec(s, c))
              }
    {
      hide Safe, Succeeds, Exec, InterfaceGone, IsHistory, RecordFits, RevertList, ApplyList, NotOfBase, Matters;
      var f := NextFate(name);
      if f == Killed {
        return Dead;
      }
      ghost var h := Now();
      if f == Refused {
        if undoing && Matters(sys, c) {
          Note(h, TurnDown(c));
        }
        return Ran(false);
      }
      o := Ran(Succeeds(sys, c));
      sys := Exec(sys, c);
      Note(h, Perform(c));
    }

    /** The record file is opened for writing, which empties it. */
    method EmptyRecord(name: string) returns (o: Outcome)
      requires Valid() && NotOfBase(name, base)
      modifies this
      ensures Valid() && old(history) <= history && old(moves) <= moves
      ensures sys == Struck(old(sys), First(old(fates)), name) && fates == Rest(old(fates))
      ensures plan == old(plan) && thwarted == old(thwarted)
      ensures if o == Ran(true) then record.Corrupt? && lost == (old(lost) || !AtBase(sys, base))
              else record == old(record) && lost == old(lost)
      ensures o == Ran(true) <==> Works(First(old(fates)))
      ensures o.Dead? <==> First(old(fates)).Killed?
      ensures o == Ran(true) ==> |history| > |old(history)|
    {
      hide Safe, AtBase, InterfaceGone, IsHistory, RevertList, ApplyList, NotOfBase;
      var f := NextFate(name);
      if f == Killed {
        return Dead;
      }
      if f == Refused {
        return Ran(false);
      }
      ghost var h := Now();
      EmptyIsCovered(h, platform, base);
      record := Corrupt;
      Note(h, Empty);
      return Ran(true);
    }

    method WriteRecord(interface: string, pid: nat, revert: seq<RouteCommand>, ghost p: RoutePlan) returns (o: Outcome)
      requires Valid() && NotOfBase(interface, base) && record.Corrupt?
      requires revert == RevertList(platform, p) && !PlanRejected(p) && FreeOf(base.table, p)
      modifies this
      ensures Valid() && old(history) <= history && old(moves) <= moves
      ensures sys == Struck(old(sys), First(old(fates)), interface) && fates == Rest(old(fates))
      ensures thwarted == old(thwarted) && lost == old(lost)
      ensures if o == Ran(true) then record == Saved(interface, revert, pid) && plan == p
              else record == old(record) && plan == old(plan)
      ensures o == Ran(true) ==> Astray(Now()) || AtBase(sys, base)
      ensures o == Ran(true) <==> Works(First(old(fates)))
      ensures o.Dead? <==> First(old(fates)).Killed?
    {
      hide Safe, AtBase, InterfaceGone, IsHistory, RevertList, ApplyList, NotOfBase, FreeOf, PlanRejected;
      var f := NextFate(interface);
      if f == Killed {
        return Dead;
      }
      if f == Refused {
        return Ran(false);
      }
      ghost var h := Now();
      WriteIsCovered(h, interface, p, pid, platform, base);
      record := Saved(interface, revert, pid);
      Note(h, Write(interface, p, pid));
      return Ran(true);
    }

    /** `AppliedState::save`: the file is emptied, then written. */
    method Save(interface: string, pid: nat, revert: seq<RouteCommand>, ghost p: RoutePlan) returns (o: Outcome)
      requires Valid() && NotOfBase(interface, base)
      requires revert == RevertList(platform, p) && !PlanRejected(p) && FreeOf(base.table, p)
      modifies this
      ensures Valid() && old(history) <= history && old(moves) <= moves
      ensures record == old(record) || record.Corrupt? || (o == Ran(true) && record == Saved(interface, revert, pid))
      ensures o == Ran(true) ==> record == Saved(interface, revert, pid) && plan == p && |history| > |old(history)|
      ensures o == Ran(true) ==> Astray(Now()) || AtBase(sys, base)
      ensures thwarted == old(thwarted) && (old(lost) ==> lost)
      ensures lost ==> old(lost) || !AtBase(old(sys), base)
      ensures AtBase(old(sys), base) ==> sys == old(sys)
      ensures forall f :: f in fates ==> f in old(fates)
      ensures Spent(old(fates), fates, o.Dead?)
      ensures o == Ran(true) <==> SaveWorks(old(fates))
      ensures o == Ran(true) ==>
                Now() == AfterSave(old(Now()), old(fates), interface, pid, p, platform, base) && fates == Rest(Rest(old(fates)))
      ensures Undisturbed(old(fates), 2) ==> o == Ran(true) && sys == old(sys) && fates == old(fates)[2..]
    {
      if AtBase(sys, base) {
        BaselineKeepsItsRoutes(sys, interface, base);
      }
      hide Safe, AtBase, InterfaceGone, IsHistory, RevertList, ApplyList, NotOfBase, FreeOf, PlanRejected;
      SpentTwo(fates);
      hide Spent;
      o := EmptyRecord(interface);
      if o == Ran(true) {
        o := WriteRecord(interface, pid, revert, p);
      }
    }

    /** `AppliedState::clear`: a removal that fails is ignored. */
    method Clear(name: string) returns (o: Outcome)
      requires Valid() && NotOfBase(name, base)
      modifies this
      ensures Valid() && old(history) <= history && old(moves) <= moves
      ensures record == if Works(First(old(fates))) then Absent else old(record)
      ensures o == Ran(true) <==> Works(First(old(fates)))
      ensures sys == Struck(old(sys), First(old(fates)), name) && fates == Rest(old(fates))
      ensures thwarted == old(thwarted) && (old(lost) ==> lost)
      ensures lost ==> old(lost) || !AtBase(old(sys), base)
      ensures AtBase(old(sys), base) || DeviceLost !in old(fates) ==> sys == old(sys)
      ensures o.Dead? <==> First(old(fates)).Killed?
    {
      hide Safe, AtBase, InterfaceGone, IsHistory, RevertList, ApplyList;
      if AtBase(sys, base) {
        BaselineKeepsItsRoutes(sys, name, base);
      }
      var f := NextFate(name);
      if f == Killed {
        return Dead;
      }
      if f == Refused {
        return Ran(false);
      }
      ghost var h := Now();
      EmptyIsCovered(h, platform, base);
      record := Absent;
      Note(h, Remove);
      return Ran(true);
    }

    /**
     * Runs the recorded undo list from the top, for a process whose own interface is `name`, going on past
     * commands that are turned down. With none turned down that mattered, the baseline is restored.
     */
    method Undo(cmds: seq<RouteCommand>, name: string) returns (o: Outcome)
      requires Valid() && NotOfBase(name, base)
      requires record.Saved? && cmds == record.revert
      modifies this
      ensures Valid() && old(history) <= history && old(moves) <= moves
      ensures UndoMakes(old(Now()), old(fates), cmds, o.Dead?, Now(), fates, base) && (o.Ran? ==> o.ok)
    {
      ghost var h, start := Now(), fates;
      UndoStarts(h, start, cmds);
      hide Safe, Swept, RevertList, ApplyList, Exec, InterfaceGone, IsHistory, RecordFits, NotOfBase, AtBase, Matters;
      hide RunSome, Refusals, UndoUnderway, UndoMakes, Astray;
      for i := 0 to |cmds|
        invariant Valid() && old(history) <= history && old(moves) <= moves
        invariant record.Saved? && cmds == record.revert && UndoUnderway(h, start, cmds, i, Now(), fates)
      {
        ghost var mid, later := Now(), fates;
        UndoSoFar(h, start, cmds, i, mid, later);
        o := UndoOne(cmds, i, name);
        UndoNext(h, start, cmds, i, mid, later, o.Dead?, Now(), fates, base);
        if o.Dead? {
          return;
        }
      }
      assert RecordFits(Now(), platform, base) && (Astray(Now()) || Safe(Now(), platform, base));
      UndoEnds(h, start, cmds, Now(), fates, platform, base);
      o := Ran(true);
    }

    /** The `i`-th command of a replay. */
    method UndoOne(cmds: seq<RouteCommand>, i: nat, name: string) returns (o: Outcome)
      requires Valid() && NotOfBase(name, base)
      requires record.Saved? && cmds == record.revert && i < |cmds|
      requires Astray(Now()) || Swept(sys, cmds[..i])
      modifies this
      ensures Valid() && old(history) <= history && old(moves) <= moves && fates == Rest(old(fates))
      ensures record == old(record) && plan == old(plan) && lost == old(lost) && (old(thwarted) ==> thwarted)
      ensures !First(old(fates)).Refused? ==> thwarted == old(thwarted)
      ensures o.Dead? <==> First(old(fates)).Killed?
      ensures o.Ran? ==> Astray(Now()) || Swept(sys, cmds[..i + 1])
      ensures o.Ran? && !First(old(fates)).DeviceLost? ==>
                sys == if First(old(fates)).Refused? then old(sys) else Exec(old(sys), cmds[i])
    {
      UndoIsCovered(Now(), cmds, i, name, platform, base);
      assert RecordFits(Now(), platform, base);
      hide Safe, Swept, RevertList, ApplyList, Exec, Succeeds, InterfaceGone, IsUndo, IsHistory, NotOfBase, AtBase;
      hide Matters;
      assert cmds[i] in cmds;
      o := Execute(cmds[i], name, true);
    }

    /** `recover_if_stale`, asked at startup. `alive` is what the kernel says of the recorded pid. */
    method RecoverIfStale(name: string, ownPid: nat, alive: bool) returns (r: Recovery)
      requires Valid() && NotOfBase(name, base)
      modifies this
      ensures Valid() && old(history) <= history && old(moves) <= moves
      ensures record == old(record) || record.Absent?
      ensures r.NothingRecorded? <==> old(record).Absent?
      ensures r.Unreadable? <==> old(record).Corrupt?
      ensures r.OwnRecord? <==> old(record).Saved? && old(record).pid == ownPid
      ensures r.StillRunning? <==> old(record).Saved? && alive && old(record).pid != ownPid
      ensures r.DiedRecovering? <==>
                old(record).Saved? && old(record).pid != ownPid && !alive && !Survives(old(fates), RecoveryEffects(old(record)))
      // Only a stale record is replayed.
      ensures !r.Recovered? && !r.DiedRecovering? ==> Now() == old(Now()) && fates == old(fates) && history == old(history)
      ensures r.NothingRecorded? || r.Unreadable? || r.Recovered? ==> Astray(Now()) || AtBase(sys, base)
      // The record goes whatever commands were turned down, unless its own removal is.
      ensures r.Recovered? ==> |old(record).revert| < |old(fates)|
      ensures r.Recovered? ==> (record.Absent? <==> Works(old(fates)[|old(record).revert|]))
      // What it restores is decided by the commands turned down.
      ensures r.Recovered? && DeviceLost !in old(fates) ==>
                sys == RunSome(old(sys), old(record).revert, Refusals(old(fates)[..|old(record).revert|]))
      ensures Onward(old(Now()), Now(), Refused in old(fates))
      ensures Spent(old(fates), fates, r.DiedRecovering?)
      ensures Undisturbed(old(fates), RecoveryEffects(old(record)))
              && !old(record).Corrupt? && !r.StillRunning? && !r.OwnRecord? ==>
                && (r.NothingRecorded? || r.Recovered?)
                && record.Absent? && thwarted == old(thwarted) && fates == old(fates)[RecoveryEffects(old(record))..]
    {
      SpentOne(fates);
      if record.Absent? {
        return NothingRecorded;
      }
      if record.Corrupt? {
        return Unreadable;
      }
      if alive && record.pid != ownPid {
        return StillRunning;
      }
      if record.pid == ownPid {
        return OwnRecord;
      }
      hide Safe, IsHistory, AtBase, RunSome, Refusals, InterfaceGone, NotOfBase, Survives, Undisturbed;
      var o := ReplayRecord(name);
      return if o.Dead? then DiedRecovering else Recovered;
    }

    /** The replay of a stale record, and its removal. */
    method ReplayRecord(name: string) returns (o: Outcome)
      requires Valid() && NotOfBase(name, base) && record.Saved?
      modifies this
      ensures Valid() && old(history) <= history && old(moves) <= moves
      ensures ReplayMakes(old(Now()), old(fates), o.Dead?, Now(), fates, base)
    {
      hide Safe, IsHistory, AtBase, InterfaceGone, NotOfBase, UndoMakes, ReplayMakes, Spent, Onward, Works, Astray, IsTold;
      hide Struck;
      ghost var h, start := Now(), fates;
      o := Undo(record.revert, name);
      ghost var undone, mid := Now(), fates;
      WhenUndone(h, start, o.Dead?, undone, mid, base);
      if o.Ran? {
        o := Clear(name);
        RecordRemoved(h, start, undone, mid, o.Dead?, Now(), fates, base);
      }
    }
  }

  /**
   * What the replay of a stale record makes of the machine: it ends unless it is killed; what it restores is decided by
   * the commands turned down; and the record goes whatever they were, unless its own removal is turned down.
   */
  ghost predicate ReplayMakes(h: Snapshot, fates: seq<Fate>, dead: bool, now: Snapshot, rest: seq<Fate>, base: Baseline)
    requires h.record.Saved?
  {
    var cmds, n := h.record.revert, |h.record.revert|;
    && Spent(fates, rest, dead) && (dead <==> !Survives(fates, n + 1)) && Onward(h, now, Refused in fates)
    && (!dead ==>
          && n < |fates| && (Astray(now) || AtBase(now.sys, base))
          && (DeviceLost !in fates ==> now.sys == RunSome(h.sys, cmds, Refusals(fates[..n]))))
    && now.record == (if !dead && Works(fates[n]) then Absent else h.record)
    && (Undisturbed(fates, n + 1) ==> now.thwarted == h.thwarted && rest == fates[n + 1..])
  }

  lemma WhenUndone(h: Snapshot, fates: seq<Fate>, dead: bool, now: Snapshot, rest: seq<Fate>, base: Baseline)
    requires h.record.Saved? && UndoMakes(h, fates, h.record.revert, dead, now, rest, base)
    ensures now.record == h.record && now.plan == h.plan && (!dead ==> Astray(now) || AtBase(now.sys, base))
    ensures dead ==> ReplayMakes(h, fates, true, now, rest, base)
  {
    hide RunSome, Refusals, AtBase, Spent;
  }

  lemma RecordRemoved(h: Snapshot, fates: seq<Fate>, undone: Snapshot, mid: seq<Fate>, dead: bool,
                      now: Snapshot, rest: seq<Fate>, base: Baseline)
    requires h.record.Saved? && UndoMakes(h, fates, h.record.revert, false, undone, mid, base)
    requires rest == Rest(mid) && (dead <==> First(mid).Killed?)
    requires now.record == (if Works(First(mid)) then Absent else undone.record)
    requires now.thwarted == undone.thwarted && (undone.lost ==> now.lost)
    requires now.lost ==> undone.lost || !AtBase(undone.sys, base)
    requires AtBase(undone.sys, base) ==> now.sys == undone.sys
    requires DeviceLost !in mid ==> now.sys == undone.sys
    ensures ReplayMakes(h, fates, dead, now, rest, base)
  {
    hide RunSome, Refusals, AtBase, Spent, Onward, Survives, Undisturbed, Works;
    var n := |h.record.revert|;
    AllUndone(h, fates, undone, mid, base);
    ReplayEffects(fates, n);
    SpentOne(mid);
    SpentThen(fates, mid, rest, dead);
    SpentAreOld(fates, mid, false);
    UndoneOnward(h, undone, Refused in fates);
    LetGoOnward(undone, now, base);
    OnwardThen(h, undone, now, Refused in fates, false, Refused in fates);
    NextOf(fates, n);
    hide Astray, Rest, First;
  }

  lemma AllUndone(h: Snapshot, fates: seq<Fate>, now: Snapshot, rest: seq<Fate>, base: Baseline)
    requires h.record.Saved? && UndoMakes(h, fates, h.record.revert, false, now, rest, base)
    ensures var n := |h.record.revert|;
            && n <= |fates| && rest == fates[n..] && Spent(fates, rest, false) && Survives(fates, n)
            && now == h.(sys := now.sys, thwarted := now.thwarted) && (Astray(now) || AtBase(now.sys, base))
            && (h.thwarted ==> now.thwarted)
            && (Refused !in fates || Undisturbed(fates, n) ==> now.thwarted == h.thwarted)
            && (DeviceLost !in fates ==> now.sys == RunSome(h.sys, h.record.revert, Refusals(fates[..n])))
  {
    hide RunSome, Refusals, AtBase, Spent, Survives, Undisturbed;
  }

  lemma NextOf(fates: seq<Fate>, n: nat)
    requires n <= |fates|
    ensures !First(fates[n..]).Killed? ==> n < |fates| && First(fates[n..]) == fates[n] && Rest(fates[n..]) == fates[n + 1..]
    ensures First(fates[n..]).Killed? ==> !Works(First(fates[n..]))
  {
  }

  /** A replay of `n` commands is `n` effects, and clearing its record one more. */
  lemma ReplayEffects(fates: seq<Fate>, n: nat)
    ensures Survives(fates, n + 1) <==> n <= |fates| && Survives(fates, n) && !First(fates[n..]).Killed?
    ensures Undisturbed(fates, n + 1) ==>
              n < |fates| && Undisturbed(fates, n) && Undisturbed(fates[n..], 1) && fates[n..][1..] == fates[n + 1..]
    ensures n < |fates| ==> Rest(fates[n..]) == fates[n..][1..]
  {
  }

  /**
   * What an undo makes of the machine `h`, given its fates and with `rest` of them left. It ends unless it is killed,
   * and then it is exactly the commands not turned down; at the baseline, unless one that mattered was.
   */
  ghost predicate UndoMakes(h: Snapshot, fates: seq<Fate>, cmds: seq<RouteCommand>, dead: bool, now: Snapshot, rest: seq<Fate>,
                            base: Baseline)
  {
    && Spent(fates, rest, dead) && (dead <==> !Survives(fates, |cmds|))
    && now == h.(sys := now.sys, thwarted := now.thwarted) && (h.thwarted ==> now.thwarted)
    && (Refused !in fates || Undisturbed(fates, |cmds|) ==> now.thwarted == h.thwarted)
    && (!dead ==>
          && |cmds| <= |fates| && rest == fates[|cmds|..] && (Astray(now) || AtBase(now.sys, base))
          && (DeviceLost !in fates ==> now.sys == RunSome(h.sys, cmds, Refusals(fates[..|cmds|]))))
  }

  /** The same after `i` commands of it. */
  ghost predicate UndoUnderway(h: Snapshot, start: seq<Fate>, cmds: seq<RouteCommand>, i: nat, now: Snapshot, fates: seq<Fate>) {
    && i <= |start| && i <= |cmds| && fates == start[i..] && Survives(start, i)
    && now == h.(sys := now.sys, thwarted := now.thwarted) && (h.thwarted ==> now.thwarted)
    && (Refused !in start || Undisturbed(start, i) ==> now.thwarted == h.thwarted)
    && (Astray(now) || Swept(now.sys, cmds[..i]))
    && (DeviceLost !in start && |cmds| <= |start| ==>
          RunSome(now.sys, cmds[i..], Refusals(start[i..|cmds|])) == RunSome(h.sys, cmds, Refusals(start[..|cmds|])))
  }

  lemma UndoStarts(h: Snapshot, start: seq<Fate>, cmds: seq<RouteCommand>)
    ensures UndoUnderway(h, start, cmds, 0, h, start)
  {
    assert cmds[0..] == cmds && start[0..] == start;
  }

  lemma UndoSoFar(h: Snapshot, start: seq<Fate>, cmds: seq<RouteCommand>, i: nat, now: Snapshot, fates: seq<Fate>)
    requires UndoUnderway(h, start, cmds, i, now, fates)
    ensures i <= |cmds| && (Astray(now) || Swept(now.sys, cmds[..i]))
    ensures now.record == h.record && now.plan == h.plan
  {
  }

  lemma UndoNext(h: Snapshot, start: seq<Fate>, cmds: seq<RouteCommand>, i: nat, mid: Snapshot, later: seq<Fate>,
                 dead: bool, now: Snapshot, fates: seq<Fate>, base: Baseline)
    requires UndoUnderway(h, start, cmds, i, mid, later) && i < |cmds|
    requires fates == Rest(later) && (dead <==> First(later).Killed?)
    requires now == mid.(sys := now.sys, thwarted := now.thwarted) && (mid.thwarted ==> now.thwarted)
    requires !First(later).Refused? ==> now.thwarted == mid.thwarted
    requires !dead ==> Astray(now) || Swept(now.sys, cmds[..i + 1])
    requires !dead && !First(later).DeviceLost? ==>
               now.sys == if First(later).Refused? then mid.sys else Exec(mid.sys, cmds[i])
    ensures if dead then UndoMakes(h, start, cmds, true, now, fates, base) else UndoUnderway(h, start, cmds, i + 1, now, fates)
  {
    SpentNext(start, i);
    if i < |start| {
      RunSomeStep(mid.sys, cmds, start, i);
      assert Rest(later) == start[i + 1..] && First(later) == start[i] && start[i] in start;
    }
    hide RunSome, Refusals, Swept, Exec, Spent;
  }

  lemma UndoEnds(h: Snapshot, start: seq<Fate>, cmds: seq<RouteCommand>, now: Snapshot, fates: seq<Fate>,
                 platform: Platform, base: Baseline)
    requires UndoUnderway(h, start, cmds, |cmds|, now, fates) && h.record.Saved? && cmds == h.record.revert
    requires Astray(now) || Safe(now, platform, base)
    ensures UndoMakes(h, start, cmds, false, now, fates, base)
  {
    SpentNext(start, |cmds|);
    assert cmds[..|cmds|] == cmds && cmds[|cmds|..] == [];
    if !Astray(now) {
      SweptMeansRestored(now, cmds, platform, base);
    }
    hide Refusals, Swept, Spent, Safe, AtBase;
  }

  function RecoveryEffects(record: Record): nat {
    if record.Saved? then |record.revert| + 1 else 0
  }

  /** The fate of one command, in a replay told by its fates. */
  lemma RunSomeStep(s: Sys, cmds: seq<RouteCommand>, fates: seq<Fate>, i: nat)
    requires i < |cmds| && i < |fates|
    ensures |cmds| <= |fates| ==>
              RunSome(s, cmds[i..], Refusals(fates[i..|cmds|])) ==
              RunSome(if fates[i].Refused? then s else Exec(s, cmds[i]), cmds[i + 1..], Refusals(fates[i + 1..|cmds|]))
  {
    if |cmds| <= |fates| {
      var rest, refused := cmds[i..], Refusals(fates[i..|cmds|]);
      assert rest[0] == cmds[i] && rest[1..] == cmds[i + 1..];
      assert refused[0] == fates[i].Refused? && refused[1..] == Refusals(fates[i + 1..|cmds|]);
    }
  }

  /** A record emptied or removed leaves the machine at its baseline, or astray. */
  lemma EmptyIsCovered(h: Snapshot, platform: Platform, base: Baseline)
    ensures var h' := After(h, Empty, platform, base); Astray(h') || Safe(h', platform, base)
    ensures var h' := After(h, Remove, platform, base); Astray(h') || Safe(h', platform, base)
  {
  }

  lemma WriteIsCovered(h: Snapshot, interface: string, p: RoutePlan, pid: nat, platform: Platform, base: Baseline)
    requires h.record.Corrupt? && (Astray(h) || Safe(h, platform, base))
    requires !PlanRejected(p) && FreeOf(base.table, p)
    ensures var h' := After(h, Write(interface, p, pid), platform, base); Astray(h') || Safe(h', platform, base)
    ensures Astray(h) || AtBase(h.sys, base)
  {
    if !Astray(h) {
      SafeAtBase(After(h, Write(interface, p, pid), platform, base), platform, base);
    }
  }

  lemma LostStaysSwept(s: Sys, name: string, done: seq<RouteCommand>)
    requires Swept(s, done)
    ensures Swept(InterfaceGone(s, name), done)
  {
  }

  lemma IdleUndoSweeps(s: Sys, cmds: seq<RouteCommand>, i: nat)
    requires i < |cmds| && AllUndo(cmds)
    requires Swept(s, cmds[..i]) && !Matters(s, cmds[i])
    ensures Swept(s, cmds[..i + 1])
  {
    assert cmds[..i + 1] == cmds[..i] + [cmds[i]];
    assert cmds[i] in cmds;
    RevertStepSweeps(s, cmds, i);
    assert Exec(s, cmds[i]).backup == s.backup;
  }

  /** Each command of a replay leaves the machine safe, the escape route standing, and less to undo. */
  lemma UndoStepSafe(h: Snapshot, cmds: seq<RouteCommand>, i: nat, platform: Platform, base: Baseline)
    requires Safe(h, platform, base)
    requires h.record.Saved? && cmds == h.record.revert && i < |cmds|
    requires Swept(h.sys, cmds[..i])
    ensures IsUndo(cmds[i])
    ensures Safe(h.(sys := Exec(h.sys, cmds[i])), platform, base)
    ensures Swept(Exec(h.sys, cmds[i]), cmds[..i + 1])
  {
    RevertListIsUndo(platform, h.plan);
    assert cmds[i] in cmds;
    UndoStepKeepsUndoable(h.sys, cmds[i], cmds, base);
    RevertStepKeepsEscape(h.sys, platform, h.plan, i, base.table);
    RevertStepSweeps(h.sys, cmds, i);
  }

  /** The same of a machine that may be astray, and of one whose interface goes just before the command. */
  lemma UndoIsCovered(h: Snapshot, cmds: seq<RouteCommand>, i: nat, name: string, platform: Platform, base: Baseline)
    requires h.record.Saved? && cmds == h.record.revert && i < |cmds| && NotOfBase(name, base)
    requires Astray(h) || (Safe(h, platform, base) && Swept(h.sys, cmds[..i]))
    ensures !Astray(h) ==>
              var gone := InterfaceGone(h.sys, name);
              && Safe(h.(sys := Exec(h.sys, cmds[i])), platform, base)
              && Safe(h.(sys := Exec(gone, cmds[i])), platform, base)
              && Swept(Exec(h.sys, cmds[i]), cmds[..i + 1])
              && Swept(Exec(gone, cmds[i]), cmds[..i + 1])
              && (!Matters(h.sys, cmds[i]) ==> Swept(h.sys, cmds[..i + 1]))
  {
    if !Astray(h) {
      SafeAfterLoss(h, name, platform, base);
      LostStaysSwept(h.sys, name, cmds[..i]);
      UndoStepSafe(h, cmds, i, platform, base);
      UndoStepSafe(h.(sys := InterfaceGone(h.sys, name)), cmds, i, platform, base);
      RevertListIsUndo(platform, h.plan);
      if !Matters(h.sys, cmds[i]) {
        IdleUndoSweeps(h.sys, cmds, i);
      }
    }
  }

  lemma SweptMeansRestored(h: Snapshot, cmds: seq<RouteCommand>, platform: Platform, base: Baseline)
    requires Safe(h, platform, base)
    requires h.record.Saved? && cmds == h.record.revert
    requires Swept(h.sys, cmds)
    ensures AtBase(h.sys, base)
  {
    assert h.sys.table.Keys == base.table.Keys;
    assert h.sys.table == base.table;
  }

  datatype ApplyResult = DiedApplying | ApplyFailed | Guarded(guard: RouteGuard)

  /** Holds the installed routes and undoes them once. */
  class RouteGuard {
    const host: Host
    const plan: RoutePlan
    var active: bool

    constructor (host: Host, plan: RoutePlan)
      ensures this.host == host && this.plan == plan && active
    {
      this.host := host;
      this.plan := plan;
      this.active := true;
    }

    /**
     * Runs the apply list up to the first failure, which leaves what was installed for the record to undo.
     * A guard is the proof that all of it was installed.
     */
    static method Apply(host: Host, plan: RoutePlan) returns (r: ApplyResult)
      requires host.Valid()
      requires Astray(host.Now()) || AtBase(host.sys, host.base)
      requires host.record.Saved? && host.plan == plan
      modifies host
      ensures host.Valid() && old(host.history) <= host.history && old(host.moves) <= host.moves
      ensures host.Now() == old(host.Now()).(sys := host.sys)
      ensures Spent(old(host.fates), host.fates, r.DiedApplying?)
      ensures r.Guarded? ==> fresh(r.guard) && r.guard.active && r.guard.host == host && r.guard.plan == plan
      ensures r.Guarded? <==> GoesUp(old(host.sys), old(host.fates), host.platform, plan)
      // It got through some first commands and no more; all of them, if there is a guard.
      ensures DeviceLost !in old(host.fates) || Undisturbed(old(host.fates), |ApplyList(host.platform, plan)|) ==>
                exists k: nat :: GotTo(old(host.sys), host.sys, ApplyList(host.platform, plan), k)
                                 && (r.Guarded? <==> k == |ApplyList(host.platform, plan)|)
      ensures r.Guarded? ==>
                && |ApplyList(host.platform, plan)| <= |old(host.fates)|
                && host.fates == old(host.fates)[|ApplyList(host.platform, plan)|..]
    {
      var platform, base, name := host.platform, host.base, plan.interface;
      var cmds := ApplyCommands(platform, plan);
      var apply := cmds.list;
      ghost var was, start := host.sys, host.fates;
      if !Astray(host.Now()) {
        ApplyStartsCovered(host.Now(), platform, base);
      }
      UnderwayStarts(was, start, apply, name);
      hide Safe, ApplyList, RevertList, Exec, InterfaceGone, ApplyKeeps, PinFirst, IsHistory, RecordFits, AtBase;
      hide FreeOf, Reaches, RunFirst, PlanRejected, Spent, GotTo, Succeeds, Undisturbed, GoesThrough, Struck, Underway;
      for k := 0 to |apply|
        invariant host.Valid() && old(host.history) <= host.history && old(host.moves) <= host.moves
        invariant host.Now() == old(host.Now()).(sys := host.sys)
        invariant Astray(host.Now()) || (ApplyKeeps(host.sys, platform, plan, k, base) && PinFirst(host.sys.table, plan, k))
        invariant Underway(was, start, host.sys, host.fates, apply, k, name)
      {
        UnderwayNext(was, start, host.sys, host.fates, apply, k, name);
        var o := InstallOne(host, plan, apply[k], k);
        if o.Dead? {
          return DiedApplying;
        }
        if !o.ok {
          return ApplyFailed;
        }
      }
      UnderwayEnds(was, start, host.sys, host.fates, apply, name);
      var guard := new RouteGuard(host, plan);
      return Guarded(guard);
    }

    /** The `k`-th command of an apply. */
    static method InstallOne(host: Host, plan: RoutePlan, c: RouteCommand, ghost k: nat) returns (o: Outcome)
      requires host.Valid() && host.record.Saved? && host.plan == plan
      requires k < |ApplyList(host.platform, plan)| && c == ApplyList(host.platform, plan)[k]
      requires Astray(host.Now()) ||
               (ApplyKeeps(host.sys, host.platform, plan, k, host.base) && PinFirst(host.sys.table, plan, k))
      modifies host
      ensures host.Valid() && old(host.history) <= host.history && old(host.moves) <= host.moves
      ensures host.fates == Rest(old(host.fates)) && host.Now() == old(host.Now()).(sys := host.sys)
      ensures match First(old(host.fates)) {
                case Killed => o.Dead?
                case Refused => o == Ran(false) && host.sys == old(host.sys)
                case Normal => o == Ran(Succeeds(old(host.sys), c)) && host.sys == Exec(old(host.sys), c)
                case DeviceLost => o == Ran(Succeeds(Struck(old(host.sys), DeviceLost, plan.interface), c))
                                   && host.sys == Exec(Struck(old(host.sys), DeviceLost, plan.interface), c)
              }
      ensures o == Ran(true) ==>
                || Astray(host.Now())
                || (ApplyKeeps(host.sys, host.platform, plan, k + 1, host.base) && PinFirst(host.sys.table, plan, k + 1))
      ensures o == Ran(false) && !First(old(host.fates)).DeviceLost? ==> host.sys == old(host.sys)
      ensures o.Dead? ==> host.sys == old(host.sys)
    {
      if !Astray(host.Now()) {
        ApplyIsCovered(host.Now(), k, host.platform, host.base);
      }
      PlanIsNotOfBase(plan, host.base);
      FailureChangesNothing(host.sys, c);
      hide Safe, RevertList, Exec, Succeeds, InterfaceGone, ApplyKeeps, PinFirst, IsHistory, RecordFits, NotOfBase;
      hide AtBase, Matters, FreeOf, PlanRejected;
      assert c in ApplyList(host.platform, plan);
      hide ApplyList;
      o := host.Execute(c, plan.interface, false);
    }

    /** Undoes the routes; a second call does nothing. */
    method RevertNow() returns (o: Outcome)
      requires host.Valid()
      requires active ==> host.record.Saved? && host.plan == plan
      modifies this, host
      ensures host.Valid() && old(host.history) <= host.history && old(host.moves) <= host.moves
      ensures !active
      ensures !old(active) ==>
                && o == Ran(true) && host.Now() == old(host.Now())
                && host.fates == old(host.fates) && host.history == old(host.history)
      ensures Spent(old(host.fates), host.fates, o.Dead?)
      ensures old(active) ==> (o.Ran? <==> Survives(old(host.fates), |RevertList(host.platform, plan)|))
      ensures host.record == old(host.record) && host.plan == old(host.plan)
      ensures host.lost == old(host.lost) && (old(host.thwarted) ==> host.thwarted)
      ensures old(active) && o.Ran? ==>
                && (Astray(host.Now()) || AtBase(host.sys, host.base))
                && |RevertList(host.platform, plan)| <= |old(host.fates)|
                && host.fates == old(host.fates)[|RevertList(host.platform, plan)|..]
                && (DeviceLost !in old(host.fates) ==>
                      host.sys == RunSome(old(host.sys), RevertList(host.platform, plan),
                                          Refusals(old(host.fates)[..|RevertList(host.platform, plan)|])))
      ensures Refused !in old(host.fates) ==> host.thwarted == old(host.thwarted)
      ensures old(active) && Undisturbed(old(host.fates), |RevertList(host.platform, plan)|) ==>
                o.Ran? && host.thwarted == old(host.thwarted)
    {
      SpentOne(host.fates);
      if !active {
        return Ran(true);
      }
      active := false;
      var cmds := RevertCommands(host.platform, plan);
      assert host.Now() in host.history && RecordFits(host.Now(), host.platform, host.base);
      PlanIsNotOfBase(plan, host.base);
      hide Safe, IsHistory, AtBase, RunSome, Refusals, InterfaceGone, RevertList, ApplyList, PlanRejected, Spent;
      hide Survives;
      o := host.Undo(cmds.list, plan.interface);
    }
  }

  lemma FailureChangesNothing(s: Sys, c: RouteCommand)
    ensures !Succeeds(s, c) ==> Exec(s, c) == s
  {
  }

  /** From `was`, the first `k` commands have succeeded, and that is all that has happened. */
  ghost predicate GotTo(was: Sys, now: Sys, cmds: seq<RouteCommand>, k: nat) {
    k <= |cmds| && Reaches(was, cmds, k) && now == RunFirst(was, cmds, k)
  }

  /** `k` commands of an apply from `was` have gone through. */
  ghost predicate Underway(was: Sys, start: seq<Fate>, now: Sys, fates: seq<Fate>, cmds: seq<RouteCommand>, k: nat,
                           name: string)
  {
    && k <= |cmds| && k <= |start| && fates == start[k..] && Survives(start, k)
    && (GoesThrough(now, cmds[k..], fates, name) <==> GoesThrough(was, cmds, start, name))
    && (DeviceLost !in start || Undisturbed(start, k) ==> GotTo(was, now, cmds, k))
  }

  lemma UnderwayStarts(was: Sys, start: seq<Fate>, cmds: seq<RouteCommand>, name: string)
    ensures Underway(was, start, was, start, cmds, 0, name)
  {
    assert cmds[0..] == cmds && start[0..] == start;
  }

  lemma UnderwayNext(was: Sys, start: seq<Fate>, now: Sys, fates: seq<Fate>, cmds: seq<RouteCommand>, k: nat, name: string)
    requires Underway(was, start, now, fates, cmds, k, name) && k < |cmds|
    ensures Spent(start, Rest(fates), First(fates).Killed?)
    ensures var f := First(fates);
            var s := Struck(now, f, name);
            if Works(f) && Succeeds(s, cmds[k]) then Underway(was, start, Exec(s, cmds[k]), Rest(fates), cmds, k + 1, name)
            else !GoesThrough(was, cmds, start, name)
    ensures DeviceLost !in start || Undisturbed(start, |cmds|) ==> !First(fates).DeviceLost? && GotTo(was, now, cmds, k)
  {
    GoesOn(now, cmds, k, fates, name);
    SpentNext(start, k);
    assert fates == start[k..];
    assert k < |start| ==> Rest(fates) == start[k + 1..] && start[k] in start;
    hide Spent, GoesThrough;
  }

  lemma UnderwayEnds(was: Sys, start: seq<Fate>, now: Sys, fates: seq<Fate>, cmds: seq<RouteCommand>, name: string)
    requires Underway(was, start, now, fates, cmds, |cmds|, name)
    ensures GoesThrough(was, cmds, start, name) && Spent(start, fates, false)
    ensures |cmds| <= |start| && fates == start[|cmds|..]
    ensures DeviceLost !in start || Undisturbed(start, |cmds|) ==> GotTo(was, now, cmds, |cmds|)
  {
    SpentNext(start, |cmds|);
  }

  /** Undisturbed, an apply goes through exactly when the machine is ready for every command of it. */
  lemma UndisturbedGoesThrough(s: Sys, cmds: seq<RouteCommand>, fates: seq<Fate>, name: string)
    requires Undisturbed(fates, |cmds|)
    ensures GoesThrough(s, cmds, fates, name) <==> Reaches(s, cmds, |cmds|)
  {
    assert cmds[0..] == cmds && fates[0..] == fates;
    UndisturbedGoesOn(s, cmds, 0, fates, name);
  }

  lemma {:induction false} UndisturbedGoesOn(s: Sys, cmds: seq<RouteCommand>, k: nat, fates: seq<Fate>, name: string)
    requires Undisturbed(fates, |cmds|) && k <= |cmds| && Reaches(s, cmds, k)
    ensures GoesThrough(RunFirst(s, cmds, k), cmds[k..], fates[k..], name) <==> Reaches(s, cmds, |cmds|)
    decreases |cmds| - k
  {
    if k < |cmds| {
      var now := RunFirst(s, cmds, k);
      assert fates[k].Normal? && First(fates[k..]) == fates[k] && Rest(fates[k..]) == fates[k + 1..];
      GoesOn(now, cmds, k, fates[k..], name);
      assert Struck(now, fates[k], name) == now && RunFirst(s, cmds, k + 1) == Exec(now, cmds[k]);
      assert Reaches(s, cmds, k + 1) <==> Succeeds(now, cmds[k]);
      hide GoesThrough, Exec, Succeeds, RunFirst, Reaches, Struck, Undisturbed;
      if Reaches(s, cmds, |cmds|) {
        ReachesDown(s, cmds, k + 1, |cmds|);
      }
      if Succeeds(now, cmds[k]) {
        UndisturbedGoesOn(s, cmds, k + 1, fates, name);
      }
    } else {
      assert cmds[k..] == [];
    }
  }

  /** What befalls an apply lets every command of it succeed, the machine being what it is when its turn comes. */
  predicate GoesThrough(s: Sys, cmds: seq<RouteCommand>, fates: seq<Fate>, name: string)
    decreases |cmds|
  {
    cmds != [] ==>
      var f := First(fates);
      var now := Struck(s, f, name);
      Works(f) && Succeeds(now, cmds[0]) && GoesThrough(Exec(now, cmds[0]), cmds[1..], Rest(fates), name)
  }

  /** An apply from `s` is let through to its end. */
  predicate GoesUp(s: Sys, fates: seq<Fate>, platform: Platform, plan: RoutePlan) {
    GoesThrough(s, ApplyList(platform, plan), fates, plan.interface)
  }

  lemma GoesOn(s: Sys, cmds: seq<RouteCommand>, k: nat, fates: seq<Fate>, name: string)
    requires k < |cmds|
    ensures var f := First(fates);
            var now := Struck(s, f, name);
            GoesThrough(s, cmds[k..], fates, name) <==>
            Works(f) && Succeeds(now, cmds[k]) && GoesThrough(Exec(now, cmds[k]), cmds[k + 1..], Rest(fates), name)
  {
    hide Exec, Succeeds, Struck;
    assert cmds[k..][0] == cmds[k] && cmds[k..][1..] == cmds[k + 1..];
  }

  lemma {:induction false} ReachesDown(s: Sys, cmds: seq<RouteCommand>, j: nat, k: nat)
    requires j <= k <= |cmds| && Reaches(s, cmds, k)
    ensures Reaches(s, cmds, j)
  {
    if j < k {
      ReachesDown(s, cmds, j, k - 1);
    }
  }

  lemma ApplyLeavesEscape(s: Sys, platform: Platform, plan: RoutePlan, k: nat, base: Table)
    requires k < |ApplyList(platform, plan)|
    requires Ours(s.table, base, platform, plan)
    requires PinFirst(s.table, plan, k)
    ensures EscapeRoute(Exec(s, ApplyList(platform, plan)[k]).table, plan)
  {
    var c := ApplyList(platform, plan)[k];
    ApplyStepKeepsEscape(s, platform, plan, k, base);
    if plan.mode.Default? && k == 0 {
      DefaultApplyShape(platform, plan, |V4Halves() + V6Halves(plan)|);
    }
  }

  lemma ApplyStartsCovered(h: Snapshot, platform: Platform, base: Baseline)
    requires h.record.Saved? && Safe(h, platform, base) && AtBase(h.sys, base)
    ensures ApplyKeeps(h.sys, platform, h.plan, 0, base) && PinFirst(h.sys.table, h.plan, 0)
  {
  }

  /** Each command of an apply leaves the machine safe, the interface lost before it or not, and on its way if it succeeds. */
  lemma ApplyIsCovered(h: Snapshot, k: nat, platform: Platform, base: Baseline)
    requires h.record.Saved? && Safe(h, platform, base)
    requires k < |ApplyList(platform, h.plan)|
    requires ApplyKeeps(h.sys, platform, h.plan, k, base) && PinFirst(h.sys.table, h.plan, k)
    ensures var c, gone := ApplyList(platform, h.plan)[k], InterfaceGone(h.sys, h.plan.interface);
            && Safe(h.(sys := Exec(h.sys, c)), platform, base)
            && Safe(h.(sys := Exec(gone, c)), platform, base)
            && (Succeeds(h.sys, c) ==>
                  ApplyKeeps(Exec(h.sys, c), platform, h.plan, k + 1, base) && PinFirst(Exec(h.sys, c).table, h.plan, k + 1))
            && (Succeeds(gone, c) ==>
                  ApplyKeeps(Exec(gone, c), platform, h.plan, k + 1, base) && PinFirst(Exec(gone, c).table, h.plan, k + 1))
  {
    SafeAfterLoss(h, h.plan.interface, platform, base);
    ApplyStepIsCovered(h, k, platform, base);
    ApplyStepIsCovered(h.(sys := InterfaceGone(h.sys, h.plan.interface)), k, platform, base);
  }

  lemma ApplyStepIsCovered(h: Snapshot, k: nat, platform: Platform, base: Baseline)
    requires h.record.Saved? && Safe(h, platform, base)
    requires k < |ApplyList(platform, h.plan)|
    requires ApplyKeeps(h.sys, platform, h.plan, k, base) && PinFirst(h.sys.table, h.plan, k)
    ensures var c := ApplyList(platform, h.plan)[k];
            && Safe(h.(sys := Exec(h.sys, c)), platform, base)
            && (Succeeds(h.sys, c) ==>
                  ApplyKeeps(Exec(h.sys, c), platform, h.plan, k + 1, base) && PinFirst(Exec(h.sys, c).table, h.plan, k + 1))
  {
    ApplyStepKeeps(h.sys, platform, h.plan, k, base);
    ApplyStepKeepsEscape(h.sys, platform, h.plan, k, base.table);
    ApplyLeavesEscape(h.sys, platform, h.plan, k, base.table);
  }

  /** One invocation of `connect`: its plan, its pid, and what the world answers and does to it. */
  datatype Invocation = Invocation(
    plan: RoutePlan,
    pid: nat,
    fates: seq<Fate>,
    alive: bool,        // the recorded pid belongs to some running process, ours or not
    lateFailure: bool   // a step after the routes are up fails
  )

  /** What a run leaves on disk if it changes it at all: its own record, or none that can be read. */
  predicate IsRecordOf(record: Record, run: Invocation, platform: Platform) {
    record.Saved? ==> record.pid == run.pid && record.revert == RevertList(platform, run.plan)
  }

  /** A moment at which the whole of a plan's apply list had been installed. */
  ghost predicate FullyUp(h: Snapshot, platform: Platform, plan: RoutePlan, base: Baseline) {
    exists s: Sys :: Completes(s, platform, plan) && (Astray(h) || AtBase(s, base)) && IsApplied(h.sys, s, platform, plan)
  }

  /** At one of these moments the plan was fully up. */
  ghost predicate CameUp(history: seq<Snapshot>, platform: Platform, plan: RoutePlan, base: Baseline) {
    exists h :: h in history && FullyUp(h, platform, plan, base)
  }

  lemma CameUpStill(before: seq<Snapshot>, now: seq<Snapshot>, platform: Platform, plan: RoutePlan, base: Baseline)
    requires before <= now
    ensures CameUp(before, platform, plan, base) ==> CameUp(now, platform, plan, base)
  {
    if CameUp(before, platform, plan, base) {
      var h :| h in before && FullyUp(h, platform, plan, base);
      assert h in now;
    }
  }

  predicate IsApplied(now: Sys, was: Sys, platform: Platform, plan: RoutePlan) {
    now == RunFirst(was, ApplyList(platform, plan), |ApplyList(platform, plan)|)
  }

  /** How many effects a run has that nothing disturbs. */
  function RunEffects(platform: Platform, plan: RoutePlan, record: Record): nat {
    RecoveryEffects(record) + 2 + UpAndDownEffects(platform, plan)
  }

  /** A run is turned away by a record it cannot read, or one whose process may be alive. */
  predicate Barred(record: Record, run: Invocation) {
    record.Corrupt? || (record.Saved? && run.alive)
  }

  /** Nothing stands in the way of a run: no live owner, a plan the code accepts, and a machine ready for it. */
  ghost predicate Unopposed(run: Invocation, record: Record, platform: Platform, base: Baseline) {
    && !Barred(record, run) && !PlanRejected(run.plan)
    && Startable(base, platform, run.plan)
  }

  /** The whole of `connect`, from recovery to a clean stop, for a process that then ends one way or another. */
  method Run(host: Host, run: Invocation) returns (exit: Exit)
    requires host.Valid()
    requires FreeOf(host.base.table, run.plan)
    requires host.record.Saved? ==> host.record.pid != run.pid
    modifies host
    ensures host.Valid() && old(host.history) <= host.history && old(host.moves) <= host.moves
    ensures RunMakes(old(host.Now()), run.fates, run, exit, host.Now(), host.fates, host.platform, host.base)
    ensures exit.Stopped? && DeviceLost !in run.fates ==>
              CameUp(host.history[|old(host.history)|..], host.platform, run.plan, host.base)
    // A run that a record turns away changes nothing; however one ends, its interface is gone.
    ensures Barred(old(host.record), run) ==>
              exit.Errored? && host.Now() == old(host.Now()).(sys := InterfaceGone(old(host.sys), run.plan.interface))
    ensures forall x :: x in host.sys.table ==> host.sys.table[x] != Dev(run.plan.interface)
  {
    hide Safe, IsHistory, AtBase, RecordFits, FullyUp, Smooth, FreeOf, RunMakes, Barred;
    host.fates := run.fates;
    ghost var h := host.Now();
    exit := RunToExit(host, run);
    ghost var mid := host.Now();
    PlanIsNotOfBase(run.plan, host.base);
    host.LoseInterface(run.plan.interface);
    GoneAtTheEnd(h, run, exit, mid, host.fates, host.platform, host.base);
  }

  lemma GoneAtTheEnd(h: Snapshot, run: Invocation, exit: Exit, mid: Snapshot, rest: seq<Fate>,
                     platform: Platform, base: Baseline)
    requires RunMakes(h, run.fates, run, exit, mid, rest, platform, base) && NotOfBase(run.plan.interface, base)
    ensures var now := mid.(sys := InterfaceGone(mid.sys, run.plan.interface));
            RunMakes(h, run.fates, run, exit, now, rest, platform, base)
  {
    if AtBase(mid.sys, base) {
      BaselineKeepsItsRoutes(mid.sys, run.plan.interface, base);
    }
    hide AtBase, InterfaceGone, Smooth, Spent;
  }

  lemma PlanIsNotOfBase(plan: RoutePlan, base: Baseline)
    requires FreeOf(base.table, plan)
    ensures NotOfBase(plan.interface, base)
  {
  }

  /** What an apply that got through proves of the moment it ended. */
  lemma GuardedMeansFullyUp(h: Snapshot, was: Sys, k: nat, platform: Platform, plan: RoutePlan, base: Baseline)
    requires k == |ApplyList(platform, plan)| && GotTo(was, h.sys, ApplyList(platform, plan), k)
    requires Astray(h) || AtBase(was, base)
    ensures FullyUp(h, platform, plan, base)
  {
    assert Completes(was, platform, plan) && IsApplied(h.sys, was, platform, plan);
  }

  lemma BaselineCompletes(s: Sys, platform: Platform, plan: RoutePlan, base: Baseline)
    requires AtBase(s, base)
    ensures Startable(base, platform, plan) <==> Completes(s, platform, plan)
  {
    ApplyCompletesExactlyWhen(s, platform, plan);
    assert Baseline(s.table, s.resolv) == base;
  }

  /** What a run makes of the machine `h`, given its fates and with `rest` of them left. */
  ghost predicate RunMakes(h: Snapshot, fates: seq<Fate>, run: Invocation, exit: Exit, now: Snapshot, rest: seq<Fate>,
                           platform: Platform, base: Baseline)
  {
    && Spent(fates, rest, exit.WasKilled?)
    && Onward(h, now, Refused in fates)
    && (now.record == h.record || IsRecordOf(now.record, run, platform))
    && (exit.Stopped? ==> Astray(now) || AtBase(now.sys, base))
    && (Smooth(h, run, platform, base) && fates == run.fates ==> Concluded(exit, now, run.lateFailure, base))
  }

  /** A run is its preparation and then its routes. */
  lemma PreparedThenUp(h: Snapshot, fates: seq<Fate>, mid: Snapshot, midFates: seq<Fate>, run: Invocation, exit: Exit,
                       now: Snapshot, rest: seq<Fate>, platform: Platform, base: Baseline)
    requires Prepared(h, fates, run, mid, midFates, platform, base)
    requires UpThenDown(mid, midFates, run, exit, now, rest, platform, base)
    ensures RunMakes(h, fates, run, exit, now, rest, platform, base)
  {
    hide AtBase, Concluded, GoesUp, ApplyList, RevertList, Startable, Ending;
    SpentThen(fates, midFates, rest, exit.WasKilled?);
    SpentAreOld(fates, midFates, false);
    hide Spent;
    OnwardThen(h, mid, now, Refused in fates, Refused in midFates, Refused in fates);
    if Smooth(h, run, platform, base) {
      SmoothStages(run, h, platform, base);
    }
  }

  method RunToExit(host: Host, run: Invocation) returns (exit: Exit)
    requires host.Valid()
    requires FreeOf(host.base.table, run.plan) && host.fates == run.fates
    requires host.record.Saved? ==> host.record.pid != run.pid
    modifies host
    ensures host.Valid() && old(host.history) <= host.history && old(host.moves) <= host.moves
    ensures RunMakes(old(host.Now()), run.fates, run, exit, host.Now(), host.fates, host.platform, host.base)
    ensures Barred(old(host.record), run) ==> exit.Errored? && host.Now() == old(host.Now())
    ensures exit.Stopped? && DeviceLost !in run.fates ==>
              CameUp(host.history[|old(host.history)|..], host.platform, run.plan, host.base)
  {
    hide Safe, AtBase, InterfaceGone, RevertList, ApplyList, IsHistory, RecordFits, FullyUp, Startable, Undisturbed;
    hide FreeOf, NotOfBase, RunSome, Refusals, PlanRejected, Spent, Onward, Smooth, UpThenDown, RunMakes, Barred;
    hide Astray, IsRecordOf, Prepared, CameUp, IsTold, GoesUp;
    ghost var h, n := host.Now(), |host.history|;
    var early := Prepare(host, run);
    if early.Some? {
      return early.value;
    }
    ghost var mid, fates := host.Now(), host.fates;
    WhenPrepared(h, run.fates, run, mid, fates, host.platform, host.base);
    ghost var up: nat;
    exit, up := UpAndDown(host, run);
    PreparedThenUp(h, run.fates, mid, fates, run, exit, host.Now(), host.fates, host.platform, host.base);
    if exit.Stopped? && DeviceLost !in run.fates {
      StoppedWentUp(mid, fates, run, exit, host.Now(), host.fates, host.platform, host.base);
      CameUpAt(host.history, n, up, host.platform, run.plan, host.base);
    }
  }

  lemma WhenPrepared(h: Snapshot, fates: seq<Fate>, run: Invocation, now: Snapshot, rest: seq<Fate>,
                     platform: Platform, base: Baseline)
    requires Prepared(h, fates, run, now, rest, platform, base)
    ensures now.record.Saved? && now.plan == run.plan && (Astray(now) || AtBase(now.sys, base))
    ensures forall f :: f in rest ==> f in fates
  {
    SpentAreOld(fates, rest, false);
    hide Spent;
  }

  lemma StoppedWentUp(h: Snapshot, fates: seq<Fate>, run: Invocation, exit: Exit, now: Snapshot, rest: seq<Fate>,
                      platform: Platform, base: Baseline)
    requires UpThenDown(h, fates, run, exit, now, rest, platform, base) && exit.Stopped?
    ensures GoesUp(h.sys, fates, platform, run.plan)
  {
    hide GoesUp, Ending, Spent, Onward, ApplyList, RevertList, Undisturbed;
  }

  lemma CameUpAt(history: seq<Snapshot>, n: nat, i: nat, platform: Platform, plan: RoutePlan, base: Baseline)
    requires n <= i < |history| && FullyUp(history[i], platform, plan, base)
    ensures CameUp(history[n..], platform, plan, base)
  {
    hide FullyUp;
    assert history[n..][i - n] == history[i];
  }

  /**
   * What the routes part of a run makes of the machine `h`, given its fates and with `rest` of them left. Let
   * through, it ends as its undo does, and unless that is killed at the baseline; and nothing disturbing it, as it should.
   */
  ghost predicate UpThenDown(h: Snapshot, fates: seq<Fate>, run: Invocation, exit: Exit, now: Snapshot, rest: seq<Fate>,
                             platform: Platform, base: Baseline)
  {
    var a, r := |ApplyList(platform, run.plan)|, |RevertList(platform, run.plan)|;
    && Spent(fates, rest, exit.WasKilled?)
    && Onward(h, now, Refused in fates)
    && (now.record == h.record || (exit.Stopped? && now.record.Absent?))
    && (if GoesUp(h.sys, fates, platform, run.plan)
        then a <= |fates| && exit == Ending(run, fates[a..], r) && (exit.WasKilled? || Astray(now) || AtBase(now.sys, base))
        else !exit.Stopped?)
    && (!Astray(h) && Startable(base, platform, run.plan) && Undisturbed(fates, UpAndDownEffects(platform, run.plan)) ==>
          Concluded(exit, now, run.lateFailure, base))
  }

  /** An apply that was not let through: nothing but the machine's state has changed. */
  lemma TurnedBack(h: Snapshot, fates: seq<Fate>, run: Invocation, exit: Exit, now: Snapshot, rest: seq<Fate>,
                   platform: Platform, base: Baseline)
    requires (Astray(h) || AtBase(h.sys, base)) && now == h.(sys := now.sys)
    requires !GoesUp(h.sys, fates, platform, run.plan) && !exit.Stopped? && Spent(fates, rest, exit.WasKilled?)
    ensures UpThenDown(h, fates, run, exit, now, rest, platform, base)
  {
    hide ApplyList, RevertList, Spent, GoesUp, AtBase, Startable, Ending;
    if Undisturbed(fates, UpAndDownEffects(platform, run.plan)) && AtBase(h.sys, base) {
      UpAndDownStages(fates, run, platform);
      BaselineGoesUp(h.sys, fates, platform, run.plan, base);
    }
  }

  /** One that was, and what its end made of it. */
  lemma WentUp(h: Snapshot, fates: seq<Fate>, run: Invocation, exit: Exit, top: Snapshot, mid: seq<Fate>,
               now: Snapshot, rest: seq<Fate>, platform: Platform, base: Baseline)
    requires top == h.(sys := top.sys) && GoesUp(h.sys, fates, platform, run.plan) && Spent(fates, mid, false)
    requires |ApplyList(platform, run.plan)| <= |fates| && mid == fates[|ApplyList(platform, run.plan)|..]
    requires exit == Ending(run, mid, |RevertList(platform, run.plan)|) && Spent(mid, rest, exit.WasKilled?)
    requires exit.WasKilled? || Astray(now) || AtBase(now.sys, base)
    requires Onward(top, now, Refused in mid) && h.record.Saved?
    requires Undisturbed(mid, |RevertList(platform, run.plan)|) ==> Onward(top, now, false)
    requires now.record == if exit.Stopped? && Works(mid[|RevertList(platform, run.plan)|]) then Absent else top.record
    ensures UpThenDown(h, fates, run, exit, now, rest, platform, base)
  {
    hide ApplyList, RevertList, GoesUp, AtBase, Startable;
    SpentThen(fates, mid, rest, exit.WasKilled?);
    SpentAreOld(fates, mid, false);
    hide Spent;
    if Undisturbed(fates, UpAndDownEffects(platform, run.plan)) {
      UpAndDownStages(fates, run, platform);
      hide Ending, Undisturbed, Works;
    }
  }

  /** The part of a run from its first route to its end. `up` is the moment at which all of them were in. */
  method UpAndDown(host: Host, run: Invocation) returns (exit: Exit, ghost up: nat)
    requires host.Valid() && host.record.Saved? && host.plan == run.plan
    requires Astray(host.Now()) || AtBase(host.sys, host.base)
    modifies host
    ensures host.Valid() && old(host.history) <= host.history && old(host.moves) <= host.moves
    ensures UpThenDown(old(host.Now()), old(host.fates), run, exit, host.Now(), host.fates, host.platform, host.base)
    ensures GoesUp(old(host.sys), old(host.fates), host.platform, run.plan) && DeviceLost !in old(host.fates) ==>
              |old(host.history)| - 1 <= up < |host.history| && FullyUp(host.history[up], host.platform, run.plan, host.base)
  {
    hide Safe, AtBase, InterfaceGone, RevertList, ApplyList, IsHistory, RecordFits, FullyUp, Startable, Undisturbed;
    hide FreeOf, NotOfBase, RunSome, Refusals, PlanRejected, GotTo, GoesUp, Spent, Ending, Survives, Works, IsTold;
    hide UpThenDown, Onward, Concluded, Astray;
    ghost var h, fates := host.Now(), host.fates;
    up := 0;
    var applied := RouteGuard.Apply(host, run.plan);
    ghost var top, mid := host.Now(), host.fates;
    OnwardSys(h, top, false);
    if !applied.Guarded? {
      exit := if applied.DiedApplying? then WasKilled else Errored;
      TurnedBack(h, fates, run, exit, top, mid, host.platform, host.base);
    } else {
      LastIsNow(host);
      up := |host.history| - 1;
      if DeviceLost !in fates {
        GuardedMeansFullyUp(top, h.sys, |ApplyList(host.platform, run.plan)|, host.platform, run.plan, host.base);
      }
      exit := Finish(host, applied.guard, run);
      WentUp(h, fates, run, exit, top, mid, host.Now(), host.fates, host.platform, host.base);
    }
  }

  lemma LastIsNow(host: Host)
    requires host.Valid()
    ensures host.history != [] && host.history[|host.history| - 1] == host.Now()
  {
  }

  function UpAndDownEffects(platform: Platform, plan: RoutePlan): nat {
    |ApplyList(platform, plan)| + |RevertList(platform, plan)| + 1
  }

  lemma UpAndDownStages(fates: seq<Fate>, run: Invocation, platform: Platform)
    requires Undisturbed(fates, UpAndDownEffects(platform, run.plan))
    ensures var a, r := |ApplyList(platform, run.plan)|, |RevertList(platform, run.plan)|;
            && Undisturbed(fates, a) && |fates| > a + r
            && Undisturbed(fates[a..], r) && Works(fates[a..][r])
            && Ending(run, fates[a..], r) == if run.lateFailure then Errored else Stopped
  {
    hide ApplyList, RevertList;
  }

  lemma BaselineGoesUp(s: Sys, fates: seq<Fate>, platform: Platform, plan: RoutePlan, base: Baseline)
    requires AtBase(s, base) && Undisturbed(fates, |ApplyList(platform, plan)|)
    ensures GoesUp(s, fates, platform, plan) <==> Startable(base, platform, plan)
  {
    BaselineCompletes(s, platform, plan, base);
    UndisturbedGoesThrough(s, ApplyList(platform, plan), fates, plan.interface);
  }

  /** A run that starts from where it should, and that nothing gets in the way of. */
  ghost predicate Smooth(h: Snapshot, run: Invocation, platform: Platform, base: Baseline) {
    && !Astray(h)
    && Unopposed(run, h.record, platform, base)
    && Undisturbed(run.fates, RunEffects(platform, run.plan, h.record))
  }

  lemma SmoothStages(run: Invocation, h: Snapshot, platform: Platform, base: Baseline)
    requires Smooth(h, run, platform, base)
    ensures !Astray(h) && !Barred(h.record, run) && !PlanRejected(run.plan) && Startable(base, platform, run.plan)
    ensures var e := RecoveryEffects(h.record);
            && Undisturbed(run.fates, e) && Undisturbed(run.fates[e..], 2)
            && e + 2 <= |run.fates| && run.fates[e..][2..] == Rest(Rest(run.fates[e..])) == run.fates[e + 2..]
            && Undisturbed(run.fates[e + 2..], UpAndDownEffects(platform, run.plan))
  {
    hide ApplyList, RevertList, PlanRejected, Startable;
  }

  /** A run stopped short of its routes, which nothing disturbing it is not. */
  lemma TurnedAway(h: Snapshot, fates: seq<Fate>, run: Invocation, exit: Exit, now: Snapshot, rest: seq<Fate>,
                   platform: Platform, base: Baseline)
    requires Spent(fates, rest, exit.WasKilled?) && Onward(h, now, Refused in fates) && !exit.Stopped?
    requires now.record == h.record || IsRecordOf(now.record, run, platform)
    requires !Smooth(h, run, platform, base)
    ensures RunMakes(h, fates, run, exit, now, rest, platform, base)
  {
  }

  /** Up to its record, a run that means to go on has the machine at its baseline, if not astray. */
  ghost predicate Prepared(h: Snapshot, fates: seq<Fate>, run: Invocation, now: Snapshot, rest: seq<Fate>,
                           platform: Platform, base: Baseline)
  {
    && Spent(fates, rest, false)
    && Onward(h, now, Refused in fates)
    && now.record.Saved? && IsRecordOf(now.record, run, platform) && now.plan == run.plan
    && (Astray(now) || AtBase(now.sys, base))
    && (Smooth(h, run, platform, base) && fates == run.fates ==>
          !Astray(now) && RecoveryEffects(h.record) + 2 <= |fates| && rest == fates[RecoveryEffects(h.record) + 2..])
  }

  /** Past its recovery, a run has the machine at its baseline, if not astray. */
  ghost predicate PastRecovery(h: Snapshot, fates: seq<Fate>, run: Invocation, now: Snapshot, rest: seq<Fate>,
                            platform: Platform, base: Baseline)
  {
    && Spent(fates, rest, false)
    && Onward(h, now, Refused in fates)
    && (Astray(now) || AtBase(now.sys, base))
    && (Smooth(h, run, platform, base) && fates == run.fates ==>
          && !Astray(now) && RecoveryEffects(h.record) <= |fates| && rest == fates[RecoveryEffects(h.record)..])
  }

  /** The recovery a run starts with. An exit means it went no further. */
  method RecoverFirst(host: Host, run: Invocation) returns (early: Option<Exit>)
    requires host.Valid()
    requires FreeOf(host.base.table, run.plan) && host.fates == run.fates
    requires host.record.Saved? ==> host.record.pid != run.pid
    modifies host
    ensures host.Valid() && old(host.history) <= host.history && old(host.moves) <= host.moves
    ensures Barred(old(host.record), run) ==> early == Some(Errored) && host.Now() == old(host.Now())
    ensures host.record == old(host.record) || host.record.Absent?
    ensures early.Some? ==>
              && !early.value.Stopped?
              && RunMakes(old(host.Now()), run.fates, run, early.value, host.Now(), host.fates, host.platform, host.base)
    ensures early.None? ==> PastRecovery(old(host.Now()), run.fates, run, host.Now(), host.fates, host.platform, host.base)
  {
    hide Safe, AtBase, InterfaceGone, RevertList, ApplyList, IsHistory, RecordFits, Startable, Undisturbed, FreeOf;
    hide NotOfBase, RunSome, Refusals, PlanRejected, Spent, Survives, Onward, Smooth, RunMakes, PastRecovery;
    hide RecoveryEffects, Works, IsTold;
    ghost var h, fates := host.Now(), host.fates;
    ghost var smooth := Smooth(h, run, host.platform, host.base);
    if smooth {
      SmoothStages(run, h, host.platform, host.base);
    }
    PlanIsNotOfBase(run.plan, host.base);
    var recovery := host.RecoverIfStale(run.plan.interface, run.pid, run.alive);
    if recovery.DiedRecovering? || recovery.StillRunning? || recovery.Unreadable? {
      var exit := if recovery.DiedRecovering? then WasKilled else Errored;
      TurnedAway(h, fates, run, exit, host.Now(), host.fates, host.platform, host.base);
      return Some(exit);
    }
    IsRecovered(h, fates, run, host.Now(), host.fates, host.platform, host.base);
    return None;
  }

  lemma IsRecovered(h: Snapshot, fates: seq<Fate>, run: Invocation, now: Snapshot, rest: seq<Fate>,
                    platform: Platform, base: Baseline)
    requires Spent(fates, rest, false) && Onward(h, now, Refused in fates) && (Astray(now) || AtBase(now.sys, base))
    requires Smooth(h, run, platform, base) && fates == run.fates ==>
               now.thwarted == h.thwarted && RecoveryEffects(h.record) <= |fates| && rest == fates[RecoveryEffects(h.record)..]
    ensures PastRecovery(h, fates, run, now, rest, platform, base)
  {
    hide AtBase, Spent, Unopposed, Undisturbed, RecoveryEffects;
  }

  /** The part of a run before its routes: recovery, and the record. An exit means it went no further. */
  method Prepare(host: Host, run: Invocation) returns (early: Option<Exit>)
    requires host.Valid()
    requires FreeOf(host.base.table, run.plan) && host.fates == run.fates
    requires host.record.Saved? ==> host.record.pid != run.pid
    modifies host
    ensures host.Valid() && old(host.history) <= host.history && old(host.moves) <= host.moves
    ensures Barred(old(host.record), run) ==> early == Some(Errored) && host.Now() == old(host.Now())
    ensures PlanRejected(run.plan) ==> early.Some?
    ensures early.Some? ==>
              && !early.value.Stopped?
              && RunMakes(old(host.Now()), run.fates, run, early.value, host.Now(), host.fates, host.platform, host.base)
    ensures early.None? ==>
              && Prepared(old(host.Now()), run.fates, run, host.Now(), host.fates, host.platform, host.base)
              && |host.history| > |old(host.history)|
  {
    hide Safe, AtBase, InterfaceGone, RevertList, ApplyList, IsHistory, RecordFits, Startable, Undisturbed, FreeOf;
    hide NotOfBase, RunSome, Refusals, PlanRejected, Spent, Survives, SaveWorks, Onward, Smooth, RunMakes, Prepared;
    hide PastRecovery, RecoveryEffects, Works, IsTold, Astray, Struck, AfterSave;
    ghost var h, fates := host.Now(), host.fates;
    early := RecoverFirst(host, run);
    if early.Some? {
      return;
    }
    ghost var mid, midFates := host.Now(), host.fates;
    WhenRecovered(h, fates, run, mid, midFates, host.platform, host.base);
    PlanIsNotOfBase(run.plan, host.base);
    var revert := RevertCommands(host.platform, run.plan);
    if revert.FullDefaultPrefix? {
      TurnedAway(h, fates, run, Errored, mid, midFates, host.platform, host.base);
      return Some(Errored);
    }
    var o := host.Save(run.plan.interface, run.pid, revert.list, run.plan);
    ghost var now, rest := host.Now(), host.fates;
    LetGoOnward(mid, now, host.base);
    OnwardThen(h, mid, now, Refused in fates, false, Refused in fates);
    SpentThen(fates, midFates, rest, o.Dead?);
    if o != Ran(true) {
      early := Some(if o.Dead? then WasKilled else Errored);
      TurnedAway(h, fates, run, early.value, now, rest, host.platform, host.base);
    } else {
      IsPrepared(h, fates, run, now, rest, host.platform, host.base);
      early := None;
    }
  }

  lemma WhenRecovered(h: Snapshot, fates: seq<Fate>, run: Invocation, now: Snapshot, rest: seq<Fate>,
                      platform: Platform, base: Baseline)
    requires PastRecovery(h, fates, run, now, rest, platform, base)
    ensures Spent(fates, rest, false) && Onward(h, now, Refused in fates) && (Astray(now) || AtBase(now.sys, base))
    ensures Smooth(h, run, platform, base) && fates == run.fates ==>
              && !Astray(now) && !PlanRejected(run.plan) && Undisturbed(rest, 2)
              && RecoveryEffects(h.record) + 2 <= |fates| && Rest(Rest(rest)) == fates[RecoveryEffects(h.record) + 2..]
  {
    if Smooth(h, run, platform, base) && fates == run.fates {
      SmoothStages(run, h, platform, base);
    }
  }

  lemma IsPrepared(h: Snapshot, fates: seq<Fate>, run: Invocation, now: Snapshot, rest: seq<Fate>,
                   platform: Platform, base: Baseline)
    requires Spent(fates, rest, false) && Onward(h, now, Refused in fates)
    requires now.record.Saved? && now.record.pid == run.pid && now.record.revert == RevertList(platform, run.plan)
    requires now.plan == run.plan && (Astray(now) || AtBase(now.sys, base))
    requires Smooth(h, run, platform, base) && fates == run.fates ==>
               !Astray(now) && RecoveryEffects(h.record) + 2 <= |fates| && rest == fates[RecoveryEffects(h.record) + 2..]
    ensures Prepared(h, fates, run, now, rest, platform, base)
  {
    hide AtBase, Spent, Onward, Smooth, RecoveryEffects;
  }

  /** The part of a run after its routes are up: the revert, then the stack with its interface, then the record. */
  method Finish(host: Host, guard: RouteGuard, run: Invocation) returns (exit: Exit)
    requires host.Valid() && guard.host == host && guard.plan == run.plan && guard.active
    requires host.record.Saved? && host.plan == run.plan
    modifies host, guard
    ensures host.Valid() && old(host.history) <= host.history && old(host.moves) <= host.moves
    // A step that fails after the routes are up still has them undone; only the record is kept.
    ensures exit == Ending(run, old(host.fates), |RevertList(host.platform, run.plan)|)
    ensures !exit.WasKilled? ==> Astray(host.Now()) || AtBase(host.sys, host.base)
    ensures host.record ==
            if exit.Stopped? && Works(old(host.fates)[|RevertList(host.platform, run.plan)|]) then Absent else old(host.record)
    ensures Onward(old(host.Now()), host.Now(), Refused in old(host.fates))
    ensures Undisturbed(old(host.fates), |RevertList(host.platform, run.plan)|) ==>
              Onward(old(host.Now()), host.Now(), false)
    ensures Spent(old(host.fates), host.fates, exit.WasKilled?)
  {
    hide Safe, AtBase, InterfaceGone, RevertList, ApplyList, IsHistory, Undisturbed, FreeOf, NotOfBase, RunSome;
    hide Refusals, PlanRejected, Spent;
    PlanIsNotOfBase(run.plan, host.base);
    var o := guard.RevertNow();
    if run.lateFailure {
      // The guard's drop reverts; the record stays for the next start to replay over nothing.
      return if o.Dead? then WasKilled else Errored;
    }
    if o.Dead? {
      return WasKilled;
    }
    if AtBase(host.sys, host.base) {
      BaselineKeepsItsRoutes(host.sys, run.plan.interface, host.base);
    }
    host.LoseInterface(run.plan.interface);
    SpentOne(host.fates);
    SpentThen(old(host.fates), host.fates, Rest(host.fates), First(host.fates).Killed?);
    o := host.Clear(run.plan.interface);
    return if o.Dead? then WasKilled else Stopped;
  }

  /** How a run nothing disturbs ends: cleanly; or, failing late, with its routes undone and its record kept. */
  ghost predicate Concluded(exit: Exit, h: Snapshot, late: bool, base: Baseline) {
    && !Astray(h) && AtBase(h.sys, base)
    && (exit, h.record.Absent?) == if late then (Errored, false) else (Stopped, true)
  }

  /** How a run whose routes are up ends, its undo being `n` commands. */
  function Ending(run: Invocation, fates: seq<Fate>, n: nat): Exit {
    if run.lateFailure then if Survives(fates, n) then Errored else WasKilled
    else if Survives(fates, n + 1) then Stopped else WasKilled
  }

  /** Runs by processes of different pids, none of them the recorded one's, of plans the baseline has room for. */
  ghost predicate Serial(record: Record, runs: seq<Invocation>, base: Baseline) {
    && (forall i, j :: 0 <= i < j < |runs| ==> runs[i].pid != runs[j].pid)
    && (record.Saved? ==> forall i :: 0 <= i < |runs| ==> runs[i].pid != record.pid)
    && (forall i :: 0 <= i < |runs| ==> FreeOf(base.table, runs[i].plan))
  }

  lemma SerialRest(before: Record, now: Record, runs: seq<Invocation>, platform: Platform, base: Baseline)
    requires runs != [] && Serial(before, runs, base)
    requires now == before || IsRecordOf(now, runs[0], platform)
    ensures Serial(now, runs[1..], base)
  {
    hide FreeOf, RevertList;
    var rest := runs[1..];
    forall i, j | 0 <= i < j < |rest|
      ensures rest[i].pid != rest[j].pid
    {
      assert runs[i + 1].pid != runs[j + 1].pid;
    }
    forall i | 0 <= i < |rest|
      ensures rest[i].pid != runs[0].pid && FreeOf(base.table, rest[i].plan)
    {
      assert runs[0].pid != runs[i + 1].pid && FreeOf(base.table, runs[i + 1].plan);
    }
  }

  /** What some runs can have left on disk: what was there, or the record of one of them. */
  ghost predicate LeftBy(left: Record, before: Record, runs: seq<Invocation>, platform: Platform) {
    left == before || exists run :: run in runs && IsRecordOf(left, run, platform)
  }

  /** Fates that carry a recovery through, whichever of the records it finds. */
  ghost predicate Outlasts(fates: seq<Fate>, before: Record, runs: seq<Invocation>, platform: Platform) {
    && (forall f :: f in fates ==> f.Normal?)
    && RecoveryEffects(before) <= |fates|
    && forall run :: run in runs ==> |RevertList(platform, run.plan)| + 1 <= |fates|
  }

  lemma OutlastsWhatIsLeft(fates: seq<Fate>, left: Record, before: Record, runs: seq<Invocation>, platform: Platform)
    requires Outlasts(fates, before, runs, platform) && LeftBy(left, before, runs, platform)
    ensures Undisturbed(fates, RecoveryEffects(left)) && Refused !in fates
  {
    assert forall i :: 0 <= i < |fates| ==> fates[i] in fates;
  }

  ghost predicate NoneRefused(runs: seq<Invocation>) {
    forall run :: run in runs ==> Refused !in run.fates
  }

  /** Runs with nothing in their way, on a machine with no record. */
  ghost predicate AllUnopposed(runs: seq<Invocation>, platform: Platform, base: Baseline) {
    forall run :: run in runs ==>
      && !run.lateFailure && Unopposed(run, Absent, platform, base)
      && Undisturbed(run.fates, RunEffects(platform, run.plan, Absent))
  }

  /** Every run that stopped cleanly was fully up at some moment. */
  ghost predicate StoppedCameUp(exits: seq<Exit>, runs: seq<Invocation>, history: seq<Snapshot>,
                                platform: Platform, base: Baseline)
    requires |exits| <= |runs|
  {
    forall i :: 0 <= i < |exits| && exits[i].Stopped? && DeviceLost !in runs[i].fates ==>
      CameUp(history, platform, runs[i].plan, base)
  }

  predicate AllStopped(exits: seq<Exit>) {
    forall e :: e in exits ==> e.Stopped?
  }

  /** No record, the way back never lost, and the baseline's routes and file. */
  ghost predicate Tidy(h: Snapshot, base: Baseline) {
    !Astray(h) && h.record.Absent? && AtBase(h.sys, base)
  }

  lemma FirstIsSmooth(h: Snapshot, runs: seq<Invocation>, platform: Platform, base: Baseline)
    requires runs != [] && AllUnopposed(runs, platform, base) && Tidy(h, base)
    ensures Smooth(h, runs[0], platform, base) && !runs[0].lateFailure && AllUnopposed(runs[1..], platform, base)
  {
    hide AtBase, RunEffects, Undisturbed, Unopposed;
    assert runs[0] in runs && forall run :: run in runs[1..] ==> run in runs;
  }

  lemma LeftByRest(now: Record, mid: Record, before: Record, runs: seq<Invocation>, platform: Platform)
    requires runs != [] && LeftBy(now, mid, runs[1..], platform)
    requires mid == before || IsRecordOf(mid, runs[0], platform)
    ensures LeftBy(now, before, runs, platform)
  {
    hide IsRecordOf;
    assert runs[0] in runs && forall run :: run in runs[1..] ==> run in runs;
  }

  lemma StoppedCameUpRest(exits: seq<Exit>, exit: Exit, runs: seq<Invocation>, n: nat,
                          mid: seq<Snapshot>, now: seq<Snapshot>, platform: Platform, base: Baseline)
    requires |runs| == |exits| + 1 && n <= |mid| && mid <= now
    requires exit.Stopped? && DeviceLost !in runs[0].fates ==> CameUp(mid[n..], platform, runs[0].plan, base)
    requires StoppedCameUp(exits, runs[1..], now, platform, base)
    ensures StoppedCameUp([exit] + exits, runs, now, platform, base)
  {
    CameUpLater(mid, n, platform, runs[0].plan, base);
    CameUpStill(mid, now, platform, runs[0].plan, base);
    hide CameUp;
    var all := [exit] + exits;
    forall i | 0 <= i < |all| && all[i].Stopped? && DeviceLost !in runs[i].fates
      ensures CameUp(now, platform, runs[i].plan, base)
    {
      assert i > 0 ==> all[i] == exits[i - 1] && runs[i] == runs[1..][i - 1];
    }
  }

  lemma NoneRefusedRest(runs: seq<Invocation>)
    requires runs != [] && NoneRefused(runs)
    ensures Refused !in runs[0].fates && NoneRefused(runs[1..])
  {
    assert runs[0] in runs && forall run :: run in runs[1..] ==> run in runs;
  }

  lemma SerialFirst(record: Record, runs: seq<Invocation>, base: Baseline)
    requires runs != [] && Serial(record, runs, base)
    ensures FreeOf(base.table, runs[0].plan) && (record.Saved? ==> record.pid != runs[0].pid)
  {
    hide FreeOf;
  }

  /**
   * What runs one after another make of the machine `h`. What is on disk is what was there or the record of one of
   * them; one that stopped cleanly was fully up; and with nothing in their way they all stop so.
   */
  ghost predicate RunsMake(h: Snapshot, runs: seq<Invocation>, exits: seq<Exit>, now: Snapshot, history: seq<Snapshot>,
                           platform: Platform, base: Baseline)
  {
    && |exits| == |runs|
    && LeftBy(now.record, h.record, runs, platform)
    && Onward(h, now, !NoneRefused(runs))
    && StoppedCameUp(exits, runs, history, platform, base)
    && (AllUnopposed(runs, platform, base) && Tidy(h, base) ==> AllStopped(exits) && Tidy(now, base))
  }

  lemma NothingRun(h: Snapshot, history: seq<Snapshot>, platform: Platform, base: Baseline)
    ensures RunsMake(h, [], [], h, history, platform, base)
  {
  }

  lemma OneRunMore(h: Snapshot, runs: seq<Invocation>, n: nat, exit: Exit, mid: Snapshot, midHistory: seq<Snapshot>,
                   rest: seq<Fate>, exits: seq<Exit>, now: Snapshot, history: seq<Snapshot>, platform: Platform, base: Baseline)
    requires runs != [] && n <= |midHistory| && midHistory <= history
    requires RunMakes(h, runs[0].fates, runs[0], exit, mid, rest, platform, base)
    requires exit.Stopped? && DeviceLost !in runs[0].fates ==> CameUp(midHistory[n..], platform, runs[0].plan, base)
    requires RunsMake(mid, runs[1..], exits, now, history, platform, base)
    ensures RunsMake(h, runs, [exit] + exits, now, history, platform, base)
  {
    RunMade(h, runs[0], exit, mid, rest, platform, base);
    hide RunMakes, LeftBy, Onward, CameUp, StoppedCameUp, AllUnopposed, Tidy, AllStopped, NoneRefused, Smooth;
    LeftByRest(now.record, mid.record, h.record, runs, platform);
    if NoneRefused(runs) {
      NoneRefusedRest(runs);
    }
    OnwardThen(h, mid, now, Refused in runs[0].fates, !NoneRefused(runs[1..]), !NoneRefused(runs));
    StoppedCameUpRest(exits, exit, runs, n, midHistory, history, platform, base);
    AllStoppedToo(exits, exit);
    if AllUnopposed(runs, platform, base) && Tidy(h, base) {
      FirstIsSmooth(h, runs, platform, base);
    }
  }

  /** Any number of runs, one after another, each killed at any effect or not at all. */
  method RunAllOf(host: Host, runs: seq<Invocation>) returns (exits: seq<Exit>)
    requires host.Valid() && Serial(host.record, runs, host.base)
    modifies host
    ensures host.Valid() && old(host.history) <= host.history && old(host.moves) <= host.moves
    ensures RunsMake(old(host.Now()), runs, exits, host.Now(), host.history, host.platform, host.base)
    decreases |runs|
  {
    ghost var h, n := host.Now(), |host.history|;
    NowIs(host);
    if runs == [] {
      NothingRun(h, host.history, host.platform, host.base);
      hide *;
      return [];
    }
    SerialFirst(host.record, runs, host.base);
    hide *;
    var exit := Run(host, runs[0]);
    NowIs(host);
    ghost var mid, history, rest := host.Now(), host.history, host.fates;
    RunMade(h, runs[0], exit, mid, rest, host.platform, host.base);
    SerialRest(h.record, mid.record, runs, host.platform, host.base);
    exits := RunAllOf(host, runs[1..]);
    OneRunMore(h, runs, n, exit, mid, history, rest, exits, host.Now(), host.history, host.platform, host.base);
    exits := [exit] + exits;
  }

  /** What one run of several leaves to the next. */
  lemma RunMade(h: Snapshot, run: Invocation, exit: Exit, now: Snapshot, rest: seq<Fate>, platform: Platform, base: Baseline)
    requires RunMakes(h, run.fates, run, exit, now, rest, platform, base)
    ensures Onward(h, now, Refused in run.fates) && (now.record == h.record || IsRecordOf(now.record, run, platform))
    ensures Smooth(h, run, platform, base) && !run.lateFailure ==> exit.Stopped? && Tidy(now, base)
  {
    hide AtBase, Spent, Smooth, Onward, IsRecordOf;
  }

  lemma NowIs(host: Host)
    ensures host.Now().record == host.record && host.Now().sys == host.sys
  {
  }

  lemma AllStoppedToo(exits: seq<Exit>, exit: Exit)
    ensures AllStopped([exit] + exits) <==> exit.Stopped? && AllStopped(exits)
  {
    assert ([exit] + exits)[0] == exit;
    assert forall e :: e in exits ==> e in [exit] + exits;
  }

  lemma AllCameUpStill(before: seq<Snapshot>, now: seq<Snapshot>, platform: Platform, runs: seq<Invocation>, base: Baseline)
    requires before <= now
    ensures forall run :: run in runs && CameUp(before, platform, run.plan, base) ==> CameUp(now, platform, run.plan, base)
  {
    forall run | run in runs
      ensures CameUp(before, platform, run.plan, base) ==> CameUp(now, platform, run.plan, base)
    {
      CameUpStill(before, now, platform, run.plan, base);
    }
  }

  lemma CameUpLater(history: seq<Snapshot>, n: nat, platform: Platform, plan: RoutePlan, base: Baseline)
    requires n <= |history|
    ensures CameUp(history[n..], platform, plan, base) ==> CameUp(history, platform, plan, base)
  {
    if CameUp(history[n..], platform, plan, base) {
      var h :| h in history[n..] && FullyUp(h, platform, plan, base);
      assert h in history;
    }
  }

  /**
   * Crash safety. Any number of runs, one after another, each killed at any effect or not at all, and
   * then a recovery with fates of its own. If no effect of theirs was refused and the recovery lasts, the
   * machine has its baseline routes and resolver file; and it was safe at every moment in between.
   */
  method RunsThenRecovery(host: Host, runs: seq<Invocation>, name: string, pid: nat, alive: bool, fates: seq<Fate>)
    returns (exits: seq<Exit>, r: Recovery, ghost left: Record)
    requires host.Valid() && !Astray(host.Now()) && Serial(host.record, runs, host.base)
    requires NotOfBase(name, host.base)
    requires host.record.Saved? ==> host.record.pid != pid
    requires forall i :: 0 <= i < |runs| ==> runs[i].pid != pid
    modifies host
    ensures host.Valid() && old(host.history) <= host.history && old(host.moves) <= host.moves
    ensures |exits| == |runs| && StoppedCameUp(exits, runs, host.history, host.platform, host.base)
    ensures AllUnopposed(runs, host.platform, host.base) && old(host.record).Absent? ==>
              AllStopped(exits) && r.NothingRecorded?
    // The answer is decided by what the runs left, whether its pid lives, and whether the recovery is killed.
    ensures LeftBy(left, old(host.record), runs, host.platform)
    ensures r == match left {
              case Absent => NothingRecorded
              case Corrupt => Unreadable
              case Saved(_, _, _) =>
                if alive then StillRunning else if Survives(fates, RecoveryEffects(left)) then Recovered else DiedRecovering
            }
    ensures left.Saved? && r.Recovered? ==>
              |left.revert| < |fates| && (host.record.Absent? <==> Works(fates[|left.revert|]))
    // Until an undo command that mattered is refused every moment is safe, and an answer but a refusal means the baseline.
    ensures NoneRefused(runs) && Refused !in fates ==> !host.thwarted
    ensures !host.thwarted ==> forall h :: h in host.history ==> Safe(h, host.platform, host.base)
    ensures !host.thwarted && !r.StillRunning? && !r.DiedRecovering? ==> AtBase(host.sys, host.base)
    // So the baseline can be promised before the first run starts.
    ensures NoneRefused(runs) && Outlasts(fates, old(host.record), runs, host.platform) && !alive ==>
              AtBase(host.sys, host.base) && !host.record.Saved?
  {
    assert host.record.Absent? ==> Tidy(host.Now(), host.base);
    exits := RunAllOf(host, runs);
    left := host.record;
    host.fates := fates;
    ghost var before := host.history;
    NotOwn(left, old(host.record), runs, pid, host.platform);
    if Outlasts(fates, old(host.record), runs, host.platform) {
      OutlastsWhatIsLeft(fates, left, old(host.record), runs, host.platform);
    }
    hide Safe, AtBase, IsHistory, RecordFits, FullyUp, CameUp, Undisturbed, Survives, NoneRefused, RunSome, Refusals;
    hide StoppedCameUp, AllStopped, AllUnopposed, LeftBy, IsRecordOf, Serial, NotOfBase, RecoveryEffects, Outlasts, IsTold;
    r := host.RecoverIfStale(name, pid, alive);
    StillStoppedCameUp(exits, runs, before, host.history, host.platform, host.base);
    SafeThroughout(host);
  }

  lemma StillStoppedCameUp(exits: seq<Exit>, runs: seq<Invocation>, before: seq<Snapshot>, now: seq<Snapshot>,
                           platform: Platform, base: Baseline)
    requires |exits| <= |runs| && before <= now && StoppedCameUp(exits, runs, before, platform, base)
    ensures StoppedCameUp(exits, runs, now, platform, base)
  {
    AllCameUpStill(before, now, platform, runs, base);
    hide CameUp;
  }

  lemma NotOwn(left: Record, before: Record, runs: seq<Invocation>, pid: nat, platform: Platform)
    requires LeftBy(left, before, runs, platform)
    requires before.Saved? ==> before.pid != pid
    requires forall i :: 0 <= i < |runs| ==> runs[i].pid != pid
    ensures left.Saved? ==> left.pid != pid
  {
  }

  /** A machine that is not astray has been safe at every moment. */
  lemma SafeThroughout(host: Host)
    requires host.Valid()
    ensures !Astray(host.Now()) ==> forall h :: h in host.history ==> Safe(h, host.platform, host.base)
  {
    if !Astray(host.Now()) {
      NeverAstrayBefore(host.history, host.moves, |host.history| - 1, host.platform, host.base);
    }
  }

  /** A machine that is not astray has never been. */
  lemma {:induction false} NeverAstrayBefore(history: seq<Snapshot>, moves: seq<Move>, k: nat, platform: Platform, base: Baseline)
    requires IsHistory(history, moves, platform, base) && k < |history| && !Astray(history[k])
    ensures forall i :: 0 <= i <= k ==> !Astray(history[i])
  {
    if k > 0 {
      var i := k - 1;
      assert history[i + 1] == After(history[i], moves[i], platform, base);
      NeverAstrayBefore(history, moves, k - 1, platform, base);
    }
  }

  /** At every safe moment the server of the recorded plan is reached outside the tunnel. */
  lemma SafeMeansServerReachable(h: Snapshot, platform: Platform, base: Baseline)
    requires Safe(h, platform, base)
    requires FreeOf(base.table, h.plan)
    requires h.plan.mode.Default?
    ensures Lookup(h.sys.table, h.plan.serverIp) != Some(Dev(h.plan.interface))
  {
    EscapeRouteReachesServer(h.sys.table, h.plan);
  }

  /** At every safe moment, the machine is at its baseline or replaying the record restores it exactly. */
  lemma SafeMeansRecoverable(h: Snapshot, platform: Platform, base: Baseline)
    requires Safe(h, platform, base)
    ensures AtBase(h.sys, base) || (h.record.Saved? && AtBase(RunAll(h.sys, h.record.revert), base))
  {
    if h.record.Saved? {
      RevertListIsUndo(platform, h.plan);
      ReplayRestoresExactlyWhen(h.sys, h.record.revert, base);
    }
  }

  /** Resolver settings made through `networksetup` are reset, not restored: exact only if there were none. */
  lemma MacDnsRestoredExactlyWhen(s: Sys, plan: RoutePlan)
    requires plan.mode.Default?
    requires Completes(s, MacOs, plan)
    ensures var apply := ApplyList(MacOs, plan);
            RunAll(RunFirst(s, apply, |apply|), RevertList(MacOs, plan)).wifiDns == s.wifiDns <==> s.wifiDns == []
  {
    var apply, revert := ApplyList(MacOs, plan), RevertList(MacOs, plan);
    RevertListIsUndo(MacOs, plan);
    ReplayIsAFilter(RunFirst(s, apply, |apply|), revert);
    assert revert[|revert| - 1] == SetDnsServers([]);
  }

  /**
   * The resolver file when the backup was left by an outside edit. A crash straight after the record is
   * written restores the file exactly when the backup was absent or already equal to it.
   */
  lemma ResolverSurvivesEarlyCrashExactlyWhen(s: Sys, plan: RoutePlan)
    requires plan.mode.Default?
    ensures RunAll(s, RevertList(Linux, plan)).resolv == s.resolv <==> s.backup.None? || s.backup == s.resolv
  {
    var revert := RevertList(Linux, plan);
    RevertListIsUndo(Linux, plan);
    ReplayIsAFilter(s, revert);
    assert revert[|revert| - 1] == CopyFile(Backup, ResolvConf);
  }
}
