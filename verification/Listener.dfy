/** Any number of helpers contending for one socket path: `flock`, unlink, bind, stat, drop and kill, interleaved. */
module Listener {
  import opened Net

  type Pid = nat
  type Inode = nat

  /** How far a helper has got. `id` is the inode its socket file had when it bound it. */
  datatype Stage =
    | Starting
    | LockOpen            // the lockfile is open, not locked
    | Locked              // holds the lock; whatever is at the path is debris
    | Cleared             // the path has been unlinked
    | Bound(id: Inode)    // the socket file exists, its identity not yet recorded
    | Bailing             // the stat failed: about to unlink and give up
    | Live(id: Inode)     // the `Listener` value exists
    | Dropping(id: Inode) // its drop has found the path to be its own file
    | Releasing           // nothing left but to let go of the lock
    | Ended(refused: bool)

  datatype Helper = Helper(stage: Stage, lockFd: Option<Inode>)

  /** The path and the lockfile as directory entries, the locks the kernel holds, and every helper ever started. */
  datatype World = World(
    path: Option<Inode>,
    lockfile: Option<Inode>,
    locks: map<Inode, Pid>,
    helpers: map<Pid, Helper>
  )

  datatype Act =
    | Spawn
    | OpenLock(created: Inode)   // the inode the lockfile gets if it has to be created
    | OpenFails
    | Flock
    | LockFails                  // for a reason other than that somebody holds it
    | RemoveStale
    | RemoveFails
    | BindSocket(created: Inode) // any inode, one used before included
    | BindFails(left: Option<Inode>) // `listen` may be what failed, with the socket file already made
    | StatOk
    | StatFails
    | Bail
    | StartDrop                  // on shutdown, or when a step after the stat fails
    | DropUnlink
    | Release
    | Kill

  predicate Holds(s: Stage) {
    s.Locked? || s.Cleared? || s.Bound? || s.Bailing? || s.Live? || s.Dropping? || s.Releasing?
  }

  function Unlock(w: World, p: Pid): map<Inode, Pid> {
    map i | i in w.locks && w.locks[i] != p :: w.locks[i]
  }

  function At(w: World, p: Pid, s: Stage): World
    requires p in w.helpers
  {
    w.(helpers := w.helpers[p := w.helpers[p].(stage := s)])
  }

  predicate Enabled(w: World, p: Pid, a: Act) {
    if a.Spawn? then p !in w.helpers
    else
      && p in w.helpers
      && var s := w.helpers[p].stage;
         match a
         case OpenLock(_) => s.Starting?
         case OpenFails => s.Starting?
         case Flock => s.LockOpen? && w.helpers[p].lockFd.Some?
         case LockFails => s.LockOpen?
         case RemoveStale => s.Locked?
         case RemoveFails => s.Locked?
         case BindSocket(_) => s.Cleared?
         case BindFails(_) => s.Cleared?
         case StatOk => s.Bound? && w.path.Some?
         case StatFails => s.Bound?
         case Bail => s.Bailing?
         case StartDrop => s.Live?
         case DropUnlink => s.Dropping?
         case Release => s.Releasing?
         case Kill => !s.Ended?
         case Spawn => false
  }

  /** One atomic step of helper `p`. */
  function Step(w: World, p: Pid, a: Act): World
    requires Enabled(w, p, a)
  {
    match a
    case Spawn => w.(helpers := w.helpers[p := Helper(Starting, None)])
    case OpenLock(created) =>
      var ino := if w.lockfile.Some? then w.lockfile.value else created;
      w.(lockfile := Some(ino), helpers := w.helpers[p := Helper(LockOpen, Some(ino))])
    case OpenFails => At(w, p, Ended(false))
    case Flock =>
      var ino := w.helpers[p].lockFd.value;
      if ino in w.locks then At(w, p, Ended(true))
      else At(w, p, Locked).(locks := w.locks[ino := p])
    case LockFails => At(w, p, Ended(false))
    case RemoveStale => At(w, p, Cleared).(path := None)
    case RemoveFails => At(w, p, Releasing)
    case BindSocket(created) =>
      if w.path.Some? then At(w, p, Releasing) else At(w, p, Bound(created)).(path := Some(created))
    case BindFails(left) => At(w, p, Releasing).(path := if w.path.Some? then w.path else left)
    case StatOk => At(w, p, Live(w.path.value))
    case StatFails => At(w, p, Bailing)
    case Bail => At(w, p, Releasing).(path := None)
    case StartDrop =>
      if w.path == Some(w.helpers[p].stage.id) then At(w, p, Dropping(w.helpers[p].stage.id)) else At(w, p, Releasing)
    case DropUnlink => At(w, p, Releasing).(path := None)
    case Release => At(w, p, Ended(false)).(locks := Unlock(w, p))
    case Kill => At(w, p, Ended(false)).(locks := Unlock(w, p))
  }

  ghost predicate Next(w: World, w': World) {
    exists p, a :: Enabled(w, p, a) && w' == Step(w, p, a)
  }

  /** A machine with debris at the path, perhaps, and a lockfile left from before, perhaps, but no helper. */
  predicate Init(w: World) {
    w.locks == map[] && w.helpers == map[]
  }

  ghost predicate IsRun(ws: seq<World>) {
    && ws != []
    && Init(ws[0])
    && forall i :: 0 <= i < |ws| - 1 ==> Next(ws[i], ws[i + 1])
  }

  /** What a helper at stage `s` may count on finding at the path. */
  predicate PathMatches(s: Stage, path: Option<Inode>) {
    && (s.Cleared? ==> path.None?)
    && (s.Bound? || s.Live? || s.Dropping? ==> path == Some(s.id))
  }

  /** Every lock is on the one lockfile, and its holder is at a stage that holds it. */
  ghost predicate LocksOk(w: World) {
    && (forall i :: i in w.locks ==> w.lockfile == Some(i) && w.locks[i] in w.helpers && Holds(w.helpers[w.locks[i]].stage))
    && (forall p :: p in w.helpers ==> HelperOk(w, w.helpers[p], p))
  }

  predicate HelperOk(w: World, h: Helper, p: Pid) {
    && (h.lockFd.Some? ==> h.lockFd == w.lockfile)
    && (h.stage.LockOpen? ==> h.lockFd.Some?)
    && (Holds(h.stage) ==> h.lockFd.Some? && h.lockFd.value in w.locks && w.locks[h.lockFd.value] == p)
  }

  ghost predicate PathOk(w: World) {
    forall p :: p in w.helpers ==> PathMatches(w.helpers[p].stage, w.path)
  }

  ghost predicate Inv(w: World) {
    LocksOk(w) && PathOk(w)
  }

  lemma OneHelperMoves(w: World, w': World, p: Pid, h: Helper)
    requires LocksOk(w)
    requires w' == w.(path := w'.path, helpers := w.helpers[p := h])
    requires HelperOk(w, h, p)
    requires p in w.helpers && Holds(w.helpers[p].stage) ==> Holds(h.stage)
    ensures LocksOk(w')
  {
  }

  lemma StepKeepsLocks(w: World, p: Pid, a: Act)
    requires LocksOk(w) && Enabled(w, p, a)
    ensures LocksOk(Step(w, p, a))
  {
    var w' := Step(w, p, a);
    assert p in w.helpers ==> HelperOk(w, w.helpers[p], p);
    if a.Release? || a.Kill? {
      UnlockKeepsLocks(w, w', p);
    } else if a.OpenLock? || a.Flock? {
      assert forall q :: q in w.helpers && q != p ==> w'.helpers[q] == w.helpers[q] && HelperOk(w, w.helpers[q], q);
    } else {
      OneHelperMoves(w, w', p, w'.helpers[p]);
    }
  }

  lemma UnlockKeepsLocks(w: World, w': World, p: Pid)
    requires LocksOk(w) && p in w.helpers
    requires w' == At(w, p, Ended(false)).(locks := Unlock(w, p))
    ensures LocksOk(w')
  {
    assert forall q :: q in w.helpers && q != p ==> w'.helpers[q] == w.helpers[q] && HelperOk(w, w.helpers[q], q);
    assert HelperOk(w, w.helpers[p], p);
  }

  /** Only the lock's holder touches the path, so what one helper does to it breaks no other's expectation. */
  lemma StepKeepsPath(w: World, p: Pid, a: Act)
    requires Inv(w) && Enabled(w, p, a)
    ensures PathOk(Step(w, p, a))
  {
    var w' := Step(w, p, a);
    if w'.path != w.path {
      assert Holds(w.helpers[p].stage);
      forall q | q in w.helpers && q != p
        ensures !Holds(w.helpers[q].stage)
      {
        assert HelperOk(w, w.helpers[q], q) && HelperOk(w, w.helpers[p], p);
      }
    }
  }

  lemma StepKeepsInv(w: World, p: Pid, a: Act)
    requires Inv(w) && Enabled(w, p, a)
    ensures Inv(Step(w, p, a))
  {
    StepKeepsLocks(w, p, a);
    StepKeepsPath(w, p, a);
  }

  /** The invariant holds at every moment of every run. */
  lemma {:induction false} EveryMoment(ws: seq<World>, k: nat)
    requires IsRun(ws) && k < |ws|
    ensures Inv(ws[k])
  {
    if k > 0 {
      EveryMoment(ws, k - 1);
      assert Next(ws[k - 1], ws[k - 1 + 1]);
      var p, a :| Enabled(ws[k - 1], p, a) && ws[k] == Step(ws[k - 1], p, a);
      StepKeepsInv(ws[k - 1], p, a);
    }
  }

  /** At most one helper holds the path at a time. */
  lemma AtMostOneOwner(ws: seq<World>, k: nat, p: Pid, q: Pid)
    requires IsRun(ws) && k < |ws|
    requires p in ws[k].helpers && Holds(ws[k].helpers[p].stage)
    requires q in ws[k].helpers && Holds(ws[k].helpers[q].stage)
    ensures p == q
  {
    EveryMoment(ws, k);
  }

  /** A live helper's socket file is the one at the path, and no other helper's step changes that. */
  lemma LiveSocketIsNeverStolen(ws: seq<World>, k: nat, g: Pid, p: Pid, a: Act)
    requires IsRun(ws) && k < |ws|
    requires g in ws[k].helpers && ws[k].helpers[g].stage.Live?
    requires Enabled(ws[k], p, a) && p != g
    ensures ws[k].path == Some(ws[k].helpers[g].stage.id)
    ensures Step(ws[k], p, a).path == ws[k].path
    ensures Step(ws[k], p, a).helpers[g] == ws[k].helpers[g]
  {
    EveryMoment(ws, k);
  }

  /** The whole of `bind`, undisturbed: it ends live, or refused. */
  function SoloBind(w: World, p: Pid, lockIno: Inode, sockIno: Inode): World
    requires p !in w.helpers
  {
    var w1 := Step(w, p, Spawn);
    var w2 := Step(w1, p, OpenLock(lockIno));
    var w3 := Step(w2, p, Flock);
    if w3.helpers[p].stage.Ended? then w3
    else
      var w4 := Step(w3, p, RemoveStale);
      var w5 := Step(w4, p, BindSocket(sockIno));
      Step(w5, p, StatOk)
  }

  /** A bind started at any moment succeeds exactly when no helper holds the path, whatever killed helpers left behind. */
  lemma BindSucceedsExactlyWhenUnowned(ws: seq<World>, k: nat, p: Pid, lockIno: Inode, sockIno: Inode)
    requires IsRun(ws) && k < |ws|
    requires p !in ws[k].helpers
    ensures var w' := SoloBind(ws[k], p, lockIno, sockIno);
            w'.helpers[p].stage == Live(sockIno) && w'.path == Some(sockIno) <==>
            forall g :: g in ws[k].helpers ==> !Holds(ws[k].helpers[g].stage)
  {
    EveryMoment(ws, k);
    var w := ws[k];
    if w.lockfile.Some? && w.lockfile.value in w.locks {
      assert Holds(w.helpers[w.locks[w.lockfile.value]].stage);
    }
  }

  /** Killing the owner, at any stage, leaves the path free to be bound again. */
  lemma KilledOwnerNeverBlocks(ws: seq<World>, k: nat, g: Pid, p: Pid, lockIno: Inode, sockIno: Inode)
    requires IsRun(ws) && k < |ws|
    requires g in ws[k].helpers && Holds(ws[k].helpers[g].stage)
    requires p !in ws[k].helpers
    ensures var w := Step(ws[k], g, Kill);
            SoloBind(w, p, lockIno, sockIno).helpers[p].stage == Live(sockIno)
  {
    var run := ws[..k + 1] + [Step(ws[k], g, Kill)];
    forall i | 0 <= i < |run| - 1
      ensures Next(run[i], run[i + 1])
    {
      if i < k {
        assert Next(ws[i], ws[i + 1]);
      } else {
        assert Enabled(ws[k], g, Kill);
      }
    }
    EveryMoment(ws, k);
    BindSucceedsExactlyWhenUnowned(run, k + 1, p, lockIno, sockIno);
  }

  /** An orderly end leaves nothing at the path. */
  lemma DropCleansUp(ws: seq<World>, k: nat, g: Pid)
    requires IsRun(ws) && k < |ws|
    requires g in ws[k].helpers && ws[k].helpers[g].stage.Live?
    ensures var w1 := Step(ws[k], g, StartDrop);
            w1.helpers[g].stage.Dropping? &&
            var w3 := Step(Step(w1, g, DropUnlink), g, Release);
            w3.path.None? && w3.locks == map[]
  {
    EveryMoment(ws, k);
    var w := ws[k];
    var w3 := Step(Step(Step(w, g, StartDrop), g, DropUnlink), g, Release);
    assert forall i :: i in w.locks ==> w.locks[i] == g;
    assert w3.locks.Keys == {};
  }

  /**
   * Why the lockfile is never removed: were an outsider to remove it while a helper is live, a second
   * helper would lock a new one, unlink the first one's socket and be live beside it.
   */
  lemma RemovingTheLockfileAdmitsTwoOwners(ws: seq<World>, k: nat, g: Pid, p: Pid, lockIno: Inode, sockIno: Inode)
    requires IsRun(ws) && k < |ws|
    requires g in ws[k].helpers && ws[k].helpers[g].stage.Live?
    requires p !in ws[k].helpers
    requires Some(lockIno) != ws[k].lockfile && Some(sockIno) != ws[k].path
    ensures var w' := SoloBind(ws[k].(lockfile := None), p, lockIno, sockIno);
            && w'.helpers[g].stage.Live? && w'.helpers[p].stage.Live?
            && w'.path != Some(w'.helpers[g].stage.id)
  {
    EveryMoment(ws, k);
  }

  /** The call of its own that a bind fails at. `AtSetup` is giving the socket its mode and owner. */
  datatype Fault = AtOpen | AtLock | AtRemove | AtBind(left: Option<Inode>) | AtStat | AtSetup

  /** The machine the helpers share. Each method is one call, during which other helpers may run before it takes effect. */
  class Kernel {
    var w: World

    constructor (w: World)
      requires Init(w)
      ensures this.w == w && Inv(w)
    {
      this.w := w;
    }

    /** Whatever other helpers do meanwhile: any steps they are able to take. */
    method Others(p: Pid, steps: seq<(Pid, Act)>)
      requires Inv(w) && p in w.helpers
      modifies this
      ensures Inv(w) && p in w.helpers && w.helpers[p] == old(w.helpers[p])
      ensures Holds(w.helpers[p].stage) ==> forall g :: g in w.helpers && g != p ==> !Holds(w.helpers[g].stage)
      ensures Holds(w.helpers[p].stage) ==> w.path == old(w.path)
    {
      for i := 0 to |steps|
        invariant Inv(w) && p in w.helpers && w.helpers[p] == old(w.helpers[p])
        invariant Holds(w.helpers[p].stage) ==> w.path == old(w.path)
      {
        var (g, a) := steps[i];
        if g != p && Enabled(w, g, a) {
          StepKeepsInv(w, g, a);
          w := Step(w, g, a);
        }
      }
    }

    /** The lockfile is opened, and created if it is not there. */
    method OpenLock(p: Pid, created: Inode, ok: bool, others: seq<(Pid, Act)>)
      requires Inv(w) && p in w.helpers && w.helpers[p].stage.Starting?
      modifies this
      ensures Inv(w) && p in w.helpers
      ensures w.helpers[p].stage == if ok then LockOpen else Ended(false)
      ensures p !in w.locks.Values
    {
      Others(p, others);
      var a := if ok then Act.OpenLock(created) else OpenFails;
      StepKeepsInv(w, p, a);
      w := Step(w, p, a);
    }

    /** The lock, without waiting for it. */
    method Flock(p: Pid, ok: bool, others: seq<(Pid, Act)>) returns (held: bool)
      requires Inv(w) && p in w.helpers && w.helpers[p].stage.LockOpen?
      modifies this
      ensures Inv(w) && p in w.helpers
      ensures w.helpers[p].stage == if held then Locked else Ended(ok)
      ensures held ==> ok
      ensures !held ==> p !in w.locks.Values
      ensures ok && !held ==> exists g :: g in w.helpers && Holds(w.helpers[g].stage)
    {
      Others(p, others);
      var a := if ok then Act.Flock else LockFails;
      StepKeepsInv(w, p, a);
      w := Step(w, p, a);
      held := w.helpers[p].stage.Locked?;
    }

    /** `remove_file` on the path, with nothing there being as good. */
    method RemoveStale(p: Pid, ok: bool, others: seq<(Pid, Act)>)
      requires Inv(w) && p in w.helpers && w.helpers[p].stage.Locked?
      modifies this
      ensures Inv(w) && p in w.helpers
      ensures w.helpers[p].stage == if ok then Cleared else Releasing
    {
      Others(p, others);
      var a := if ok then Act.RemoveStale else RemoveFails;
      StepKeepsInv(w, p, a);
      w := Step(w, p, a);
    }

    /** `bind` and `listen` in one. With the lock held and the path cleared, the path is never occupied. */
    method BindSocket(p: Pid, a: Act, others: seq<(Pid, Act)>)
      requires a.BindSocket? || a.BindFails?
      requires Inv(w) && p in w.helpers && w.helpers[p].stage.Cleared?
      modifies this
      ensures Inv(w) && p in w.helpers
      ensures w.helpers[p].stage == if a.BindSocket? then Bound(a.created) else Releasing
      ensures w.path == if a.BindSocket? then Some(a.created) else a.left
    {
      Others(p, others);
      StepKeepsInv(w, p, a);
      w := Step(w, p, a);
    }

    method Stat(p: Pid, ok: bool, others: seq<(Pid, Act)>)
      requires Inv(w) && p in w.helpers && w.helpers[p].stage.Bound?
      modifies this
      ensures Inv(w) && p in w.helpers
      ensures w.helpers[p].stage == if ok then Live(old(w.helpers[p].stage.id)) else Bailing
      ensures w.path == old(w.path)
    {
      Others(p, others);
      var a := if ok then StatOk else StatFails;
      StepKeepsInv(w, p, a);
      w := Step(w, p, a);
    }

    /** The unlink of a bind that cannot go on. */
    method Bail(p: Pid, others: seq<(Pid, Act)>)
      requires Inv(w) && p in w.helpers && w.helpers[p].stage.Bailing?
      modifies this
      ensures Inv(w) && p in w.helpers && w.helpers[p].stage.Releasing? && w.path.None?
    {
      Others(p, others);
      StepKeepsInv(w, p, Act.Bail);
      w := Step(w, p, Act.Bail);
    }

    method Release(p: Pid, others: seq<(Pid, Act)>)
      requires Inv(w) && p in w.helpers && w.helpers[p].stage.Releasing?
      modifies this
      ensures Inv(w) && p in w.helpers && w.helpers[p].stage == Ended(false)
      ensures w.path == old(w.path) && p !in w.locks.Values
    {
      Others(p, others);
      StepKeepsInv(w, p, Act.Release);
      w := Step(w, p, Act.Release);
    }

    /**
     * `Listener::bind`, amid interference before every call. It ends with the path its own, or having
     * let go of the lock; it is refused only by another holder, and fails otherwise only if a call of its own did.
     */
    method Bind(p: Pid, lockIno: Inode, sockIno: Inode, fault: Option<Fault>, others: seq<seq<(Pid, Act)>>)
      returns (live: bool)
      requires Inv(w) && p in w.helpers && w.helpers[p].stage.Starting?
      requires |others| == 8
      modifies this
      ensures Inv(w) && p in w.helpers
      ensures live ==> fault.None? && w.helpers[p].stage == Live(sockIno) && w.path == Some(sockIno)
      ensures !live ==> w.helpers[p].stage.Ended? && p !in w.locks.Values
      // Refused, there is a holder; and only a fault before the lock comes ahead of a refusal.
      ensures !live && w.helpers[p].stage.refused ==> exists g :: g in w.helpers && Holds(w.helpers[g].stage)
      ensures fault.None? && !live ==> w.helpers[p].stage.refused
      ensures fault == Some(AtOpen) || fault == Some(AtLock) ==> w.helpers[p].stage == Ended(false)
      // From the moment its own socket file is bound, a bind that fails removes it; before, there is what `listen` left.
      ensures (fault == Some(AtStat) || fault == Some(AtSetup)) && !w.helpers[p].stage.refused ==> w.path.None?
      ensures fault.Some? && fault.value.AtBind? && !w.helpers[p].stage.refused ==> w.path == fault.value.left
    {
      hide *;
      OpenLock(p, lockIno, fault != Some(AtOpen), others[0]);
      if fault == Some(AtOpen) {
        return false;
      }
      var held := Flock(p, fault != Some(AtLock), others[1]);
      if !held {
        return false;
      }
      RemoveStale(p, fault != Some(AtRemove), others[2]);
      if fault == Some(AtRemove) {
        Release(p, others[3]);
        return false;
      }
      if fault.Some? && fault.value.AtBind? {
        BindSocket(p, Act.BindFails(fault.value.left), others[3]);
        Release(p, others[4]);
        return false;
      }
      BindSocket(p, Act.BindSocket(sockIno), others[3]);
      Stat(p, fault != Some(AtStat), others[4]);
      if fault == Some(AtStat) {
        Bail(p, others[5]);
        Release(p, others[6]);
        return false;
      }
      if fault == Some(AtSetup) {
        Drop(p, others[5], others[6], others[7]);
        return false;
      }
      return true;
    }

    /** The drop of a `Listener`: it finds its own file at the path, unlinks it, and only then lets go of the lock. */
    method Drop(p: Pid, first: seq<(Pid, Act)>, second: seq<(Pid, Act)>, third: seq<(Pid, Act)>)
      requires Inv(w) && p in w.helpers && w.helpers[p].stage.Live?
      modifies this
      ensures Inv(w) && p in w.helpers && w.helpers[p].stage == Ended(false)
      ensures old(w.path) == Some(old(w.helpers[p].stage.id)) && w.path.None? && p !in w.locks.Values
    {
      Others(p, first);
      StepKeepsInv(w, p, StartDrop);
      w := Step(w, p, StartDrop);
      Others(p, second);
      StepKeepsInv(w, p, DropUnlink);
      w := Step(w, p, DropUnlink);
      Release(p, third);
    }
  }
}
