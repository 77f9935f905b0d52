/** Any number of pilotctl processes working on one app: cmd/pilotctl/appstore_lock.go,
    lockAppInstall, around the steps of recovery, install and uninstall.

    Each step below is one system call or one file-system operation, so the laws hold for every
    interleaving. The lock file is an inode; a process opens the one its name points at, creating
    it if there is none, and takes flock(2) on it. Nothing deletes the file. One process may take
    the lock several times (a repair and then an install, or the apps of `upgrade --all`); each
    time is a tenure, and tenures are numbered. */
module InstallLock {
  import opened Common

  type Pid = nat
  type Ino = nat

  /** How far a tenure has come: recovery and the look at what is installed, staging being filled,
      the old dir set aside, the new one in place. */
  datatype Point = Looking | Filling | Swapping | Settling

  datatype Pc = Out | Opened(ino: Ino) | Held(ino: Ino, tenure: nat, at: Point) | Dead

  /** previous and staging are marked with the process and tenure that made them. */
  datatype Mark = Mark(pid: Pid, tenure: nat)

  datatype State = State(name: Option<Ino>, next: Ino, lock: map<Ino, Pid>, tenures: nat, pcs: map<Pid, Pc>,
                         previous: Option<Mark>, staging: Option<Mark>)

  function PcOf(s: State, p: Pid): Pc { if p in s.pcs then s.pcs[p] else Out }

  /** What is done under the lock: recovery restores or retires a previous dir and sweeps a staging
      dir; an install fills staging, sets the old dir aside, moves the new one in, puts the old one
      back or retires it, and discards staging; an uninstall removes the live dir. */
  datatype Work = Restore | Sweep | Fill | SetAside | MoveIn | PutBack | Retire | Discard | RemoveLive

  /** GiveUp: the wait is over, or the lock cannot be taken at all (a file system without flock). */
  datatype Step = Open | TryLock | GiveUp | Do(work: Work) | Unlock | Kill

  function Put(s: State, p: Pid, c: Pc): State { s.(pcs := s.pcs[p := c]) }

  /** Closing the descriptor, or dying, releases the lock. */
  function Release(s: State, p: Pid): State { s.(lock := map i | i in s.lock && s.lock[i] != p :: s.lock[i]) }

  /** What becomes of a dir beside the live one: it stays, goes, or is made. */
  datatype Change = Same | Gone | Made

  datatype Effect = Effect(at: Point, previous: Change, staging: Change)

  /** A file-system step in a tenure; one that does not apply where it is changes nothing. */
  function Act(at: Point, w: Work, noPrevious: bool, noStaging: bool): Effect {
    match w
    case Restore => if at.Looking? then Effect(at, Gone, Same) else Effect(at, Same, Same)
    case Sweep => if at.Looking? then Effect(at, Same, Gone) else Effect(at, Same, Same)
    case Fill => if at.Looking? && noStaging then Effect(Filling, Same, Made) else Effect(at, Same, Same)
    case SetAside => if at.Filling? && noPrevious then Effect(Swapping, Made, Same) else Effect(at, Same, Same)
    case MoveIn => if at.Filling? || at.Swapping? then Effect(Settling, Same, Gone) else Effect(at, Same, Same)
    case PutBack => if at.Swapping? || at.Settling? then Effect(at, Gone, Same) else Effect(at, Same, Same)
    case Retire => if at.Settling? then Effect(at, Gone, Same) else Effect(at, Same, Same)
    case Discard => if at.Looking? then Effect(at, Same, Same) else Effect(at, Same, Gone)
    case RemoveLive => Effect(at, Same, Same)
  }

  function Changed(m: Option<Mark>, c: Change, mine: Mark): Option<Mark> {
    match c case Same => m case Gone => None case Made => Some(mine)
  }

  function Works(s: State, p: Pid, c: Pc, w: Work): State
    requires c.Held?
  {
    var e := Act(c.at, w, s.previous.None?, s.staging.None?);
    var mine := Mark(p, c.tenure);
    Put(s.(previous := Changed(s.previous, e.previous, mine), staging := Changed(s.staging, e.staging, mine)),
        p, c.(at := e.at))
  }

  function Next(s: State, p: Pid, step: Step): State {
    var c := PcOf(s, p);
    if c.Dead? then s
    else match step
      case Kill => Put(Release(s, p), p, Dead)
      case Open =>
        if !c.Out? then s
        else if s.name.Some? then Put(s, p, Opened(s.name.value))
        else Put(s.(name := Some(s.next), next := s.next + 1), p, Opened(s.next))
      case TryLock =>
        if !c.Opened? then s
        else if c.ino in s.lock then s
        else Put(s.(lock := s.lock[c.ino := p], tenures := s.tenures + 1), p, Held(c.ino, s.tenures, Looking))
      case GiveUp => if c.Opened? then Put(s, p, Out) else s
      case Do(w) => if c.Held? then Works(s, p, c, w) else s
      case Unlock => if c.Held? then Put(Release(s, p), p, Out) else s
  }

  const EMPTY := State(None, 0, map[], 0, map[], None, None)

  /** A run: which process took which step, in what order. */
  function After(run: seq<(Pid, Step)>, k: nat): State
    requires k <= |run|
  {
    if k == 0 then EMPTY else Next(After(run, k - 1), run[k - 1].0, run[k - 1].1)
  }

  // ---------------------------------------------------------------- the invariant

  /** A process in its tenure made the mark only if it has come far enough. */
  predicate MarkFits(m: Option<Mark>, p: Pid, c: Pc, points: set<Point>) {
    m.Some? && c.Held? && m.value.tenure == c.tenure ==> m.value.pid == p && c.at in points
  }

  predicate Fits(s: State, p: Pid, c: Pc) {
    && (c.Opened? || c.Held? ==> s.name == Some(c.ino))
    && (c.Held? ==> c.ino in s.lock && s.lock[c.ino] == p && c.tenure < s.tenures)
    && MarkFits(s.previous, p, c, {Swapping, Settling})
    && MarkFits(s.staging, p, c, {Filling, Swapping})
  }

  ghost predicate Basics(s: State) {
    && (s.name.Some? ==> s.name.value < s.next)
    && (forall i :: i in s.lock ==> PcOf(s, s.lock[i]).Held? && PcOf(s, s.lock[i]).ino == i)
    && (s.previous.Some? ==> s.previous.value.tenure < s.tenures)
    && (s.staging.Some? ==> s.staging.value.tenure < s.tenures)
  }

  ghost predicate Inv(s: State) { Basics(s) && forall p :: Fits(s, p, PcOf(s, p)) }

  /** A dir is marked only by a tenure at the point that makes it, and moving on keeps that so. */
  lemma ActFits(at: Point, w: Work, noPrevious: bool, noStaging: bool)
    ensures var e := Act(at, w, noPrevious, noStaging);
      && (e.previous.Made? ==> e.at.Swapping?) && (e.staging.Made? ==> e.at.Filling?)
      && (at.Swapping? || at.Settling? ==> e.at.Swapping? || e.at.Settling?)
      && (at.Filling? || at.Swapping? ==> e.at.Filling? || e.at.Swapping? || e.staging.Gone?)
  {
  }

  lemma WorksKeep(s: State, p: Pid, w: Work, q: Pid)
    requires PcOf(s, p).Held? && Basics(s) && Fits(s, p, PcOf(s, p)) && Fits(s, q, PcOf(s, q))
    ensures Fits(Works(s, p, PcOf(s, p), w), q, PcOf(Works(s, p, PcOf(s, p), w), q))
  {
    var c := PcOf(s, p);
    ActFits(c.at, w, s.previous.None?, s.staging.None?);
    hide Act;
    assert q != p ==> !PcOf(s, q).Held?;
  }

  lemma BasicsKept(s: State, p: Pid, step: Step)
    requires Basics(s) && Fits(s, p, PcOf(s, p))
    ensures Basics(Next(s, p, step))
  {
    hide Act, MarkFits;
  }

  lemma FitsKept(s: State, p: Pid, step: Step, q: Pid)
    requires Basics(s) && Fits(s, p, PcOf(s, p)) && Fits(s, q, PcOf(s, q))
    ensures Fits(Next(s, p, step), q, PcOf(Next(s, p, step), q))
  {
    if step.Do? && PcOf(s, p).Held? {
      WorksKeep(s, p, step.work, q);
    }
    hide Works;
  }

  lemma {:induction false} Invariant(run: seq<(Pid, Step)>, k: nat)
    requires k <= |run|
    ensures Inv(After(run, k))
  {
    if k > 0 {
      Invariant(run, k - 1);
      var s, p, step := After(run, k - 1), run[k - 1].0, run[k - 1].1;
      hide Next, Fits, Basics;
      assert Fits(s, p, PcOf(s, p));
      BasicsKept(s, p, step);
      forall q ensures Fits(Next(s, p, step), q, PcOf(Next(s, p, step), q)) {
        FitsKept(s, p, step, q);
      }
    }
  }

  // ---------------------------------------------------------------- the laws

  predicate InTenure(s: State, p: Pid, t: nat) { PcOf(s, p).Held? && PcOf(s, p).tenure == t }

  /** At most one process is in its tenure, whatever the interleaving and whoever was killed. */
  lemma OneHolder(run: seq<(Pid, Step)>, k: nat, p: Pid, q: Pid)
    requires k <= |run| && PcOf(After(run, k), p).Held? && PcOf(After(run, k), q).Held?
    ensures p == q
  {
    hide After;
    Invariant(run, k);
    var s := After(run, k);
    assert Fits(s, p, PcOf(s, p)) && Fits(s, q, PcOf(s, q));
  }

  /** Only a holder changes the install root. */
  lemma OnlyHoldersTouch(s: State, p: Pid, step: Step)
    requires !PcOf(s, p).Held?
    ensures Next(s, p, step).previous == s.previous && Next(s, p, step).staging == s.staging
  {
  }

  lemma TenureEnds(s: State, q: Pid, step: Step, p: Pid, t: nat)
    requires t < s.tenures && !InTenure(s, p, t)
    ensures t < Next(s, q, step).tenures && !InTenure(Next(s, q, step), p, t)
  {
  }

  /** A tenure that is over never comes back. */
  lemma {:induction false} TenureStaysOver(run: seq<(Pid, Step)>, k: nat, m: nat, p: Pid, t: nat)
    requires k <= m <= |run| && t < After(run, k).tenures && !InTenure(After(run, k), p, t)
    ensures t < After(run, m).tenures && !InTenure(After(run, m), p, t)
    decreases m
  {
    hide Next, InTenure;
    if k < m {
      TenureStaysOver(run, k, m - 1, p, t);
      TenureEnds(After(run, m - 1), run[m - 1].0, run[m - 1].1, p, t);
    }
  }

  lemma TenureBegins(s: State, q: Pid, step: Step, t: nat)
    requires t < s.tenures
    ensures t < Next(s, q, step).tenures
  {
  }

  lemma {:induction false} TenuresGrow(run: seq<(Pid, Step)>, k: nat, m: nat, t: nat)
    requires k <= m <= |run| && t < After(run, k).tenures
    ensures t < After(run, m).tenures
    decreases m
  {
    hide Next;
    if k < m {
      TenuresGrow(run, k, m - 1, t);
      TenureBegins(After(run, m - 1), run[m - 1].0, run[m - 1].1, t);
    }
  }

  /** Between two moments of one tenure no other process is in a tenure: the file-system steps of
      all processes, in order, are whole tenures one after the other. */
  lemma TenuresDoNotInterleave(run: seq<(Pid, Step)>, i: nat, j: nat, k: nat, p: Pid, t: nat, q: Pid)
    requires i <= j <= k <= |run| && InTenure(After(run, i), p, t) && InTenure(After(run, k), p, t)
    requires PcOf(After(run, j), q).Held?
    ensures q == p && InTenure(After(run, j), p, t)
  {
    hide After;
    Invariant(run, i);
    assert Fits(After(run, i), p, PcOf(After(run, i), p));
    TenuresGrow(run, i, j, t);
    if !InTenure(After(run, j), p, t) {
      TenureStaysOver(run, j, k, p, t);
    }
    OneHolder(run, j, p, q);
  }

  /** The remnant a step of recovery acts on, if it is one. */
  function ActsOn(s: State, p: Pid, step: Step): Option<Mark> {
    if !(PcOf(s, p).Held? && PcOf(s, p).at.Looking?) then None
    else if step == Do(Restore) then s.previous
    else if step == Do(Sweep) then s.staging
    else None
  }

  /** Recovery acts only on what a tenure left that is over, by the maker's death or by its
      releasing the lock, and that stays over. */
  lemma RecoveryActsOnRemnants(run: seq<(Pid, Step)>, k: nat, p: Pid, step: Step, q: Pid, m: nat)
    requires k <= m <= |run| && ActsOn(After(run, k), p, step).Some?
    ensures !InTenure(After(run, m), q, ActsOn(After(run, k), p, step).value.tenure)
  {
    hide After, Next;
    Invariant(run, k);
    var s := After(run, k);
    assert Fits(s, p, PcOf(s, p)) && Fits(s, q, PcOf(s, q));
    TenureStaysOver(run, k, m, q, ActsOn(s, p, step).value.tenure);
  }

  /** The maker of a dir is dead or still in the tenure it was made in. */
  predicate Owned(s: State, m: Option<Mark>) {
    m.Some? ==> PcOf(s, m.value.pid).Dead? || InTenure(s, m.value.pid, m.value.tenure)
  }

  /** No process gives the lock back while a dir it made is still there. */
  ghost predicate LeavesNothing(run: seq<(Pid, Step)>) {
    forall k :: 0 <= k < |run| && run[k].1.Unlock? && PcOf(After(run, k), run[k].0).Held? ==>
      Unmarked(After(run, k), run[k].0, PcOf(After(run, k), run[k].0).tenure)
  }

  predicate Unmarked(s: State, p: Pid, t: nat) { s.previous != Some(Mark(p, t)) && s.staging != Some(Mark(p, t)) }

  lemma OwnedKept(s: State, p: Pid, step: Step)
    requires Owned(s, s.previous) && Owned(s, s.staging)
    requires step.Unlock? && PcOf(s, p).Held? ==> Unmarked(s, p, PcOf(s, p).tenure)
    ensures Owned(Next(s, p, step), Next(s, p, step).previous) && Owned(Next(s, p, step), Next(s, p, step).staging)
  {
    hide Act;
  }

  /** Then every remnant recovery acts on is a dead process's. */
  lemma {:induction false} RemnantsOfTheDead(run: seq<(Pid, Step)>, k: nat)
    requires k <= |run| && LeavesNothing(run)
    ensures Owned(After(run, k), After(run, k).previous) && Owned(After(run, k), After(run, k).staging)
    ensures forall p, step :: ActsOn(After(run, k), p, step).Some? ==>
              PcOf(After(run, k), ActsOn(After(run, k), p, step).value.pid).Dead?
  {
    hide Next;
    if k > 0 {
      RemnantsOfTheDead(run, k - 1);
      OwnedKept(After(run, k - 1), run[k - 1].0, run[k - 1].1);
    }
    forall p, step | ActsOn(After(run, k), p, step).Some?
      ensures PcOf(After(run, k), ActsOn(After(run, k), p, step).value.pid).Dead?
    {
      RecoveryActsOnRemnants(run, k, p, step, ActsOn(After(run, k), p, step).value.pid, k);
    }
  }

  /** The next step of p's recovery acts on the dir m marks. */
  predicate RecoversFrom(s: State, p: Pid, m: Mark) { Some(m) in {ActsOn(s, p, Do(Restore)), ActsOn(s, p, Do(Sweep))} }

  /** Otherwise not: whenever a process gives the lock back with its previous or staging dir in place,
      the next to take the lock recovers a dir of a process still running. */
  lemma MakerStillRuns(run: seq<(Pid, Step)>, k: nat, p: Pid, q: Pid)
    requires k + 3 <= |run| && run[k] == (p, Unlock) && run[k + 1] == (q, Open) && run[k + 2] == (q, TryLock) && p != q
    requires PcOf(After(run, k), p).Held? && PcOf(After(run, k), q).Out?
    requires !Unmarked(After(run, k), p, PcOf(After(run, k), p).tenure)
    ensures RecoversFrom(After(run, k + 3), q, Mark(p, PcOf(After(run, k), p).tenure))
    ensures PcOf(After(run, k + 3), p) == Out
  {
    var s := After(run, k);
    Invariant(run, k);
    assert Fits(s, p, PcOf(s, p));
    Unfold(run, k + 1);
    Unfold(run, k + 2);
    Unfold(run, k + 3);
    hide After;
    assert PcOf(s, p).ino !in After(run, k + 1).lock && After(run, k + 1).name == Some(PcOf(s, p).ino);
    assert ActsOn(After(run, k + 3), q, Do(Restore)) == s.previous && ActsOn(After(run, k + 3), q, Do(Sweep)) == s.staging;
  }

  lemma Unfold(run: seq<(Pid, Step)>, k: nat)
    requires 0 < k <= |run|
    ensures After(run, k) == Next(After(run, k - 1), run[k - 1].0, run[k - 1].1)
  {
  }

  lemma Staging(run: seq<(Pid, Step)>)
    requires |run| >= 3 && run[0] == (0, Open) && run[1] == (0, TryLock) && run[2] == (0, Do(Fill))
    ensures After(run, 3) == State(Some(0), 1, map[0 := 0], 1, map[0 := Held(0, 0, Filling)], None, Some(Mark(0, 0)))
  {
    assert After(run, 0) == EMPTY;
    Unfold(run, 1);
    Unfold(run, 2);
    Unfold(run, 3);
    hide After;
    assert After(run, 1) == State(Some(0), 1, map[], 0, map[0 := Opened(0)], None, None);
    assert After(run, 2) == State(Some(0), 1, map[0 := 0], 1, map[0 := Held(0, 0, Looking)], None, None);
  }

  lemma Swapped(run: seq<(Pid, Step)>)
    requires |run| >= 5 && run[3] == (0, Do(SetAside)) && run[4] == (0, Do(MoveIn))
    requires After(run, 3) == State(Some(0), 1, map[0 := 0], 1, map[0 := Held(0, 0, Filling)], None, Some(Mark(0, 0)))
    ensures PcOf(After(run, 5), 0) == Held(0, 0, Settling) && PcOf(After(run, 5), 1) == Out
    ensures After(run, 5).previous == Some(Mark(0, 0))
  {
    Unfold(run, 4);
    Unfold(run, 5);
    hide After;
    assert PcOf(After(run, 4), 0) == Held(0, 0, Swapping) && PcOf(After(run, 4), 1) == Out;
  }

  /** Such a moment is reached: an install that could not retire the dir it replaced is about to
      give the lock back, and its process may go on to another app. */
  lemma PreviousLeftBehind(run: seq<(Pid, Step)>)
    requires run == [(0, Open), (0, TryLock), (0, Do(Fill)), (0, Do(SetAside)), (0, Do(MoveIn)), (0, Unlock), (1, Open), (1, TryLock)]
    ensures RecoversFrom(After(run, 8), 1, Mark(0, 0))
    ensures PcOf(After(run, 8), 0) == Out
  {
    hide After, Next;
    Staging(run);
    Swapped(run);
    MakerStillRuns(run, 5, 0, 1);
  }

  /** So is one with a staging dir: an install that fails and cannot discard it, trapped by
      `upgrade --all`, which goes on to the next app. */
  lemma StagingLeftBehind(run: seq<(Pid, Step)>)
    requires run == [(0, Open), (0, TryLock), (0, Do(Fill)), (0, Unlock), (1, Open), (1, TryLock)]
    ensures RecoversFrom(After(run, 6), 1, Mark(0, 0))
    ensures PcOf(After(run, 6), 0) == Out
  {
    hide After, Next;
    Staging(run);
    MakerStillRuns(run, 3, 0, 1);
  }

  /** A dead process never makes, moves or removes anything again. */
  lemma {:induction false} DeadStayDead(run: seq<(Pid, Step)>, k: nat, m: nat, p: Pid)
    requires k <= m <= |run| && PcOf(After(run, k), p).Dead?
    ensures PcOf(After(run, m), p).Dead?
    decreases m
  {
    if k < m {
      DeadStayDead(run, k, m - 1, p);
      hide Works;
      Unfold(run, m);
      hide After;
    }
  }

  /** A kill never leaves the app locked: as soon as no live process is in its tenure, the next one
      that tries gets the lock. */
  lemma LockNeverStuck(run: seq<(Pid, Step)>, k: nat, p: Pid)
    requires k <= |run| && PcOf(After(run, k), p).Opened? && forall q :: !PcOf(After(run, k), q).Held?
    ensures PcOf(Next(After(run, k), p, TryLock), p).Held?
  {
    hide After;
    Invariant(run, k);
  }

  /** A dir set aside or being filled is never overwritten: a step leaves it or takes it away. */
  lemma NeverOverwrites(s: State, p: Pid, step: Step)
    ensures s.previous.Some? ==> Next(s, p, step).previous in {None, s.previous}
    ensures s.staging.Some? ==> Next(s, p, step).staging in {None, s.staging}
  {
  }

  /** Waiting changes nothing: a process that finds the lock taken stays where it is or gives up. */
  lemma WaitingChangesNothing(s: State, p: Pid, ino: Ino)
    requires PcOf(s, p) == Opened(ino)
    ensures ino in s.lock ==> Next(s, p, TryLock) == s
    ensures Next(s, p, GiveUp) == Put(s, p, Out)
  {
  }

  /** What a holder's steps do to the dirs: recovery clears the remnants, and an install makes staging,
      sets the old dir aside, moves staging in and retires the old dir, or undoes it. */
  lemma HolderSteps(s: State, p: Pid, ino: Ino, t: nat, at: Point)
    requires PcOf(s, p) == Held(ino, t, at)
    ensures at == Looking ==> Next(s, p, Do(Restore)).previous.None? && Next(s, p, Do(Sweep)).staging.None?
    ensures at == Looking && s.staging.None? ==>
              Next(s, p, Do(Fill)) == Put(s.(staging := Some(Mark(p, t))), p, Held(ino, t, Filling))
    ensures at == Filling && s.previous.None? ==>
              Next(s, p, Do(SetAside)) == Put(s.(previous := Some(Mark(p, t))), p, Held(ino, t, Swapping))
    ensures at in {Filling, Swapping} ==> Next(s, p, Do(MoveIn)) == Put(s.(staging := None), p, Held(ino, t, Settling))
    ensures at in {Swapping, Settling} ==> Next(s, p, Do(PutBack)).previous.None?
    ensures at == Settling ==> Next(s, p, Do(Retire)).previous.None?
    ensures at != Looking ==> Next(s, p, Do(Discard)).staging.None?
  {
  }
}
