/** Who may work on a staged copy: internal/logcap/logcap.go, createStaged, holdStaged and
    finishStaged, run by any number of daemons at once.

    Each step below is one system call (or a look at the process's own descriptors), so the laws
    hold for every interleaving. A staged copy is an inode; the name <log>.pilot.1 points at one
    or at nothing. flock(2) belongs to the open descriptor: closing it, or dying, releases it. */
module StagedCopy {
  import opened Common

  type Pid = nat
  type Ino = nat

  /** Where a process is with one copy. Creating it: made, opened again to be locked, locked but
      not yet known to be the named one. Holding it: copying the log, waiting to truncate it,
      compressing the copy; then the name is gone and the lock still held. Finishing another
      rotation's: opened, found worth finishing, locked, compressing, name gone. */
  datatype Phase =
    | Created | Opened | Locked
    | Copying | Copied | Compressing | Unlinked
    | Seen | Sized | Flocked | Finishing | Finished

  /** orphan: the copy belongs to another log (finishOrphans). */
  datatype Pc = Idle | Dead | On(ino: Ino, phase: Phase, orphan: bool)

  /** flock: the file system has it; name: the inode <log>.pilot.1 names; next: the next unused inode;
      creator: who made each. */
  datatype State = State(flock: bool, name: Option<Ino>, next: Ino, size: map<Ino, nat>, creator: map<Ino, Pid>,
                         lock: map<Ino, Pid>, pcs: map<Pid, Pc>)

  function PcOf(s: State, p: Pid): Pc { if p in s.pcs then s.pcs[p] else Idle }

  function SizeOf(s: State, i: Ino): nat { if i in s.size then s.size[i] else 0 }

  predicate Early(h: Phase) { h.Created? || h.Opened? || h.Locked? }

  predicate Holding(h: Phase) { h.Copying? || h.Copied? || h.Compressing? }

  /** The process writes, compresses or unlinks the copy. */
  predicate Working(h: Phase) { Holding(h) || h.Finishing? }

  predicate HasLock(h: Phase) { Working(h) || h.Locked? || h.Unlinked? || h.Flocked? || h.Finished? }

  predicate Vetted(h: Phase) { h.Sized? || h.Flocked? || h.Finishing? || h.Finished? }

  // ---------------------------------------------------------------- steps

  /** What a process does next: make a copy, look for one to finish, take the next step with the
      one it is on, copy some more of the log, give a copy up (the log could not be copied or
      truncated), return (which closes its descriptors), or die. */
  datatype Step = Create | Look(orphan: bool) | Advance | Write(n: nat) | GiveUp | Return | Kill

  datatype Effect = Stay | GoTo(phase: Phase) | TakeLock(phase: Phase) | Unlink(phase: Phase) | Append(n: nat) | Quit

  /** The step of a process on a copy, from what it can see: whether the name still points at the
      copy, whether its lock is free, whether it is empty. Without flock a process carries on
      unlocked, except with another log's copy, which it then leaves alone. */
  function Act(flock: bool, h: Phase, orphan: bool, step: Step, named: bool, free: bool, empty: bool): Effect {
    match step
    case Return => Quit
    case Write(n) => if h.Copying? then Append(n) else Stay
    case GiveUp => if h.Copying? || h.Copied? then Unlink(Unlinked) else Stay
    case Advance => (
      match h
      case Created => if named then GoTo(Opened) else Quit
      case Opened => if !flock then GoTo(Locked) else if free then TakeLock(Locked) else Quit
      case Locked => if named then GoTo(Copying) else Quit
      case Copying => GoTo(Copied)
      case Copied => GoTo(Compressing)
      case Compressing => Unlink(Unlinked)
      case Seen => if orphan && empty then Quit else GoTo(Sized)
      case Sized =>
        if !flock then (if orphan then Quit else GoTo(Flocked)) else if free then TakeLock(Flocked) else Quit
      case Flocked => if named then GoTo(Finishing) else Quit
      case Finishing => Unlink(Finished)
      case Unlinked => Stay
      case Finished => Stay
    )
    case _ => Stay
  }

  function Put(s: State, p: Pid, c: Pc): State { s.(pcs := s.pcs[p := c]) }

  function Release(s: State, p: Pid): State {
    s.(lock := map i | i in s.lock && s.lock[i] != p :: s.lock[i])
  }

  function Apply(s: State, p: Pid, c: Pc, e: Effect): State
    requires c.On?
  {
    match e
    case Stay => s
    case GoTo(h) => Put(s, p, c.(phase := h))
    case TakeLock(h) => Put(s.(lock := s.lock[c.ino := p]), p, c.(phase := h))
    case Unlink(h) => Put(s.(name := None), p, c.(phase := h))
    case Append(n) => s.(size := s.size[c.ino := SizeOf(s, c.ino) + n])
    case Quit => Put(Release(s, p), p, Idle)
  }

  function ActOf(s: State, c: Pc, step: Step): Effect
    requires c.On?
  {
    Act(s.flock, c.phase, c.orphan, step, s.name == Some(c.ino), c.ino !in s.lock, SizeOf(s, c.ino) == 0)
  }

  /** One step of process p; a step that does not apply where p is changes nothing. */
  function Next(s: State, p: Pid, step: Step): State {
    var c := PcOf(s, p);
    if step.Kill? then Put(Release(s, p), p, Dead)
    else match c
      case Dead => s
      case On(_, _, _) => Apply(s, p, c, ActOf(s, c, step))
      case Idle =>
        // O_CREAT|O_EXCL makes an empty file, and only if the name is free.
        if step.Create? && s.name.None? then
          Put(s.(name := Some(s.next), next := s.next + 1, size := s.size[s.next := 0],
                 creator := s.creator[s.next := p]), p, On(s.next, Created, false))
        else if step.Look? && s.name.Some? then Put(s, p, On(s.name.value, Seen, step.orphan))
        else s
  }

  function Empty(flock: bool): State { State(flock, None, 0, map[], map[], map[], map[]) }

  /** A run: which process took which step, in what order. */
  function After(flock: bool, run: seq<(Pid, Step)>, k: nat): State
    requires k <= |run|
  {
    if k == 0 then Empty(flock) else Next(After(flock, run, k - 1), run[k - 1].0, run[k - 1].1)
  }

  // ---------------------------------------------------------------- the invariant

  /** What is true of a process p wherever it is. */
  predicate Fits(s: State, p: Pid, c: Pc) {
    c.On? ==>
      && c.ino < s.next
      && (s.flock && HasLock(c.phase) ==> c.ino in s.lock && s.lock[c.ino] == p)
      && (s.flock && Working(c.phase) ==> s.name == Some(c.ino))
      && (c.orphan ==> !Early(c.phase) && (s.flock || !HasLock(c.phase)))
      && (Early(c.phase) || Holding(c.phase) ==> c.ino in s.creator && s.creator[c.ino] == p)
      && (Early(c.phase) ==> SizeOf(s, c.ino) == 0)
      && (Vetted(c.phase) && c.orphan ==> SizeOf(s, c.ino) > 0)
  }

  /** Inodes are used once, and a lock is held only by a process that took it. */
  ghost predicate Basics(s: State) {
    && (s.name.Some? ==> s.name.value < s.next)
    && (!s.flock ==> s.lock == map[])
    && (forall i :: i in s.size ==> i < s.next)
    && (forall i :: i in s.lock ==>
          var c := PcOf(s, s.lock[i]); c.On? && c.ino == i && HasLock(c.phase))
  }

  ghost predicate Inv(s: State) { Basics(s) && forall p :: Fits(s, p, PcOf(s, p)) }

  /** What the process saw or already held warrants the effect. */
  predicate Warranted(flock: bool, h: Phase, orphan: bool, e: Effect, named: bool, free: bool, empty: bool) {
    match e
    case GoTo(g) =>
      && (flock || (orphan && !Early(h)) ==> HasLock(g) == HasLock(h)) && (Working(g) ==> Working(h) || named)
      && (Early(g) ==> Early(h)) && (Holding(g) ==> Holding(h) || Early(h))
      && (Vetted(g) ==> Vetted(h) || !orphan || !empty)
    case TakeLock(g) =>
      flock && free && !HasLock(h) && HasLock(g) && !Working(g) && !Holding(g)
      && (Early(g) ==> Early(h)) && (Vetted(g) ==> Vetted(h))
    case Unlink(g) => Working(h) && HasLock(g) && !Working(g) && !Early(g) && (Vetted(g) ==> Vetted(h))
    case Append(_) => h.Copying?
    case _ => true
  }

  /** Making and holding a copy, or finishing another's. */
  predicate Maker(h: Phase) { Early(h) || Holding(h) || h.Unlinked? }

  lemma MakerWarranted(flock: bool, h: Phase, orphan: bool, step: Step, named: bool, free: bool, empty: bool)
    requires Maker(h)
    ensures Warranted(flock, h, orphan, Act(flock, h, orphan, step, named, free, empty), named, free, empty)
  {
  }

  lemma FinisherWarranted(flock: bool, h: Phase, orphan: bool, step: Step, named: bool, free: bool, empty: bool)
    requires !Maker(h)
    ensures Warranted(flock, h, orphan, Act(flock, h, orphan, step, named, free, empty), named, free, empty)
  {
  }

  lemma ActWarranted(flock: bool, h: Phase, orphan: bool, step: Step, named: bool, free: bool, empty: bool)
    ensures Warranted(flock, h, orphan, Act(flock, h, orphan, step, named, free, empty), named, free, empty)
  {
    hide Act, Warranted, Maker;
    if Maker(h) {
      MakerWarranted(flock, h, orphan, step, named, free, empty);
    } else {
      FinisherWarranted(flock, h, orphan, step, named, free, empty);
    }
  }

  predicate WarrantedIn(s: State, c: Pc, e: Effect)
    requires c.On?
  {
    Warranted(s.flock, c.phase, c.orphan, e, s.name == Some(c.ino), c.ino !in s.lock, SizeOf(s, c.ino) == 0)
  }

  lemma ApplySelf(s: State, p: Pid, c: Pc, e: Effect)
    requires c.On? && PcOf(s, p) == c && Fits(s, p, c) && WarrantedIn(s, c, e)
    ensures Fits(Apply(s, p, c, e), p, PcOf(Apply(s, p, c, e), p))
  {
  }

  /** An effect of p takes only free locks and free names, gives up its own, and writes only a copy
      it holds. */
  lemma ApplyOthers(s: State, p: Pid, c: Pc, e: Effect, q: Pid)
    requires c.On? && PcOf(s, p) == c && Fits(s, p, c) && WarrantedIn(s, c, e) && p != q && Fits(s, q, PcOf(s, q))
    ensures Fits(Apply(s, p, c, e), q, PcOf(Apply(s, p, c, e), q))
  {
    hide Vetted;
    assert PcOf(Apply(s, p, c, e), q) == PcOf(s, q);
  }

  lemma ApplyBasics(s: State, p: Pid, c: Pc, e: Effect)
    requires c.On? && PcOf(s, p) == c && Fits(s, p, c) && WarrantedIn(s, c, e) && Basics(s)
    ensures Basics(Apply(s, p, c, e)) && Apply(s, p, c, e).flock == s.flock
  {
    hide HasLock, Working, Early, Holding, Vetted;
  }

  /** A step of p leaves every process fitting. */
  lemma StepFits(s: State, p: Pid, step: Step, q: Pid)
    requires Basics(s) && Fits(s, p, PcOf(s, p)) && Fits(s, q, PcOf(s, q))
    ensures Fits(Next(s, p, step), q, PcOf(Next(s, p, step), q))
  {
    hide Act, Apply;
    var c := PcOf(s, p);
    if c.On? {
      var e := ActOf(s, c, step);
      ActWarranted(s.flock, c.phase, c.orphan, step, s.name == Some(c.ino), c.ino !in s.lock, SizeOf(s, c.ino) == 0);
      if q == p {
        ApplySelf(s, p, c, e);
      } else {
        ApplyOthers(s, p, c, e, q);
      }
    }
  }

  lemma BasicsKept(s: State, p: Pid, step: Step)
    requires Basics(s) && Fits(s, p, PcOf(s, p))
    ensures Basics(Next(s, p, step)) && Next(s, p, step).flock == s.flock
  {
    hide Act, Apply, HasLock, Working, Early, Holding, Vetted;
    var c := PcOf(s, p);
    if c.On? {
      ActWarranted(s.flock, c.phase, c.orphan, step, s.name == Some(c.ino), c.ino !in s.lock, SizeOf(s, c.ino) == 0);
      ApplyBasics(s, p, c, ActOf(s, c, step));
    }
  }

  lemma {:induction false} Invariant(flock: bool, run: seq<(Pid, Step)>, k: nat)
    requires k <= |run|
    ensures Inv(After(flock, run, k)) && After(flock, run, k).flock == flock
  {
    if k > 0 {
      Invariant(flock, run, k - 1);
      var s, p, step := After(flock, run, k - 1), run[k - 1].0, run[k - 1].1;
      hide Next, Fits, Basics;
      forall q ensures Fits(Next(s, p, step), q, PcOf(Next(s, p, step), q)) {
        assert Fits(s, q, PcOf(s, q)) && Fits(s, p, PcOf(s, p));
        StepFits(s, p, step, q);
      }
      assert Fits(s, p, PcOf(s, p));
      BasicsKept(s, p, step);
    }
  }

  // ---------------------------------------------------------------- the laws

  predicate WorksOn(s: State, p: Pid, i: Ino) {
    PcOf(s, p).On? && PcOf(s, p).ino == i && Working(PcOf(s, p).phase)
  }

  /** p made copy i and is not done with it. */
  predicate Owns(s: State, p: Pid, i: Ino) {
    PcOf(s, p).On? && PcOf(s, p).ino == i && (Early(PcOf(s, p).phase) || Holding(PcOf(s, p).phase))
  }

  /** Two rotations never work on one staged copy, in any interleaving of any number of daemons:
      who works on a copy is alone with it, and the name still points at it. */
  lemma OneWorkerPerCopy(run: seq<(Pid, Step)>, k: nat, p: Pid, q: Pid, i: Ino)
    requires k <= |run| && WorksOn(After(true, run, k), p, i) && WorksOn(After(true, run, k), q, i)
    ensures p == q && After(true, run, k).name == Some(i)
  {
    hide After;
    Invariant(true, run, k);
    var s := After(true, run, k);
    assert Fits(s, p, PcOf(s, p)) && Fits(s, q, PcOf(s, q));
  }

  ghost predicate AloneAlways(flock: bool) {
    forall run: seq<(Pid, Step)>, k, p, q, i {:trigger WorksOn(After(flock, run, k), p, i), WorksOn(After(flock, run, k), q, i)} ::
      0 <= k <= |run| && WorksOn(After(flock, run, k), p, i) && WorksOn(After(flock, run, k), q, i) ==> p == q
  }

  /** That is what flock is for: the law holds exactly where the file system has it. */
  lemma AloneNeedsFlock(flock: bool)
    ensures AloneAlways(flock) <==> flock
  {
    hide After, Next, WorksOn;
    if flock {
      forall run: seq<(Pid, Step)>, k, p, q, i
        | 0 <= k <= |run| && WorksOn(After(flock, run, k), p, i) && WorksOn(After(flock, run, k), q, i)
        ensures p == q
      {
        OneWorkerPerCopy(run, k, p, q, i);
      }
    } else {
      var run: seq<(Pid, Step)> := [(0, Create), (0, Advance), (0, Advance), (0, Advance),
                                    (1, Look(false)), (1, Advance), (1, Advance), (1, Advance)];
      TwoWorkers(run);
      assert WorksOn(After(false, run, 8), 0, 0) && WorksOn(After(false, run, 8), 1, 0);
    }
  }

  lemma TwoWorkers(run: seq<(Pid, Step)>)
    requires |run| == 8 && run[0] == (0, Create) && forall j :: j in {1, 2, 3} ==> run[j] == (0, Advance)
    requires run[4] == (1, Look(false)) && forall j :: j in {5, 6, 7} ==> run[j] == (1, Advance)
    ensures WorksOn(After(false, run, 8), 0, 0) && WorksOn(After(false, run, 8), 1, 0)
  {
    hide After, Next;
    UnlockedCreator(run);
    UnlockedLook(run);
    UnlockedFinisher(run);
  }

  lemma Unfold(flock: bool, run: seq<(Pid, Step)>, k: nat)
    requires 0 < k <= |run|
    ensures After(flock, run, k) == Next(After(flock, run, k - 1), run[k - 1].0, run[k - 1].1)
  {
  }

  predicate Copies(s: State) { !s.flock && s.name == Some(0) && PcOf(s, 0) == On(0, Copying, false) }

  /** Without flock: a rotation copies the log ... */
  lemma UnlockedCreator(run: seq<(Pid, Step)>)
    requires |run| >= 4 && run[0] == (0, Create) && run[1] == (0, Advance) && run[2] == (0, Advance) && run[3] == (0, Advance)
    ensures Copies(After(false, run, 4)) && PcOf(After(false, run, 4), 1) == Idle
  {
    assert After(false, run, 0) == Empty(false);
    Unfold(false, run, 1);
    Unfold(false, run, 2);
    Unfold(false, run, 3);
    Unfold(false, run, 4);
    hide After;
    assert PcOf(After(false, run, 1), 0) == On(0, Created, false);
    assert PcOf(After(false, run, 2), 0) == On(0, Opened, false);
    assert PcOf(After(false, run, 3), 0) == On(0, Locked, false);
  }

  /** ... while another round of the same log looks at the copy ... */
  lemma UnlockedLook(run: seq<(Pid, Step)>)
    requires |run| >= 6 && run[4] == (1, Look(false)) && run[5] == (1, Advance)
    requires Copies(After(false, run, 4)) && PcOf(After(false, run, 4), 1) == Idle
    ensures Copies(After(false, run, 6)) && PcOf(After(false, run, 6), 1) == On(0, Sized, false)
  {
    Unfold(false, run, 5);
    Unfold(false, run, 6);
    hide After;
    assert Copies(After(false, run, 5)) && PcOf(After(false, run, 5), 1) == On(0, Seen, false);
  }

  /** ... and compresses it. */
  lemma UnlockedFinisher(run: seq<(Pid, Step)>)
    requires |run| >= 8 && run[6] == (1, Advance) && run[7] == (1, Advance)
    requires Copies(After(false, run, 6)) && PcOf(After(false, run, 6), 1) == On(0, Sized, false)
    ensures Copies(After(false, run, 8)) && PcOf(After(false, run, 8), 1) == On(0, Finishing, false)
  {
    Unfold(false, run, 7);
    Unfold(false, run, 8);
    hide After;
    assert Copies(After(false, run, 7)) && PcOf(After(false, run, 7), 1) == On(0, Flocked, false);
  }

  /** A finisher compresses only a copy no rotation is holding; an orphan finisher, with or without
      flock, only one whose own rotation is over: the process that made it is past it or dead, and
      stays so. */
  lemma FinisherLeavesLiveCopies(flock: bool, run: seq<(Pid, Step)>, k: nat, p: Pid, i: Ino, orphan: bool, q: Pid, m: nat)
    requires k <= m <= |run| && PcOf(After(flock, run, k), p) == On(i, Finishing, orphan)
    ensures flock || orphan ==>
              var c := PcOf(After(flock, run, k), q); !(c.On? && c.ino == i && Holding(c.phase))
    ensures orphan ==> flock && !Owns(After(flock, run, m), q, i)
  {
    hide After;
    Invariant(flock, run, k);
    var s := After(flock, run, k);
    assert Fits(s, p, PcOf(s, p)) && Fits(s, q, PcOf(s, q));
    if orphan {
      RotationStaysOver(flock, run, k, m, i, q);
    }
  }

  /** Once a process is past a copy, it never holds it as its own again. */
  lemma {:induction false} RotationStaysOver(flock: bool, run: seq<(Pid, Step)>, k: nat, m: nat, i: Ino, p: Pid)
    requires k <= m <= |run| && i < After(flock, run, k).next && !Owns(After(flock, run, k), p, i)
    ensures i < After(flock, run, m).next && !Owns(After(flock, run, m), p, i)
    decreases m
  {
    hide Next, Owns;
    if k < m {
      RotationStaysOver(flock, run, k, m - 1, i, p);
      NeverReenters(After(flock, run, m - 1), run[m - 1].0, run[m - 1].1, i, p);
    }
  }

  lemma NeverReenters(s: State, q: Pid, step: Step, i: Ino, p: Pid)
    requires i < s.next && !Owns(s, p, i)
    ensures i < Next(s, q, step).next && !Owns(Next(s, q, step), p, i)
  {
    hide Act, Apply;
    var c := PcOf(s, q);
    if c.On? {
      ActWarranted(s.flock, c.phase, c.orphan, step, s.name == Some(c.ino), c.ino !in s.lock, SizeOf(s, c.ino) == 0);
      ApplyReenters(s, q, c, ActOf(s, c, step), i, p);
    }
  }

  lemma ApplyReenters(s: State, q: Pid, c: Pc, e: Effect, i: Ino, p: Pid)
    requires c.On? && PcOf(s, q) == c && WarrantedIn(s, c, e) && i < s.next && !Owns(s, p, i)
    ensures i < Apply(s, q, c, e).next && !Owns(Apply(s, q, c, e), p, i)
  {
    hide HasLock, Vetted;
  }

  // ---------------------------------------------------------------- rotations get done

  /** A rotation nobody is in the way of makes, locks, copies, compresses and unlinks its copy, in that
      order; a finisher locks, compresses and unlinks one. */
  lemma Unhindered(s: State, p: Pid, i: Ino, h: Phase, orphan: bool)
    requires s.flock && PcOf(s, p) == On(i, h, orphan) && s.name == Some(i) && i !in s.lock && SizeOf(s, i) > 0
    ensures var t := Next(s, p, Advance);
      match h
      case Created => t == Put(s, p, On(i, Opened, orphan))
      case Opened => t == Put(s.(lock := s.lock[i := p]), p, On(i, Locked, orphan))
      case Seen => t == Put(s, p, On(i, Sized, orphan))
      case Sized => t == Put(s.(lock := s.lock[i := p]), p, On(i, Flocked, orphan))
      case _ => true
  {
  }

  lemma UnhinderedHolder(s: State, p: Pid, i: Ino, h: Phase, orphan: bool)
    requires PcOf(s, p) == On(i, h, orphan) && s.name == Some(i)
    ensures var t := Next(s, p, Advance);
      match h
      case Locked => t == Put(s, p, On(i, Copying, orphan))
      case Copying => t == Put(s, p, On(i, Copied, orphan))
      case Copied => t == Put(s, p, On(i, Compressing, orphan))
      case Compressing => t == Put(s.(name := None), p, On(i, Unlinked, orphan))
      case Flocked => t == Put(s, p, On(i, Finishing, orphan))
      case Finishing => t == Put(s.(name := None), p, On(i, Finished, orphan))
      case _ => true
  {
  }

  /** What else a process on a copy does: a rotation writes the log to its own copy only, and unlinks it
      when it gives up. */
  lemma OtherSteps(s: State, p: Pid, i: Ino, h: Phase, orphan: bool, n: nat)
    requires PcOf(s, p) == On(i, h, orphan)
    ensures Next(s, p, Write(n)) == if h.Copying? then s.(size := s.size[i := SizeOf(s, i) + n]) else s
    ensures Next(s, p, GiveUp) == if h.Copying? || h.Copied? then Put(s.(name := None), p, On(i, Unlinked, orphan)) else s
  {
  }

  /** Whoever returns or dies holds no lock, and the name stays. */
  lemma LeavingReleases(s: State, p: Pid, i: Ino, h: Phase, orphan: bool)
    requires PcOf(s, p) == On(i, h, orphan)
    ensures Next(s, p, Return) == Put(Release(s, p), p, Idle) && Next(s, p, Kill) == Put(Release(s, p), p, Dead)
    ensures forall j :: j in Release(s, p).lock <==> j in s.lock && s.lock[j] != p
  {
  }

  /** A process that finds the lock taken, the name gone to another copy, or another log's copy empty
      gives way: it holds nothing and has changed nothing. */
  lemma GivesWay(s: State, p: Pid, i: Ino, h: Phase, orphan: bool)
    requires PcOf(s, p) == On(i, h, orphan)
    requires || (s.flock && i in s.lock && (h.Opened? || h.Sized?))
             || (s.name != Some(i) && (h.Created? || h.Locked? || h.Flocked?))
             || (orphan && SizeOf(s, i) == 0 && h.Seen?)
             || (orphan && !s.flock && h.Sized?)
    ensures var t := Next(s, p, Advance);
            PcOf(t, p) == Idle && t.name == s.name && t.size == s.size && forall j :: j in t.lock ==> t.lock[j] != p
  {
  }
}
