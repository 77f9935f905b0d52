/** Copy-truncate rotation of one log: internal/logcap/logcap.go.

    The disk holds the log, its numbered generations (<log>.pilot.N.gz as slot N) and the staged
    copy (<log>.pilot.1). Every file-system step takes its outcome (Io) as an input, so a contract
    over all inputs covers every pattern of failures and a kill before any step. */
module LogSlots {
  import opened Common

  /** A copy of the log, with the instant it was taken. */
  datatype Gen = Gen(stamp: int, data: string)

  type Slots = map<nat, Gen>

  function At(m: Slots, g: nat): Option<Gen> {
    if g in m then Some(m[g]) else None
  }

  /** Read in slot order, generations go from newest to oldest. */
  ghost predicate Ordered(m: Slots) {
    && 0 !in m
    && forall i, j :: i in m && j in m && i < j ==> m[i].stamp > m[j].stamp
  }

  ghost predicate Before(m: Slots, now: int) {
    forall g :: g in m ==> m[g].stamp < now
  }

  /** A staged copy may be compressed: slot 1 is free or holds the same copy, the rest is older. */
  ghost predicate StagedFits(m: Slots, copy: Gen) {
    && (1 in m ==> m[1] == copy)
    && forall g :: g in m && g >= 2 ==> m[g].stamp < copy.stamp
  }

  // ---------------------------------------------------------------- shifting, as relations

  /** A shift of a that stopped with generations above c moved up by one and those up to c not
      yet. c == 0 is a complete shift. Slots past keep + 1 may have been dropped. */
  ghost predicate MidShift(a: Slots, b: Slots, keep: nat, c: nat) {
    && c <= keep
    && (forall g :: 0 <= g <= c ==> At(b, g) == At(a, g))
    && (c < keep ==> c + 1 !in b)
    && (forall g :: c < g < keep ==> At(b, g + 1) == At(a, g))
    && (if c < keep && keep in a then At(b, keep + 1) == At(a, keep)
        else keep + 1 in b ==> At(b, keep + 1) == At(a, keep + 1))
    && (forall g :: g > keep + 1 && g in b ==> At(b, g) == At(a, g))
  }

  /** An unshift of b that stopped after moving generations up to d down by one. */
  ghost predicate MidUnshift(b: Slots, r: Slots, d: nat) {
    && 1 <= d
    && (forall g :: 1 <= g < d ==> At(r, g) == At(b, g + 1))
    && (d >= 2 ==> d !in r)
    && (forall g: nat :: (g == 0 || g > d || d == 1) ==> At(r, g) == At(b, g))
  }

  /** What a rename that succeeds, or finds nothing to move, leaves. */
  function Renamed(m: Slots, from: nat, to: nat): Slots {
    if from in m then (m - {from})[to := m[from]] else m
  }

  lemma MidShiftNone(a: Slots, keep: nat)
    ensures MidShift(a, a, keep, keep)
  {
  }

  lemma MidShiftFrees(a: Slots, b: Slots, keep: nat)
    requires keep >= 1 && MidShift(a, b, keep, 0)
    ensures 1 !in b
  {
  }

  lemma MidShiftStep(a: Slots, b: Slots, keep: nat, c: nat)
    requires MidShift(a, b, keep, c) && c >= 1
    ensures MidShift(a, Renamed(b, c, c + 1), keep, c - 1)
    ensures c in a <==> c in b
  {
    assert At(b, c) == At(a, c);
  }

  lemma MidUnshiftStep(b: Slots, r: Slots, d: nat)
    requires MidUnshift(b, r, d) && 1 !in b
    ensures MidUnshift(b, Renamed(r, d + 1, d), d + 1)
  {
    assert At(r, d + 1) == At(b, d + 1);
    var r' := Renamed(r, d + 1, d);
    if d == 1 {
      assert At(r, 1) == At(b, 1);
    }
    forall g | 1 <= g < d + 1
      ensures At(r', g) == At(b, g + 1)
    {
      if g < d {
        assert At(r, g) == At(b, g + 1);
      }
    }
  }

  /** Where the content of slot g came from in a shift stopped at c. */
  function ShiftedFrom(a: Slots, keep: nat, c: nat, g: nat): nat {
    if g <= c || g > keep + 1 || g == 0 then g
    else if g <= keep || (c < keep && keep in a) then g - 1 else g
  }

  lemma MidShiftOrdered(a: Slots, b: Slots, keep: nat, c: nat)
    requires MidShift(a, b, keep, c) && Ordered(a)
    ensures Ordered(b)
    ensures forall n :: Before(a, n) ==> Before(b, n)
  {
    forall g | g in b
      ensures var h := ShiftedFrom(a, keep, c, g); h in a && a[h] == b[g]
    {
      var h := ShiftedFrom(a, keep, c, g);
      assert At(b, g) == At(a, h);
    }
    forall i, j | i in b && j in b && i < j
      ensures b[i].stamp > b[j].stamp
    {
      assert ShiftedFrom(a, keep, c, i) < ShiftedFrom(a, keep, c, j);
    }
    assert At(b, 0) == At(a, 0);
  }

  lemma DropOrdered(m: Slots, g: nat)
    requires Ordered(m)
    ensures Ordered(m - {g}) && forall n :: Before(m, n) ==> Before(m - {g}, n)
  {
  }

  lemma DropFits(m: Slots, g: nat, copy: Gen)
    requires StagedFits(m, copy)
    ensures StagedFits(m - {g}, copy)
  {
  }

  lemma NewCopyFits(m: Slots, copy: Gen)
    requires 1 !in m && Before(m, copy.stamp)
    ensures StagedFits(m, copy)
  {
  }

  lemma CopyFits(m: Slots, copy: Gen)
    requires Ordered(m) && StagedFits(m, copy)
    ensures Ordered(m[1 := copy]) && StagedFits(m[1 := copy], copy)
    ensures forall n :: Before(m, n) && copy.stamp < n ==> Before(m[1 := copy], n)
  {
  }

  lemma MidUnshiftOrdered(b: Slots, r: Slots, d: nat)
    requires MidUnshift(b, r, d) && Ordered(b)
    ensures Ordered(r)
    ensures forall n :: Before(b, n) ==> Before(r, n)
  {
    forall g | g in r
      ensures var h := if g < d && g >= 1 then g + 1 else g; h in b && b[h] == r[g]
    {
      var h := if g < d && g >= 1 then g + 1 else g;
      assert g != d || d == 1;
      assert At(r, g) == At(b, h);
    }
  }

  /** Undoing a complete shift restores slots 1..keep exactly, gaps included. */
  lemma UnshiftRestores(a: Slots, b: Slots, r: Slots, keep: nat)
    requires keep >= 1 && MidShift(a, b, keep, 0)
    requires MidUnshift(b, r, if keep in a then keep + 1 else keep)
    ensures forall g :: 1 <= g <= keep ==> At(r, g) == At(a, g)
  {
    forall g | 1 <= g <= keep
      ensures At(r, g) == At(a, g)
    {
      if g < keep {
        assert At(r, g) == At(b, g + 1);
      } else if keep in a {
        assert At(r, keep) == At(b, keep + 1);
      }
    }
  }

  lemma ShiftedUp(a: Slots, b: Slots, r: Slots, keep: nat)
    requires MidShift(a, b, keep, 0) && forall g :: 2 <= g <= keep ==> At(r, g) == At(b, g)
    ensures forall g :: 2 <= g <= keep ==> At(r, g) == At(a, g - 1)
  {
    forall g | 2 <= g <= keep
      ensures At(r, g) == At(a, g - 1)
    {
      assert At(b, (g - 1) + 1) == At(a, g - 1);
    }
  }

  // ---------------------------------------------------------------- the disk

  datatype Move = Moved | NotThere | Failed

  /** The outcomes of a shift's removals and renames, by generation. */
  datatype ShiftIo = ShiftIo(remove: nat -> Io, move: nat -> Io)

  /** Compressing the staged copy: writing the temp file, renaming it over slot 1, removing the copy. */
  datatype CompressIo = CompressIo(write: Io, rename: Io, remove: Io)

  /** Copying the log: creating the copy, locking it, copying (got characters if it stops early),
      and removing a partial copy. */
  datatype CopyIo = CopyIo(create: Io, hold: Io, copy: Io, got: nat, remove: Io)

  /** Everything one rotation meets. readable: the log can be opened by its path; inScope: that
      path is one the rotator may touch; safeDir: its directory takes backups; busy: another
      rotation holds the staged copy. */
  datatype RotateIo = RotateIo(readable: bool, inScope: bool, safeDir: bool, busy: bool, finish: CompressIo, shift: ShiftIo,
                               copy: CopyIo, truncate: Io, unstage: Io, unshift: nat -> Io,
                               drop: Io, compress: CompressIo)

  /** How a rotation ended: rotated with a backup, truncated without one, the log not truncated
      (backed is whether a copy had been staged), or the process killed. */
  datatype Rotation = BackedUp | TruncatedOnly | NotTruncated(backed: bool) | Died

  class LogDisk {
    var gens: Slots
    var staged: Option<Gen>
    var log: string
    /** False once the rotating process has been killed. */
    var alive: bool
    /** Slots that hold something logcap must not touch. */
    const foreign: set<nat>

    method RenameGen(from: nat, to: nat, io: Io) returns (r: Move)
      modifies `gens, `alive
      ensures r == Moved ==> alive && old(alive) && from in old(gens)
      ensures r == NotThere ==> alive && old(alive) && from !in old(gens)
      ensures gens == if r == Failed then old(gens) else Renamed(old(gens), from, to)
      ensures r == Failed ==> !alive || (io == Denied && alive == old(alive))
      ensures io == Done && old(alive) ==> r != Failed
    {
      if !alive { return Failed; }
      match io {
        case Killed => alive := false; return Failed;
        case Denied => return Failed;
        case Done =>
          if from !in gens { return NotThere; }
          gens := (gens - {from})[to := gens[from]];
          return Moved;
      }
    }

    method RemoveGen(g: nat, io: Io) returns (ok: bool)
      modifies `gens, `alive
      ensures gens == if ok then old(gens) - {g} else old(gens)
      ensures ok <==> old(alive) && io == Done
      ensures alive == (old(alive) && io != Killed)
    {
      if io == Killed {
        alive := false;
      }
      ok := alive && io == Done;
      if ok {
        gens := gens - {g};
      }
    }

    /** Drops the generations beyond keep, up to the first gap. */
    method DropBeyond(keep: nat, remove: nat -> Io)
      modifies `gens, `alive
      ensures old(alive) || !alive
      ensures MidShift(old(gens), gens, keep, keep)
      ensures forall g :: 0 <= g <= keep ==> At(gens, g) == At(old(gens), g)
      ensures (forall g :: remove(g) != Killed) ==> alive == old(alive)
      ensures old(alive) && (forall g :: remove(g) == Done) ==>
                forall g :: g > keep && (forall h :: keep < h <= g ==> h !in foreign && h in old(gens)) ==> g !in gens
      ensures old(alive) && (forall g :: remove(g) == Done) && keep + 1 !in foreign ==> keep + 1 !in gens
    {
      var gen := keep + 1;
      while gen !in foreign && gen in gens
        invariant gen >= keep + 1 && (old(alive) || !alive)
        invariant gens.Keys <= old(gens).Keys && forall g :: g in gens ==> gens[g] == old(gens)[g]
        invariant forall g :: 0 <= g <= keep ==> At(gens, g) == At(old(gens), g)
        invariant (forall g :: remove(g) != Killed) ==> alive == old(alive)
        invariant old(alive) && (forall g :: remove(g) == Done) ==>
                    forall g :: g > keep ==> (g < gen ==> g !in gens) && (g >= gen ==> At(gens, g) == At(old(gens), g))
        decreases |gens|
      {
        ghost var before := gens;
        var ok := RemoveGen(gen, remove(gen));
        if !ok { break; }
        assert before.Keys == gens.Keys + {gen};
        gen := gen + 1;
      }
    }

    /** shiftBackups: frees slot 1; the oldest generation is parked at keep + 1. */
    method ShiftBackups(keep: nat, io: ShiftIo) returns (ok: bool, parked: bool, ghost c: nat)
      requires keep >= 1
      modifies `gens, `alive
      ensures old(alive) || !alive
      ensures MidShift(old(gens), gens, keep, c)
      ensures ok ==> alive && c == 0 && parked == (keep in old(gens))
      ensures parked ==> keep in old(gens) && c < keep
      ensures (exists g :: g in foreign && 1 <= g <= keep + 1) ==> !ok && gens == old(gens) && !parked
      ensures old(alive) && (forall g :: io.move(g) == Done && io.remove(g) != Killed) ==>
                (ok <==> forall g :: 1 <= g <= keep + 1 ==> g !in foreign)
      ensures old(alive) && (forall g :: io.remove(g) == Done) && (forall g :: 1 <= g <= keep + 1 ==> g !in foreign) ==>
                (keep + 1 in gens <==> parked)
    {
      hide MidShift;
      c := keep;
      assert MidShift(gens, gens, keep, keep) by { MidShiftNone(gens, keep); }
      for g := 1 to keep + 2
        invariant forall h :: 1 <= h < g ==> h !in foreign
      {
        if g in foreign { return false, false, keep; }
      }
      DropBeyond(keep, io.remove);
      parked := false;
      var gen := keep;
      while gen >= 1
        invariant 0 <= gen == c <= keep && (old(alive) || !alive)
        invariant MidShift(old(gens), gens, keep, c)
        invariant parked == (c < keep && keep in old(gens))
        invariant old(alive) && (forall g :: io.remove(g) == Done) ==> (keep + 1 in gens <==> parked)
        invariant old(alive) && (forall g :: io.move(g) == Done && io.remove(g) != Killed) ==> alive
      {
        MidShiftStep(old(gens), gens, keep, gen);
        var r := RenameGen(gen, gen + 1, io.move(gen));
        if r == Failed { return false, parked, c; }
        if r == Moved {
          parked := parked || gen == keep;
        }
        gen := gen - 1;
        c := c - 1;
      }
      if !alive { return false, parked, c; }
      ok := true;
    }

    /** unshiftBackups: the generations move back down, the parked one included. */
    method UnshiftBackups(keep: nat, parked: bool, move: nat -> Io) returns (ok: bool, ghost d: nat)
      requires keep >= 1 && 1 !in gens
      modifies `gens, `alive
      ensures old(alive) || !alive
      ensures MidUnshift(old(gens), gens, d)
      ensures ok ==> alive && d == if parked then keep + 1 else keep
      ensures old(alive) && (forall g :: move(g) == Done) ==> ok
    {
      var top := if parked then keep + 1 else keep;
      d := 1;
      for gen := 2 to top + 1
        invariant d == gen - 1 && (old(alive) || !alive)
        invariant MidUnshift(old(gens), gens, d)
        invariant old(alive) && (forall g :: move(g) == Done) ==> alive
      {
        MidUnshiftStep(old(gens), gens, d);
        var r := RenameGen(gen, gen - 1, move(gen));
        if r == Failed { return false, d; }
        d := d + 1;
      }
      ok := alive;
    }

    method DropParked(keep: nat, parked: bool, io: Io)
      modifies `gens, `alive
      ensures old(alive) || !alive
      ensures gens == old(gens) || (parked && gens == old(gens) - {keep + 1})
      ensures old(alive) && io != Killed ==> alive
      ensures old(alive) && io == Done ==> alive && gens == if parked then old(gens) - {keep + 1} else old(gens)
    {
      if parked {
        var _ := RemoveGen(keep + 1, io);
      }
    }

    /** compress: slot 1 is written whole or not at all, and the copy goes only after it. */
    method Compress(io: CompressIo) returns (ok: bool)
      modifies `gens, `staged, `alive
      ensures old(alive) || !alive
      ensures gens == old(gens) || (old(staged).Some? && 1 !in foreign && gens == old(gens)[1 := old(staged).value])
      ensures staged == old(staged) || (staged.None? && At(gens, 1) == old(staged))
      ensures ok <==> old(alive) && alive && old(staged).Some? && staged.None?
      ensures if ok then gens == old(gens)[1 := old(staged).value] else staged == old(staged)
      ensures old(alive) && old(staged).Some? && 1 !in foreign && io == CompressIo(Done, Done, Done) ==> ok
    {
      ok := false;
      if !alive || staged.None? { return; }
      if io.write == Killed {
        alive := false;
      }
      if io.write != Done || 1 in foreign { return; }
      if io.rename == Killed {
        alive := false;
      }
      if io.rename != Done { return; }
      gens := gens[1 := staged.value];
      if io.remove == Killed {
        alive := false;
      }
      if io.remove != Done { return; }
      staged := None;
      ok := true;
    }

    /** What holds between any two steps: the generations are in order, and a staged copy is newer
        than all of them, or already compressed into slot 1. */
    ghost predicate Sane()
      reads this
    {
      && Ordered(gens)
      && (staged.Some? ==> StagedFits(gens, staged.value))
    }

    /** The generations once an interrupted copy is finished. */
    ghost function Finished(): Slots
      reads this
    {
      if staged.Some? then gens[1 := staged.value] else gens
    }

    /** Nothing is staged, or it can be finished. */
    predicate CanFinish(busy: bool, io: CompressIo)
      reads this
    {
      staged.None? || (!busy && 1 !in foreign && io == CompressIo(Done, Done, Done))
    }

    /** A copy of the log can be staged: the log can be read and is in scope, its directory takes
        backups, an interrupted copy can be finished, every slot is ours, and the renames and the copy
        succeed. */
    ghost predicate CanStage(keep: nat, io: RotateIo)
      reads this
    {
      && io.readable && io.inScope && io.safeDir && CanFinish(io.busy, io.finish)
      && (forall g :: 1 <= g <= keep + 1 ==> g !in foreign)
      && (forall g :: io.shift.move(g) == Done && io.shift.remove(g) != Killed)
      && io.copy.create == Done && io.copy.hold == Done && io.copy.copy == Done
    }

    /** finishStaged for the log's own copy. */
    method FinishStaged(busy: bool, io: CompressIo) returns (ok: bool)
      requires Sane()
      modifies `gens, `staged, `alive
      ensures Sane() && (old(alive) || !alive)
      ensures ok ==> alive && staged.None? && gens == old(Finished())
      ensures !ok ==> (gens == old(gens) || gens == old(Finished())) && staged == old(staged)
      ensures forall n :: Before(old(Finished()), n) && Before(old(gens), n) ==> Before(gens, n)
      ensures old(alive && CanFinish(busy, io)) ==> ok
      ensures busy && old(staged).Some? ==> !ok && gens == old(gens) && staged == old(staged)
    {
      if staged.None? { return alive; }
      if busy { return false; }
      ok := Compress(io);
    }

    /** createStaged: the copy is complete when it is returned; a copy that failed is removed, or
        stays for a later round. */
    method CreateStaged(now: int, io: CopyIo) returns (ok: bool)
      requires alive ==> staged.None?
      modifies `staged, `alive
      ensures old(alive) || !alive
      ensures ok ==> alive && staged == Some(Gen(now, log))
      ensures staged == old(staged) || staged.None? || staged.value.stamp == now
      ensures old(alive) && io.create == Done && io.hold == Done && io.copy == Done ==> ok
    {
      ok := false;
      if !alive { return; }
      if io.create == Killed {
        alive := false;
      }
      if io.create != Done { return; }
      staged := Some(Gen(now, ""));
      if io.hold == Killed {
        alive := false;
      }
      if io.hold != Done { return; }
      if io.copy == Done {
        staged := Some(Gen(now, log));
        return true;
      }
      staged := Some(Gen(now, log[..Min(io.got, |log|)]));
      if io.copy == Killed || io.remove == Killed {
        alive := false;
      } else if io.remove == Done {
        staged := None;
      }
    }

    ghost predicate OlderThan(now: int)
      reads this
    {
      Before(gens, now) && (staged.Some? ==> staged.value.stamp < now)
    }

    /** stage: finish an interrupted copy, shift, copy. On success slot 1 is free and the staged
        copy is the log; on failure nothing newer than the copy it left has appeared. */
    method Stage(keep: nat, now: int, io: RotateIo) returns (ok: bool, parked: bool)
      requires keep >= 1 && Sane() && OlderThan(now)
      modifies this
      ensures Sane() && OlderThan(now + 1) && log == old(log) && (old(alive) || !alive)
      ensures Before(gens, now)
      ensures ok ==> && alive && staged == Some(Gen(now, log)) && 1 !in gens
                     && MidShift(old(Finished()), gens, keep, 0) && parked == (keep in old(Finished()))
      ensures ok && (forall g :: io.shift.remove(g) == Done) ==> (keep + 1 in gens <==> parked)
      // A copy that fails leaves no parked generation behind.
      ensures !ok && alive && old(CanFinish(io.busy, io.finish)) && io.safeDir && io.drop == Done ==>
                (forall g :: io.shift.remove(g) == Done) && (forall g :: 1 <= g <= keep + 1 ==> g !in foreign) ==>
                  keep + 1 !in gens
      ensures old(alive && CanStage(keep, io)) ==> ok
      ensures (io.busy && old(staged).Some?) || !io.safeDir ==> !ok && gens == old(gens) && staged == old(staged)
    {
      hide MidShift, Ordered, StagedFits;
      ok, parked := false, false;
      if !io.safeDir { return; }
      assert Before(Finished(), now);
      var finished := FinishStaged(io.busy, io.finish);
      assert Before(gens, now);
      if !finished { return; }
      ghost var a, c := gens, 0;
      ok, parked, c := ShiftBackups(keep, io.shift);
      MidShiftOrdered(a, gens, keep, c);
      if ok {
        MidShiftFrees(a, gens, keep);
        ok := CreateStaged(now, io.copy);
        if staged.Some? {
          NewCopyFits(gens, staged.value);
          DropFits(gens, keep + 1, staged.value);
        }
        if ok { return; }
      }
      DropOrdered(gens, keep + 1);
      DropParked(keep, parked, io.drop);
      parked := false;
    }

    /** unstage: the copy goes, then the generations move back down. A copy that cannot be removed
        stays, with slot 1 left free for it. */
    method Unstage(keep: nat, parked: bool, io: RotateIo) returns (ok: bool, ghost d: nat)
      requires keep >= 1 && Sane() && staged.Some? && 1 !in gens
      modifies `gens, `staged, `alive
      ensures Sane() && (old(alive) || !alive)
      ensures forall n :: Before(old(gens), n) ==> Before(gens, n)
      ensures staged in {None, old(staged)}
      ensures ok ==> alive && staged.None? && MidUnshift(old(gens), gens, if parked then keep + 1 else keep)
      ensures old(alive) && io.unstage == Done && (forall g :: io.unshift(g) == Done) ==> ok
    {
      hide MidUnshift;
      ok, d := false, 0;
      if !alive { return; }
      if io.unstage == Killed {
        alive := false;
        return;
      }
      if io.unstage == Denied {
        DropOrdered(gens, keep + 1);
        DropParked(keep, parked, io.drop);
        return;
      }
      staged := None;
      ghost var b := gens;
      ok, d := UnshiftBackups(keep, parked, io.unshift);
      MidUnshiftOrdered(b, gens, d);
    }

    /** The end of a rotation whose log is truncated: the parked generation goes, the copy becomes
        generation 1. */
    method Commit(keep: nat, parked: bool, io: RotateIo) returns (ok: bool)
      requires keep >= 1 && Sane() && staged.Some? && 1 !in gens
      modifies `gens, `staged, `alive
      ensures Sane() && (old(alive) || !alive)
      ensures forall n :: Before(old(gens), n) && old(staged).value.stamp < n ==> Before(gens, n)
      ensures staged == old(staged) || At(gens, 1) == old(staged)
      ensures staged in {None, old(staged)}
      ensures ok ==> alive && staged.None? && At(gens, 1) == old(staged)
      ensures forall g :: 2 <= g <= keep ==> At(gens, g) == At(old(gens), g)
      ensures ok && io.drop == Done && (keep + 1 in old(gens) ==> parked) ==> keep + 1 !in gens
      ensures old(alive) && io.drop != Killed && 1 !in foreign && io.compress == CompressIo(Done, Done, Done) ==> ok
    {
      hide Ordered, StagedFits, Before;
      DropOrdered(gens, keep + 1);
      DropFits(gens, keep + 1, staged.value);
      DropParked(keep, parked, io.drop);
      CopyFits(gens, staged.value);
      ok := Compress(io.compress);
    }

    /** rotate, with keep generations. backed says whether a copy was staged this round. */
    method Rotate(keep: nat, now: int, io: RotateIo) returns (r: Rotation, ghost backed: bool)
      requires Sane() && OlderThan(now) && alive
      modifies this
      ensures Sane() && OlderThan(now + 1)
      // The log is truncated or untouched, and what a staged copy took from it is never lost.
      ensures log in {"", old(log)}
      ensures r in {BackedUp, TruncatedOnly} ==> log == ""
      ensures r.NotTruncated? ==> log == old(log) && r.backed == backed
      ensures io.readable && !io.inScope ==> r == NotTruncated(false) && gens == old(gens) && staged == old(staged)
      ensures backed && log != old(log) ==> Some(Gen(now, old(log))) in {staged, At(gens, 1)}
      // A log that cannot be truncated keeps every generation exactly.
      ensures r == NotTruncated(true) && io.unstage == Done && (forall g :: io.unshift(g) == Done) ==>
                && staged.None?
                && forall g :: 1 <= g <= keep ==> At(gens, g) == At(old(Finished()), g)
      // A rotation with its backup moves every generation up by one and drops only the oldest.
      ensures r == BackedUp ==>
                && staged.None? && At(gens, 1) == Some(Gen(now, old(log)))
                && (forall g :: 2 <= g <= keep ==> At(gens, g) == At(old(Finished()), g - 1))
                && (io.drop == Done && keep in old(Finished()) ==> keep + 1 !in gens)
                && (io.drop == Done && (forall g :: io.shift.remove(g) == Done) ==> keep + 1 !in gens)
      // A log that can be copied is; it is truncated unless that is denied or it is out of scope.
      ensures keep >= 1 && old(CanStage(keep, io)) ==> backed
      ensures (io.busy && old(staged).Some?) || !io.safeDir || !io.readable || keep == 0 ==>
                !backed && gens == old(gens) && staged == old(staged)
      ensures keep >= 1 && old(CanStage(keep, io)) && io.truncate == Done && io.drop != Killed ==>
                (io.compress == CompressIo(Done, Done, Done) ==> r == BackedUp)
      ensures keep >= 1 && old(CanStage(keep, io)) && io.truncate == Denied ==> r == NotTruncated(true)
      ensures r.NotTruncated? ==> io.truncate == Denied || (io.readable && !io.inScope)
      ensures r != Died && io.truncate == Done && (io.readable ==> io.inScope) ==> log == ""
    {
      hide MidShift, MidUnshift, Ordered, StagedFits;
      var parked := false;
      var staging := false;
      if io.readable && !io.inScope { return NotTruncated(false), false; }
      if io.readable && keep > 0 {
        staging, parked := Stage(keep, now, io);
      }
      backed := staging;
      if !alive || io.truncate == Killed {
        alive := false;
        return Died, backed;
      }
      ghost var a, b := old(Finished()), gens;
      if io.truncate == Denied {
        if staging {
          ghost var d;
          var ok;
          ok, d := Unstage(keep, parked, io);
          if ok {
            UnshiftRestores(a, b, gens, keep);
          }
        }
        return NotTruncated(staging), backed;
      }
      log := "";
      if !staging { return TruncatedOnly, backed; }
      var ok := Commit(keep, parked, io);
      if ok {
        ShiftedUp(a, b, gens, keep);
      }
      if !alive { return Died, backed; }
      return if ok then BackedUp else TruncatedOnly, backed;
    }

    /** Any sequence of rotations of one log, each meeting its own failures or kill, with the log
        written to in between: the generations stay newest to oldest, and finishing an interrupted
        copy never overwrites a different generation. */
    method RunRounds(rounds: seq<(nat, RotateIo, string)>, start: int)
      requires Sane() && OlderThan(start)
      modifies this
      ensures Sane() && OlderThan(start + |rounds|)
    {
      for k := 0 to |rounds|
        invariant Sane() && OlderThan(start + k)
      {
        log := log + rounds[k].2;
        alive := true;
        var _, _ := Rotate(rounds[k].0, start + k, rounds[k].1);
      }
    }
  }
}
