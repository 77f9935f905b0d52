/** Carrying an app's state into a new install: cmd/pilotctl/appstore_state.go, carryAppState.

    How each entry answers the calls made on it (linked, copied, refused, ...) is an input.
    `CarriedAt` says path by path what the new dir then holds; `CarryAll` is the walk. */
module AppCarry {
  import opened Common
  import opened AppTree

  /** How linking or copying an entry goes: linked, copied (a new inode), refused for lack of
      permission, or failed for another reason. For a directory Forbidden is "cannot be listed". */
  datatype Access = Linked | Copied | Forbidden | Broken

  datatype CarryIo = CarryIo(access: Path -> Access, made: Path -> Fingerprint)

  /** What one carried file or symlink looked like in the old and in the new dir. */
  datatype Entry = Entry(src: Node, dst: Node)

  datatype Carry = Carry(entries: map<Path, Entry>, dirs: set<Path>, unreadable: set<Path>)

  /** What a carry works from: the old tree, the new bundle's files, the old manifest's binary. */
  datatype CarryJob = CarryJob(prior: Tree, bundle: Tree, oldBin: Option<Path>, io: CarryIo)

  predicate StopsCarry(j: CarryJob, a: Path) {
    SkipEntry(a, j.oldBin) || (a in j.bundle && !j.bundle[a].Dir?) || j.io.access(a) == Forbidden
  }

  function CarryStops(j: CarryJob): Path -> bool { (a: Path) => StopsCarry(j, a) }

  ghost predicate Considered(j: CarryJob, p: Path) {
    p in j.prior && !SkipEntry(p, j.oldBin) && Reached(p, CarryStops(j))
  }

  /** What a carried entry is in the new dir, if the carry comes to it. */
  function Copy(j: CarryJob, p: Path): Option<Node>
    requires p in j.prior
  {
    match j.prior[p]
    case Dir => if j.io.access(p) == Forbidden then None else Some(Dir)
    case File(_, data) =>
      if IsSock(p) || j.io.access(p) == Forbidden then None
      else if j.io.access(p) == Linked then Some(j.prior[p]) else Some(File(j.io.made(p), data))
    case Link(_, target) => Some(Link(j.io.made(p), target))
    case Special => None
  }

  /** The new dir after a carry, path by path: the bundle wins, then what is carried. */
  ghost function CarriedAt(j: CarryJob, p: Path): Option<Node> {
    if p in j.bundle then Some(j.bundle[p])
    else if Considered(j, p) then Copy(j, p)
    else None
  }

  /** Entries left for the move after the swap. */
  ghost predicate LeftForMove(j: CarryJob, p: Path) {
    && Considered(j, p) && j.io.access(p) == Forbidden
    && ((j.prior[p].Dir? && (p in j.bundle ==> j.bundle[p].Dir?)) || (j.prior[p].File? && !IsSock(p) && p !in j.bundle))
  }

  ghost predicate IsCarried(j: CarryJob, p: Path) {
    p !in j.bundle && CarriedAt(j, p).Some? && !CarriedAt(j, p).value.Dir?
  }

  ghost predicate HasDir(j: CarryJob, p: Path) {
    Considered(j, p) && j.prior[p].Dir? && if p in j.bundle then j.bundle[p].Dir? else j.io.access(p) != Forbidden
  }

  /** c describes exactly what was carried. */
  ghost predicate Records(j: CarryJob, c: Carry) {
    && (forall p :: p in c.entries <==> IsCarried(j, p))
    && (forall p :: p in c.entries ==> c.entries[p] == Entry(j.prior[p], CarriedAt(j, p).value))
    && (forall p :: p in c.unreadable <==> LeftForMove(j, p))
    && (forall p :: p in c.dirs <==> HasDir(j, p))
  }

  /** How far a carry has come: the new dir, its record, and the directories it skips. */
  datatype CarryState = CarryState(tree: Tree, carry: Carry, skip: set<Path>)

  ghost predicate TreeSoFar(j: CarryJob, seen: set<Path>, t: Tree) {
    forall p :: At(t, p) == if p in j.bundle || p in seen then CarriedAt(j, p) else None
  }

  ghost predicate RecordSoFar(j: CarryJob, seen: set<Path>, c: Carry) {
    && (forall p :: p in c.entries <==> p in seen && IsCarried(j, p))
    && (forall p :: p in c.entries ==> c.entries[p] == Entry(j.prior[p], CarriedAt(j, p).value))
    && (forall p :: p in c.unreadable <==> p in seen && LeftForMove(j, p))
    && (forall p :: p in c.dirs <==> p in seen && HasDir(j, p))
  }

  ghost predicate SkipSoFar(t: Tree, stops: Path -> bool, seen: set<Path>, skip: set<Path>) {
    forall a :: a in skip <==> a in seen && At(t, a) == Some(Dir) && stops(a) && Reached(a, stops)
  }

  ghost predicate CarryInv(j: CarryJob, seen: set<Path>, g: CarryState) {
    TreeSoFar(j, seen, g.tree) && RecordSoFar(j, seen, g.carry) && SkipSoFar(j.prior, CarryStops(j), seen, g.skip)
  }

  /** The record of one entry: where it was placed, whether it is left for the move, whether it is
      a directory of the new dir, and whether what is below it is skipped. */
  function Recorded(g: CarryState, p: Path, src: Node, placed: Option<Node>, left: bool, dir: bool, stop: bool): CarryState {
    CarryState(
      if placed.Some? then g.tree[p := placed.value] else g.tree,
      Carry(if placed.Some? && !placed.value.Dir? then g.carry.entries[p := Entry(src, placed.value)] else g.carry.entries,
            if dir then g.carry.dirs + {p} else g.carry.dirs,
            if left then g.carry.unreadable + {p} else g.carry.unreadable),
      if stop then g.skip + {p} else g.skip)
  }

  lemma TreeAdvances(j: CarryJob, seen: set<Path>, t: Tree, p: Path, placed: Option<Node>)
    requires TreeSoFar(j, seen, t) && placed == if p in j.bundle then None else CarriedAt(j, p)
    requires p !in seen
    ensures TreeSoFar(j, seen + {p}, if placed.Some? then t[p := placed.value] else t)
  {
    assert p in j.bundle ==> CarriedAt(j, p) == Some(j.bundle[p]);
    assert At(t, p) == At(j.bundle, p);
    hide CarriedAt;
  }

  lemma RecordAdvances(j: CarryJob, seen: set<Path>, g: CarryState, p: Path, placed: Option<Node>, left: bool, dir: bool)
    requires RecordSoFar(j, seen, g.carry) && p in j.prior && p !in seen
    requires placed == if p in j.bundle then None else CarriedAt(j, p)
    requires left == LeftForMove(j, p) && dir == HasDir(j, p)
    ensures RecordSoFar(j, seen + {p}, Recorded(g, p, j.prior[p], placed, left, dir, false).carry)
  {
    hide CarriedAt, LeftForMove, HasDir;
  }

  lemma CarryAdvances(j: CarryJob, seen: set<Path>, g: CarryState, p: Path, placed: Option<Node>, left: bool, dir: bool, stop: bool)
    requires CarryInv(j, seen, g) && p in j.prior && p !in seen
    requires placed == if p in j.bundle then None else CarriedAt(j, p)
    requires left == LeftForMove(j, p) && dir == HasDir(j, p)
    requires stop == (j.prior[p].Dir? && StopsCarry(j, p) && Reached(p, CarryStops(j)))
    ensures CarryInv(j, seen + {p}, Recorded(g, p, j.prior[p], placed, left, dir, stop))
  {
    assert CarryStops(j)(p) == StopsCarry(j, p);
    hide CarriedAt, LeftForMove, HasDir, Reached, StopsCarry, CarryStops, TreeSoFar, RecordSoFar;
    TreeAdvances(j, seen, g.tree, p, placed);
    RecordAdvances(j, seen, g, p, placed, left, dir);
  }

  lemma CarryStarts(j: CarryJob, walk: seq<Path>)
    ensures CarryInv(j, Upto(walk, 0), CarryState(j.bundle, Carry(map[], {}, {}), {}))
  {
  }

  /** Before p is handled the new dir holds only the bundle's file there, and p is skipped exactly
      when the walk does not come to it; then nothing is carried for it. */
  lemma CarryComesTo(j: CarryJob, seen: set<Path>, g: CarryState, p: Path)
    requires CarryInv(j, seen, g) && WellFormed(j.prior) && p in j.prior && p !in seen
    requires forall k :: 0 < k < |p| ==> p[..k] in seen
    ensures At(g.tree, p) == At(j.bundle, p)
    ensures (exists k :: 0 < k < |p| && p[..k] in g.skip) <==> !Reached(p, CarryStops(j))
    ensures !Reached(p, CarryStops(j)) ==>
              !LeftForMove(j, p) && !HasDir(j, p) && CarriedAt(j, p) == At(j.bundle, p)
  {
    SkipMeansStopped(p, j.prior, CarryStops(j), g.skip, seen);
  }

  lemma CarryEnds(j: CarryJob, seen: set<Path>, g: CarryState)
    requires CarryInv(j, seen, g) && j.prior.Keys <= seen
    ensures Records(j, g.carry) && forall p :: At(g.tree, p) == CarriedAt(j, p)
  {
    assert forall p :: CarriedAt(j, p).Some? ==> p in j.bundle || p in seen;
    assert forall p :: LeftForMove(j, p) || HasDir(j, p) ==> p in j.prior;
  }

  /** One entry of the walk, when no directory above it stops it. */
  method CarryEntry(ghost j: CarryJob, p: Path, node: Node, exists_: Option<Node>, oldBin: Option<Path>,
                    access: Access, made: Fingerprint) returns (placed: Option<Node>, left: bool, dir: bool, stop: bool)
    requires p in j.prior && j.prior[p] == node && exists_ == At(j.bundle, p) && j.oldBin == oldBin
    requires access == j.io.access(p) && made == j.io.made(p) && access != Broken
    requires Reached(p, CarryStops(j))
    ensures placed == if p in j.bundle then None else CarriedAt(j, p)
    ensures left == LeftForMove(j, p) && dir == HasDir(j, p)
    ensures stop == (node.Dir? && StopsCarry(j, p))
  {
    placed, left, dir, stop := None, false, false, false;
    if SkipEntry(p, oldBin) {
      stop := node.Dir?;
      return;
    }
    match node {
      case Dir =>
        if exists_.Some? {
          if !exists_.value.Dir? {
            stop := true;
            return;
          }
          dir := true;
        } else if access != Forbidden {
          placed, dir := Some(Dir), true;
        }
        if access == Forbidden {
          left, stop := true, true;
        }
      case Link(_, target) =>
        if exists_.Some? { return; }
        placed := Some(Link(made, target));
      case File(_, data) =>
        if exists_.Some? || IsSock(p) { return; }
        if access == Forbidden {
          left := true;
          return;
        }
        placed := Some(if access == Linked then node else File(made, data));
      case Special =>
    }
  }

  /** carryAppState: links or copies every piece of app state the new bundle does not ship. It
      fails only on an entry that breaks (a full disk, an I/O error). */
  method CarryAll(j: CarryJob, walk: seq<Path>) returns (ok: bool, new': Tree, c: Carry)
    requires WellFormed(j.prior) && IsWalk(walk, j.prior)
    ensures ok ==> Records(j, c) && forall p :: At(new', p) == CarriedAt(j, p)
    ensures (forall p :: p in j.prior ==> j.io.access(p) != Broken) ==> ok
  {
    hide CarryInv, CarriedAt, LeftForMove, HasDir, WellFormed, IsWalk, Upto, Reached, CarryStops, StopsCarry, Records;
    var g := CarryState(j.bundle, Carry(map[], {}, {}), {});
    CarryStarts(j, walk);
    for i := 0 to |walk|
      invariant CarryInv(j, Upto(walk, i), g)
    {
      var p := walk[i];
      WalkStep(walk, j.prior, i);
      CarryComesTo(j, Upto(walk, i), g, p);
      if exists k | 0 < k < |p| :: p[..k] in g.skip {
        CarryAdvances(j, Upto(walk, i), g, p, None, false, false, false);
        continue;
      }
      if j.io.access(p) == Broken { return false, g.tree, g.carry; }
      var placed, left, dir, stop := CarryEntry(j, p, j.prior[p], At(g.tree, p), j.oldBin, j.io.access(p), j.io.made(p));
      CarryAdvances(j, Upto(walk, i), g, p, placed, left, dir, stop);
      g := Recorded(g, p, j.prior[p], placed, left, dir, stop);
    }
    WalkEnd(walk, j.prior);
    CarryEnds(j, Upto(walk, |walk|), g);
    return true, g.tree, g.carry;
  }

  // ---------------------------------------------------------------- what a carry guarantees

  /** The bundle ships nothing at, above or below x. */
  ghost predicate Clear(bundle: Tree, x: Path) {
    forall p :: p in bundle ==> !(x <= p) && (p <= x ==> bundle[p].Dir?)
  }

  /** x can hold app state: it is not a control file, in one, or a socket's name. */
  predicate StatePath(x: Path) { x != [] && x[0] !in CONTROL && !IsSock(x) }

  lemma StopAbove(j: CarryJob, x: Path, k: nat)
    requires StatePath(x) && Clear(j.bundle, x) && 0 < k <= |x| && StopsCarry(j, x[..k])
    requires j.oldBin.Some? ==> !(j.oldBin.value <= x)
    ensures j.io.access(x[..k]) == Forbidden
  {
    assert x[..k] <= x;
  }

  /** Every file or symlink of the old dir that the bundle leaves room for is carried with its
      content, or is (in) an entry left for the move. */
  lemma StateIsCarried(j: CarryJob, c: Carry, x: Path, v: Content) returns (u: Option<Path>)
    requires WellFormed(j.prior) && Records(j, c)
    requires x in j.prior && ContentOf(j.prior[x]) == Some(v)
    requires StatePath(x) && Clear(j.bundle, x) && (j.oldBin.Some? ==> !(j.oldBin.value <= x))
    ensures u.None? ==> x in c.entries && x !in j.bundle && CarriedAt(j, x).Some? && ContentOf(CarriedAt(j, x).value) == Some(v)
    ensures u.Some? ==> u.value in c.unreadable && u.value <= x && u.value in j.prior
  {
    assert x[..|x|] == x;
    if Reached(x, CarryStops(j)) {
      assert x <= x;
      assert Considered(j, x) && x !in j.bundle;
      u := if j.prior[x].File? && j.io.access(x) == Forbidden then Some(x) else None;
    } else {
      var k :| 0 < k < |x| && CarryStops(j)(x[..k]);
      var i := FirstStop(x, CarryStops(j), k);
      StopAbove(j, x, i);
      assert At(j.prior, x[..i]) == Some(Dir);
      var a := x[..i];
      assert a <= x;
      assert !SkipEntry(a, j.oldBin);
      assert Considered(j, a) && LeftForMove(j, a);
      u := Some(a);
    }
  }

  /** The carried tree is a proper tree. */
  lemma CarriedOk(j: CarryJob, t: Tree)
    requires WellFormed(j.prior) && WellFormed(j.bundle) && forall p :: At(t, p) == CarriedAt(j, p)
    ensures WellFormed(t)
  {
    forall p, k | p in t && 0 < k < |p|
      ensures At(t, p[..k]) == Some(Dir)
    {
      assert At(t, p) == CarriedAt(j, p);
      if p in j.bundle {
        assert At(j.bundle, p[..k]) == Some(Dir);
      } else {
        assert !CarryStops(j)(p[..k]);
        assert At(j.prior, p[..k]) == Some(Dir);
        forall i | 0 < i < k ensures !CarryStops(j)(p[..k][..i]) {
          assert p[..k][..i] == p[..i];
          assert !CarryStops(j)(p[..i]);
        }
        assert Considered(j, p[..k]);
      }
    }
    assert At(t, []) == CarriedAt(j, []);
    assert [] !in j.bundle && [] !in j.prior;
  }

  /** What is never carried: what the bundle ships, the manifest and the other control files, the old
      binary, sockets, and what is not in the old dir. */
  lemma CarryLeavesOut(j: CarryJob, p: Path)
    ensures p in j.bundle ==> CarriedAt(j, p) == Some(j.bundle[p])
    ensures p !in j.bundle && (p !in j.prior || j.oldBin == Some(p)) ==> CarriedAt(j, p).None?
    ensures p !in j.bundle && |p| == 1 && p[0] in CONTROL ==> CarriedAt(j, p).None?
    ensures p !in j.bundle && p in j.prior && (j.prior[p].Special? || (j.prior[p].File? && IsSock(p))) ==> CarriedAt(j, p).None?
  {
  }

  /** The control files, by name. */
  lemma ControlNames(name: string)
    ensures name in CONTROL <==>
              name in ["manifest.json", "install.json", "install.sh", ".sideloaded", ".suspended", ".resume", ".bundle-sha256",
                       "next-steps.json", ".next-steps.checked", ".next-steps.retry", "app.sock", ".pilot-backup.json"]
  {
  }

  /** A file the carry can link is the same file in the new dir, a copied one has the same bytes under a
      new fingerprint, and a symlink the same target. */
  lemma CarriedNode(j: CarryJob, x: Path)
    requires WellFormed(j.prior) && x in j.prior && StatePath(x) && Clear(j.bundle, x)
    requires j.oldBin.Some? ==> !(j.oldBin.value <= x)
    requires forall k :: 0 < k <= |x| ==> j.io.access(x[..k]) != Forbidden
    ensures j.prior[x].File? ==>
              CarriedAt(j, x) == Some(if j.io.access(x) == Linked then j.prior[x] else File(j.io.made(x), j.prior[x].data))
    ensures j.prior[x].Link? ==> CarriedAt(j, x) == Some(Link(j.io.made(x), j.prior[x].target))
    ensures j.prior[x].Dir? ==> CarriedAt(j, x) == Some(Dir)
  {
    assert x[..|x|] == x && x <= x;
    forall k | 0 < k < |x| ensures !CarryStops(j)(x[..k]) {
      if StopsCarry(j, x[..k]) {
        StopAbove(j, x, k);
      }
    }
    assert Considered(j, x) && x !in j.bundle;
  }
}
