/** Reconciling the old dir with the new install: cmd/pilotctl/appstore_state.go, reconcileAppState.

    Between the carry and this step the old process may have changed either tree, so both are
    arbitrary. `Merged` says path by path what the new dir ends up with, a three-way merge by
    fingerprint; `Reconcile` is the three loops of the source proved to compute it. */
module AppMerge {
  import opened Common
  import opened AppTree
  import opened AppCarry

  /** How an entry of the old dir is put at a name of the new one: hard-linked, copied, moved (this
      user can neither link nor read it), or refused. A symlink is only ever copied or refused. */
  datatype Placing = PlaceLink | PlaceCopy(fp: Fingerprint) | PlaceMove | PlaceFail

  /** How each call goes. listed: the listing of its directory returned the entry; stat: looking at
      the entry and at its place in the new dir works (or finds nothing there); rename: what replaces
      a file is renamed over it from its temporary name, else deleted there; dies: the process is
      killed before it handles that path in that loop. */
  datatype MergeIo = MergeIo(move: Path -> bool, listed: Path -> bool, stat: Path -> bool, mkdir: Path -> bool,
                             place: Path -> Placing, rename: Path -> bool, drop: Path -> bool,
                             dies: (nat, Path) -> bool)

  ghost predicate Unkilled(io: MergeIo) { forall n, p :: !io.dies(n, p) }

  datatype Job = Job(prior: Tree, live: Tree, oldBin: Option<Path>, carry: Carry, io: MergeIo)

  /** Entries brought in, volatile files dropped, and state that stayed only in the old dir. */
  datatype Report = Report(updated: set<Path>, removed: set<Path>, leftover: set<Path>)

  // ---------------------------------------------------------------- the merge, path by path

  /** Same inode, size and modification time. */
  predicate Same(a: Node, b: Node) {
    (a.File? || a.Link?) && (b.File? || b.Link?) && a.fp == b.fp
  }

  /** The old dir's entry is what the carry saw. */
  predicate Unchanged(now: Node, then_: Node) {
    Same(now, then_) && (now.Link? ==> then_.Link? && now.target == then_.target)
  }

  predicate CanMove(m: Job, u: Path) {
    && u in m.prior && u !in m.live && m.io.move(u)
    && (|u| > 1 ==> At(m.live, u[..|u| - 1]) == Some(Dir))
  }

  /** p is, or is below, an entry moved across whole. */
  ghost predicate MovesWhole(m: Job, p: Path) {
    exists u :: u in m.carry.unreadable && u <= p && CanMove(m, u)
  }

  predicate StopsMerge(m: Job, a: Path) {
    || !m.io.listed(a) || SkipEntry(a, m.oldBin) || a in m.carry.unreadable || !m.io.stat(a)
    || (if a in m.live then !m.live[a].Dir? else a in m.carry.dirs || !m.io.mkdir(a))
  }

  function MergeStops(m: Job): Path -> bool { (a: Path) => StopsMerge(m, a) }

  ghost predicate Visited(m: Job, p: Path) {
    && p in m.prior && m.io.listed(p) && !SkipEntry(p, m.oldBin) && p !in m.carry.unreadable
    && Reached(p, MergeStops(m))
  }

  datatype Verdict = Keep | Take(node: Node) | TakeMoved(node: Node) | LeaveOut | Lose

  /** What putting the entry n comes to. Replacing goes by way of a temporary name. */
  function PutVerdict(n: Node, place: Placing, replacing: bool, rename: bool): Verdict {
    match place
    case PlaceFail => LeaveOut
    case PlaceLink => if n.Link? || (replacing && !rename) then LeaveOut else Take(n)
    case PlaceCopy(fp) =>
      if replacing && !rename then LeaveOut
      else Take(match n case File(_, d) => File(fp, d) case Link(_, t) => Link(fp, t) case _ => n)
    case PlaceMove => if n.Link? then LeaveOut else if replacing && !rename then Lose else TakeMoved(n)
  }

  /** What reconcile does with an entry of the old dir it comes to. */
  function Judge(m: Job, p: Path): Verdict
    requires p in m.prior
  {
    var n := m.prior[p];
    if !m.io.stat(p) then Keep
    else match n
    case Dir => if p in m.live || p in m.carry.dirs then Keep else if m.io.mkdir(p) then Take(Dir) else LeaveOut
    case Special => Keep
    case _ =>
      if n.File? && IsSock(p) then Keep
      else if p !in m.carry.entries then (if p in m.live then Keep else PutVerdict(n, m.io.place(p), false, true))
      else if p !in m.live then Keep
      else if !Same(m.live[p], m.carry.entries[p].dst) then Keep
      else if Unchanged(n, m.carry.entries[p].src) then Keep
      else PutVerdict(n, m.io.place(p), true, m.io.rename(p))
  }

  /** The new dir after the moves and the walk. */
  ghost function Walked(m: Job, p: Path): Option<Node> {
    if MovesWhole(m, p) then At(m.prior, p)
    else if Visited(m, p) then
      var v := Judge(m, p);
      if v.Take? || v.TakeMoved? then Some(v.node) else At(m.live, p)
    else At(m.live, p)
  }

  /** The old dir afterwards. */
  ghost function PriorLeft(m: Job, p: Path): Option<Node> {
    if MovesWhole(m, p) || (Visited(m, p) && (Judge(m, p).TakeMoved? || Judge(m, p).Lose?)) then None
    else At(m.prior, p)
  }

  /** A volatile file the app deleted from the old dir and left alone in the new one. */
  ghost predicate Dropped(m: Job, p: Path) {
    && p in m.carry.entries && IsVolatile(p) && PriorLeft(m, p).None?
    && Walked(m, p).Some? && Same(Walked(m, p).value, m.carry.entries[p].dst) && m.io.drop(p)
  }

  ghost function Merged(m: Job, p: Path): Option<Node> {
    if Dropped(m, p) then None else Walked(m, p)
  }

  ghost predicate IsLeftover(m: Job, p: Path) {
    || (p in m.carry.unreadable && p in m.prior && !CanMove(m, p))
    || (Visited(m, p) && (Judge(m, p).LeaveOut? || Judge(m, p).Lose?))
  }

  /** A file or symlink taken from the old dir. */
  predicate Brings(v: Verdict) { (v.Take? || v.TakeMoved?) && !v.node.Dir? }

  ghost predicate IsUpdated(m: Job, p: Path) {
    (p in m.carry.unreadable && CanMove(m, p)) || (Visited(m, p) && Brings(Judge(m, p)))
  }

  /** What the carry guarantees: entries left for the move do not nest, and nothing carried is at,
      above or below one. */
  ghost predicate Separate(c: Carry) {
    && [] !in c.unreadable
    && (forall u, v :: u in c.unreadable && v in c.unreadable && u <= v ==> u == v)
    && (forall u, p :: u in c.unreadable && p in c.entries ==> !(u <= p) && !(p <= u))
  }

  // ---------------------------------------------------------------- what the merge means

  /** A change in the old dir that the new one did not override. */
  predicate Changed(m: Job, p: Path) {
    && p in m.carry.entries && p in m.prior && p in m.live
    && Same(m.live[p], m.carry.entries[p].dst) && !Unchanged(m.prior[p], m.carry.entries[p].src)
  }

  /** A moved volatile file that looks like the copy the carry made is taken for that copy and dropped. */
  predicate DropsMoved(m: Job, p: Path) {
    && p in m.carry.entries && p in m.prior && m.prior[p].File? && m.io.place(p).PlaceMove? && m.io.rename(p)
    && IsVolatile(p) && Same(m.prior[p], m.carry.entries[p].dst) && m.io.drop(p)
  }

  predicate HasContent(o: Option<Node>, n: Node) { o.Some? && ContentOf(o.value) == ContentOf(n) }

  /** The three-way law: a change or removal made in the new install wins, else a change in the old
      dir is taken (or reported), else it is untouched. */
  ghost predicate ThreeWay(m: Job, p: Path)
    requires p in m.carry.entries && p in m.prior
  {
    var n, place, rename := m.prior[p], m.io.place(p), m.io.rename(p);
    && (p !in m.live ==> Merged(m, p).None? && PriorLeft(m, p) == Some(n))
    && (p in m.live && !Same(m.live[p], m.carry.entries[p].dst) ==>
          Merged(m, p) == Some(m.live[p]) && PriorLeft(m, p) == Some(n))
    && (p in m.live && Same(m.live[p], m.carry.entries[p].dst) && Unchanged(n, m.carry.entries[p].src) ==>
          Merged(m, p) == Some(m.live[p]) && PriorLeft(m, p) == Some(n))
    && (Changed(m, p) ==>
          if place.PlaceMove? && n.File? then
            && PriorLeft(m, p).None?
            && (rename ==> Merged(m, p) == if DropsMoved(m, p) then None else Some(n))
            && (!rename ==> IsLeftover(m, p) && Merged(m, p) == if IsVolatile(p) && m.io.drop(p) then None else Some(m.live[p]))
          else
            && PriorLeft(m, p) == Some(n)
            && if rename && (place.PlaceCopy? || (place.PlaceLink? && n.File?)) then HasContent(Merged(m, p), n)
               else IsLeftover(m, p) && Merged(m, p) == Some(m.live[p]))
  }

  lemma VisitedMerges(m: Job, p: Path)
    requires p in m.carry.entries && Visited(m, p) && Separate(m.carry) && m.io.stat(p)
    requires m.prior[p].Link? || (m.prior[p].File? && !IsSock(p))
    ensures ThreeWay(m, p)
  {
    NotMoved(m, p);
    hide IsVolatile;
  }

  /** m's record is that of the carry j, whatever either tree has become since. */
  ghost predicate CarriedBy(j: CarryJob, m: Job) { WellFormed(j.prior) && Records(j, m.carry) && j.oldBin == m.oldBin }

  /** The entry and the directories above it can be listed and looked at. */
  ghost predicate Seen(m: Job, p: Path) { forall k :: 0 < k <= |p| ==> m.io.listed(p[..k]) && m.io.stat(p[..k]) }

  predicate ParentThere(t: Tree, p: Path) { |p| > 1 ==> At(t, p[..|p| - 1]) == Some(Dir) }

  /** Reconcile comes to every carried file whose parent directory is still in the new install. */
  lemma CarriedIsVisited(j: CarryJob, m: Job, p: Path)
    requires CarriedBy(j, m) && WellFormed(m.live) && p in m.carry.entries && p in m.prior
    requires ParentThere(m.live, p) && Seen(m, p)
    ensures Visited(m, p) && m.io.stat(p)
  {
    CarrySeparates(j, m.carry);
    assert IsCarried(j, p) && p[..|p|] == p && p <= p;
    forall k | 0 < k < |p| ensures !MergeStops(m)(p[..k]) {
      CarriedAbove(j, m, p, k);
    }
  }

  lemma CarriedAbove(j: CarryJob, m: Job, p: Path, k: nat)
    requires CarriedBy(j, m) && WellFormed(m.live) && p in m.carry.entries && 0 < k < |p|
    requires ParentThere(m.live, p) && Seen(m, p)
    ensures !StopsMerge(m, p[..k])
  {
    var a, parent := p[..k], p[..|p| - 1];
    assert IsCarried(j, p) && a <= p;
    CarryGoesOn(j, a, p);
    if k < |parent| {
      assert parent[..k] == a;
    } else {
      assert parent == a;
    }
    assert At(m.live, a) == Some(Dir);
    assert a in m.carry.unreadable ==> LeftForMove(j, a);
  }

  /** The three-way law for every carried file whose parent directory is still in the new install. */
  lemma CarriedFileMerges(j: CarryJob, m: Job, p: Path)
    requires CarriedBy(j, m) && WellFormed(m.live) && p in m.carry.entries && p in m.prior
    requires ParentThere(m.live, p) && Seen(m, p) && (m.prior[p].Link? || (m.prior[p].File? && !IsSock(p)))
    ensures ThreeWay(m, p)
  {
    CarrySeparates(j, m.carry);
    CarriedIsVisited(j, m, p);
    VisitedMerges(m, p);
  }

  /** A file new in the old dir is added only if the new dir has none there, or reported. */
  lemma NewFileMerges(m: Job, p: Path)
    requires p !in m.carry.entries && Visited(m, p) && Separate(m.carry) && m.io.stat(p)
    requires m.prior[p].Link? || (m.prior[p].File? && !IsSock(p))
    ensures p in m.live ==> Merged(m, p) == Some(m.live[p])
    ensures p !in m.live ==>
              if m.io.place(p).PlaceFail? || (m.prior[p].Link? && !m.io.place(p).PlaceCopy?)
              then Merged(m, p).None? && IsLeftover(m, p)
              else HasContent(Merged(m, p), m.prior[p])
  {
    NotMoved(m, p);
  }

  /** The law in the terms of Lstat. A carried file whose new copy is not, in inode, size and modification
      time, the one the carry made stays as the new install left it. If it is that one, a file of the old
      dir that agrees with what the carry saw in all three changes nothing, and one that differs in any
      has its bytes in the new dir, or is reported. */
  lemma MergeByFingerprint(j: CarryJob, m: Job, p: Path, src: Node, dst: Node)
    requires CarriedBy(j, m) && WellFormed(m.live) && p in m.prior && p in m.live && ParentThere(m.live, p) && Seen(m, p)
    requires p in m.carry.entries && m.carry.entries[p] == Entry(src, dst) && src.File? && dst.File?
    requires m.prior[p].File? && !IsSock(p)
    ensures var n, l, place, rename := m.prior[p], m.live[p], m.io.place(p), m.io.rename(p);
      if !l.File? && !l.Link? then Merged(m, p) == Some(l) && PriorLeft(m, p) == Some(n)
      else if l.fp.inode != dst.fp.inode || l.fp.size != dst.fp.size || l.fp.mtime != dst.fp.mtime
      then Merged(m, p) == Some(l) && PriorLeft(m, p) == Some(n)
      else if n.fp.inode == src.fp.inode && n.fp.size == src.fp.size && n.fp.mtime == src.fp.mtime
      then Merged(m, p) == Some(l) && PriorLeft(m, p) == Some(n) && !IsLeftover(m, p)
      else
        && (rename && (place.PlaceLink? || place.PlaceCopy?) ==>
              Merged(m, p).Some? && Merged(m, p).value.File? && Merged(m, p).value.data == n.data)
        && (place.PlaceFail? || (!rename && !place.PlaceMove?) ==> IsLeftover(m, p) && PriorLeft(m, p) == Some(n))
        && (rename && place.PlaceMove? ==>
              || Merged(m, p) == Some(n)
              || (IsVolatile(p) && n.fp.inode == dst.fp.inode && n.fp.size == dst.fp.size && n.fp.mtime == dst.fp.mtime))
        && (!rename && place.PlaceMove? ==> IsLeftover(m, p))
  {
    hide IsVolatile, IsSock;
    CarriedFileMerges(j, m, p);
    CarrySeparates(j, m.carry);
    CarriedIsVisited(j, m, p);
    NotMoved(m, p);
  }

  /** A carried symlink: the target counts too. */
  lemma LinkMergesByTarget(j: CarryJob, m: Job, p: Path, src: Node, dst: Node)
    requires CarriedBy(j, m) && WellFormed(m.live) && p in m.prior && p in m.live && ParentThere(m.live, p) && Seen(m, p)
    requires p in m.carry.entries && m.carry.entries[p] == Entry(src, dst) && src.Link? && dst.Link?
    requires m.prior[p].Link? && m.live[p].Link? && m.live[p].fp == dst.fp
    ensures var n, l := m.prior[p], m.live[p];
      if n.fp == src.fp && n.target == src.target then Merged(m, p) == Some(l) && !IsLeftover(m, p)
      else if m.io.place(p).PlaceCopy? && m.io.rename(p)
      then Merged(m, p).Some? && Merged(m, p).value.Link? && Merged(m, p).value.target == n.target
      else IsLeftover(m, p) && Merged(m, p) == Some(l) && PriorLeft(m, p) == Some(n)
  {
    hide IsVolatile, IsSock;
    CarriedFileMerges(j, m, p);
    CarrySeparates(j, m.carry);
    CarriedIsVisited(j, m, p);
    NotMoved(m, p);
  }

  /** A carried file gone from the old dir goes from the new one exactly when it is volatile and still, in
      inode, size and modification time, the copy the carry made (and can be removed). */
  lemma DeletedByFingerprint(m: Job, p: Path, dst: Node)
    requires p in m.carry.entries && m.carry.entries[p].dst == dst && dst.File? && p !in m.prior && p in m.live && Separate(m.carry)
    requires m.live[p].File? || m.live[p].Link?
    ensures var l := m.live[p];
      Merged(m, p) == if IsVolatile(p) && m.io.drop(p)
                         && l.fp.inode == dst.fp.inode && l.fp.size == dst.fp.size && l.fp.mtime == dst.fp.mtime
                      then None else Some(l)
  {
    hide IsVolatile;
  }

  /** Reconcile comes to every entry below directories that are in the new install. */
  lemma NewIsVisited(m: Job, p: Path)
    requires WellFormed(m.live) && p in m.prior && p != [] && ParentThere(m.live, p) && Seen(m, p)
    requires forall k :: 0 < k <= |p| ==> !SkipEntry(p[..k], m.oldBin) && p[..k] !in m.carry.unreadable
    ensures Visited(m, p) && m.io.stat(p)
  {
    assert p[..|p|] == p;
    forall k | 0 < k < |p| ensures !MergeStops(m)(p[..k]) {
      var parent := p[..|p| - 1];
      if k < |parent| {
        assert parent[..k] == p[..k];
      } else {
        assert parent == p[..k];
      }
      assert At(m.live, p[..k]) == Some(Dir);
    }
  }

  /** A file new in the old dir, below a directory of the new one that has none there, arrives or is
      reported; a new directory is made or reported. */
  lemma NewEntryArrives(m: Job, p: Path)
    requires WellFormed(m.live) && Separate(m.carry) && p in m.prior && p != [] && ParentThere(m.live, p) && Seen(m, p)
    requires forall k :: 0 < k <= |p| ==> !SkipEntry(p[..k], m.oldBin) && p[..k] !in m.carry.unreadable
    requires p !in m.live && p !in m.carry.entries && p !in m.carry.dirs
    ensures m.prior[p].Dir? ==> if m.io.mkdir(p) then Merged(m, p) == Some(Dir) else IsLeftover(m, p)
    ensures m.prior[p].File? && !IsSock(p) ==>
              if m.io.place(p).PlaceFail? then IsLeftover(m, p)
              else Merged(m, p).Some? && Merged(m, p).value.File? && Merged(m, p).value.data == m.prior[p].data
    ensures m.prior[p].Link? ==>
              if !m.io.place(p).PlaceCopy? then IsLeftover(m, p)
              else Merged(m, p).Some? && Merged(m, p).value.Link? && Merged(m, p).value.target == m.prior[p].target
  {
    hide IsVolatile, IsSock;
    NewIsVisited(m, p);
    NotMoved(m, p);
  }

  /** An entry left for the move goes across with all below it exactly when it is still there, its name in
      the new dir is free, its parent is there, and the rename succeeds; else it is reported, if still there. */
  lemma UnreadableMoves(m: Job, u: Path, p: Path)
    requires Separate(m.carry) && u in m.carry.unreadable && u <= p && p in m.prior && u in m.prior
    ensures var goes := u !in m.live && m.io.move(u) && (|u| > 1 ==> At(m.live, u[..|u| - 1]) == Some(Dir));
      && (goes ==> Merged(m, p) == Some(m.prior[p]) && PriorLeft(m, p).None?)
      && (IsLeftover(m, u) <==> !goes)
  {
    if Visited(m, u) {
      NotMoved(m, u);
    }
  }

  /** A carried file gone from the old dir is dropped from the new one only if it is volatile and
      unchanged there. */
  lemma DeletedFileMerges(m: Job, p: Path)
    requires p in m.carry.entries && p !in m.prior && Separate(m.carry)
    ensures Merged(m, p) == if p in m.live && IsVolatile(p) && Same(m.live[p], m.carry.entries[p].dst) && m.io.drop(p)
                            then None else At(m.live, p)
  {
  }

  /** An entry left for the move goes across with everything below it, or is reported. */
  lemma UnreadableMerges(m: Job, u: Path, p: Path)
    requires u in m.carry.unreadable && u in m.prior && u <= p && p in m.prior && Separate(m.carry)
    ensures IsLeftover(m, u) || (Merged(m, p) == Some(m.prior[p]) && PriorLeft(m, p).None?)
  {
  }

  /** The old dir's file should move: it is new and the new dir has none there, or it was carried,
      changed since, and the new dir's copy did not. */
  predicate ShouldMove(m: Job, p: Path) {
    && p in m.prior && (m.prior[p].Link? || (m.prior[p].File? && !IsSock(p))) && !SkipEntry(p, m.oldBin)
    && if p in m.carry.entries then Changed(m, p) else p !in m.live
  }

  /** The walk leaves the directory a out without a word: its listing did not return it, it is a
      control name or the old binary, it or its place cannot be looked at, or the new dir has no
      directory there although it has, or the carry had made, something. */
  predicate SilentStop(m: Job, a: Path) {
    || !m.io.listed(a) || SkipEntry(a, m.oldBin)
    || (a !in m.carry.unreadable && (!m.io.stat(a) || if a in m.live then !m.live[a].Dir? else a in m.carry.dirs))
  }

  /** A directory above p is left out that way, or p itself is not listed or cannot be looked at; and
      p is not in an entry left for the move. */
  ghost predicate Hidden(m: Job, p: Path) {
    && (forall u :: u in m.carry.unreadable ==> !(u <= p))
    && (|| (exists k :: 0 < k < |p| && SilentStop(m, p[..k]) && Reached(p[..k], MergeStops(m)))
        || (Reached(p, MergeStops(m)) && !(m.io.listed(p) && m.io.stat(p))))
  }

  ghost predicate Reported(m: Job, p: Path) { exists k :: 0 < k <= |p| && IsLeftover(m, p[..k]) }

  /** What should move is taken or reported, itself or in a directory above it, exactly when it is
      neither hidden nor moved and then dropped for the copy it looks like. Hidden, it stays in the
      old dir; dropped, it is in neither. */
  lemma LeftoverComplete(m: Job, p: Path)
    requires WellFormed(m.prior) && Separate(m.carry) && ShouldMove(m, p)
    ensures Hidden(m, p) ==> Merged(m, p) == At(m.live, p) && PriorLeft(m, p) == Some(m.prior[p]) && !Reported(m, p)
    ensures !Hidden(m, p) && Visited(m, p) && DropsMoved(m, p) ==>
              Merged(m, p).None? && PriorLeft(m, p).None? && !Reported(m, p)
    ensures !Hidden(m, p) && !(Visited(m, p) && DropsMoved(m, p)) ==>
              Reported(m, p) || HasContent(Merged(m, p), m.prior[p])
  {
    assert p[..|p|] == p;
    if Hidden(m, p) {
      HiddenUnreported(m, p);
    } else if u :| u in m.carry.unreadable && u <= p {
      UnreadableReported(m, u, p);
      if Visited(m, p) {
        NotMoved(m, p);
      }
    } else if Reached(p, MergeStops(m)) {
      assert p <= p;
      if p in m.carry.entries {
        VisitedMerges(m, p);
        if DropsMoved(m, p) {
          VisitedUnreported(m, p);
        }
      } else {
        NewFileMerges(m, p);
      }
    } else {
      LoudStop(m, p);
    }
  }

  /** No directory above an entry the walk comes to is reported. */
  lemma VisitedUnreported(m: Job, p: Path)
    requires WellFormed(m.prior) && Separate(m.carry) && Visited(m, p) && !IsLeftover(m, p)
    ensures !Reported(m, p)
  {
    NotMoved(m, p);
    forall k | 0 < k <= |p| ensures !IsLeftover(m, p[..k]) {
      if k < |p| {
        assert p[..k] <= p && !MergeStops(m)(p[..k]);
        assert At(m.prior, p[..k]) == Some(Dir) by { DirAbove(m.prior, p[..k], p); }
      } else {
        assert p[..k] == p;
      }
    }
  }

  /** Such a change: the carried file a became a directory in the old dir, and the new file in it
      is neither taken nor reported. */
  lemma DirectoryHidesFile(m: Job, a: Path, p: Path, f: Node, g: Node)
    requires |a| == 1 && |p| == 2 && p[..1] == a && !SkipEntry(p, None) && !IsSock(p) && !IsVolatile(p)
    requires f.File? && g.File? && m.prior == map[a := Dir, p := g] && m.live == map[a := f] && m.oldBin == None
    requires m.carry == Carry(map[a := Entry(f, f)], {}, {})
    ensures ShouldMove(m, p) && Merged(m, p).None? && !Reported(m, p)
  {
    hide IsVolatile, IsSock, Merged, Reported, Judge, PriorLeft, SkipEntry;
    assert SilentStop(m, p[..1]) && Reached(p[..1], MergeStops(m));
    assert WellFormed(m.prior) && ShouldMove(m, p) && Hidden(m, p);
    LeftoverComplete(m, p);
  }

  /** Another: a directory made in the old dir since the carry that this user cannot list. It is made
      in the new dir too, empty, and the file in it is neither taken nor reported. */
  lemma UnlistableHidesFile(m: Job, a: Path, p: Path, g: Node)
    requires |a| == 1 && |p| == 2 && p[..1] == a && !SkipEntry(a, None) && !SkipEntry(p, None) && !IsSock(p) && g.File?
    requires m.prior == map[a := Dir, p := g] && m.live == map[] && m.oldBin == None && m.carry == Carry(map[], {}, {})
    requires m.io.listed(a) && m.io.stat(a) && m.io.mkdir(a) && !m.io.listed(p)
    ensures ShouldMove(m, p) && Merged(m, a) == Some(Dir) && Merged(m, p).None? && !Reported(m, p)
  {
    hide IsSock, SkipEntry, IsVolatile;
    assert Reached(p, MergeStops(m)) by { assert !StopsMerge(m, p[..1]); }
    assert WellFormed(m.prior) && ShouldMove(m, p) && Hidden(m, p);
    LeftoverComplete(m, p);
    assert Reached(a, MergeStops(m)) && Visited(m, a) && Judge(m, a) == Take(Dir);
    assert !MovesWhole(m, a);
  }

  lemma UnreadableReported(m: Job, u: Path, p: Path)
    requires WellFormed(m.prior) && Separate(m.carry) && p in m.prior && u in m.carry.unreadable && u <= p
    ensures Reported(m, p) || (Merged(m, p) == Some(m.prior[p]))
  {
    AncestorThere(m.prior, u, p);
    UnreadableMerges(m, u, p);
    assert p[..|u|] == u;
  }

  /** The first directory the walk stops at above p is reported if it is not left out silently. */
  lemma LoudStop(m: Job, p: Path)
    requires WellFormed(m.prior) && p in m.prior && !Reached(p, MergeStops(m)) && !Hidden(m, p)
    requires forall u :: u in m.carry.unreadable ==> !(u <= p)
    ensures Reported(m, p)
  {
    var k :| 0 < k < |p| && MergeStops(m)(p[..k]);
    var i := FirstStop(p, MergeStops(m), k);
    var a := p[..i];
    assert a <= p && !SilentStop(m, a);
    assert At(m.prior, a) == Some(Dir) by { DirAbove(m.prior, a, p); }
    assert Visited(m, a) && Judge(m, a).LeaveOut?;
    assert IsLeftover(m, p[..i]);
  }

  lemma HiddenUnreported(m: Job, p: Path)
    requires WellFormed(m.prior) && p in m.prior && (m.prior[p].File? || m.prior[p].Link?) && Hidden(m, p)
    ensures Merged(m, p) == At(m.live, p) && PriorLeft(m, p) == Some(m.prior[p]) && !Reported(m, p)
  {
    assert !MovesWhole(m, p);
    if i :| 0 < i < |p| && SilentStop(m, p[..i]) && Reached(p[..i], MergeStops(m)) {
      assert MergeStops(m)(p[..i]);
      assert !Visited(m, p);
      forall k | 0 < k <= |p| ensures !IsLeftover(m, p[..k]) {
        HiddenPrefix(m, p, i, k);
      }
    } else {
      UnseenUnreported(m, p);
    }
  }

  lemma UnseenUnreported(m: Job, p: Path)
    requires WellFormed(m.prior) && p in m.prior && (m.prior[p].File? || m.prior[p].Link?)
    requires forall u :: u in m.carry.unreadable ==> !(u <= p)
    requires Reached(p, MergeStops(m)) && !(m.io.listed(p) && m.io.stat(p))
    ensures (Visited(m, p) ==> Judge(m, p).Keep?) && !Reported(m, p)
  {
    forall k | 0 < k <= |p| ensures !IsLeftover(m, p[..k]) {
      assert p[..k] <= p;
      if k < |p| {
        assert !MergeStops(m)(p[..k]);
        assert At(m.prior, p[..k]) == Some(Dir) by { DirAbove(m.prior, p[..k], p); }
      } else {
        assert p[..k] == p;
      }
    }
  }

  lemma HiddenPrefix(m: Job, p: Path, i: nat, k: nat)
    requires WellFormed(m.prior) && p in m.prior && 0 < i < |p| && 0 < k <= |p|
    requires forall u :: u in m.carry.unreadable ==> !(u <= p)
    requires SilentStop(m, p[..i]) && Reached(p[..i], MergeStops(m))
    ensures !IsLeftover(m, p[..k])
  {
    var a := p[..k];
    assert a <= p;
    if i < k {
      assert a[..i] == p[..i] && MergeStops(m)(a[..i]);
    } else {
      assert At(m.prior, a) == Some(Dir) by { DirAbove(m.prior, a, p); }
      if k < i {
        assert p[..i][..k] == a && !MergeStops(m)(p[..i][..k]);
      }
    }
  }

  /** Neither tree holds what the old dir held at p. */
  ghost predicate Lost(m: Job, p: Path)
    requires p in m.prior
  {
    !HasContent(PriorLeft(m, p), m.prior[p]) && !HasContent(Merged(m, p), m.prior[p])
  }

  /** An entry of the old dir is lost exactly when it replaces a carried file, this user can neither
      link nor read it, and then the rename over that file fails, or the file is volatile and taken
      for a stale copy. */
  lemma ReplacementLost(m: Job, p: Path)
    requires Separate(m.carry) && p in m.prior && (m.prior[p].File? || m.prior[p].Link?)
    ensures Lost(m, p) <==>
              && Visited(m, p) && m.io.stat(p) && Changed(m, p)
              && m.prior[p].File? && !IsSock(p) && m.io.place(p).PlaceMove?
              && if m.io.rename(p) then DropsMoved(m, p)
                 else (IsVolatile(p) && m.io.drop(p)) || ContentOf(m.live[p]) != ContentOf(m.prior[p])
  {
    hide IsVolatile, IsSock;
    if Visited(m, p) {
      NotMoved(m, p);
      if Judge(m, p).Keep? || p !in m.carry.entries {
        StaysOrMoves(m, p);
      } else {
        VisitedMerges(m, p);
      }
    } else {
      StaysOrMoves(m, p);
    }
  }

  lemma StaysOrMoves(m: Job, p: Path)
    requires Separate(m.carry) && p in m.prior && (m.prior[p].File? || m.prior[p].Link?)
    requires Visited(m, p) ==> Judge(m, p).Keep? || p !in m.carry.entries
    ensures !Lost(m, p)
  {
    hide IsVolatile, IsSock;
  }

  /** It does happen: a changed file owned by another user, and a rename that fails. */
  lemma ReplacementIsLost(m: Job, p: Path, f: Node, g: Node)
    requires |p| == 1 && !SkipEntry(p, None) && !IsSock(p) && !IsVolatile(p)
    requires f == File(Fingerprint(1, 1, 1), "f") && g == File(Fingerprint(2, 1, 2), "g")
    requires m.prior == map[p := g] && m.live == map[p := f] && m.oldBin == None
    requires m.carry == Carry(map[p := Entry(f, f)], {}, {})
    requires m.io.listed(p) && m.io.stat(p) && m.io.place(p).PlaceMove? && !m.io.rename(p)
    ensures PriorLeft(m, p).None? && Merged(m, p) == Some(f)
  {
    hide IsVolatile, IsSock, SkipEntry;
    assert Visited(m, p);
    VisitedMerges(m, p);
  }

  /** With the app quiet, a carried entry is the same in the new dir afterwards and still in the old. */
  lemma QuietEntryKept(m: Job, p: Path)
    requires p in m.carry.entries && Separate(m.carry) && p in m.prior && p in m.live
    requires m.prior[p] == m.carry.entries[p].src && m.live[p] == m.carry.entries[p].dst
    requires (m.prior[p].File? || m.prior[p].Link?) && (m.live[p].File? || m.live[p].Link?)
    ensures Merged(m, p) == Some(m.live[p]) && PriorLeft(m, p) == Some(m.prior[p])
    ensures Visited(m, p) ==> Judge(m, p).Keep?
  {
  }

  /** A visited entry is not at or below one left for the move. */
  lemma NotMoved(m: Job, p: Path)
    requires Visited(m, p) && Separate(m.carry)
    ensures !MovesWhole(m, p)
    ensures forall u :: u in m.carry.unreadable ==> !(u <= p)
  {
    forall u | u in m.carry.unreadable
      ensures !(u <= p)
    {
      if u <= p {
        NoneAbove(m, p, u);
      }
    }
  }

  lemma NoneAbove(m: Job, p: Path, u: Path)
    requires Reached(p, MergeStops(m)) && u != [] && u != p && u <= p
    ensures !StopsMerge(m, u)
  {
    assert u == p[..|u|];
    assert !MergeStops(m)(p[..|u|]);
  }

  // ---------------------------------------------------------------- moving entries whole

  ghost predicate MovedBy(m: Job, seen: set<Path>, p: Path) {
    exists u :: u in seen && u <= p && CanMove(m, u)
  }

  ghost predicate MovesSoFar(m: Job, seen: set<Path>, prior': Tree, live': Tree) {
    && (forall p :: At(live', p) == if MovedBy(m, seen, p) then At(m.prior, p) else At(m.live, p))
    && (forall p :: At(prior', p) == if MovedBy(m, seen, p) then None else At(m.prior, p))
  }

  function Subtree(t: Tree, u: Path): Tree { map p | p in t && u <= p :: t[p] }

  /** Two prefixes of one path are prefixes of each other. */
  lemma PrefixesNest(u: Path, v: Path, p: Path)
    requires u <= p && v <= p
    ensures u <= v || v <= u
  {
    assert u == p[..|u|] && v == p[..|v|];
    if |u| <= |v| {
      assert v[..|u|] == u;
    } else {
      assert u[..|v|] == v;
    }
  }

  /** The trees at, above and beside u are untouched by the moves of other entries. */
  lemma MoveSeesOriginals(m: Job, seen: set<Path>, u: Path, p: Path)
    requires Separate(m.carry) && seen <= m.carry.unreadable && u in m.carry.unreadable && u !in seen
    requires p <= u || u <= p
    ensures !MovedBy(m, seen, p)
  {
    forall v | v in seen && v <= p
      ensures false
    {
      if u <= p {
        PrefixesNest(u, v, p);
      }
    }
  }

  /** What the move of u sees is the original trees. */
  lemma MoveLooks(m: Job, seen: set<Path>, prior': Tree, live': Tree, u: Path)
    requires MovesSoFar(m, seen, prior', live') && Separate(m.carry)
    requires seen <= m.carry.unreadable && u in m.carry.unreadable && u !in seen
    ensures CanMove(m, u) <==>
              u in prior' && u !in live' && m.io.move(u) && (|u| > 1 ==> At(live', u[..|u| - 1]) == Some(Dir))
    ensures u in prior' <==> u in m.prior
  {
    MoveSeesOriginals(m, seen, u, u);
    assert At(prior', u) == At(m.prior, u) && At(live', u) == At(m.live, u);
    if |u| > 1 {
      MoveSeesOriginals(m, seen, u, u[..|u| - 1]);
      assert At(live', u[..|u| - 1]) == At(m.live, u[..|u| - 1]);
    }
  }

  lemma MovedByOneMore(m: Job, seen: set<Path>, u: Path, p: Path)
    ensures MovedBy(m, seen + {u}, p) <==> MovedBy(m, seen, p) || (u <= p && CanMove(m, u))
  {
    hide CanMove;
  }

  lemma MoveStays(m: Job, seen: set<Path>, prior': Tree, live': Tree, u: Path)
    requires MovesSoFar(m, seen, prior', live') && !CanMove(m, u)
    ensures MovesSoFar(m, seen + {u}, prior', live')
  {
    hide MovedBy, CanMove;
    forall p ensures MovedBy(m, seen + {u}, p) == MovedBy(m, seen, p) {
      MovedByOneMore(m, seen, u, p);
    }
  }

  lemma MoveHappens(m: Job, seen: set<Path>, prior': Tree, live': Tree, u: Path)
    requires MovesSoFar(m, seen, prior', live') && Separate(m.carry) && WellFormed(m.live) && CanMove(m, u)
    requires seen <= m.carry.unreadable && u in m.carry.unreadable && u !in seen
    ensures MovesSoFar(m, seen + {u}, prior' - Subtree(prior', u).Keys, live' + Subtree(prior', u))
  {
    var sub := Subtree(prior', u);
    forall p
      ensures At(live' + sub, p) == if MovedBy(m, seen + {u}, p) then At(m.prior, p) else At(m.live, p)
      ensures At(prior' - sub.Keys, p) == if MovedBy(m, seen + {u}, p) then None else At(m.prior, p)
    {
      MovedByOneMore(m, seen, u, p);
      if u <= p {
        MoveSeesOriginals(m, seen, u, p);
        if p in m.live {
          AncestorThere(m.live, u, p);
        }
        assert At(prior', p) == At(m.prior, p) && At(live', p) == At(m.live, p);
      }
    }
  }

  lemma AncestorThere(t: Tree, u: Path, p: Path)
    requires WellFormed(t) && p in t && u != [] && u <= p
    ensures u in t
  {
    assert p[..|u|] == u;
    if |u| < |p| {
      assert At(t, p[..|u|]) == Some(Dir);
    } else {
      assert u == p;
    }
  }

  /** Moves across the entries the carry could neither link nor read. */
  method MoveUnreadable(m: Job) returns (alive: bool, prior': Tree, live': Tree, r: Report)
    requires Separate(m.carry) && WellFormed(m.live)
    ensures exists seen :: seen <= m.carry.unreadable && MovesSoFar(m, seen, prior', live')
    ensures alive ==> MovesSoFar(m, m.carry.unreadable, prior', live')
    ensures alive ==> forall p :: p in r.updated <==> p in m.carry.unreadable && CanMove(m, p)
    ensures alive ==> forall p :: p in r.leftover <==> p in m.carry.unreadable && p in m.prior && !CanMove(m, p)
    ensures r.removed == {} && (Unkilled(m.io) ==> alive)
  {
    hide CanMove, MovesSoFar, Separate, WellFormed;
    prior', live', r := m.prior, m.live, Report({}, {}, {});
    var todo := m.carry.unreadable;
    ghost var seen: set<Path> := {};
    MovesStart(m);
    while todo != {}
      invariant seen == m.carry.unreadable - todo && todo <= m.carry.unreadable
      invariant MovesSoFar(m, seen, prior', live')
      invariant forall p :: p in r.updated <==> p in seen && CanMove(m, p)
      invariant forall p :: p in r.leftover <==> p in seen && p in m.prior && !CanMove(m, p)
      invariant r.removed == {}
      decreases todo
    {
      var u :| u in todo;
      if m.io.dies(1, u) { return false, prior', live', r; }
      MoveLooks(m, seen, prior', live', u);
      if CanMove(m, u) {
        MoveHappens(m, seen, prior', live', u);
      } else {
        MoveStays(m, seen, prior', live', u);
      }
      todo := todo - {u};
      seen := seen + {u};
      if u in prior' && u !in live' && m.io.move(u) && (|u| > 1 ==> At(live', u[..|u| - 1]) == Some(Dir)) {
        var sub := Subtree(prior', u);
        prior', live' := prior' - sub.Keys, live' + sub;
        r := r.(updated := r.updated + {u});
      } else if u in prior' {
        r := r.(leftover := r.leftover + {u});
      }
    }
    assert seen == m.carry.unreadable;
    alive := true;
  }

  lemma MovesStart(m: Job)
    ensures MovesSoFar(m, {}, m.prior, m.live)
  {
    assert forall p :: !MovedBy(m, {}, p);
  }

  // ---------------------------------------------------------------- the walk

  /** How far the walk has come: both trees, the report, and the directories it skips. */
  datatype MergeState = MergeState(prior: Tree, live: Tree, report: Report, skip: set<Path>)

  ghost predicate TreesSoFar(m: Job, seen: set<Path>, g: MergeState) {
    LiveSoFar(m, seen, g.live) && PriorSoFar(m, seen, g.prior)
  }

  ghost predicate Covers(seen: set<Path>, t: Tree) { t.Keys <= seen }

  ghost predicate ReportSoFar(m: Job, seen: set<Path>, r: Report) {
    && (forall p :: p in r.updated <==>
          (p in m.carry.unreadable && CanMove(m, p)) || (p in seen && Visited(m, p) && Brings(Judge(m, p))))
    && (forall p :: p in r.leftover <==>
          (p in m.carry.unreadable && p in m.prior && !CanMove(m, p))
          || (p in seen && Visited(m, p) && (Judge(m, p).LeaveOut? || Judge(m, p).Lose?)))
    && r.removed == {}
  }

  ghost predicate MergeInv(m: Job, seen: set<Path>, g: MergeState) {
    TreesSoFar(m, seen, g) && ReportSoFar(m, seen, g.report) && SkipSoFar(m.prior, MergeStops(m), seen, g.skip)
  }

  /** What a verdict does to the two trees and the report. */
  function Applied(g: MergeState, p: Path, v: Verdict, stop: bool): MergeState {
    MergeState(
      if v.TakeMoved? || v.Lose? then g.prior - {p} else g.prior,
      if v.Take? || v.TakeMoved? then g.live[p := v.node] else g.live,
      Report(if Brings(v) then g.report.updated + {p} else g.report.updated,
             g.report.removed,
             if v.LeaveOut? || v.Lose? then g.report.leftover + {p} else g.report.leftover),
      if stop then g.skip + {p} else g.skip)
  }

  ghost predicate LiveSoFar(m: Job, seen: set<Path>, live: Tree) {
    forall p :: At(live, p) ==
      if p in seen then Walked(m, p) else if MovesWhole(m, p) then At(m.prior, p) else At(m.live, p)
  }

  ghost predicate PriorSoFar(m: Job, seen: set<Path>, prior: Tree) {
    forall p :: At(prior, p) ==
      if p in seen then PriorLeft(m, p) else if MovesWhole(m, p) then None else At(m.prior, p)
  }

  lemma LiveAdvances(m: Job, seen: set<Path>, live: Tree, p: Path, v: Verdict)
    requires LiveSoFar(m, seen, live) && p !in seen && (Visited(m, p) ==> !MovesWhole(m, p)) && p in m.prior
    requires v == if Visited(m, p) then Judge(m, p) else Keep
    ensures LiveSoFar(m, seen + {p}, if v.Take? || v.TakeMoved? then live[p := v.node] else live)
  {
    assert At(live, p) == if MovesWhole(m, p) then At(m.prior, p) else At(m.live, p);
    hide Judge, Visited, MovesWhole;
  }

  lemma PriorAdvances(m: Job, seen: set<Path>, prior: Tree, p: Path, v: Verdict)
    requires PriorSoFar(m, seen, prior) && p !in seen && (Visited(m, p) ==> !MovesWhole(m, p)) && p in m.prior
    requires v == if Visited(m, p) then Judge(m, p) else Keep
    ensures PriorSoFar(m, seen + {p}, if v.TakeMoved? || v.Lose? then prior - {p} else prior)
  {
    assert At(prior, p) == if MovesWhole(m, p) then None else At(m.prior, p);
    hide Judge, Visited, MovesWhole;
  }

  lemma TreesAdvance(m: Job, seen: set<Path>, g: MergeState, p: Path, v: Verdict, stop: bool)
    requires TreesSoFar(m, seen, g) && Separate(m.carry) && p in m.prior && p !in seen
    requires v == if Visited(m, p) then Judge(m, p) else Keep
    ensures TreesSoFar(m, seen + {p}, Applied(g, p, v, stop))
  {
    if Visited(m, p) {
      NotMoved(m, p);
    }
    hide LiveSoFar, PriorSoFar, Visited, Judge, MovesWhole;
    LiveAdvances(m, seen, g.live, p, v);
    PriorAdvances(m, seen, g.prior, p, v);
  }

  lemma ReportAdvances(m: Job, seen: set<Path>, g: MergeState, p: Path, v: Verdict, stop: bool)
    requires ReportSoFar(m, seen, g.report) && p in m.prior && p !in seen
    requires v == if Visited(m, p) then Judge(m, p) else Keep
    ensures ReportSoFar(m, seen + {p}, Applied(g, p, v, stop).report)
  {
    hide Visited, Judge, CanMove;
  }

  lemma MergeAdvances(m: Job, seen: set<Path>, g: MergeState, p: Path, v: Verdict, stop: bool)
    requires MergeInv(m, seen, g) && Separate(m.carry) && p in m.prior && p !in seen
    requires v == if Visited(m, p) then Judge(m, p) else Keep
    requires stop == (m.prior[p].Dir? && StopsMerge(m, p) && Reached(p, MergeStops(m)))
    ensures MergeInv(m, seen + {p}, Applied(g, p, v, stop))
  {
    assert MergeStops(m)(p) == StopsMerge(m, p);
    hide Visited, Judge, Reached, StopsMerge, MergeStops, TreesSoFar, ReportSoFar, Separate;
    TreesAdvance(m, seen, g, p, v, stop);
    ReportAdvances(m, seen, g, p, v, stop);
  }

  /** Before p is handled both trees hold there what they held at the start, if the walk comes to
      it; and it comes to it exactly when no directory above p is skipped. */
  lemma MergeComesTo(m: Job, seen: set<Path>, g: MergeState, p: Path)
    requires MergeInv(m, seen, g) && Separate(m.carry) && WellFormed(m.prior) && p in m.prior && p !in seen
    requires forall k :: 0 < k < |p| ==> p[..k] in seen
    ensures (exists k :: 0 < k < |p| && p[..k] in g.skip) <==> !Reached(p, MergeStops(m))
    ensures Visited(m, p) ==> At(g.live, p) == At(m.live, p)
  {
    SkipMeansStopped(p, m.prior, MergeStops(m), g.skip, seen);
    if Visited(m, p) {
      NotMoved(m, p);
      assert At(g.live, p) == At(m.live, p);
    }
  }

  /** What the walk decides about an entry it comes to, from what Lstat says of both copies. */
  method Decide(m: Job, p: Path, n: Node, live: Option<Node>) returns (v: Verdict, stop: bool)
    requires p in m.prior && m.prior[p] == n && Reached(p, MergeStops(m))
    requires Visited(m, p) ==> live == At(m.live, p)
    ensures v == if Visited(m, p) then Judge(m, p) else Keep
    ensures stop == (n.Dir? && StopsMerge(m, p))
  {
    if !m.io.listed(p) || SkipEntry(p, m.oldBin) || p in m.carry.unreadable || !m.io.stat(p) { return Keep, n.Dir?; }
    stop := false;
    if n.Dir? {
      if live.Some? { return Keep, !live.value.Dir?; }
      if p in m.carry.dirs { return Keep, true; }
      if !m.io.mkdir(p) { return LeaveOut, true; }
      return Take(Dir), false;
    }
    if n.Special? || (n.File? && IsSock(p)) { return Keep, false; }
    if p !in m.carry.entries {
      if live.Some? { return Keep, false; }
      return PutVerdict(n, m.io.place(p), false, true), false;
    }
    var e := m.carry.entries[p];
    if live.None? { return Keep, false; }
    if !Same(live.value, e.dst) { return Keep, false; }
    if Unchanged(n, e.src) { return Keep, false; }
    return PutVerdict(n, m.io.place(p), true, m.io.rename(p)), false;
  }

  /** The second loop: the old dir is walked and every entry judged. */
  method WalkPrior(m: Job, walk: seq<Path>, prior': Tree, live': Tree, r: Report) returns (alive: bool, g: MergeState)
    requires WellFormed(m.prior) && IsWalk(walk, m.prior) && Separate(m.carry)
    requires MergeInv(m, {}, MergeState(prior', live', r, {}))
    ensures exists seen :: Closed(seen) && MergeInv(m, seen, g)
    ensures alive ==> exists seen :: Closed(seen) && Covers(seen, m.prior) && MergeInv(m, seen, g)
    ensures Unkilled(m.io) ==> alive
  {
    hide MergeInv, Visited, Judge, WellFormed, Separate, StopsMerge, Reached, MergeStops, Applied, IsWalk, Upto, Closed;
    g := MergeState(prior', live', r, {});
    UptoStart(walk);
    for i := 0 to |walk|
      invariant Closed(Upto(walk, i)) && MergeInv(m, Upto(walk, i), g)
    {
      var p := walk[i];
      if m.io.dies(2, p) { return false, g; }
      WalkStep(walk, m.prior, i);
      ClosedStep(Upto(walk, i), p);
      MergeComesTo(m, Upto(walk, i), g, p);
      var v, stop := Keep, false;
      if !exists k | 0 < k < |p| :: p[..k] in g.skip {
        v, stop := Decide(m, p, m.prior[p], At(g.live, p));
      } else {
        NotVisited(m, p);
      }
      MergeAdvances(m, Upto(walk, i), g, p, v, stop);
      g := Applied(g, p, v, stop);
    }
    WalkEnd(walk, m.prior);
    alive := true;
  }

  lemma UptoStart(walk: seq<Path>)
    ensures Upto(walk, 0) == {} && Closed(Upto(walk, 0))
  {
  }

  lemma ClosedStep(seen: set<Path>, p: Path)
    requires Closed(seen) && forall k :: 0 < k < |p| ==> p[..k] in seen
    ensures Closed(seen + {p})
  {
  }

  lemma NotVisited(m: Job, p: Path)
    requires !Reached(p, MergeStops(m))
    ensures !Visited(m, p)
  {
  }

  // ---------------------------------------------------------------- the whole of reconcile

  lemma WalkEnds(m: Job, seen: set<Path>, g: MergeState)
    requires MergeInv(m, seen, g) && Covers(seen, m.prior)
    ensures forall p :: At(g.live, p) == Walked(m, p) && At(g.prior, p) == PriorLeft(m, p)
    ensures forall p :: p in g.report.updated <==> IsUpdated(m, p)
    ensures forall p :: p in g.report.leftover <==> IsLeftover(m, p)
    ensures g.report.removed == {}
  {
    hide Judge, CanMove;
  }

  lemma WalkStarts(m: Job, prior': Tree, live': Tree, r: Report)
    requires MovesSoFar(m, m.carry.unreadable, prior', live') && r.removed == {}
    requires forall p :: p in r.updated <==> p in m.carry.unreadable && CanMove(m, p)
    requires forall p :: p in r.leftover <==> p in m.carry.unreadable && p in m.prior && !CanMove(m, p)
    ensures MergeInv(m, {}, MergeState(prior', live', r, {}))
  {
    hide CanMove;
    assert forall p :: MovedBy(m, m.carry.unreadable, p) == MovesWhole(m, p);
  }

  /** The third loop: volatile files the app deleted from the old dir. */
  method DropVolatile(m: Job, prior': Tree, live: Tree) returns (alive: bool, live': Tree, removed: set<Path>)
    requires forall p :: At(live, p) == Walked(m, p) && At(prior', p) == PriorLeft(m, p)
    ensures forall p :: At(live', p) == Walked(m, p) || (Dropped(m, p) && At(live', p).None?)
    ensures alive ==> forall p :: At(live', p) == Merged(m, p)
    ensures alive ==> forall p :: p in removed <==> Dropped(m, p)
    ensures Unkilled(m.io) ==> alive
  {
    hide Walked, PriorLeft;
    live', removed := live, {};
    var todo := m.carry.entries.Keys;
    while todo != {}
      invariant todo <= m.carry.entries.Keys
      invariant forall p :: At(live', p) == if p !in todo && Dropped(m, p) then None else Walked(m, p)
      invariant forall p :: p in removed <==> p !in todo && Dropped(m, p)
      decreases todo
    {
      var p :| p in todo;
      if m.io.dies(3, p) { return false, live', removed; }
      todo := todo - {p};
      var e := m.carry.entries[p];
      assert At(live', p) == Walked(m, p) && At(prior', p) == PriorLeft(m, p);
      if IsVolatile(p) && p !in prior' && p in live' && Same(live'[p], e.dst) && m.io.drop(p) {
        live' := live' - {p};
        removed := removed + {p};
      }
    }
    alive := true;
  }

  /** Whatever became of the process, an entry of the old dir is still there or is in the new dir
      as it was, unless reconcile judged that it had changed. */
  ghost predicate Conserves(m: Job, prior': Tree, live': Tree) {
    forall p :: p in m.prior ==>
      || At(prior', p) == At(m.prior, p)
      || At(live', p) == At(m.prior, p)
      || (Visited(m, p) && !Judge(m, p).Keep?)
  }

  /** What was in the new dir and was not carried there is never touched. */
  ghost predicate Untouched(m: Job, live': Tree) {
    forall p :: p in m.live && p !in m.carry.entries ==> At(live', p) == At(m.live, p)
  }

  lemma LiveNotMoved(m: Job, p: Path)
    requires WellFormed(m.live) && Separate(m.carry) && p in m.live
    ensures !MovesWhole(m, p)
  {
    if MovesWhole(m, p) {
      var u :| u in m.carry.unreadable && u <= p && CanMove(m, u);
      AncestorThere(m.live, u, p);
    }
  }

  lemma MovesUntouched(m: Job, seen: set<Path>, prior': Tree, live': Tree)
    requires WellFormed(m.live) && Separate(m.carry) && seen <= m.carry.unreadable && MovesSoFar(m, seen, prior', live')
    ensures Untouched(m, live')
  {
    forall p | p in m.live ensures At(live', p) == At(m.live, p) {
      LiveNotMoved(m, p);
      assert MovedBy(m, seen, p) ==> MovesWhole(m, p);
    }
  }

  lemma WalkUntouched(m: Job, seen: set<Path>, g: MergeState)
    requires WellFormed(m.live) && Separate(m.carry) && MergeInv(m, seen, g)
    ensures Untouched(m, g.live)
  {
    forall p | p in m.live && p !in m.carry.entries ensures At(g.live, p) == At(m.live, p) {
      LiveNotMoved(m, p);
    }
  }

  /** reconcileAppState. Killed at any point it still loses nothing; run to its end, it leaves the
      merge in the new dir and reports exactly what stayed behind. */
  method Reconcile(m: Job, walk: seq<Path>) returns (alive: bool, prior': Tree, live': Tree, r: Report)
    requires WellFormed(m.prior) && WellFormed(m.live) && IsWalk(walk, m.prior) && Separate(m.carry)
    ensures Conserves(m, prior', live') && WellFormed(prior') && WellFormed(live') && Untouched(m, live')
    ensures alive ==> forall p :: At(live', p) == Merged(m, p) && At(prior', p) == PriorLeft(m, p)
    ensures alive ==> forall p :: (p in r.updated <==> IsUpdated(m, p)) && (p in r.leftover <==> IsLeftover(m, p))
    ensures alive ==> forall p :: p in r.removed <==> Dropped(m, p)
    ensures Unkilled(m.io) ==> alive
  {
    hide MovesSoFar, MergeInv, Walked, PriorLeft, Dropped, Conserves, Separate, WellFormed, IsWalk, Untouched;
    alive, prior', live', r := MoveUnreadable(m);
    if !alive {
      ghost var seen :| seen <= m.carry.unreadable && MovesSoFar(m, seen, prior', live');
      MovesConserve(m, seen, prior', live');
      MovesOk(m, seen, prior', live');
      MovesUntouched(m, seen, prior', live');
      return;
    }
    WalkStarts(m, prior', live', r);
    var g;
    alive, g := WalkPrior(m, walk, prior', live', r);
    if !alive {
      ghost var seen :| Closed(seen) && MergeInv(m, seen, g);
      WalkConserves(m, seen, g);
      WalkOk(m, seen, g);
      WalkUntouched(m, seen, g);
      return alive, g.prior, g.live, g.report;
    }
    ghost var seen :| Closed(seen) && Covers(seen, m.prior) && MergeInv(m, seen, g);
    WalkEnds(m, seen, g);
    WalkOk(m, seen, g);
    WalkUntouched(m, seen, g);
    var removed;
    alive, live', removed := DropVolatile(m, g.prior, g.live);
    prior', r := g.prior, g.report.(removed := removed);
    DropConserves(m, prior', live');
    DropsOk(m, g.live, live');
    DropUntouched(m, g.live, live');
  }

  lemma DropUntouched(m: Job, live: Tree, live': Tree)
    requires Untouched(m, live) && forall p :: At(live, p) == Walked(m, p)
    requires forall p :: At(live', p) == Walked(m, p) || (Dropped(m, p) && At(live', p).None?)
    ensures Untouched(m, live')
  {
    hide Walked;
  }

  lemma MovesConserve(m: Job, seen: set<Path>, prior': Tree, live': Tree)
    requires MovesSoFar(m, seen, prior', live')
    ensures Conserves(m, prior', live')
  {
    hide MovedBy, Visited, Judge;
  }

  lemma WalkConserves(m: Job, seen: set<Path>, g: MergeState)
    requires MergeInv(m, seen, g)
    ensures Conserves(m, g.prior, g.live)
  {
    hide MovesWhole, Visited, Judge;
  }

  lemma DropConserves(m: Job, prior': Tree, live': Tree)
    requires Separate(m.carry) && forall p :: At(prior', p) == PriorLeft(m, p)
    requires forall p :: At(live', p) == Walked(m, p) || (Dropped(m, p) && At(live', p).None?)
    ensures Conserves(m, prior', live')
  {
    hide Visited, Judge, CanMove;
    assert forall p :: MovesWhole(m, p) ==> !Dropped(m, p);
  }

  // ---------------------------------------------------------------- the trees stay trees

  /** What the walk leaves at an ancestor of an entry it found in either tree. */
  lemma DirStays(m: Job, a: Path)
    requires Separate(m.carry) && WellFormed(m.live) && At(m.live, a) == Some(Dir)
    ensures Walked(m, a) == Some(Dir) && !MovesWhole(m, a)
  {
    if MovesWhole(m, a) {
      var u :| u in m.carry.unreadable && u <= a && CanMove(m, u);
      AncestorThere(m.live, u, a);
    }
  }

  /** Above a moved entry the new dir has directories. */
  lemma DirAboveMoved(m: Job, p: Path, k: nat)
    requires Separate(m.carry) && WellFormed(m.live) && WellFormed(m.prior)
    requires MovesWhole(m, p) && p in m.prior && 0 < k < |p|
    ensures if MovesWhole(m, p[..k]) then At(m.prior, p[..k]) == Some(Dir) else At(m.live, p[..k]) == Some(Dir)
  {
    var u :| u in m.carry.unreadable && u <= p && CanMove(m, u);
    if |u| <= k {
      assert u <= p[..k];
    } else {
      var parent := u[..|u| - 1];
      assert At(m.live, parent) == Some(Dir);
      assert p[..k] == u[..k];
      if k < |u| - 1 {
        assert parent[..k] == p[..k];
      } else {
        assert parent == p[..k];
      }
      DirStays(m, p[..k]);
    }
  }

  /** Above an entry the walk comes to, the walk leaves directories. */
  lemma DirAboveVisited(m: Job, p: Path, k: nat)
    requires Separate(m.carry) && WellFormed(m.live) && WellFormed(m.prior)
    requires Visited(m, p) && 0 < k < |p|
    ensures Walked(m, p[..k]) == Some(Dir) && !MovesWhole(m, p[..k])
  {
    var a := p[..k];
    assert !MergeStops(m)(p[..k]);
    assert At(m.prior, p[..k]) == Some(Dir);
    if a in m.live {
      DirStays(m, a);
    } else {
      forall i | 0 < i < |a| ensures !MergeStops(m)(a[..i]) {
        assert a[..i] == p[..i];
      }
      assert Visited(m, a);
      NotMoved(m, a);
    }
  }

  ghost predicate Closed(seen: set<Path>) {
    forall p, k :: p in seen && 0 < k < |p| ==> p[..k] in seen
  }

  /** Stopped anywhere, the walk has left two proper trees. */
  lemma TreesOk(m: Job, seen: set<Path>, g: MergeState)
    requires Separate(m.carry) && WellFormed(m.live) && WellFormed(m.prior)
    requires TreesSoFar(m, seen, g) && Closed(seen)
    ensures WellFormed(g.prior) && WellFormed(g.live)
  {
    forall p, k | p in g.live && 0 < k < |p|
      ensures At(g.live, p[..k]) == Some(Dir)
    {
      LiveDirs(m, seen, g, p, k);
    }
    forall p, k | p in g.prior && 0 < k < |p|
      ensures At(g.prior, p[..k]) == Some(Dir)
    {
      PriorDirs(m, seen, g, p, k);
    }
    assert At(m.live, []) == None && At(m.prior, []) == None;
    assert At(g.live, []) == None && At(g.prior, []) == None;
  }

  lemma WalkOk(m: Job, seen: set<Path>, g: MergeState)
    requires Separate(m.carry) && WellFormed(m.live) && WellFormed(m.prior)
    requires MergeInv(m, seen, g) && Closed(seen)
    ensures WellFormed(g.prior) && WellFormed(g.live)
  {
    TreesOk(m, seen, g);
  }

  lemma LiveDirs(m: Job, seen: set<Path>, g: MergeState, p: Path, k: nat)
    requires Separate(m.carry) && WellFormed(m.live) && WellFormed(m.prior)
    requires TreesSoFar(m, seen, g) && Closed(seen) && p in g.live && 0 < k < |p|
    ensures At(g.live, p[..k]) == Some(Dir)
  {
    var a := p[..k];
    assert At(g.live, p).Some?;
    if MovesWhole(m, p) {
      DirAboveMoved(m, p, k);
      if !MovesWhole(m, a) {
        DirStays(m, a);
      }
    } else if p in seen && Visited(m, p) && (Judge(m, p).Take? || Judge(m, p).TakeMoved?) {
      DirAboveVisited(m, p, k);
      assert a in seen;
    } else {
      assert p in m.live;
      assert At(m.live, p[..k]) == Some(Dir);
      DirStays(m, a);
    }
  }

  lemma PriorDirs(m: Job, seen: set<Path>, g: MergeState, p: Path, k: nat)
    requires Separate(m.carry) && WellFormed(m.prior)
    requires TreesSoFar(m, seen, g) && p in g.prior && 0 < k < |p|
    ensures At(g.prior, p[..k]) == Some(Dir)
  {
    hide Judge, CanMove;
    assert At(g.prior, p).Some?;
    assert p in m.prior && !MovesWhole(m, p);
    assert At(m.prior, p[..k]) == Some(Dir);
    DirNotTaken(m, p[..k]);
  }

  lemma DirNotTaken(m: Job, a: Path)
    requires At(m.prior, a) == Some(Dir)
    ensures !Judge(m, a).TakeMoved? && !Judge(m, a).Lose?
  {
  }

  /** Stopped anywhere, the moves have left two proper trees. */
  lemma MovesOk(m: Job, seen: set<Path>, prior': Tree, live': Tree)
    requires Separate(m.carry) && WellFormed(m.live) && WellFormed(m.prior)
    requires MovesSoFar(m, seen, prior', live') && seen <= m.carry.unreadable
    ensures WellFormed(prior') && WellFormed(live')
  {
    var m' := m.(carry := m.carry.(unreadable := seen));
    var g := MergeState(prior', live', Report({}, {}, {}), {});
    assert forall p :: MovesWhole(m', p) == MovedBy(m, seen, p) by {
      assert forall u :: CanMove(m', u) == CanMove(m, u);
    }
    assert TreesSoFar(m', {}, g);
    TreesOk(m', {}, g);
  }

  /** Dropping files leaves a proper tree. */
  lemma DropsOk(m: Job, live: Tree, live': Tree)
    requires WellFormed(live) && forall p :: At(live, p) == Walked(m, p)
    requires forall p :: At(live', p) == Walked(m, p) || (Dropped(m, p) && At(live', p).None?)
    ensures WellFormed(live')
  {
    forall p, k | p in live' && 0 < k < |p|
      ensures At(live', p[..k]) == Some(Dir)
    {
      assert At(live', p) == Walked(m, p) == At(live, p);
      assert At(live, p[..k]) == Some(Dir) == Walked(m, p[..k]);
    }
    assert At(live', []) == None by { assert At(live, []) == None; }
  }

  // ---------------------------------------------------------------- after a carry, with the app quiet

  /** A carry's record separates what was carried from what is left for the move. */
  lemma CarrySeparates(j: CarryJob, c: Carry)
    requires WellFormed(j.prior) && Records(j, c)
    ensures Separate(c)
  {
    forall u, v | u in c.unreadable && v in c.unreadable && u <= v
      ensures u == v
    {
      LeftStops(j, u, v);
    }
    forall u, p | u in c.unreadable && p in c.entries
      ensures !(u <= p) && !(p <= u)
    {
      assert IsCarried(j, p) && LeftForMove(j, u);
      if u <= p {
        LeftStops(j, u, p);
      }
      if p <= u && p != u {
        DirAbove(j.prior, p, u);
      }
    }
    assert !LeftForMove(j, []);
  }

  lemma DirAbove(t: Tree, a: Path, p: Path)
    requires WellFormed(t) && p in t && a <= p && a != p && a != []
    ensures At(t, a) == Some(Dir)
  {
    assert p[..|a|] == a;
    assert At(t, p[..|a|]) == Some(Dir);
  }

  lemma CarryGoesOn(j: CarryJob, a: Path, p: Path)
    requires Considered(j, p) && a <= p && a != p && a != []
    ensures !StopsCarry(j, a)
  {
    assert p[..|a|] == a;
    assert !CarryStops(j)(p[..|a|]);
  }

  lemma LeftStops(j: CarryJob, u: Path, p: Path)
    requires WellFormed(j.prior) && LeftForMove(j, u) && Considered(j, p) && u <= p
    ensures u == p
  {
    if u != p {
      CarryGoesOn(j, u, p);
    }
  }

  /** With neither tree touched since the carry, a file or symlink of the old dir that the bundle
      leaves room for is not lost by reconcile, even one that is killed. */
  lemma QuietConserves(j: CarryJob, m: Job, x: Path, v: Content, prior': Tree, live': Tree)
    requires WellFormed(j.prior) && Records(j, m.carry) && m.prior == j.prior && forall p :: At(m.live, p) == CarriedAt(j, p)
    requires x in j.prior && ContentOf(j.prior[x]) == Some(v)
    requires StatePath(x) && Clear(j.bundle, x) && (j.oldBin.Some? ==> !(j.oldBin.value <= x))
    requires Conserves(m, prior', live')
    ensures (x in prior' && ContentOf(prior'[x]) == Some(v)) || (x in live' && ContentOf(live'[x]) == Some(v))
  {
    CarrySeparates(j, m.carry);
    var u := StateIsCarried(j, m.carry, x, v);
    if u.None? {
      QuietEntry(j, m, x);
    } else if Visited(m, x) {
      NotMoved(m, x);
    }
    assert At(prior', x) == At(m.prior, x) || At(live', x) == At(m.prior, x);
  }

  lemma QuietEntry(j: CarryJob, m: Job, x: Path)
    requires WellFormed(j.prior) && Records(j, m.carry) && m.prior == j.prior && forall p :: At(m.live, p) == CarriedAt(j, p)
    requires x in m.carry.entries && Separate(m.carry)
    ensures x in m.live && Merged(m, x) == Some(m.live[x])
    ensures Visited(m, x) ==> Judge(m, x).Keep?
  {
    assert At(m.live, x) == CarriedAt(j, x);
    assert IsCarried(j, x);
    QuietEntryKept(m, x);
  }

  /** With neither tree touched, reconcile comes only to entries the carry came to. */
  lemma QuietVisits(j: CarryJob, m: Job, p: Path)
    requires WellFormed(j.prior) && Records(j, m.carry) && m.prior == j.prior && m.oldBin == j.oldBin
    requires forall q :: At(m.live, q) == CarriedAt(j, q)
    requires Visited(m, p)
    ensures Considered(j, p)
  {
    if !Reached(p, CarryStops(j)) {
      var k :| 0 < k < |p| && CarryStops(j)(p[..k]);
      var i := FirstStop(p, CarryStops(j), k);
      QuietStops(j, m, p, i);
    }
  }

  lemma QuietStops(j: CarryJob, m: Job, p: Path, i: nat)
    requires WellFormed(j.prior) && Records(j, m.carry) && m.prior == j.prior && m.oldBin == j.oldBin
    requires forall q :: At(m.live, q) == CarriedAt(j, q)
    requires p in j.prior && 0 < i < |p| && StopsCarry(j, p[..i]) && Reached(p[..i], CarryStops(j))
    ensures !Reached(p, MergeStops(m))
  {
    var a := p[..i];
    assert a <= p && At(j.prior, a) == Some(Dir) by { DirAbove(j.prior, a, p); }
    assert At(m.live, a) == CarriedAt(j, a);
    if !SkipEntry(a, j.oldBin) && !(a in j.bundle && !j.bundle[a].Dir?) {
      assert LeftForMove(j, a);
    }
    assert MergeStops(m)(p[..i]);
  }

  /** What is left over is then exactly the entries left for the move that could not be moved. */
  lemma QuietLeftover(j: CarryJob, m: Job, p: Path)
    requires WellFormed(j.prior) && Records(j, m.carry) && m.prior == j.prior && m.oldBin == j.oldBin
    requires forall q :: At(m.live, q) == CarriedAt(j, q)
    ensures IsLeftover(m, p) <==> p in m.carry.unreadable && !CanMove(m, p)
  {
    assert p in m.carry.unreadable ==> LeftForMove(j, p);
    if Visited(m, p) {
      CarrySeparates(j, m.carry);
      QuietVisits(j, m, p);
      assert At(m.live, p) == CarriedAt(j, p);
      if p in m.carry.entries {
        QuietEntry(j, m, p);
      } else {
        assert !IsCarried(j, p) && !LeftForMove(j, p);
      }
    }
  }

  /** ... and when reconcile leaves nothing over, it is in the new install. */
  lemma QuietCarriesAll(j: CarryJob, m: Job, x: Path, v: Content, live': Tree)
    requires WellFormed(j.prior) && Records(j, m.carry) && m.prior == j.prior && forall p :: At(m.live, p) == CarriedAt(j, p)
    requires x in j.prior && ContentOf(j.prior[x]) == Some(v)
    requires StatePath(x) && Clear(j.bundle, x) && (j.oldBin.Some? ==> !(j.oldBin.value <= x))
    requires forall p :: At(live', p) == Merged(m, p) && !IsLeftover(m, p)
    ensures x in live' && ContentOf(live'[x]) == Some(v)
  {
    CarrySeparates(j, m.carry);
    var u := StateIsCarried(j, m.carry, x, v);
    assert At(live', x) == Merged(m, x);
    if u.None? {
      QuietEntry(j, m, x);
      assert At(m.live, x) == CarriedAt(j, x);
    } else {
      UnreadableMerges(m, u.value, x);
      assert !IsLeftover(m, u.value);
    }
  }
}
