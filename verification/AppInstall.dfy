/** Replacing, recovering and removing an installed app: cmd/pilotctl/appstore_state.go
    (recoverInterruptedInstall, swapInAppDir, retireAppDir) and the order of steps of install and
    uninstall in cmd/pilotctl/appstore.go.

    The install root of one app is its live dir, the dir set aside by a swap, the staging dir and
    the backups. Every file-system step takes its outcome as an input and a kill may come before
    any of them: `alive` turns false and nothing changes any more. */
module AppInstall {
  import opened Common
  import opened AppTree
  import opened AppCarry
  import opened AppMerge
  import opened AppBackups

  datatype Root = Root(final: Option<AppDir>, previous: Option<AppDir>, staging: Option<AppDir>, backups: Backups)

  // ---------------------------------------------------------------- what must not get lost

  /** d holds content v at x, and x is not (in) the binary its manifest names. */
  predicate Holds(d: AppDir, x: Path, v: Content) {
    x in d.tree && ContentOf(d.tree[x]) == Some(v) && (d.manifest.Some? ==> !(d.manifest.value.binary <= x))
  }

  /** ... and retention will not remove d. */
  predicate Keeps(d: AppDir, x: Path, v: Content) { Holds(d, x, v) && !Prunable(d) }

  predicate KeptIn(d: Option<AppDir>, x: Path, v: Content) { d.Some? && Keeps(d.value, x, v) }

  ghost predicate Backed(b: Backups, x: Path, v: Content) { exists s :: s in b && Keeps(b[s], x, v) }

  /** Content v of x is in the live dir, in the dir set aside, or in a backup, out of retention's reach. */
  ghost predicate Guarded(r: Root, x: Path, v: Content) {
    KeptIn(r.final, x, v) || KeptIn(r.previous, x, v) || Backed(r.backups, x, v)
  }

  /** Which dir is being retired. */
  datatype Which = Live | Aside

  function DirOf(r: Root, w: Which): Option<AppDir> { if w == Live then r.final else r.previous }

  function Other(r: Root, w: Which): Option<AppDir> { if w == Live then r.previous else r.final }

  ghost predicate GuardedBeside(r: Root, w: Which, x: Path, v: Content) {
    KeptIn(Other(r, w), x, v) || Backed(r.backups, x, v)
  }

  ghost predicate DirOk(d: Option<AppDir>) { d.Some? ==> WellFormed(d.value.tree) }

  lemma BackedGrows(b: Backups, s: Slot, d: AppDir, x: Path, v: Content)
    requires s !in b
    ensures Backed(b, x, v) ==> Backed(b[s := d], x, v)
    ensures Keeps(d, x, v) ==> Backed(b[s := d], x, v)
  {
    if Backed(b, x, v) {
      var t :| t in b && Keeps(b[t], x, v);
      assert b[s := d][t] == b[t];
    }
    assert b[s := d][s] == d;
  }

  lemma RemainderOk(d: AppDir, r: RemoveIo)
    requires WellFormed(d.tree)
    ensures WellFormed(Remainder(d, r).tree)
  {
    var t := Remainder(d, r).tree;
    forall p, k | p in t && 0 < k < |p|
      ensures At(t, p[..k]) == Some(Dir)
    {
      assert At(d.tree, p[..k]) == Some(Dir);
      forall i | 0 < i <= k ensures p[..k][..i] in r.rest {
        assert p[..k][..i] == p[..i];
      }
    }
  }

  lemma RestOk(d: AppDir, disable: Io, remove: RemoveIo)
    requires WellFormed(d.tree)
    ensures WellFormed(RestOf(d, disable, remove).tree)
  {
    RemainderOk(d, remove);
  }

  lemma StrippedHolds(d: AppDir, bin: Option<Path>, kind: Kind, io: FinishIo, x: Path, v: Content)
    requires Holds(d, x, v) && bin != Some(x)
    ensures Holds(Finish(d, bin, kind, io), x, v)
  {
  }

  // ---------------------------------------------------------------- moving a dir to a backup

  /** What a backup location does: nothing can be put there, a rename, or (another file system) a
      copy, then the original's manifest disabled, then its removal. */
  datatype LocationIo =
    | Unusable
    | Renames(io: Io)
    | Copies(copy: Io, partial: RemoveIo, disable: Io, remove: RemoveIo, park: Io)

  datatype RetireIo = RetireIo(locations: seq<LocationIo>, stamp: nat, park: Io, disable: Io,
                               finish: FinishIo, prune: Slot -> RemoveIo)

  datatype Taken = Took | NotTaken | Died

  /** Where a retired dir ended: at a slot, or still where it was. */
  datatype Retired = KeptAt(slot: Slot) | InPlace | Dead

  /** A copy for a backup leaves the old binary and special files out. */
  function CopyOf(d: AppDir, bin: Option<Path>): AppDir {
    d.(tree := map p | p in d.tree && (d.tree[p].Dir? || Some(p) != bin) && !d.tree[p].Special? :: d.tree[p])
  }

  /** What a retire promises: content kept outside the dir stays kept, and content kept in it too
      if the backup is of a pinned kind. fallback names the binary of a dir without a manifest. */
  ghost predicate RetireKeeps(r: Root, w: Which, kind: Kind, fallback: Option<Path>, r': Root) {
    forall x, v ::
      GuardedBeside(r, w, x, v) || (KeptIn(DirOf(r, w), x, v) && !Rotated(kind) && fallback != Some(x)) ==> Guarded(r', x, v)
  }

  function BinOf(d: AppDir, fallback: Option<Path>): Option<Path> {
    if d.manifest.Some? then Some(d.manifest.value.binary) else fallback
  }

  /** The same backups, apart from new slots. */
  ghost predicate Grown(b: Backups, b': Backups) { forall s :: s in b ==> s in b' && b'[s] == b[s] }

  lemma GrownBacked(b: Backups, b': Backups, x: Path, v: Content)
    requires Grown(b, b')
    ensures Backed(b, x, v) ==> Backed(b', x, v)
  {
    if Backed(b, x, v) {
      var t :| t in b && Keeps(b[t], x, v);
      assert t in b' && Keeps(b'[t], x, v);
    }
  }

  lemma FinishKeeps(d: AppDir, bin: Option<Path>, kind: Kind, io: FinishIo, x: Path, v: Content)
    requires Keeps(d, x, v) && bin != Some(x) && !Rotated(kind)
    ensures Keeps(Finish(d, bin, kind, io), x, v)
  {
    StrippedHolds(d, bin, kind, io, x, v);
  }

  lemma FinishOk(d: AppDir, bin: Option<Path>, kind: Kind, io: FinishIo)
    requires WellFormed(d.tree)
    ensures WellFormed(Finish(d, bin, kind, io).tree) && Finish(d, bin, kind, io).manifest == d.manifest
  {
    var t := Finish(d, bin, kind, io).tree;
    forall p, k | p in t && 0 < k < |p|
      ensures At(t, p[..k]) == Some(Dir)
    {
      assert At(d.tree, p[..k]) == Some(Dir);
    }
  }

  /** Retention leaves every kept content kept. */
  lemma PruneKeeps(b: Backups, paths: seq<Slot>, keep: nat, b': Backups, x: Path, v: Content)
    requires forall s :: s in b && !Outdated(b, paths, keep, s) ==> s in b' && b'[s] == b[s]
    ensures Backed(b, x, v) ==> Backed(b', x, v)
  {
    if Backed(b, x, v) {
      var t :| t in b && Keeps(b[t], x, v);
      if Outdated(b, paths, keep, t) {
        OutdatedIsPrunable(b, paths, keep, t);
      }
      assert t in b' && Keeps(b'[t], x, v);
    }
  }

  lemma CopyKeeps(d: AppDir, bin: Option<Path>, x: Path, v: Content)
    ensures Keeps(d, x, v) && bin != Some(x) ==> Keeps(CopyOf(d, bin), x, v)
  {
  }

  lemma BareKeeps(d: AppDir, x: Path, v: Content)
    ensures Keeps(d, x, v) ==> Keeps(d.(manifest := None), x, v)
  {
  }

  lemma KeepsNotBin(d: AppDir, fallback: Option<Path>, x: Path, v: Content)
    requires Keeps(d, x, v) && fallback != Some(x)
    ensures BinOf(d, fallback) != Some(x)
  {
  }

  /** A location that takes the dir without trouble. */
  predicate Smooth(l: LocationIo) {
    l.Unusable? || l == Renames(Done) || (l.Copies? && l.copy == Done && l.disable != Killed && l.remove.io == Done)
  }

  ghost predicate SmoothRetire(io: RetireIo) {
    && (forall l :: l in io.locations ==> Smooth(l))
    && io.park == Done && io.disable == Done && io.finish.write == Done
    && (forall p :: io.finish.strips(p)) && forall s :: io.prune(s).io == Done
  }

  /** The dir as it is put at a place: parked it has no manifest. */
  function Shelved(d: AppDir, place: Place): AppDir { if place == Parked then d.(manifest := None) else d }

  /** The first location that can be used, else parked. */
  predicate FirstUsable(locations: seq<LocationIo>, place: Place) {
    match place
    case Parked => forall i :: 0 <= i < |locations| ==> locations[i].Unusable?
    case Location(n) => n < |locations| && !locations[n].Unusable? && forall i :: 0 <= i < n ==> locations[i].Unusable?
  }

  /** What a retire without trouble leaves: the dir finished at a new slot, and retention applied there. */
  ghost predicate RetiredTo(b: Backups, d: AppDir, kind: Kind, fallback: Option<Path>, io: RetireIo, slot: Slot, b': Backups) {
    && slot !in b && FirstUsable(io.locations, slot.place)
    && Retained(b[slot := Finish(Shelved(d, slot.place), BinOf(d, fallback), kind, io.finish)], slot.place, b')
  }

  /** A pinned backup made without trouble is there, with its kind and everything but the binary. */
  lemma PinnedIsThere(b: Backups, d: AppDir, kind: Kind, fallback: Option<Path>, io: RetireIo, slot: Slot, b': Backups)
    requires RetiredTo(b, d, kind, fallback, io, slot, b') && !Rotated(kind) && io.finish.write == Done
    ensures slot in b' && b'[slot] == Finish(Shelved(d, slot.place), BinOf(d, fallback), kind, io.finish)
    ensures b'[slot].meta == Some(kind)
  {
    var made := b[slot := Finish(Shelved(d, slot.place), BinOf(d, fallback), kind, io.finish)];
    var l :| Listing(made, slot.place, l) && LeavesRest(made, l, b');
    if Outdated(made, l, BACKUP_KEEP, slot) {
      OutdatedIsPrunable(made, l, BACKUP_KEEP, slot);
    }
  }

  /** The backup of an install does not hold its binary. */
  lemma BackupLeavesBinary(b: Backups, d: AppDir, kind: Kind, fallback: Option<Path>, io: RetireIo, slot: Slot, b': Backups)
    requires RetiredTo(b, d, kind, fallback, io, slot, b') && SmoothRetire(io) && slot in b'
    requires d.manifest.Some? && At(d.tree, d.manifest.value.binary) != Some(Dir)
    ensures d.manifest.value.binary !in b'[slot].tree
  {
    var made := b[slot := Finish(Shelved(d, slot.place), BinOf(d, fallback), kind, io.finish)];
    var l :| Listing(made, slot.place, l) && LeavesRest(made, l, b');
  }

  /** A copy without the old binary finishes like the original. */
  lemma CopyFinishes(d: AppDir, bin: Option<Path>, kind: Kind, io: FinishIo)
    requires forall p :: io.strips(p)
    ensures Finish(CopyOf(d, bin), bin, kind, io) == Finish(d, bin, kind, io)
  {
    assert Stripped(CopyOf(d, bin).tree, bin, io) == Stripped(d.tree, bin, io);
  }

  lemma SmoothAt(io: RetireIo, i: nat)
    requires i < |io.locations|
    ensures SmoothRetire(io) ==> Smooth(io.locations[i]) && forall p :: io.finish.strips(p)
  {
  }

  lemma MovedFinishes(b: Backups, d: AppDir, bin: Option<Path>, kind: Kind, io: FinishIo, slot: Slot, moved: Backups)
    requires slot in moved && moved == b[slot := moved[slot]] && moved[slot] in {d, CopyOf(d, bin)}
    requires forall p :: io.strips(p)
    ensures moved[slot := Finish(moved[slot], bin, kind, io)] == b[slot := Finish(d, bin, kind, io)]
  {
    CopyFinishes(d, bin, kind, io);
  }

  /** A dir being retired is untouched, gone, or without a manifest: never a half-removed dir the
      supervisor would adopt. */
  predicate Inert(d: Option<AppDir>, d': Option<AppDir>) { d' == d || d'.None? || d'.value.manifest.None? }

  /** What a removal that fails after the copy leaves of the original. */
  function RestOf(d: AppDir, disable: Io, remove: RemoveIo): AppDir {
    Remainder(if disable == Done then d.(manifest := None) else d, remove)
  }

  /** Whatever the removal leaves, it has no manifest exactly when the manifest was disabled, or was
      gone already: a failure to disable it goes unnoticed. */
  lemma RestInert(d: AppDir, disable: Io)
    ensures (forall remove :: RestOf(d, disable, remove).manifest.None?) <==> disable == Done || d.manifest.None?
  {
    var keeps := RemoveIo(Denied, {}, true, true);
    assert RestOf(d, disable, keeps).manifest == if disable == Done then None else d.manifest;
  }

  /** Such a remainder: the manifest could not be renamed and the removal stopped before it. It is an
      install without its files that the supervisor adopts. */
  lemma AdoptableRemainder(d: AppDir, remove: RemoveIo)
    requires d.manifest.Some? && WellFormed(d.tree) && d.tree != map[] && remove == RemoveIo(Denied, {}, true, true)
    ensures var rest := RestOf(d, Denied, remove);
            rest.manifest == d.manifest && rest.tree == map[] && !Inert(Some(d), Some(rest))
  {
    forall p | p in d.tree ensures p !in RestOf(d, Denied, remove).tree {
      assert p[..|p|] !in remove.rest;
    }
  }

  /** Every disabling of the original's manifest that comes to pass succeeds. */
  predicate Disables(l: LocationIo) { l.Copies? ==> l.disable != Denied }

  ghost predicate DisablesAll(io: RetireIo) { forall l :: l in io.locations ==> Disables(l) }

  // ---------------------------------------------------------------- installing

  /** What swapInAppDir's steps do: renaming the live dir aside, renaming staging in, the
      verification, and in a rollback renaming the rejected dir away and the old one back. */
  datatype SwapIo = SwapIo(aside: Io, into: Io, verify: Io, unplace: Io, restore: Io, discard: RemoveIo)

  /** The new install is in place; the old one is; neither could be arranged; killed. */
  datatype Swapped = Placed | Restored | Adrift | Stopped

  predicate SmoothSwap(io: SwapIo) { io.aside == Done && io.into == Done && io.verify == Done }

  /** Where a swap can leave the old install and the staged one. */
  ghost predicate SwapShape(r: Root, r': Root) {
    && r'.backups == r.backups
    && if r.previous.Some? then r'.final == r.final && r'.previous == r.previous
       else
         || (r'.final == r.final && r'.previous.None?)
         || (r'.final.None? && r'.previous == r.final)
         || (r'.final == r.staging && r'.previous == r.final)
  }

  datatype RecoverIo = RecoverIo(restore: Io, retire: RetireIo, discard: RemoveIo)

  ghost predicate SmoothRecover(io: RecoverIo) { io.restore == Done && SmoothRetire(io.retire) && io.discard.io == Done }

  ghost predicate RootOk(r: Root) { DirOk(r.final) && DirOk(r.previous) }

  /** The install the app has, set aside or not. */
  function Current(r: Root): Option<AppDir> { if r.final.Some? then r.final else r.previous }

  ghost predicate AllGuarded(r: Root, r': Root) { forall x, v :: Guarded(r, x, v) ==> Guarded(r', x, v) }

  lemma RetireGuards(r: Root, r': Root)
    requires RetireKeeps(r, Aside, AppBackups.Recovered, None, r')
    ensures AllGuarded(r, r')
  {
    hide Keeps;
    forall x, v | Guarded(r, x, v) ensures Guarded(r', x, v) {
      assert GuardedBeside(r, Aside, x, v) || KeptIn(DirOf(r, Aside), x, v);
    }
  }

  /** What a bundle installs: its manifest, and the binary with its directories and the other files. */
  datatype Bundle = Bundle(manifest: Manifest, tree: Tree)

  predicate ValidBundle(b: Bundle) {
    WellFormed(b.tree) && b.manifest.binary in b.tree && b.tree[b.manifest.binary].File?
  }

  /** The bundle ships nothing at, above or below the state path x. */
  ghost predicate Spared(b: Bundle, x: Path) { StatePath(x) && Clear(b.tree, x) }

  /** d is a complete install of the bundle. */
  ghost predicate IsInstall(b: Bundle, d: AppDir) {
    d.manifest == Some(b.manifest) && d.meta.None? && forall p :: p in b.tree ==> At(d.tree, p) == Some(b.tree[p])
  }

  /** How staging goes; partial is what a step that fails has put there. */
  datatype StageIo = StageIo(copy: Io, carry: Io, manifest: Io, entry: CarryIo, partial: Tree, discard: RemoveIo)

  ghost predicate SmoothStage(io: StageIo) {
    io.copy == Done && io.carry == Done && io.manifest == Done && forall p :: io.entry.access(p) != Broken
  }

  /** Every entry can be listed, linked or read. */
  ghost predicate AllReadable(io: CarryIo) { forall p :: io.access(p) != Forbidden }

  lemma NoneUnreadable(j: CarryJob, c: Carry)
    requires Records(j, c)
    ensures AllReadable(j.io) ==> c.unreadable == {}
  {
    if AllReadable(j.io) {
      assert forall p :: p in c.unreadable ==> LeftForMove(j, p);
    }
  }

  function JobOf(b: Bundle, d: AppDir, io: CarryIo): CarryJob { CarryJob(d.tree, b.tree, BinOf(d, None), io) }

  /** d is the bundle plus the state carried from prior, as c records. */
  ghost predicate Staged(b: Bundle, prior: Option<AppDir>, io: CarryIo, d: AppDir, c: Carry) {
    && d.manifest == Some(b.manifest) && d.meta.None?
    && if prior.None? then d.tree == b.tree
       else Records(JobOf(b, prior.value, io), c) && forall p :: At(d.tree, p) == CarriedAt(JobOf(b, prior.value, io), p)
  }

  /** Every state file of the old install the bundle leaves room for is in the new one. */
  ghost predicate StateArrives(b: Bundle, old_: AppDir, d: AppDir) {
    forall x, v :: Spared(b, x) && Holds(old_, x, v) ==> Holds(d, x, v)
  }

  lemma StagedSeparates(b: Bundle, d: AppDir, io: CarryIo, d': AppDir, c: Carry)
    requires WellFormed(d.tree) && Staged(b, Some(d), io, d', c)
    ensures Separate(c)
  {
    CarrySeparates(JobOf(b, d, io), c);
  }

  /** The old binary is not carried: it is in the new install only if the bundle ships it. */
  lemma StagedLeavesBinary(b: Bundle, d: AppDir, io: CarryIo, d': AppDir, c: Carry)
    requires Staged(b, Some(d), io, d', c) && d.manifest.Some? && d.manifest.value.binary !in b.tree
    ensures d.manifest.value.binary !in d'.tree
  {
    CarryLeavesOut(JobOf(b, d, io), d.manifest.value.binary);
    assert At(d'.tree, d.manifest.value.binary).None?;
  }

  lemma StagedOk(b: Bundle, prior: Option<AppDir>, io: CarryIo, d: AppDir, c: Carry)
    requires ValidBundle(b) && DirOk(prior) && Staged(b, prior, io, d, c)
    ensures WellFormed(d.tree)
  {
    if prior.Some? {
      CarriedOk(JobOf(b, prior.value, io), d.tree);
    }
  }

  lemma StagedIsInstall(b: Bundle, prior: Option<AppDir>, io: CarryIo, d: AppDir, c: Carry)
    requires Staged(b, prior, io, d, c)
    ensures IsInstall(b, d)
  {
    if prior.Some? {
      forall p | p in b.tree ensures At(d.tree, p) == Some(b.tree[p]) {
        assert At(d.tree, p) == CarriedAt(JobOf(b, prior.value, io), p);
      }
    }
  }

  lemma UninstallGuards(r: Root, bare: Root, r': Root)
    requires r.final.Some? && bare == r.(final := Some(r.final.value.(manifest := None)))
    requires RetireKeeps(bare, Live, AppBackups.Uninstalled, BinOf(r.final.value, None), r')
    ensures AllGuarded(r, r')
  {
    forall x, v | Guarded(r, x, v) ensures Guarded(r', x, v) {
      if KeptIn(r.final, x, v) {
        BareKeeps(r.final.value, x, v);
        KeepsNotBin(r.final.value, None, x, v);
        assert KeptIn(DirOf(bare, Live), x, v);
      } else {
        assert GuardedBeside(bare, Live, x, v);
      }
    }
  }

  lemma SwapGuards(r: Root, r': Root)
    requires SwapShape(r, r')
    ensures AllGuarded(r, r')
  {
    hide Keeps;
  }

  /** Reconciling leaves the bundle's files alone. */
  lemma MergedIsInstall(b: Bundle, d: AppDir, io: CarryIo, d': AppDir, m: Job, live': Tree)
    requires Staged(b, Some(d), io, d', m.carry) && m.live == d'.tree && Untouched(m, live')
    ensures IsInstall(b, d'.(tree := live'))
  {
    var j := JobOf(b, d, io);
    forall p | p in b.tree ensures At(live', p) == Some(b.tree[p]) {
      assert At(d'.tree, p) == CarriedAt(j, p) == Some(b.tree[p]);
      assert !IsCarried(j, p);
      assert p !in m.carry.entries;
    }
  }

  /** A spared path is not in the new binary. */
  lemma SparedNotBinary(b: Bundle, x: Path)
    requires ValidBundle(b) && Spared(b, x)
    ensures !(b.manifest.binary <= x)
  {
  }

  lemma MergeKeeps(b: Bundle, d: AppDir, io: CarryIo, d': AppDir, m: Job, prior': Tree, live': Tree, x: Path, v: Content)
    requires ValidBundle(b) && WellFormed(d.tree) && Staged(b, Some(d), io, d', m.carry)
    requires m.prior == d.tree && m.live == d'.tree && Conserves(m, prior', live') && Spared(b, x) && Keeps(d, x, v)
    ensures Keeps(d.(tree := prior'), x, v) || Keeps(d'.(tree := live'), x, v)
  {
    QuietConserves(JobOf(b, d, io), m, x, v, prior', live');
    SparedNotBinary(b, x);
  }

  lemma MergeArrives(b: Bundle, d: AppDir, io: CarryIo, d': AppDir, m: Job, live': Tree, x: Path, v: Content)
    requires ValidBundle(b) && WellFormed(d.tree) && Staged(b, Some(d), io, d', m.carry)
    requires m.prior == d.tree && m.live == d'.tree && Spared(b, x) && Holds(d, x, v)
    requires forall p :: At(live', p) == Merged(m, p) && !IsLeftover(m, p)
    ensures Holds(d'.(tree := live'), x, v)
  {
    QuietCarriesAll(JobOf(b, d, io), m, x, v, live');
    SparedNotBinary(b, x);
  }

  lemma StagedLeftover(b: Bundle, d: AppDir, io: CarryIo, d': AppDir, m: Job, p: Path)
    requires WellFormed(d.tree) && Staged(b, Some(d), io, d', m.carry)
    requires m.prior == d.tree && m.live == d'.tree && m.oldBin == BinOf(d, None) && IsLeftover(m, p)
    ensures p in m.carry.unreadable
  {
    QuietLeftover(JobOf(b, d, io), m, p);
  }

  lemma ArrivedKeeps(b: Bundle, d: AppDir, d': AppDir, x: Path, v: Content)
    requires StateArrives(b, d, d') && IsInstall(b, d') && Spared(b, x) && Keeps(d, x, v)
    ensures Keeps(d', x, v)
  {
    hide Spared;
  }

  lemma SettleGuards(r: Root, kind: Kind, r': Root, x: Path, v: Content)
    requires RetireKeeps(r, Aside, kind, None, r')
    requires KeptIn(r.final, x, v) || Backed(r.backups, x, v) || (!Rotated(kind) && KeptIn(r.previous, x, v))
    ensures Guarded(r', x, v)
  {
    hide Keeps;
    assert GuardedBeside(r, Aside, x, v) || KeptIn(DirOf(r, Aside), x, v);
  }

  /** The replaced install d (its tree as reconciling left it) is backed up with the kind it earned. */
  ghost predicate BackedUp(b: Backups, d: AppDir, version: string, reset: bool, leftover: set<Path>, from: string,
                           io: RetireIo, b': Backups)
  {
    var kind := ReplacedKind(reset, leftover != {}, from, version);
    exists slot, t :: (reset ==> t == d.tree) && RetiredTree(b, d, t, kind, io, slot, b')
  }

  ghost predicate RetiredTree(b: Backups, d: AppDir, t: Tree, kind: Kind, io: RetireIo, slot: Slot, b': Backups) {
    RetiredTo(b, d.(tree := t), kind, None, io, slot, b')
  }

  lemma BacksUp(b: Backups, d: AppDir, d': AppDir, version: string, reset: bool, leftover: set<Path>, from: string,
                io: RetireIo, slot: Slot, b': Backups)
    requires d' == d.(tree := d'.tree) && (reset ==> d' == d)
    requires RetiredTo(b, d', ReplacedKind(reset, leftover != {}, from, version), None, io, slot, b')
    ensures BackedUp(b, d, version, reset, leftover, from, io, b')
  {
    hide RetiredTo;
    assert RetiredTree(b, d, d'.tree, ReplacedKind(reset, leftover != {}, from, version), io, slot, b');
  }

  /** Every removal of a staging dir succeeds, and no rename of recovery is denied. */
  predicate Discards(io: InstallIo) {
    && io.recover.restore == Done && io.recover.discard.io == Done
    && io.stage.discard.io == Done && io.swap.discard.io == Done
  }

  function VersionOf(d: AppDir): string { if d.manifest.Some? then d.manifest.value.version else "" }

  datatype InstallIo = InstallIo(recover: RecoverIo, stage: StageIo, swap: SwapIo, merge: MergeIo, retire: RetireIo)

  ghost predicate SmoothInstall(io: InstallIo) {
    SmoothRecover(io.recover) && SmoothStage(io.stage) && SmoothSwap(io.swap) && Unkilled(io.merge) && SmoothRetire(io.retire)
  }

  /** There are such outcomes: nothing promised of an install without trouble is promised of none. */
  lemma SmoothInstallsExist()
    ensures exists io :: SmoothInstall(io)
  {
    var gone := RemoveIo(Done, {}, false, false);
    var fp := Fingerprint(0, 0, 0);
    var finish := FinishIo(p => true, p => None, Done, false);
    var retire := RetireIo([Renames(Done)], 0, Done, Done, finish, s => gone);
    var merge := MergeIo(p => true, p => true, p => true, p => true, p => PlaceLink, p => true, p => true, (n, p) => false);
    var stage := StageIo(Done, Done, Done, CarryIo(p => Linked, p => fp), map[], gone);
    var io := InstallIo(RecoverIo(Done, retire, gone), stage, SwapIo(Done, Done, Done, Done, Done, gone), merge, retire);
    assert SmoothInstall(io);
  }

  /** An install is already there; installed, with the state that stayed only in the backup; not
      installed, or killed. */
  datatype Outcome = Present | Installed(leftover: set<Path>) | Failed

  predicate Readable(d: Option<AppDir>) { d.Some? && d.value.manifest.Some? }

  // ---------------------------------------------------------------- runs

  datatype UninstallIo = UninstallIo(remove: Io, retire: RetireIo)

  /** One step of an app's life: a pilotctl command, or the app writing and deleting files. */
  datatype Op =
    | DoInstall(bundle: Bundle, force: bool, reset: bool, io: InstallIo)
    | DoUninstall(uninstall: UninstallIo)
    | AppWrites(put: Tree, delete: set<Path>)

  predicate ValidOp(op: Op) { op.DoInstall? ==> ValidBundle(op.bundle) }

  /** No step ships, writes or deletes anything at x. */
  ghost predicate SparedBy(op: Op, x: Path) {
    match op
    case DoInstall(bundle, _, _, _) => Spared(bundle, x)
    case DoUninstall(_) => true
    case AppWrites(put, delete) => x !in put && x !in delete
  }

  ghost predicate SparedByAll(ops: seq<Op>, x: Path) { forall i :: 0 <= i < |ops| ==> SparedBy(ops[i], x) }

  lemma WritesKeep(d: AppDir, t: Tree, x: Path, v: Content)
    requires At(t, x) == At(d.tree, x)
    ensures Keeps(d, x, v) ==> Keeps(d.(tree := t), x, v)
  {
  }

  class Installer {
    var final: Option<AppDir>
    var previous: Option<AppDir>
    var staging: Option<AppDir>
    var backups: Backups
    /** False once the pilotctl process has been killed. */
    var alive: bool

    ghost function View(): Root
      reads this
    {
      Root(final, previous, staging, backups)
    }

    method Put(w: Which, d: Option<AppDir>)
      modifies `final, `previous
      ensures View() == if w == Live then old(View()).(final := d) else old(View()).(previous := d)
    {
      if w == Live {
        final := d;
      } else {
        previous := d;
      }
    }

    /** A name not yet taken at a place, from a timestamp on. */
    method FreshSlot(place: Place, stamp: nat) returns (s: Slot)
      ensures s !in backups && s.place == place
    {
      s := Slot(place, stamp);
      ghost var ahead := set t | t in backups && t.place == place && t.stamp >= stamp;
      while s in backups
        invariant s.place == place
        invariant ahead == set t | t in backups && t.place == place && t.stamp >= s.stamp
        decreases |ahead|
      {
        ghost var fewer := ahead - {s};
        assert |fewer| < |ahead|;
        s := Slot(place, s.stamp + 1);
        assert fewer == set t | t in backups && t.place == place && t.stamp >= s.stamp;
        ahead := fewer;
      }
    }

    /** moveIntoBackupLocation. The dir is at the slot in full before anything of it is removed. */
    method MoveTo(w: Which, slot: Slot, bin: Option<Path>, io: LocationIo) returns (t: Taken)
      requires alive && DirOf(View(), w).Some? && WellFormed(DirOf(View(), w).value.tree) && slot !in backups
      modifies this
      ensures staging == old(staging) && Other(View(), w) == old(Other(View(), w))
      ensures DirOk(DirOf(View(), w)) && (t == Died <==> !alive)
      ensures Disables(io) || old(DirOf(View(), w)).value.manifest.None? ==> Inert(old(DirOf(View(), w)), DirOf(View(), w))
      ensures t == NotTaken ==> DirOf(View(), w) == old(DirOf(View(), w))
      ensures Grown(old(backups), backups)
      ensures t == Took ==> slot in backups && forall x, v ::
                Keeps(old(DirOf(View(), w)).value, x, v) && bin != Some(x) ==> Keeps(backups[slot], x, v)
      ensures t == Died ==> forall x, v ::
                Keeps(old(DirOf(View(), w)).value, x, v) && bin != Some(x) ==> Guarded(View(), x, v)
      ensures Smooth(io) ==> t != Died && (t == Took <==> !io.Unusable?) && (t == Took ==> DirOf(View(), w).None?)
      ensures Smooth(io) ==> backups == if t == Took then old(backups)[slot := backups[slot]] else old(backups)
      ensures Smooth(io) && t == Took ==> var d := old(DirOf(View(), w)).value; backups[slot] in {d, CopyOf(d, bin)}
    {
      hide Keeps, WellFormed;
      var d := (if w == Live then final else previous).value;
      match io {
        case Unusable => return NotTaken;
        case Renames(o) =>
          if o == Killed {
            alive := false;
            return Died;
          }
          if o == Denied { return NotTaken; }
          backups := backups[slot := d];
          Put(w, None);
          return Took;
        case Copies(copy, partial, disable, remove, park) =>
          if copy == Done {
            t := CopyTo(w, slot, bin, disable, remove, park);
            return;
          }
          if copy == Killed || partial.io != Done {
            backups := backups[slot := Remainder(CopyOf(d, bin), partial)];
          }
          if copy == Killed {
            alive := false;
            return Died;
          }
          return NotTaken;
      }
    }

    /** Across file systems: a full copy, then the original's manifest disabled, then its removal.
        What a removal that fails leaves is parked, or stays. */
    method CopyTo(w: Which, slot: Slot, bin: Option<Path>, disable: Io, remove: RemoveIo, park: Io) returns (t: Taken)
      requires alive && DirOf(View(), w).Some? && WellFormed(DirOf(View(), w).value.tree) && slot !in backups
      modifies this
      ensures staging == old(staging) && Other(View(), w) == old(Other(View(), w))
      ensures DirOk(DirOf(View(), w)) && (t == Died <==> !alive) && t != NotTaken
      ensures DirOf(View(), w) in {None, old(DirOf(View(), w)), Some(RestOf(old(DirOf(View(), w)).value, disable, remove))}
      ensures disable == Killed ==> DirOf(View(), w) == old(DirOf(View(), w))
      ensures forall s :: s in backups && s !in old(backups) && s != slot ==>
                backups[s] == RestOf(old(DirOf(View(), w)).value, disable, remove)
      ensures Grown(old(backups), backups) && slot in backups
      ensures forall x, v :: Keeps(old(DirOf(View(), w)).value, x, v) && bin != Some(x) ==> Keeps(backups[slot], x, v)
      ensures disable != Killed && remove.io == Done ==> alive && DirOf(View(), w).None?
      ensures disable != Killed && remove.io == Done ==>
                backups == old(backups)[slot := CopyOf(old(DirOf(View(), w)).value, bin)]
    {
      hide Keeps, WellFormed, RestOf;
      var d := (if w == Live then final else previous).value;
      backups := backups[slot := CopyOf(d, bin)];
      forall x, v ensures Keeps(d, x, v) && bin != Some(x) ==> Keeps(CopyOf(d, bin), x, v) {
        CopyKeeps(d, bin, x, v);
      }
      if disable == Killed {
        alive := false;
        return Died;
      }
      if remove.io == Done {
        Put(w, None);
        return Took;
      }
      RestOk(d, disable, remove);
      var rest := RestOf(d, disable, remove);
      Put(w, Some(rest));
      if remove.io == Killed || park == Killed {
        alive := false;
        return Died;
      }
      if park == Done {
        var aside := FreshSlot(Parked, slot.stamp);
        backups := backups[aside := rest];
        Put(w, None);
      }
      return Took;
    }

    /** The end of a retire at a slot: strip, record, apply retention there. */
    method FinishAt(slot: Slot, bin: Option<Path>, kind: Kind, io: RetireIo)
      requires alive && slot in backups
      modifies `backups, `alive
      ensures forall x, v :: Backed(old(backups) - {slot}, x, v) ==> Backed(backups, x, v)
      ensures !Rotated(kind) ==>
                forall x, v :: Keeps(old(backups)[slot], x, v) && bin != Some(x) ==> Backed(backups, x, v)
      ensures SmoothRetire(io) ==>
                alive && Retained(old(backups)[slot := Finish(old(backups)[slot], bin, kind, io.finish)], slot.place, backups)
    {
      hide Keeps, Outdated, Finish, Listing;
      var d := backups[slot];
      backups := backups[slot := Finish(d, bin, kind, io.finish)];
      forall x, v
        ensures Backed(old(backups) - {slot}, x, v) ==> Backed(backups, x, v)
        ensures Keeps(d, x, v) && bin != Some(x) && !Rotated(kind) ==> Backed(backups, x, v)
      {
        GrownBacked(old(backups) - {slot}, backups, x, v);
        if Keeps(d, x, v) && bin != Some(x) && !Rotated(kind) {
          FinishKeeps(d, bin, kind, io.finish, x, v);
          assert Keeps(backups[slot], x, v);
        }
      }
      if io.finish.write == Killed {
        alive := false;
        return;
      }
      var paths := ListPlace(backups, slot.place);
      ghost var before := backups;
      alive, backups := PruneBackups(backups, paths, BACKUP_KEEP, io.prune);
      forall x, v ensures Backed(before, x, v) ==> Backed(backups, x, v) {
        PruneKeeps(before, paths, BACKUP_KEEP, backups, x, v);
      }
      assert SmoothRetire(io) ==> LeavesRest(before, paths, backups);
    }

    /** The last resort: parked beside the live dir, or left where it is, without its manifest. */
    method Park(w: Which, kind: Kind, bin: Option<Path>, io: RetireIo) returns (res: Retired)
      requires alive && DirOf(View(), w).Some? && WellFormed(DirOf(View(), w).value.tree)
      modifies this
      ensures staging == old(staging) && Other(View(), w) == old(Other(View(), w))
      ensures DirOk(DirOf(View(), w)) && (res == Dead <==> !alive)
      ensures Inert(old(DirOf(View(), w)), DirOf(View(), w))
      ensures forall x, v :: Backed(old(backups), x, v) ==> Backed(backups, x, v)
      ensures !Rotated(kind) ==> forall x, v ::
                Keeps(old(DirOf(View(), w)).value, x, v) && bin != Some(x) ==> Guarded(View(), x, v)
      ensures SmoothRetire(io) ==> res.KeptAt? && DirOf(View(), w).None? && res.slot.place == Parked && res.slot !in old(backups)
      ensures SmoothRetire(io) ==> Retained(old(backups)[res.slot :=
                  Finish(old(DirOf(View(), w)).value.(manifest := None), bin, kind, io.finish)], Parked, backups)
    {
      hide Keeps, WellFormed, Retained, Finish;
      var d := (if w == Live then final else previous).value;
      var bare := d.(manifest := None);
      forall x, v ensures Keeps(d, x, v) ==> Keeps(bare, x, v) {
        BareKeeps(d, x, v);
      }
      if io.park == Killed {
        alive := false;
        return Dead;
      }
      if io.park == Done {
        var slot := FreshSlot(Parked, io.stamp);
        backups := backups[slot := d];
        Put(w, None);
        forall x, v ensures Backed(old(backups), x, v) ==> Backed(backups, x, v) {
          BackedGrows(old(backups), slot, d, x, v);
        }
        assert forall x, v :: Keeps(d, x, v) ==> Backed(backups, x, v) by {
          assert backups[slot] == d;
        }
        if io.disable == Killed {
          alive := false;
          return Dead;
        }
        if io.disable == Denied { return KeptAt(slot); }
        backups := backups[slot := bare];
        assert backups - {slot} == old(backups);
        assert backups[slot := Finish(bare, bin, kind, io.finish)] == old(backups)[slot := Finish(bare, bin, kind, io.finish)];
        FinishAt(slot, bin, kind, io);
        return if alive then KeptAt(slot) else Dead;
      }
      if io.disable == Killed {
        alive := false;
        return Dead;
      }
      if io.disable == Denied { return InPlace; }
      Put(w, Some(Finish(bare, bin, kind, io.finish)));
      FinishOk(bare, bin, kind, io.finish);
      forall x, v ensures Keeps(d, x, v) && bin != Some(x) && !Rotated(kind) ==> Keeps(Finish(bare, bin, kind, io.finish), x, v) {
        if Keeps(d, x, v) && bin != Some(x) && !Rotated(kind) {
          FinishKeeps(bare, bin, kind, io.finish, x, v);
        }
      }
      if io.finish.write == Killed {
        alive := false;
        return Dead;
      }
      return InPlace;
    }

    /** One backup location: None if it does not take the dir. */
    method RetireTo(w: Which, i: nat, kind: Kind, bin: Option<Path>, io: RetireIo) returns (res: Option<Retired>)
      requires alive && i < |io.locations| && DirOf(View(), w).Some? && WellFormed(DirOf(View(), w).value.tree)
      modifies this
      ensures staging == old(staging) && Other(View(), w) == old(Other(View(), w))
      ensures DirOk(DirOf(View(), w)) && (res == Some(Dead) <==> !alive)
      ensures Disables(io.locations[i]) || old(DirOf(View(), w)).value.manifest.None? ==>
                Inert(old(DirOf(View(), w)), DirOf(View(), w))
      ensures res.None? ==> DirOf(View(), w) == old(DirOf(View(), w)) && Grown(old(backups), backups)
      ensures forall x, v :: Backed(old(backups), x, v) ==> Backed(backups, x, v)
      ensures res.Some? && !Rotated(kind) ==> forall x, v ::
                Keeps(old(DirOf(View(), w)).value, x, v) && bin != Some(x) ==> Guarded(View(), x, v)
      ensures SmoothRetire(io) && io.locations[i].Unusable? ==> res.None? && backups == old(backups)
      ensures SmoothRetire(io) && !io.locations[i].Unusable? ==>
                && res.Some? && res.value.KeptAt? && res.value.slot.place == Location(i) && res.value.slot !in old(backups)
                && DirOf(View(), w).None?
                && Retained(old(backups)[res.value.slot := Finish(old(DirOf(View(), w)).value, bin, kind, io.finish)],
                            Location(i), backups)
    {
      hide Keeps, WellFormed, Retained, Finish, CopyOf, SmoothRetire, Smooth, Backed;
      var slot := FreshSlot(Location(i), io.stamp);
      SmoothAt(io, i);
      var t := MoveTo(w, slot, bin, io.locations[i]);
      ghost var moved := backups;
      forall x, v ensures Backed(old(backups), x, v) ==> Backed(moved, x, v) && Backed(moved - {slot}, x, v) {
        GrownBacked(old(backups), moved, x, v);
        GrownBacked(old(backups), moved - {slot}, x, v);
      }
      if t == NotTaken { return None; }
      if t == Died { return Some(Dead); }
      if SmoothRetire(io) {
        MovedFinishes(old(backups), old(DirOf(View(), w)).value, bin, kind, io.finish, slot, moved);
      }
      FinishAt(slot, bin, kind, io);
      return Some(if alive then KeptAt(slot) else Dead);
    }

    /** retireAppDir: the first backup location that takes the dir, else parked beside it, else
        left in place with its manifest disabled. */
    method Retire(w: Which, kind: Kind, fallback: Option<Path>, io: RetireIo) returns (res: Retired)
      requires alive && DirOf(View(), w).Some? && WellFormed(DirOf(View(), w).value.tree)
      modifies this
      ensures staging == old(staging) && Other(View(), w) == old(Other(View(), w))
      ensures DirOk(DirOf(View(), w)) && (res == Dead <==> !alive)
      ensures DisablesAll(io) || old(DirOf(View(), w)).value.manifest.None? ==>
                Inert(old(DirOf(View(), w)), DirOf(View(), w))
      ensures RetireKeeps(old(View()), w, kind, fallback, View())
      ensures SmoothRetire(io) ==> res.KeptAt? && DirOf(View(), w).None?
      ensures SmoothRetire(io) ==>
                RetiredTo(old(backups), old(DirOf(View(), w)).value, kind, fallback, io, res.slot, backups)
    {
      hide Keeps, WellFormed, Retained, Finish, SmoothRetire, Backed, Grown;
      var d := (if w == Live then final else previous).value;
      var bin := BinOf(d, fallback);
      forall x, v ensures Keeps(d, x, v) && fallback != Some(x) ==> bin != Some(x) {
        if Keeps(d, x, v) && fallback != Some(x) {
          KeepsNotBin(d, fallback, x, v);
        }
      }
      for i := 0 to |io.locations|
        invariant alive && staging == old(staging) && Other(View(), w) == old(Other(View(), w))
        invariant DirOf(View(), w) == Some(d)
        invariant forall x, v :: Backed(old(backups), x, v) ==> Backed(backups, x, v)
        invariant SmoothRetire(io) ==> backups == old(backups) && forall j :: 0 <= j < i ==> io.locations[j].Unusable?
      {
        var taken := RetireTo(w, i, kind, bin, io);
        if taken.Some? { return taken.value; }
      }
      res := Park(w, kind, bin, io);
    }

    // -------------------------------------------------------------- swap and recovery

    /** discardStagingDir. What a removal that fails leaves stays at the staging path. */
    method Discard(r: RemoveIo) returns (ok: bool)
      requires alive
      modifies `staging, `alive
      ensures ok <==> staging.None?
      ensures staging.Some? ==> old(staging).Some? && staging.value == Remainder(old(staging).value, r)
      ensures old(staging).None? || r.io != Killed ==> alive
      ensures old(staging).None? || r.io == Done ==> ok
      ensures ok ==> alive
    {
      if staging.None? { return true; }
      if r.io == Done {
        staging := None;
        return true;
      }
      staging := Some(Remainder(staging.value, r));
      alive := r.io != Killed;
      return false;
    }

    /** swapInAppDir. The old install is whole in the live place or beside it at every moment. It
        is back in place after a failure unless undoing the swap fails too. */
    method Swap(io: SwapIo) returns (res: Swapped)
      requires alive && staging.Some?
      modifies `final, `previous, `staging, `alive
      ensures SwapShape(old(View()), View())
      ensures res == Stopped <==> !alive
      ensures res == Placed ==> io.into == Done && io.verify == Done
      ensures res == Placed ==> old(previous).None? && final == old(staging) && previous == old(final) && staging.None?
      ensures res == Restored ==> final == old(final) && previous == old(previous)
      ensures res == Adrift ==> io.unplace != Done || io.restore != Done
      ensures res != Stopped && io.discard.io == Done ==> staging.None?
      ensures old(previous).None? && SmoothSwap(io) ==> res == Placed
      ensures old(previous).Some? ==> res == Restored || res == Stopped
    {
      if previous.Some? {
        var _ := Discard(io.discard);
        return if alive then Restored else Stopped;
      }
      var hadOld := final.Some?;
      if hadOld {
        if io.aside == Killed {
          alive := false;
          return Stopped;
        }
        if io.aside == Denied {
          var _ := Discard(io.discard);
          return if alive then Restored else Stopped;
        }
        previous, final := final, None;
      }
      if io.into == Killed {
        alive := false;
        return Stopped;
      }
      if io.into == Denied {
        res := RollBack(io);
        return;
      }
      final, staging := staging, None;
      if io.verify == Killed {
        alive := false;
        return Stopped;
      }
      if io.verify == Done { return Placed; }
      if io.unplace == Killed {
        alive := false;
        return Stopped;
      }
      if io.unplace == Denied { return Adrift; }
      staging, final := final, None;
      res := RollBack(io);
    }

    /** The rejected install is out of the way; the old one is put back and staging discarded. */
    method RollBack(io: SwapIo) returns (res: Swapped)
      requires alive && final.None?
      modifies `final, `previous, `staging, `alive
      ensures (final == old(previous) && previous.None?) || (final.None? && previous == old(previous))
      ensures res == Stopped <==> !alive
      ensures res == Restored ==> final == old(previous) && previous.None?
      ensures res == Adrift ==> io.restore != Done
      ensures res != Placed && (res != Stopped && io.discard.io == Done ==> staging.None?)
    {
      if previous.Some? {
        if io.restore == Killed {
          alive := false;
          return Stopped;
        }
        if io.restore == Done {
          final, previous := previous, None;
        }
      }
      var _ := Discard(io.discard);
      if !alive { return Stopped; }
      return if previous.Some? then Adrift else Restored;
    }

    /** recoverInterruptedInstall. Whatever happens during it, the current install stays the same
        and nothing kept is lost; when its renames and removals succeed no remnant is left, and
        without remnants it does nothing. */
    method Recover(io: RecoverIo) returns (ok: bool)
      requires alive && RootOk(View())
      modifies this
      ensures RootOk(View()) && Current(View()) == old(Current(View()))
      ensures AllGuarded(old(View()), View())
      ensures ok ==> alive && staging.None? && final == Current(View())
      ensures alive && io.restore == Done && io.discard.io == Done ==> ok
      ensures SmoothRecover(io) ==> ok && previous.None?
      ensures old(previous).None? && old(staging).None? ==> ok && View() == old(View())
    {
      hide Keeps, WellFormed, SmoothRetire, RetireKeeps;
      if previous.Some? {
        if final.None? {
          if io.restore == Killed {
            alive := false;
            return false;
          }
          if io.restore == Denied { return false; }
          final, previous := previous, None;
        } else {
          var res := Retire(Aside, AppBackups.Recovered, None, io.retire);
          RetireGuards(old(View()), View());
          if !alive { return false; }
        }
      }
      ok := Discard(io.discard);
    }

    // -------------------------------------------------------------- install and uninstall

    /** Fills the staging dir: the bundle, the carried state of prior if there is one, and the
        manifest last. A failure leaves the rest of the root as it is. */
    method Stage(bundle: Bundle, prior: Option<AppDir>, io: StageIo) returns (ok: bool, c: Carry)
      requires alive && DirOk(prior)
      modifies `staging, `alive
      ensures ok ==> alive && staging.Some? && Staged(bundle, prior, io.entry, staging.value, c)
      ensures !ok && alive && io.discard.io == Done ==> staging.None?
      ensures !ok && staging.Some? ==> staging.value.manifest.None?
      ensures ok && AllReadable(io.entry) ==> c.unreadable == {}
      ensures SmoothStage(io) ==> ok
    {
      hide WellFormed, IsWalk, Records, CarriedAt, AllReadable;
      c := Carry(map[], {}, {});
      if io.copy != Done {
        staging := Some(AppDir(None, None, io.partial));
        ok := GiveUp(io.copy, io.discard);
        return;
      }
      var tree := bundle.tree;
      if prior.Some? {
        var walk := WalkDir(prior.value.tree);
        ok, tree, c := CarryAll(JobOf(bundle, prior.value, io.entry), walk);
        if !ok || io.carry != Done {
          staging := Some(AppDir(None, None, io.partial));
          ok := GiveUp(io.carry, io.discard);
          return;
        }
        NoneUnreadable(JobOf(bundle, prior.value, io.entry), c);
      }
      staging := Some(AppDir(None, None, tree));
      if io.manifest != Done {
        ok := GiveUp(io.manifest, io.discard);
        return;
      }
      staging := Some(AppDir(Some(bundle.manifest), None, tree));
      ok := true;
    }

    method GiveUp(io: Io, discard: RemoveIo) returns (ok: bool)
      requires alive
      modifies `staging, `alive
      ensures !ok && (alive && discard.io == Done ==> staging.None?)
      ensures staging.Some? ==> old(staging).Some? && (old(staging).value.manifest.None? ==> staging.value.manifest.None?)
    {
      if io == Killed {
        alive := false;
      } else {
        var _ := Discard(discard);
      }
      return false;
    }

    /** reconcileAppState on the two dirs. */
    method BringAcross(bundle: Bundle, c: Carry, entry: CarryIo, io: MergeIo) returns (leftover: set<Path>)
      requires alive && RootOk(View()) && ValidBundle(bundle) && final.Some? && previous.Some?
      requires Staged(bundle, previous, entry, final.value, c)
      modifies `final, `previous, `alive
      ensures RootOk(View()) && final.Some? && previous.Some? && IsInstall(bundle, final.value)
      ensures forall x, v :: Spared(bundle, x) && KeptIn(old(previous), x, v) ==> KeptIn(final, x, v) || KeptIn(previous, x, v)
      ensures previous.value == old(previous).value.(tree := previous.value.tree)
      ensures alive && leftover == {} ==> StateArrives(bundle, old(previous).value, final.value)
      ensures alive ==> leftover <= c.unreadable
      ensures Unkilled(io) ==> alive
    {
      hide Keeps, Holds, WellFormed, IsWalk, Records, CarriedAt, Staged, Conserves, Merged, IsLeftover, IsInstall, Spared,
           Unkilled, ValidBundle, PriorLeft, Dropped, Untouched, Separate, BinOf;
      var d, d' := previous.value, final.value;
      var m := Job(d.tree, d'.tree, BinOf(d, None), c, io);
      StagedSeparates(bundle, d, entry, d', c);
      var walk := WalkDir(d.tree);
      var prior', live', r;
      alive, prior', live', r := Reconcile(m, walk);
      previous, final := Some(d.(tree := prior')), Some(d'.(tree := live'));
      leftover := r.leftover;
      MergedIsInstall(bundle, d, entry, d', m, live');
      forall x, v | Spared(bundle, x) && Keeps(d, x, v)
        ensures Keeps(d.(tree := prior'), x, v) || Keeps(d'.(tree := live'), x, v)
      {
        MergeKeeps(bundle, d, entry, d', m, prior', live', x, v);
      }
      if alive {
        forall p | p in leftover ensures p in c.unreadable {
          StagedLeftover(bundle, d, entry, d', m, p);
        }
      }
      if alive && leftover == {} {
        forall x, v | Spared(bundle, x) && Holds(d, x, v)
          ensures Holds(d'.(tree := live'), x, v)
        {
          MergeArrives(bundle, d, entry, d', m, live', x, v);
        }
      }
    }

    /** The steps after a swap: reconcile with the old dir if its state was carried, then retire it. */
    method Settle(bundle: Bundle, reset: bool, c: Carry, from: string, io: InstallIo) returns (leftover: set<Path>)
      requires alive && RootOk(View()) && ValidBundle(bundle) && final.Some? && previous.Some?
      requires Staged(bundle, if reset then None else previous, io.stage.entry, final.value, c)
      modifies this
      ensures RootOk(View()) && staging == old(staging) && final.Some? && IsInstall(bundle, final.value)
      ensures forall x, v :: Spared(bundle, x) && GuardedBeside(old(View()), Live, x, v) ==> Guarded(View(), x, v)
      ensures alive && !reset && leftover == {} ==> StateArrives(bundle, old(previous).value, final.value)
      ensures alive ==> leftover <= if reset then {} else c.unreadable
      ensures SmoothRetire(io.retire) && Unkilled(io.merge) ==>
                && alive && previous.None?
                && BackedUp(old(backups), old(previous).value, bundle.manifest.version, reset, leftover, from, io.retire, backups)
    {
      hide RetiredTo, BackedUp, Keeps, WellFormed, Staged, IsInstall, Spared, Unkilled, SmoothRetire, RetireKeeps, ValidBundle, StateArrives;
      leftover := {};
      if reset {
        StagedIsInstall(bundle, None, io.stage.entry, final.value, c);
      } else {
        leftover := BringAcross(bundle, c, io.stage.entry, io.merge);
      }
      ghost var mid := View();
      if !alive { return; }
      var kind := ReplacedKind(reset, leftover != {}, from, bundle.manifest.version);
      var res := Retire(Aside, kind, None, io.retire);
      if SmoothRetire(io.retire) {
        BacksUp(old(backups), old(previous).value, mid.previous.value, bundle.manifest.version, reset, leftover, from,
                io.retire, res.slot, backups);
      }
      forall x, v | Spared(bundle, x) && GuardedBeside(old(View()), Live, x, v)
        ensures Guarded(View(), x, v)
      {
        if Rotated(kind) && KeptIn(old(previous), x, v) {
          ArrivedKeeps(bundle, old(previous).value, mid.final.value, x, v);
        }
        SettleGuards(mid, kind, View(), x, v);
      }
    }

    /** The steps of install from a filled staging dir on: swap it in, then settle with the old one. */
    method Replace(bundle: Bundle, reset: bool, c: Carry, from: string, io: InstallIo) returns (res: Outcome)
      requires alive && RootOk(View()) && ValidBundle(bundle) && staging.Some? && (final.None? ==> previous.None?)
      requires Staged(bundle, if reset then None else final, io.stage.entry, staging.value, c)
      modifies this
      ensures RootOk(View()) && res != Present
      ensures forall x, v :: Spared(bundle, x) && Guarded(old(View()), x, v) ==> Guarded(View(), x, v)
      ensures Current(View()) == old(final) || (Current(View()).Some? && IsInstall(bundle, Current(View()).value))
      ensures res.Installed? ==> alive && staging.None? && final.Some? && IsInstall(bundle, final.value)
      ensures res.Installed? && !reset && res.leftover == {} && old(final).Some? ==>
                StateArrives(bundle, old(final).value, final.value)
      ensures res.Installed? ==> res.leftover <= if reset then {} else c.unreadable
      ensures alive && io.swap.discard.io == Done ==> staging.None?
      ensures old(previous).None? && SmoothSwap(io.swap) && Unkilled(io.merge) && SmoothRetire(io.retire) ==>
                && res.Installed? && previous.None?
                && (old(final).Some? ==>
                      BackedUp(old(backups), old(final).value, bundle.manifest.version, reset, res.leftover, from,
                               io.retire, backups))
    {
      hide Keeps, WellFormed, Staged, IsInstall, Spared, Unkilled, SmoothRetire, ValidBundle, StateArrives, Backed, BackedUp;
      StagedOk(bundle, if reset then None else final, io.stage.entry, staging.value, c);
      StagedIsInstall(bundle, if reset then None else final, io.stage.entry, staging.value, c);
      var s := Swap(io.swap);
      SwapGuards(old(View()), View());
      if s != Placed { return Failed; }
      if previous.None? { return Installed({}); }
      var leftover := Settle(bundle, reset, c, from, io);
      return if alive then Installed(leftover) else Failed;
    }

    /** The steps of install under the lock. Finished, failed or killed anywhere, the app has its
        old install or a complete new one, and state the bundle leaves room for is not lost. */
    method Install(bundle: Bundle, force: bool, reset: bool, io: InstallIo) returns (res: Outcome)
      requires alive && RootOk(View()) && ValidBundle(bundle)
      modifies this
      ensures RootOk(View())
      ensures forall x, v :: Spared(bundle, x) && Guarded(old(View()), x, v) ==> Guarded(View(), x, v)
      ensures Current(View()) == old(Current(View())) || (Current(View()).Some? && IsInstall(bundle, Current(View()).value))
      ensures !force && old(Readable(Current(View()))) ==> Current(View()) == old(Current(View())) && !res.Installed?
      ensures res.Installed? ==> alive && staging.None? && final.Some? && IsInstall(bundle, final.value)
      ensures res.Installed? && !reset && res.leftover == {} && old(Current(View())).Some? ==>
                StateArrives(bundle, old(Current(View())).value, final.value)
      ensures SmoothInstall(io) && (force || !old(Readable(Current(View())))) ==> res.Installed? && previous.None?
      ensures res.Installed? && (reset || AllReadable(io.stage.entry)) ==> res.leftover == {}
      ensures alive && Discards(io) ==> staging.None?
      ensures SmoothInstall(io) && res.Installed? && old(final.Some? && previous.None? && staging.None?) ==>
                BackedUp(old(backups), old(final).value, bundle.manifest.version, reset, res.leftover,
                         VersionOf(old(final).value), io.retire, backups)
    {
      hide Keeps, WellFormed, Staged, IsInstall, Spared, Unkilled, SmoothRetire, ValidBundle, StateArrives, Backed, SmoothStage,
           AllReadable, BackedUp;
      var ok := Recover(io.recover);
      if !ok { return Failed; }
      var from := "";
      if final.Some? && final.value.manifest.Some? {
        if !force { return Present; }
        from := final.value.manifest.value.version;
      }
      var prior := if reset then None else final;
      var c;
      ok, c := Stage(bundle, prior, io.stage);
      if !ok { return Failed; }
      res := Replace(bundle, reset, c, from, io);
    }

    /** An install that ends anywhere, and the next command's recovery: if its renames and removals
        succeed, the old install or the complete new one is live with no remnant beside it, and a
        further recovery changes nothing. */
    method InstallThenRecover(bundle: Bundle, force: bool, reset: bool, io: InstallIo, repair: RecoverIo, again: RecoverIo)
      returns (once: Root)
      requires alive && RootOk(View()) && ValidBundle(bundle)
      modifies this
      ensures SmoothRecover(repair) ==> View() == once && previous.None? && staging.None?
      ensures SmoothRecover(repair) ==> final == old(Current(View())) || (final.Some? && IsInstall(bundle, final.value))
      ensures forall x, v :: Spared(bundle, x) && Guarded(old(View()), x, v) ==> Guarded(View(), x, v)
    {
      hide Keeps, WellFormed, IsInstall, Spared, SmoothRetire, ValidBundle, Backed, StateArrives;
      var _ := Install(bundle, force, reset, io);
      alive := true;
      var _ := Recover(repair);
      once := Root(final, previous, staging, backups);
      alive := true;
      var _ := Recover(again);
    }

    /** The steps of uninstall under the lock: the manifest goes first, then the dir to a backup
        retention never removes. */
    method Uninstall(io: UninstallIo) returns (ok: bool)
      requires alive && RootOk(View())
      modifies this
      ensures RootOk(View()) && previous == old(previous) && staging == old(staging)
      ensures AllGuarded(old(View()), View())
      ensures Inert(old(final), final)
      ensures io.remove == Done && SmoothRetire(io.retire) && old(final).Some? ==>
                && ok && final.None?
                && exists slot :: RetiredTo(old(backups), old(final).value.(manifest := None), AppBackups.Uninstalled,
                                            BinOf(old(final).value, None), io.retire, slot, backups)
    {
      hide Keeps, WellFormed, SmoothRetire, RetireKeeps, RetiredTo, BinOf;
      if final.None? { return false; }
      if io.remove != Done {
        alive := io.remove == Denied;
        return false;
      }
      var bin := BinOf(final.value, None);
      final := Some(final.value.(manifest := None));
      ghost var bare := View();
      var res := Retire(Live, AppBackups.Uninstalled, bin, io.retire);
      UninstallGuards(old(View()), bare, View());
      return res.KeptAt?;
    }

    /** Any run of commands and app writes, each command finished, failed or killed: state that no
        bundle ships over and the app does not rewrite is never lost. */
    method RunOps(ops: seq<Op>)
      requires RootOk(View()) && forall i :: 0 <= i < |ops| ==> ValidOp(ops[i])
      modifies this
      ensures RootOk(View())
      ensures forall x, v :: SparedByAll(ops, x) && Guarded(old(View()), x, v) ==> Guarded(View(), x, v)
    {
      hide Keeps, WellFormed, Spared, ValidBundle, Guarded;
      for i := 0 to |ops|
        invariant RootOk(View())
        invariant forall x, v :: SparedByAll(ops, x) && Guarded(old(View()), x, v) ==> Guarded(View(), x, v)
      {
        ghost var before := View();
        RunOp(ops[i]);
        forall x, v | SparedByAll(ops, x) && Guarded(old(View()), x, v) ensures Guarded(View(), x, v) {
          assert SparedBy(ops[i], x) && Guarded(before, x, v);
        }
      }
    }

    method RunOp(op: Op)
      requires RootOk(View()) && ValidOp(op)
      modifies this
      ensures RootOk(View())
      ensures forall x, v :: SparedBy(op, x) && Guarded(old(View()), x, v) ==> Guarded(View(), x, v)
    {
      hide Keeps, WellFormed, Spared, ValidBundle, Backed;
      alive := true;
      match op {
        case DoInstall(bundle, force, reset, io) =>
          var _ := Install(bundle, force, reset, io);
        case DoUninstall(io) =>
          var _ := Uninstall(io);
        case AppWrites(put, delete) =>
          if final.Some? {
            var t := final.value.tree - delete + put;
            if WellFormed(t) {
              forall x, v | x !in put && x !in delete && Keeps(final.value, x, v)
                ensures Keeps(final.value.(tree := t), x, v)
              {
                WritesKeep(final.value, t, x, v);
              }
              final := Some(final.value.(tree := t));
            }
          }
      }
    }
  }
}
