/** Retired installs and their retention: cmd/pilotctl/appstore_state.go, finishBackup, stripBackup
    and pruneBackupDirs.

    An app dir is its manifest, the kind recorded in its .pilot-backup.json (None when there is no
    readable one) and the rest of its tree. */
module AppBackups {
  import opened Common
  import opened AppTree

  const BACKUP_KEEP: nat := 3

  datatype Kind = Upgrade | Reinstall | ResetState | Incomplete | Recovered | Uninstalled

  /** The kinds retention may prune. Every other kind is pinned. */
  predicate Rotated(k: Kind) { k == Upgrade || k == Reinstall }

  datatype Manifest = Manifest(version: string, binary: Path)

  datatype AppDir = AppDir(manifest: Option<Manifest>, meta: Option<Kind>, tree: Tree)

  /** Retention may remove it: its metadata is readable and of a routine kind. */
  predicate Prunable(d: AppDir) { d.meta.Some? && Rotated(d.meta.value) }

  /** The kind of backup a replaced install becomes. */
  function ReplacedKind(reset: bool, leftover: bool, from: string, to: string): Kind {
    if reset then ResetState
    else if leftover then Incomplete
    else if from == "" then Recovered
    else if from != to then Upgrade
    else Reinstall
  }

  /** A routine backup is only ever made of an install whose state was carried in full. */
  lemma RoutineMeansCarried(reset: bool, leftover: bool, from: string, to: string)
    ensures Rotated(ReplacedKind(reset, leftover, from, to)) <==> !reset && !leftover && from != ""
    ensures ReplacedKind(reset, leftover, from, to) == Upgrade <==> !reset && !leftover && from != "" && from != to
    ensures ReplacedKind(reset, leftover, from, to) == ResetState <==> reset
    ensures ReplacedKind(reset, leftover, from, to) == Incomplete <==> !reset && leftover
  {
  }

  // ---------------------------------------------------------------- finishing a backup

  /** How finishing goes: what of the strip succeeds before it ends or is killed, which files become
      independent copies, and whether the metadata is written; garbled is a write that left the file
      unreadable. A kill before the strip is one that strips and detaches nothing. */
  datatype FinishIo = FinishIo(strips: Path -> bool, detach: Path -> Option<Fingerprint>, write: Io, garbled: bool)

  function Detached(n: Node, fp: Option<Fingerprint>): Node {
    if n.File? && fp.Some? then File(fp.value, n.data) else n
  }

  /** The old binary and sockets go, as far as the strip comes; small files are detached from the
      live ones. */
  function Stripped(t: Tree, bin: Option<Path>, io: FinishIo): Tree {
    map p | p in t && !(io.strips(p) && (t[p].Special? || (!t[p].Dir? && Some(p) == bin))) :: Detached(t[p], io.detach(p))
  }

  function MetaAfter(d: AppDir, kind: Kind, io: FinishIo): Option<Kind> {
    if io.write == Done then Some(kind) else if io.garbled then None else d.meta
  }

  /** A backup once finished, or as a kill before the metadata was written left it. */
  function Finish(d: AppDir, bin: Option<Path>, kind: Kind, io: FinishIo): AppDir {
    AppDir(d.manifest, MetaAfter(d, kind, io), Stripped(d.tree, bin, io))
  }

  /** A backup of a pinned kind is out of retention's reach whatever happens while it is finished
      exactly when the dir held no routine metadata of its own: one left by an earlier backup,
      restored by hand or by recovery, survives a kill or a failed write and makes it prunable. */
  lemma PinnedUnlessStale(d: AppDir, bin: Option<Path>, kind: Kind)
    requires !Rotated(kind)
    ensures (forall io :: !Prunable(Finish(d, bin, kind, io))) <==> !Prunable(d)
  {
    var io := FinishIo(p => false, p => None, Killed, false);
    assert MetaAfter(d, kind, io) == d.meta;
    assert Prunable(Finish(d, bin, kind, io)) <==> Prunable(d);
  }

  /** A finished backup holds neither the old binary nor a socket, and everything else unchanged but for
      the fingerprint of what was detached. */
  lemma StripIsExact(d: AppDir, bin: Option<Path>, kind: Kind, io: FinishIo, p: Path)
    requires io.strips(p)
    ensures var t := Finish(d, bin, kind, io).tree;
            && (p in t <==> p in d.tree && !d.tree[p].Special? && (d.tree[p].Dir? || bin != Some(p)))
            && (p in t ==> ContentOf(t[p]) == ContentOf(d.tree[p]) && (t[p].Dir? <==> d.tree[p].Dir?))
  {
  }

  // ---------------------------------------------------------------- retention

  /** Where a backup is kept: one of the backup locations, or parked in the install root. */
  datatype Place = Location(n: nat) | Parked

  /** Names start with a timestamp, so name order is age order. */
  datatype Slot = Slot(place: Place, stamp: nat)

  type Backups = map<Slot, AppDir>

  /** The backups of one routine kind, in the order listed. */
  function OfKind(b: Backups, paths: seq<Slot>, k: Kind): (l: seq<Slot>)
    ensures forall s :: s in l <==> s in paths && s in b && b[s].meta == Some(k)
  {
    if paths == [] then []
    else
      var rest := OfKind(b, paths[..|paths| - 1], k);
      var s := paths[|paths| - 1];
      if s in b && b[s].meta == Some(k) then rest + [s] else rest
  }

  /** All but the newest keep of them. */
  function Excess(l: seq<Slot>, keep: nat): seq<Slot> {
    if |l| <= keep then [] else l[..|l| - keep]
  }

  ghost predicate Outdated(b: Backups, paths: seq<Slot>, keep: nat, s: Slot) {
    exists k :: Rotated(k) && s in Excess(OfKind(b, paths, k), keep)
  }

  /** How removing a dir goes; rest is what a removal that stops halfway leaves. */
  datatype RemoveIo = RemoveIo(io: Io, rest: set<Path>, keepsManifest: bool, keepsMeta: bool)

  function Remainder(d: AppDir, r: RemoveIo): AppDir {
    AppDir(if r.keepsManifest then d.manifest else None, if r.keepsMeta then d.meta else None,
           map p | p in d.tree && (forall k | 0 < k <= |p| :: p[..k] in r.rest) :: d.tree[p])
  }

  /** One removal: the slot is gone, or what is left of it stays. */
  function Removed(b: Backups, s: Slot, r: RemoveIo): Backups
    requires s in b
  {
    if r.io == Done then b - {s} else b[s := Remainder(b[s], r)]
  }

  /** s was removed, or what is left of it is there. */
  predicate AfterRemoval(b: Backups, s: Slot, r: RemoveIo, b': Backups) {
    s in b && if r.io == Done then s !in b' else s in b' && b'[s] == Remainder(b[s], r)
  }

  ghost predicate NoRepeats(l: seq<Slot>) {
    forall i, j :: 0 <= i < j < |l| ==> l[i] != l[j]
  }

  lemma {:induction false} OfKindNoRepeats(b: Backups, paths: seq<Slot>, k: Kind)
    requires NoRepeats(paths)
    ensures NoRepeats(OfKind(b, paths, k))
  {
    if paths != [] {
      OfKindNoRepeats(b, paths[..|paths| - 1], k);
    }
  }

  /** Removes from the oldest of one kind until keep are left; a removal that fails is skipped. */
  method PruneKind(b: Backups, l: seq<Slot>, keep: nat, remove: Slot -> RemoveIo) returns (alive: bool, b': Backups)
    requires NoRepeats(l) && forall s :: s in l ==> s in b
    ensures b'.Keys <= b.Keys && forall s :: s in b && s !in Excess(l, keep) ==> s in b' && b'[s] == b[s]
    ensures alive ==> forall s :: s in Excess(l, keep) ==> AfterRemoval(b, s, remove(s), b')
    ensures (forall s :: remove(s).io != Killed) ==> alive
    ensures (forall s :: remove(s).io == Done) ==> alive && forall s :: s in b' <==> s in b && s !in Excess(l, keep)
  {
    b' := b;
    var list := l;
    ghost var n := 0;
    ghost var doomed := Excess(l, keep);
    while |list| > keep
      invariant n <= |doomed| && list == l[n..]
      invariant b'.Keys <= b.Keys && forall s :: s in b && s !in doomed[..n] ==> s in b' && b'[s] == b[s]
      invariant forall s :: s in doomed[..n] ==> AfterRemoval(b, s, remove(s), b')
      decreases |list|
    {
      var s := list[0];
      assert s == l[n] == doomed[n];
      assert doomed[..n + 1] == doomed[..n] + [s];
      assert s !in doomed[..n];
      if remove(s).io == Killed { return false, b'; }
      b' := Removed(b', s, remove(s));
      list := list[1..];
      n := n + 1;
    }
    assert doomed[..n] == doomed;
    assert forall s :: s in doomed ==> s in l;
    alive := true;
  }

  /** pruneBackupDirs over paths, oldest first: for each routine kind the oldest go until keep are
      left. Nothing pinned and none of the newest keep of a kind is touched, and when every removal
      succeeds exactly the others are gone. */
  method PruneBackups(b: Backups, paths: seq<Slot>, keep: nat, remove: Slot -> RemoveIo)
    returns (alive: bool, b': Backups)
    requires NoRepeats(paths)
    ensures b'.Keys <= b.Keys && forall s :: s in b && !Outdated(b, paths, keep, s) ==> s in b' && b'[s] == b[s]
    ensures alive ==> forall s :: Outdated(b, paths, keep, s) ==> AfterRemoval(b, s, remove(s), b')
    ensures (forall s :: remove(s).io != Killed) ==> alive
    ensures (forall s :: remove(s).io == Done) ==>
              alive && forall s :: s in b' <==> s in b && !Outdated(b, paths, keep, s)
  {
    var r, u := OfKind(b, paths, Reinstall), OfKind(b, paths, Upgrade);
    OfKindNoRepeats(b, paths, Reinstall);
    OfKindNoRepeats(b, paths, Upgrade);
    OutdatedIs(b, paths, keep);
    alive, b' := PruneKind(b, r, keep, remove);
    if !alive { return; }
    assert forall s :: s in Excess(r, keep) ==> s in r;
    assert forall s :: s in Excess(u, keep) ==> s in u && s !in Excess(r, keep);
    alive, b' := PruneKind(b', u, keep, remove);
  }

  lemma OutdatedIs(b: Backups, paths: seq<Slot>, keep: nat)
    ensures forall s :: Outdated(b, paths, keep, s) <==>
              s in Excess(OfKind(b, paths, Reinstall), keep) || s in Excess(OfKind(b, paths, Upgrade), keep)
  {
    forall s | s in Excess(OfKind(b, paths, Reinstall), keep) || s in Excess(OfKind(b, paths, Upgrade), keep)
      ensures Outdated(b, paths, keep, s)
    {
      assert Rotated(Reinstall) && Rotated(Upgrade);
    }
  }

  /** Retention never touches a backup that is not of a routine kind. */
  lemma OutdatedIsPrunable(b: Backups, paths: seq<Slot>, keep: nat, s: Slot)
    requires Outdated(b, paths, keep, s)
    ensures s in b && Prunable(b[s])
  {
    var k :| Rotated(k) && s in Excess(OfKind(b, paths, k), keep);
    assert s in OfKind(b, paths, k);
  }

  /** The newest keep of a kind are never outdated. */
  lemma NewestAreKept(b: Backups, paths: seq<Slot>, keep: nat, k: Kind, i: nat)
    requires NoRepeats(paths) && i < |OfKind(b, paths, k)| && |OfKind(b, paths, k)| - i <= keep
    ensures !Outdated(b, paths, keep, OfKind(b, paths, k)[i])
  {
    var l := OfKind(b, paths, k);
    OfKindNoRepeats(b, paths, k);
    assert l[i] !in Excess(l, keep);
    forall k' | k' != k ensures l[i] !in Excess(OfKind(b, paths, k'), keep) {
      assert l[i] !in OfKind(b, paths, k');
    }
  }

  /** All but the newest keep of a routine kind are outdated. */
  lemma OldestGo(b: Backups, paths: seq<Slot>, keep: nat, k: Kind, i: nat)
    requires k in {Upgrade, Reinstall} && i < |OfKind(b, paths, k)| && |OfKind(b, paths, k)| - i > keep
    ensures Outdated(b, paths, keep, OfKind(b, paths, k)[i])
  {
    var l := OfKind(b, paths, k);
    assert l[i] == Excess(l, keep)[i];
    assert Rotated(k) && l[i] in Excess(OfKind(b, paths, k), keep);
  }

  ghost predicate AllOfKind(b: Backups, paths: seq<Slot>, k: Kind) {
    forall i :: 0 <= i < |paths| ==> paths[i] in b && b[paths[i]].meta == Some(k)
  }

  lemma {:induction false} OfKindAll(b: Backups, paths: seq<Slot>, k: Kind)
    requires AllOfKind(b, paths, k)
    ensures OfKind(b, paths, k) == paths
  {
    if paths != [] {
      var init := paths[..|paths| - 1];
      OfKindAll(b, init, k);
      assert paths == init + [paths[|paths| - 1]];
    }
  }

  /** The backups of one place, each once, oldest first. */
  ghost predicate Listing(b: Backups, place: Place, l: seq<Slot>) {
    && NoRepeats(l) && (forall s :: s in l <==> s in b && s.place == place)
    && forall i, j :: 0 <= i < j < |l| ==> l[i].stamp <= l[j].stamp
  }

  /** What retention at one place leaves when every removal succeeds. */
  ghost predicate Retained(b: Backups, place: Place, b': Backups) {
    exists l :: Listing(b, place, l) && LeavesRest(b, l, b')
  }

  ghost predicate LeavesRest(b: Backups, l: seq<Slot>, b': Backups) {
    && (forall s :: s in b' <==> s in b && !Outdated(b, l, BACKUP_KEEP, s))
    && forall s :: s in b' ==> b'[s] == b[s]
  }

  /** The listing retention works on. */
  method ListPlace(b: Backups, place: Place) returns (l: seq<Slot>)
    ensures Listing(b, place, l)
  {
    l := [];
    var todo := set s | s in b && s.place == place;
    while todo != {}
      invariant forall s :: s in l || s in todo <==> s in b && s.place == place
      invariant forall s :: s in l ==> s !in todo
      invariant NoRepeats(l)
      invariant forall i, j :: 0 <= i < j < |l| ==> l[i].stamp <= l[j].stamp
      invariant forall i, s :: 0 <= i < |l| && s in todo ==> l[i].stamp <= s.stamp
      decreases todo
    {
      var first := Oldest(todo);
      l := l + [first];
      todo := todo - {first};
    }
  }

  method Oldest(todo: set<Slot>) returns (first: Slot)
    requires todo != {}
    ensures first in todo && forall s :: s in todo ==> first.stamp <= s.stamp
  {
    first :| first in todo;
    var rest := todo - {first};
    while rest != {}
      invariant rest <= todo && first in todo
      invariant forall s :: s in todo && s !in rest ==> first.stamp <= s.stamp
      decreases rest
    {
      var s :| s in rest;
      rest := rest - {s};
      if s.stamp < first.stamp {
        first := s;
      }
    }
  }

  /** A pinned backup finished over stale routine metadata is removed like a routine one: here an
      uninstall killed before its metadata was written, once three upgrades have followed. */
  lemma StaleMetadataIsPruned(d: AppDir, bin: Option<Path>, b: Backups, paths: seq<Slot>)
    requires d.meta == Some(Upgrade)
    requires paths == [Slot(Parked, 0), Slot(Parked, 1), Slot(Parked, 2), Slot(Parked, 3)]
    requires paths[0] in b && b[paths[0]] == Finish(d, bin, Uninstalled, FinishIo(p => false, p => None, Killed, false))
    requires forall i :: 1 <= i < 4 ==> paths[i] in b && b[paths[i]].meta == Some(Upgrade)
    ensures Outdated(b, paths, BACKUP_KEEP, paths[0])
  {
    assert AllOfKind(b, paths, Upgrade);
    OfKindAll(b, paths, Upgrade);
    hide OfKind, AllOfKind;
    assert Excess(paths, BACKUP_KEEP) == [paths[0]];
    assert Rotated(Upgrade) && paths[0] in Excess(OfKind(b, paths, Upgrade), BACKUP_KEEP);
  }
}
