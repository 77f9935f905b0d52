/** The trees of an app: cmd/pilotctl/appstore_state.go.

    A tree maps relative paths to nodes. A file's fingerprint is what Lstat tells it by: inode,
    size and modification time; two hard links are equal nodes. */
module AppTree {
  import opened Common

  type Path = seq<string>

  datatype Fingerprint = Fingerprint(inode: nat, size: nat, mtime: int)

  datatype Node = Dir | File(fp: Fingerprint, data: string) | Link(fp: Fingerprint, target: string) | Special

  type Tree = map<Path, Node>

  function At(t: Tree, p: Path): Option<Node> { if p in t then Some(t[p]) else None }

  /** Every entry sits in directories that are there. */
  predicate WellFormed(t: Tree) {
    forall p :: p in t ==> p != [] && forall k :: 0 < k < |p| ==> At(t, p[..k]) == Some(Dir)
  }

  /** What an app stored at a path: a file's bytes or a symlink's target. */
  datatype Content = Bytes(data: string) | Target(path: string)

  function ContentOf(n: Node): Option<Content> {
    match n
    case File(_, data) => Some(Bytes(data))
    case Link(_, target) => Some(Target(target))
    case _ => None
  }

  // ---------------------------------------------------------------- names

  function Base(p: Path): string
    requires p != []
  {
    p[|p| - 1]
  }

  predicate HasSuffix(s: string, suffix: string) {
    |suffix| <= |s| && s[|s| - |suffix|..] == suffix
  }

  /** Top-level names that belong to the bundle, to pilotctl or to the supervisor. The marker of a
      sideloaded app is named by a library outside the repository. */
  const CONTROL: set<string> := {"manifest.json", "install.json", "install.sh", ".sideloaded", ".suspended", ".resume",
                                 ".bundle-sha256", "next-steps.json", ".next-steps.checked", ".next-steps.retry",
                                 "app.sock", ".pilot-backup.json"}

  predicate SkipEntry(p: Path, oldBin: Option<Path>) {
    (|p| == 1 && p[0] in CONTROL) || oldBin == Some(p)
  }

  predicate IsSock(p: Path) { p != [] && HasSuffix(Base(p), ".sock") }

  predicate IsVolatile(p: Path) {
    p != [] && exists s | s in ["-journal", "-wal", "-shm", ".lock", ".pid", ".tmp", "~"] :: HasSuffix(Base(p), s)
  }

  /** The sidecars of databases, lock files and temporaries are volatile, whatever they belong to. */
  lemma VolatileName(p: Path, base: string, suffix: string)
    requires p != [] && p[|p| - 1] == base + suffix
    requires suffix in ["-journal", "-wal", "-shm", ".lock", ".pid", ".tmp", "~"]
    ensures IsVolatile(p)
  {
    assert (base + suffix)[|base|..] == suffix;
    assert HasSuffix(Base(p), suffix);
  }

  lemma SockName(p: Path, base: string)
    requires p != [] && p[|p| - 1] == base + ".sock"
    ensures IsSock(p)
  {
    assert (base + ".sock")[|base|..] == ".sock";
  }

  /** No other name is: not a database, a key file or a document, by how it ends. */
  lemma OrdinaryName(p: Path)
    requires p != [] && (p[|p| - 1] == "" || p[|p| - 1][|p[|p| - 1]| - 1] !in {'l', 'm', 'k', 'd', 'p', '~'})
    ensures !IsVolatile(p) && !IsSock(p)
  {
    forall s | s in ["-journal", "-wal", "-shm", ".lock", ".pid", ".tmp", "~", ".sock"]
      ensures !HasSuffix(Base(p), s)
    {
      if HasSuffix(Base(p), s) {
        LastOfSuffix(Base(p), s);
      }
    }
  }

  lemma LastOfSuffix(name: string, s: string)
    requires s != "" && HasSuffix(name, s)
    ensures name != "" && name[|name| - 1] == s[|s| - 1]
  {
    assert name[|name| - |s|..][|s| - 1] == name[|name| - 1];
  }

  // ---------------------------------------------------------------- walks

  /** A walk lists every entry once, directories before what is in them. */
  ghost predicate IsWalk(walk: seq<Path>, t: Tree) {
    && (forall i :: 0 <= i < |walk| ==> walk[i] in t)
    && (forall p :: p in t ==> p in walk)
    && (forall i, j :: 0 <= i < j < |walk| ==> walk[i] != walk[j])
    && (forall i, k :: 0 <= i < |walk| && 0 < k < |walk[i]| ==> walk[i][..k] in walk[..i])
  }

  /** The entries a walk has listed before its i-th. */
  ghost function Upto(walk: seq<Path>, i: nat): set<Path>
    requires i <= |walk|
  {
    set p | p in walk[..i]
  }

  lemma WalkStep(walk: seq<Path>, t: Tree, i: nat)
    requires IsWalk(walk, t) && i < |walk|
    ensures walk[i] in t && walk[i] !in Upto(walk, i) && Upto(walk, i + 1) == Upto(walk, i) + {walk[i]}
    ensures forall k :: 0 < k < |walk[i]| ==> walk[i][..k] in Upto(walk, i)
  {
    assert walk[..i + 1] == walk[..i] + [walk[i]];
  }

  lemma WalkEnd(walk: seq<Path>, t: Tree)
    requires IsWalk(walk, t)
    ensures t.Keys <= Upto(walk, |walk|)
  {
    assert walk[..|walk|] == walk;
  }

  /** No directory above p stops the walk. */
  ghost predicate Reached(p: Path, stops: Path -> bool) {
    forall k :: 0 < k < |p| ==> !stops(p[..k])
  }

  /** A walk that skips what is below the directories in skip comes to p exactly when no directory
      above p stops it, given that skip holds the stopping directories the walk itself came to. */
  lemma SkipMeansStopped(p: Path, t: Tree, stops: Path -> bool, skip: set<Path>, seen: set<Path>)
    requires WellFormed(t) && p in t
    requires forall k :: 0 < k < |p| ==> p[..k] in seen
    requires forall a :: a in skip <==> a in seen && At(t, a) == Some(Dir) && stops(a) && Reached(a, stops)
    ensures (exists k :: 0 < k < |p| && p[..k] in skip) <==> !Reached(p, stops)
  {
    if !Reached(p, stops) {
      var k :| 0 < k < |p| && stops(p[..k]);
      var j := FirstStop(p, stops, k);
      assert At(t, p[..j]) == Some(Dir);
      assert p[..j] in skip;
    }
  }

  lemma {:induction false} FirstStop(p: Path, stops: Path -> bool, k: nat) returns (j: nat)
    requires 0 < k <= |p| && stops(p[..k])
    ensures 0 < j <= k && stops(p[..j]) && Reached(p[..j], stops)
  {
    if i :| 0 < i < k && stops(p[..i]) {
      j := FirstStop(p, stops, i);
    } else {
      j := k;
      assert forall i :: 0 < i < k ==> p[..k][..i] == p[..i];
    }
  }

  /** Lists a tree, directories before what is in them. */
  method WalkDir(t: Tree) returns (walk: seq<Path>)
    requires WellFormed(t)
    ensures IsWalk(walk, t)
  {
    walk := [];
    var todo := t.Keys;
    while todo != {}
      invariant forall p :: p in t <==> p in todo || p in walk
      invariant forall p :: p in walk ==> p !in todo
      invariant forall i, j :: 0 <= i < j < |walk| ==> walk[i] != walk[j]
      invariant forall i, k :: 0 <= i < |walk| && 0 < k < |walk[i]| ==> walk[i][..k] in walk[..i]
      decreases todo
    {
      var p := Shortest(todo);
      forall k | 0 < k < |p| ensures p[..k] in walk {
        assert At(t, p[..k]) == Some(Dir);
        assert |p[..k]| < |p|;
      }
      ghost var before := walk;
      walk := walk + [p];
      todo := todo - {p};
      forall i, k | 0 <= i < |walk| && 0 < k < |walk[i]| ensures walk[i][..k] in walk[..i] {
        if i < |before| {
          assert walk[..i] == before[..i] && before[i][..k] in before[..i];
        } else {
          assert walk[..i] == before;
        }
      }
    }
  }

  method Shortest(todo: set<Path>) returns (p: Path)
    requires todo != {}
    ensures p in todo && forall q :: q in todo ==> |p| <= |q|
  {
    p :| p in todo;
    var rest := todo - {p};
    while rest != {}
      invariant rest <= todo && p in todo
      invariant forall q :: q in todo && q !in rest ==> |p| <= |q|
      decreases rest
    {
      var q :| q in rest;
      rest := rest - {q};
      if |q| < |p| {
        p := q;
      }
    }
  }
}
