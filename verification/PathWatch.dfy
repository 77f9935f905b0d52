/** The per-peer path watchdog: pkg/daemon/pathwatch.go.

    `PeerStep` is one peer's tick as a function, class `PathWatcher` keeps the table of peers
    across ticks, and the laws are about every run of ticks of the table. */
module PathWatch {
  import opened Common

  const SILENCE: int := 55 * SECOND
  const PROBE_MAX: nat := 3
  const RESET_COOLDOWN: int := 2 * MINUTE

  type Peer = nat

  datatype PeerState = PeerState(probesSent: nat, lastResetAt: Option<int>)

  datatype Action = Healthy | Probe | Reset | Cooldown | Skip

  const NEW_PEER := PeerState(0, None)

  /** One peer at one tick: inbound is its latest authenticated inbound, None when none is recorded. */
  function Decide(st: PeerState, inbound: Option<int>, now: int): Action {
    if inbound.None? then Skip
    else if now - inbound.value < SILENCE then Healthy
    else if st.lastResetAt.Some? && now - st.lastResetAt.value < RESET_COOLDOWN then Cooldown
    else if st.probesSent < PROBE_MAX then Probe
    else Reset
  }

  function PeerStep(st: PeerState, inbound: Option<int>, now: int): PeerState {
    match Decide(st, inbound, now)
    case Healthy => st.(probesSent := 0)
    case Probe => st.(probesSent := st.probesSent + 1)
    case Reset => PeerState(0, Some(now))
    case Cooldown => st
    case Skip => st
  }

  /** What one scan sees: the peers with a session that somebody uses, and their latest inbound. */
  datatype Scan = Scan(now: int, live: set<Peer>, inbound: map<Peer, int>)

  function InboundOf(s: Scan, p: Peer): Option<int> {
    if p in s.inbound then Some(s.inbound[p]) else None
  }

  function StateOf(m: map<Peer, PeerState>, p: Peer): PeerState {
    if p in m then m[p] else NEW_PEER
  }

  function Scanned(m: map<Peer, PeerState>, s: Scan): map<Peer, PeerState> {
    map p | p in s.live :: PeerStep(StateOf(m, p), InboundOf(s, p), s.now)
  }

  class PathWatcher {
    var states: map<Peer, PeerState>

    constructor ()
      ensures states == map[]
    {
      states := map[];
    }

    method WatchPeer(p: Peer, inbound: Option<int>, now: int) returns (a: Action)
      requires p in states
      modifies this
      ensures a == Decide(old(states)[p], inbound, now)
      ensures states == old(states)[p := PeerStep(old(states)[p], inbound, now)]
    {
      var st := states[p];
      if inbound.None? { return Skip; }
      var silence := now - inbound.value;
      if silence < SILENCE {
        states := states[p := st.(probesSent := 0)];
        return Healthy;
      }
      if st.lastResetAt.Some? && now - st.lastResetAt.value < RESET_COOLDOWN { return Cooldown; }
      if st.probesSent < PROBE_MAX {
        states := states[p := st.(probesSent := st.probesSent + 1)];
        return Probe;
      }
      states := states[p := PeerState(0, Some(now))];
      return Reset;
    }

    /** One scan: every ready peer in use is evaluated once, every other peer's memory is dropped. */
    method Tick(ready: set<Peer>, idle: set<Peer>, inbound: map<Peer, int>, now: int)
      returns (actions: map<Peer, Action>)
      modifies this
      ensures states == Scanned(old(states), Scan(now, ready - idle, inbound))
      ensures actions == map p | p in ready - idle ::
                           Decide(StateOf(old(states), p), InboundOf(Scan(now, ready - idle, inbound), p), now)
    {
      hide Decide, PeerStep;
      ghost var scan := Scan(now, ready - idle, inbound);
      actions := map[];
      var live: set<Peer> := {};
      var todo := ready;
      while todo != {}
        invariant todo <= ready && live == (ready - idle) - todo
        invariant actions.Keys == live
        invariant states.Keys == old(states).Keys + live
        invariant forall p :: p in live ==>
                    && states[p] == PeerStep(StateOf(old(states), p), InboundOf(scan, p), now)
                    && actions[p] == Decide(StateOf(old(states), p), InboundOf(scan, p), now)
        invariant forall p :: p in old(states) && p !in live ==> states[p] == old(states)[p]
        decreases todo
      {
        var p :| p in todo;
        todo := todo - {p};
        if p in idle { continue; }
        live := live + {p};
        if p !in states {
          states := states[p := NEW_PEER];
        }
        var a := WatchPeer(p, if p in inbound then Some(inbound[p]) else None, now);
        actions := actions[p := a];
      }
      states := map p | p in states && p in live :: states[p];
    }
  }

  // ---------------------------------------------------------------- runs of one tracked peer

  /** The table before scan k of a run that started empty. */
  function TableAt(run: seq<Scan>, k: nat): map<Peer, PeerState>
    requires k <= |run|
  {
    if k == 0 then map[] else Scanned(TableAt(run, k - 1), run[k - 1])
  }

  /** What scan k decided for p. */
  function ActionAt(run: seq<Scan>, p: Peer, k: nat): Action
    requires k < |run|
  {
    if p in run[k].live then Decide(StateOf(TableAt(run, k), p), InboundOf(run[k], p), run[k].now) else Skip
  }

  /** p stays tracked over scans i <= k < j. */
  ghost predicate Tracked(run: seq<Scan>, p: Peer, i: nat, j: nat)
    requires j <= |run|
  {
    forall k :: i <= k < j ==> p in run[k].live
  }

  ghost predicate ClockForward(run: seq<Scan>) {
    forall i, j :: 0 <= i < j < |run| ==> run[i].now <= run[j].now
  }

  /** heard is the set of instants authenticated inbound from p arrived. The record a scan reads is
      the latest of them; and since a record is stamped when it is written, one read after a scan
      that found none is no older than that scan. */
  ghost predicate Truthful(run: seq<Scan>, p: Peer, heard: iset<int>) {
    && (forall k :: 0 <= k < |run| && p in run[k].inbound ==>
          forall t :: t in heard && t <= run[k].now ==> t <= run[k].inbound[p])
    && (forall e, k :: 0 <= e < k < |run| && p !in run[e].inbound && p in run[k].inbound ==> run[k].inbound[p] >= run[e].now)
  }

  /** Scans come at most gap after one another. */
  ghost predicate ScansWithin(run: seq<Scan>, gap: int) {
    forall k :: 0 < k < |run| ==> run[k].now - run[k - 1].now <= gap
  }

  /** ... less than SILENCE. */
  ghost predicate ScansClose(run: seq<Scan>) { ScansWithin(run, SILENCE - 1) }

  ghost predicate Silent(heard: iset<int>, from: int, to: int) {
    forall t :: from < t <= to ==> t !in heard
  }

  /** A scan that finds p silent shows that nothing was heard in the 55 s before it. */
  lemma SilenceStarts(run: seq<Scan>, p: Peer, heard: iset<int>, k: nat)
    requires k < |run| && Truthful(run, p, heard)
    requires p in run[k].inbound && run[k].now - run[k].inbound[p] >= SILENCE
    ensures Silent(heard, run[k].now - SILENCE, run[k].now)
  {
  }

  /** A tracked peer's memory is one step on from what it was before the latest scan. */
  lemma MemoryStep(run: seq<Scan>, p: Peer, k: nat)
    requires k <= |run|
    ensures p in TableAt(run, k) <==> k > 0 && p in run[k - 1].live
    ensures p in TableAt(run, k) ==>
              TableAt(run, k)[p] == PeerStep(StateOf(TableAt(run, k - 1), p), InboundOf(run[k - 1], p), run[k - 1].now)
  {
  }

  /** A scan that finds p silent read its record after a scan that read it too: a record written
      since a scan without one is too young. */
  lemma SilenceIsOld(run: seq<Scan>, p: Peer, heard: iset<int>, k: nat)
    requires 0 < k < |run| && Truthful(run, p, heard) && ScansClose(run)
    requires p in run[k].inbound && run[k].now - run[k].inbound[p] >= SILENCE
    ensures p in run[k - 1].inbound
  {
    assert run[k].now - run[k - 1].now < SILENCE;
  }

  /** So silence up to e, the latest scan that read its record, goes on up to a scan that finds it silent. */
  lemma SilenceGoesOn(run: seq<Scan>, p: Peer, heard: iset<int>, from: int, e: nat, k: nat)
    requires e < k < |run| && Truthful(run, p, heard) && ScansClose(run) && (forall q :: e < q < k ==> p !in run[q].inbound)
    requires p in run[k].inbound && run[k].now - run[k].inbound[p] >= SILENCE && Silent(heard, from, run[e].now)
    ensures e == k - 1 && Silent(heard, from, run[k].now)
  {
    SilenceIsOld(run, p, heard, k);
    assert run[k].now - run[k - 1].now < SILENCE;
  }

  /** The probes a peer's memory counts are real: they were sent at the scans ps, with nothing
      heard from SILENCE before the first of them up to e, the latest scan that read its record. */
  lemma {:induction false} ProbeHistory(run: seq<Scan>, p: Peer, heard: iset<int>, k: nat)
    returns (ps: seq<nat>, e: nat)
    requires k <= |run| && Truthful(run, p, heard) && ScansClose(run)
    requires p in TableAt(run, k) && TableAt(run, k)[p].probesSent > 0
    ensures |ps| == TableAt(run, k)[p].probesSent
    ensures e < k && forall i :: 0 <= i < |ps| ==> ps[i] <= e && ActionAt(run, p, ps[i]) == Probe
    ensures forall i, j :: 0 <= i < j < |ps| ==> ps[i] < ps[j]
    ensures forall q :: e < q < k ==> p !in run[q].inbound
    ensures Silent(heard, run[ps[0]].now - SILENCE, run[e].now)
  {
    hide TableAt, Truthful, ScansClose, Silent;
    MemoryStep(run, p, k);
    var a := ActionAt(run, p, k - 1);
    if StateOf(TableAt(run, k - 1), p).probesSent > 0 {
      ps, e := ProbeHistory(run, p, heard, k - 1);
      if a != Skip {
        SilenceGoesOn(run, p, heard, run[ps[0]].now - SILENCE, e, k - 1);
        e := k - 1;
      }
      if a == Probe {
        ps := ps + [k - 1];
      }
    } else {
      ps, e := [k - 1], k - 1;
      SilenceStarts(run, p, heard, k - 1);
    }
  }

  /** Three probe scans precede scan r, with nothing heard from 55 s before the first until r. */
  ghost predicate FollowsSilence(run: seq<Scan>, p: Peer, heard: iset<int>, r: nat)
    requires r < |run|
  {
    exists a, b, c ::
      && 0 <= a < b < c < r
      && ActionAt(run, p, a) == ActionAt(run, p, b) == ActionAt(run, p, c) == Probe
      && Silent(heard, run[a].now - SILENCE, run[r].now)
  }

  /** With scans under 55 s apart, a reset comes only after three probe scans with no authenticated
      inbound from 55 s before the first of them until the reset. */
  lemma ResetFollowsSilence(run: seq<Scan>, p: Peer, heard: iset<int>, r: nat)
    requires r < |run| && Truthful(run, p, heard) && ScansClose(run)
    requires ActionAt(run, p, r) == Reset
    ensures FollowsSilence(run, p, heard, r)
  {
    var ps, e := ProbeHistory(run, p, heard, r);
    SilenceGoesOn(run, p, heard, run[ps[0]].now - SILENCE, e, r);
    assert ps[0] < ps[1] < ps[2] < r;
  }

  /** Scans farther apart lose that: 55 s and 1 ns after the first probe, an inbound heard just after
      the probe already counts as silence. */
  lemma FartherScansFail(run: seq<Scan>, heard: iset<int>)
    requires run == [Scan(100 * SECOND, {7}, map[7 := 0]), Scan(155 * SECOND + 1, {7}, map[7 := 100 * SECOND + 1]),
                     Scan(200 * SECOND, {7}, map[7 := 100 * SECOND + 1]), Scan(250 * SECOND, {7}, map[7 := 100 * SECOND + 1])]
    requires heard == iset{0, 100 * SECOND + 1}
    ensures ClockForward(run) && ScansWithin(run, SILENCE + 1) && Truthful(run, 7, heard)
    ensures ActionAt(run, 7, 3) == Reset && !FollowsSilence(run, 7, heard, 3)
  {
    assert StateOf(TableAt(run, 0), 7) == NEW_PEER;
    assert StateOf(TableAt(run, 1), 7) == PeerState(1, None);
    assert StateOf(TableAt(run, 2), 7) == PeerState(2, None);
    assert StateOf(TableAt(run, 3), 7) == PeerState(3, None);
    assert 100 * SECOND + 1 in heard;
  }

  lemma {:induction false} ResetRemembered(run: seq<Scan>, p: Peer, k: nat, m: nat)
    requires k < m <= |run| && ClockForward(run) && Tracked(run, p, k, m) && ActionAt(run, p, k) == Reset
    ensures p in TableAt(run, m)
    ensures var l := TableAt(run, m)[p].lastResetAt; l.Some? && run[k].now <= l.value
    decreases m
  {
    hide TableAt;
    MemoryStep(run, p, m);
    if k < m - 1 {
      ResetRemembered(run, p, k, m - 1);
    }
  }

  /** Two resets of a peer that stays tracked are at least two minutes apart. */
  lemma ResetsApart(run: seq<Scan>, p: Peer, k: nat, m: nat)
    requires k < m < |run| && ClockForward(run) && Tracked(run, p, k, m)
    requires ActionAt(run, p, k) == Reset && ActionAt(run, p, m) == Reset
    ensures run[m].now - run[k].now >= RESET_COOLDOWN
  {
    ResetRemembered(run, p, k, m);
  }

  // ---------------------------------------------------------------- a dead path is found

  /** Scan k sees p in use with nothing heard for 55 s. */
  predicate SeenSilent(run: seq<Scan>, p: Peer, k: nat)
    requires k < |run|
  {
    p in run[k].live && p in run[k].inbound && run[k].now >= run[k].inbound[p] + 55 * SECOND
  }

  /** What a scan does with a peer it sees silent: nothing within two minutes of its last reset; else a
      probe, or the reset once three probes are out. */
  lemma SilentScan(run: seq<Scan>, p: Peer, k: nat)
    requires k < |run| && SeenSilent(run, p, k)
    ensures var st := StateOf(TableAt(run, k), p);
            var resting := st.lastResetAt.Some? && run[k].now < st.lastResetAt.value + 2 * MINUTE;
            && p in TableAt(run, k + 1)
            && ActionAt(run, p, k) == (if resting then Cooldown else if st.probesSent < 3 then Probe else Reset)
            && TableAt(run, k + 1)[p] ==
                 (if resting then st else if st.probesSent < 3 then PeerState(st.probesSent + 1, st.lastResetAt)
                  else PeerState(0, Some(run[k].now)))
  {
  }

  /** A peer heard within 55 s is healthy and its probes are forgotten. */
  lemma HeardScan(run: seq<Scan>, p: Peer, k: nat)
    requires k < |run| && p in run[k].live && p in run[k].inbound && run[k].now < run[k].inbound[p] + 55 * SECOND
    ensures ActionAt(run, p, k) == Healthy
    ensures p in TableAt(run, k + 1) && TableAt(run, k + 1)[p] == PeerState(0, StateOf(TableAt(run, k), p).lastResetAt)
  {
  }

  /** A peer without a record is left alone, its memory with it. */
  lemma RecordlessScan(run: seq<Scan>, p: Peer, k: nat)
    requires k < |run| && p in run[k].live && p !in run[k].inbound
    ensures ActionAt(run, p, k) == Skip
    ensures p in TableAt(run, k + 1) && TableAt(run, k + 1)[p] == StateOf(TableAt(run, k), p)
  {
  }

  /** A peer that stays silent is probed at three scans and reset at the fourth, if it was not just reset. */
  lemma SilentPeerIsReset(run: seq<Scan>, p: Peer, k: nat)
    requires k + 4 <= |run| && ClockForward(run) && forall j :: k <= j < k + 4 ==> SeenSilent(run, p, j)
    requires var st := StateOf(TableAt(run, k), p);
             st.probesSent == 0 && (st.lastResetAt.None? || run[k].now >= st.lastResetAt.value + 2 * MINUTE)
    ensures ActionAt(run, p, k) == ActionAt(run, p, k + 1) == ActionAt(run, p, k + 2) == Probe && ActionAt(run, p, k + 3) == Reset
  {
    hide TableAt, ActionAt;
    SilentScan(run, p, k);
    SilentScan(run, p, k + 1);
    SilentScan(run, p, k + 2);
    SilentScan(run, p, k + 3);
  }

  /** A reset peer that stays silent is left alone while less than two minutes have passed. */
  lemma {:induction false} RestsAfterReset(run: seq<Scan>, p: Peer, k: nat, m: nat)
    requires k < m <= |run| && ActionAt(run, p, k) == Reset
    requires forall j :: k < j < m ==> SeenSilent(run, p, j) && run[j].now < run[k].now + 2 * MINUTE
    ensures p in TableAt(run, m) && TableAt(run, m)[p] == PeerState(0, Some(run[k].now))
    ensures forall j :: k < j < m ==> ActionAt(run, p, j) == Cooldown
    decreases m
  {
    hide TableAt;
    MemoryStep(run, p, m);
    if k < m - 1 {
      RestsAfterReset(run, p, k, m - 1);
      SilentScan(run, p, m - 1);
    }
  }

  /** ... and probed again at the first scan after that. */
  lemma ProbedAgain(run: seq<Scan>, p: Peer, k: nat, m: nat)
    requires k < m < |run| && ActionAt(run, p, k) == Reset
    requires forall j :: k < j < m ==> SeenSilent(run, p, j) && run[j].now < run[k].now + 2 * MINUTE
    requires SeenSilent(run, p, m) && run[m].now >= run[k].now + 2 * MINUTE
    ensures ActionAt(run, p, m) == Probe
  {
    hide TableAt, ActionAt;
    RestsAfterReset(run, p, k, m);
    SilentScan(run, p, m);
  }

  /** A peer nobody uses, or without a session, is forgotten. */
  lemma ForgottenWhenIdle(run: seq<Scan>, p: Peer, k: nat)
    requires 0 < k <= |run| && p !in run[k - 1].live
    ensures StateOf(TableAt(run, k), p) == PeerState(0, None)
  {
  }
}
