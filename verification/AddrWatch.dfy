/** The own-address watcher: pkg/daemon/addrwatch.go.

    `Watch` is the watcher's memory as a value, the functions on it say what each method
    leaves behind, and class `Watcher` is the imperative form proved against them. The laws
    are about whole runs of ticks (`After`, `Fired`). */
module AddrWatch {
  import opened Common

  const COOLDOWN: int := 10 * SECOND
  const COOLDOWN_MAX: int := 2 * MINUTE
  const QUIET: int := 10 * MINUTE
  const OBSERVED_COOLDOWN: int := MINUTE
  const OBSERVED_COOLDOWN_MAX: int := 60 * MINUTE
  const OBSERVED_QUIET: int := 2 * OBSERVED_COOLDOWN_MAX
  const CONFIRM_GAP: int := 30 * SECOND
  const REGISTRY_RETRY_MAX: int := 3

  datatype Reason = Local | Observed | Registry

  /** One input's run of recoveries. */
  datatype Backoff = Backoff(last: Option<int>, streak: nat)

  /** One answer of the kernel: the source address toward a beacon, and whether there is a route. */
  datatype Sample = Sample(ip: string, ok: bool)

  /** One stored discover reply: the IP the beacon sees us at, which beacon, and when. */
  datatype Reply = NoReply | Reply(ip: string, beacon: string, at: int)

  /** What the watcher knows about its own addresses, all of it taken against one beacon. */
  datatype Baseline = Baseline(
    beacon: string,
    local: string, announced: string,
    observed: string, observedCurrent: string,
    confirmAskedFor: Option<int>, lastConfirm: Option<int>)

  /** When recoveries ran. */
  datatype Pace = Pace(lastRecover: Option<int>, localGap: Backoff, observedGap: Backoff, registryGap: Backoff)

  datatype Watch = Watch(base: Baseline, registryRetries: int, pace: Pace)

  const NEVER := Backoff(None, 0)
  const START := Watch(Baseline("", "", "", "", "", None, None), 0, Pace(None, NEVER, NEVER, NEVER))

  /** Everything one tick reads from outside: the clock, the beacon in use, the sample on the
      old beacon's route (taken only at a switch), the sample on the current route, the two
      latest replies, and whether the registry would take a re-registration now. */
  datatype Input = Input(now: int, beacon: string, oldRoute: Sample, route: Sample,
                         latest: Reply, prev: Reply, registryOK: bool)

  // ---------------------------------------------------------------- one tick, as functions

  function NoteBeacon(w: Baseline, beacon: string): Baseline {
    if beacon == w.beacon then w
    else
      var kept := w.local != w.announced;
      Baseline(beacon, if kept then w.local else "", if kept then w.announced else "", "", "", None, None)
  }

  function NoteLocal(w: Baseline, s: Sample): Baseline {
    if !s.ok || s.ip == "" then w
    else w.(local := s.ip, announced := if w.announced == "" then s.ip else w.announced)
  }

  predicate Agree(w: Baseline, latest: Reply, prev: Reply) {
    latest.Reply? && prev.Reply? && latest.beacon == w.beacon && prev.beacon == w.beacon && latest.ip == prev.ip
  }

  function NoteObserved(w: Baseline, latest: Reply, prev: Reply): Baseline {
    if !Agree(w, latest, prev) then w
    else w.(observedCurrent := latest.ip, observed := if w.observed == "" then latest.ip else w.observed)
  }

  /** Whether t is set and less than d before now; a t ahead of now holds nothing back. */
  predicate RecentlyAt(t: Option<int>, now: int, d: int) {
    t.Some? && 0 <= now - t.value < d
  }

  predicate WantsConfirm(w: Baseline, latest: Reply, now: int) {
    && latest.Reply? && latest.beacon == w.beacon
    && latest.ip != w.observedCurrent
    && Some(latest.at) != w.confirmAskedFor
    && !RecentlyAt(w.lastConfirm, now, CONFIRM_GAP)
  }

  function Pending(w: Watch): Option<Reason> {
    if w.base.local != w.base.announced then Some(Local)
    else if w.base.observed != "" && w.base.observedCurrent != w.base.observed then Some(Observed)
    else if w.registryRetries > 0 then Some(Registry)
    else None
  }

  function BaseGap(r: Reason): int { if r == Observed then OBSERVED_COOLDOWN else COOLDOWN }
  function MaxGap(r: Reason): int { if r == Observed then OBSERVED_COOLDOWN_MAX else COOLDOWN_MAX }
  function Quiet(r: Reason): int { if r == Observed then OBSERVED_QUIET else QUIET }

  function GapFor(p: Pace, r: Reason): Backoff {
    match r
    case Local => p.localGap
    case Observed => p.observedGap
    case Registry => p.registryGap
  }

  /** The gap required after a recovery, in closed form; Watcher.CooldownFor computes it by doubling. */
  function Cooldown(r: Reason, streak: nat): int {
    if streak == 0 then BaseGap(r) else Min(BaseGap(r) * Pow2(streak - 1), MaxGap(r))
  }

  predicate HeldBack(p: Pace, r: Reason, now: int) {
    || RecentlyAt(p.lastRecover, now, COOLDOWN)
    || RecentlyAt(GapFor(p, r).last, now, Cooldown(r, GapFor(p, r).streak))
  }

  function Due(w: Watch, now: int): Option<Reason> {
    var r := Pending(w);
    if r.None? || HeldBack(w.pace, r.value, now) then None else r
  }

  function Bumped(b: Backoff, now: int, quiet: int): Backoff {
    var rested := b.last.Some? && now - b.last.value >= quiet;
    Backoff(Some(now), (if rested then 0 else b.streak) + 1)
  }

  function BeganBase(w: Baseline, r: Reason): Baseline {
    match r
    case Local => w.(announced := w.local, observed := "", observedCurrent := "")
    case Observed => w.(announced := w.local, observed := w.observedCurrent)
    case Registry => w.(announced := w.local)
  }

  function BeganPace(p: Pace, now: int, r: Reason): Pace {
    var b := Bumped(GapFor(p, r), now, Quiet(r));
    var restart := Backoff(Some(now), 1);
    match r
    case Local => Pace(Some(now), b, p.observedGap, restart)
    case Observed => Pace(Some(now), p.localGap, b, restart)
    case Registry => Pace(Some(now), p.localGap, p.observedGap, b)
  }

  function Began(w: Watch, now: int, r: Reason): Watch {
    Watch(BeganBase(w.base, r), if r == Registry then w.registryRetries - 1 else 0, BeganPace(w.pace, now, r))
  }

  function Finished(w: Watch, r: Reason, registryOK: bool): Watch {
    if registryOK then w.(registryRetries := 0)
    else if r != Registry then w.(registryRetries := REGISTRY_RETRY_MAX)
    else w
  }

  /** The beacon switch at the head of a tick, with one last sample on the old route. */
  function Switched(w: Baseline, i: Input): Baseline {
    if i.beacon == w.beacon then w
    else NoteBeacon(if w.announced != "" then NoteLocal(w, i.oldRoute) else w, i.beacon)
  }

  function Confirmed(w: Baseline, i: Input): Baseline {
    if i.route.ok && WantsConfirm(w, i.latest, i.now)
    then w.(confirmAskedFor := Some(i.latest.at), lastConfirm := Some(i.now)) else w
  }

  /** The tick's inputs taken in, before it decides whether a recovery runs. */
  function Sampled(w: Baseline, i: Input): Baseline {
    Confirmed(NoteObserved(NoteLocal(Switched(w, i), i.route), i.latest, i.prev), i)
  }

  /** The recovery a tick runs, if any. */
  function Fires(w: Watch, i: Input): Option<Reason> {
    if i.route.ok then Due(w.(base := Sampled(w.base, i)), i.now) else None
  }

  function Tick(w: Watch, i: Input): Watch {
    var u := w.(base := Sampled(w.base, i));
    match Fires(w, i)
    case None => u
    case Some(r) => Finished(Began(u, i.now, r), r, i.registryOK)
  }

  // ---------------------------------------------------------------- the imperative watcher

  class Watcher {
    var beacon: string
    var local: string
    var announced: string
    var observed: string
    var observedCurrent: string
    var confirmAskedFor: Option<int>
    var lastConfirm: Option<int>
    var registryRetries: int
    var lastRecover: Option<int>
    var localGap: Backoff
    var observedGap: Backoff
    var registryGap: Backoff

    ghost function Known(): Baseline
      reads this
    {
      Baseline(beacon, local, announced, observed, observedCurrent, confirmAskedFor, lastConfirm)
    }

    ghost function View(): Watch
      reads this
    {
      Watch(Known(), registryRetries, Pace(lastRecover, localGap, observedGap, registryGap))
    }

    constructor ()
      ensures View() == START
    {
      beacon, local, announced, observed, observedCurrent := "", "", "", "", "";
      confirmAskedFor, lastConfirm, lastRecover := None, None, None;
      registryRetries := 0;
      localGap, observedGap, registryGap := NEVER, NEVER, NEVER;
    }

    method SetBeacon(b: string)
      modifies this
      ensures View() == old(View()).(base := NoteBeacon(old(Known()), b))
    {
      if b == beacon { return; }
      beacon := b;
      if local == announced {
        local, announced := "", "";
      }
      observed, observedCurrent := "", "";
      confirmAskedFor, lastConfirm := None, None;
    }

    method AddSample(s: Sample)
      modifies this
      ensures View() == old(View()).(base := NoteLocal(old(Known()), s))
    {
      if !s.ok || s.ip == "" { return; }
      local := s.ip;
      if announced == "" {
        announced := s.ip;
      }
    }

    method AddReplies(latest: Reply, prev: Reply)
      modifies this
      ensures View() == old(View()).(base := NoteObserved(old(Known()), latest, prev))
    {
      if latest.NoReply? || prev.NoReply? || latest.beacon != beacon || prev.beacon != beacon || latest.ip != prev.ip {
        return;
      }
      observedCurrent := latest.ip;
      if observed == "" {
        observed := observedCurrent;
      }
    }

    method AskConfirm(latest: Reply, now: int) returns (ask: bool)
      modifies this
      ensures ask == WantsConfirm(old(Known()), latest, now)
      ensures View() == old(View()).(base :=
                  if ask then old(Known()).(confirmAskedFor := Some(latest.at), lastConfirm := Some(now))
                  else old(Known()))
    {
      if latest.NoReply? || latest.beacon != beacon || latest.ip == observedCurrent || Some(latest.at) == confirmAskedFor {
        return false;
      }
      if RecentlyAt(lastConfirm, now, CONFIRM_GAP) { return false; }
      confirmAskedFor, lastConfirm := Some(latest.at), Some(now);
      return true;
    }

    /** Doubles the base gap once per recovery after the first, until it reaches the cap. */
    method CooldownFor(r: Reason, streak: nat) returns (gap: int)
      ensures gap == Cooldown(r, streak)
    {
      var max := MaxGap(r);
      gap := BaseGap(r);
      var i := 1;
      while i < streak && gap < max
        invariant 1 <= i && (i == 1 || i <= streak)
        invariant gap == BaseGap(r) * Pow2(i - 1)
      {
        gap := gap * 2;
        i := i + 1;
      }
      if streak >= 1 {
        Pow2Monotone(i - 1, streak - 1);
        assert gap <= BaseGap(r) * Pow2(streak - 1);
      }
      if gap > max {
        gap := max;
      }
    }

    method Begin(now: int, r: Reason)
      modifies this
      ensures View() == Began(old(View()), now, r)
    {
      var b := match r case Local => localGap case Observed => observedGap case Registry => registryGap;
      if b.last.Some? && now - b.last.value >= Quiet(r) {
        b := b.(streak := 0);
      }
      b := Backoff(Some(now), b.streak + 1);
      match r {
        case Local => localGap := b;
        case Observed => observedGap := b;
        case Registry => registryGap := b;
      }
      lastRecover := Some(now);
      if r == Observed {
        observed := observedCurrent;
      }
      announced := local;
      if r == Local {
        observed, observedCurrent := "", "";
      }
      if r == Registry {
        registryRetries := registryRetries - 1;
      } else {
        registryRetries := 0;
        registryGap := Backoff(Some(now), 1);
      }
    }

    method Finish(r: Reason, registryOK: bool)
      modifies this
      ensures View() == Finished(old(View()), r, registryOK)
    {
      if registryOK {
        registryRetries := 0;
        return;
      }
      if r != Registry {
        registryRetries := REGISTRY_RETRY_MAX;
      }
    }

    method IsDue(now: int) returns (r: Option<Reason>)
      ensures r == Due(View(), now)
    {
      r := if local != announced then Some(Local)
           else if observed != "" && observedCurrent != observed then Some(Observed)
           else if registryRetries > 0 then Some(Registry) else None;
      if r.None? { return; }
      if RecentlyAt(lastRecover, now, COOLDOWN) { return None; }
      var b := match r.value case Local => localGap case Observed => observedGap case Registry => registryGap;
      var gap := CooldownFor(r.value, b.streak);
      if RecentlyAt(b.last, now, gap) { return None; }
    }

    method RunTick(i: Input) returns (fired: Option<Reason>)
      modifies this
      ensures fired == Fires(old(View()), i)
      ensures View() == Tick(old(View()), i)
    {
      if i.beacon != beacon {
        if announced != "" {
          AddSample(i.oldRoute);
        }
        SetBeacon(i.beacon);
      }
      AddSample(i.route);
      AddReplies(i.latest, i.prev);
      if i.route.ok {
        var _ := AskConfirm(i.latest, i.now);
      }
      fired := IsDue(i.now);
      if fired.None? || !i.route.ok { return None; }
      Begin(i.now, fired.value);
      Finish(fired.value, i.registryOK);
    }
  }

  // ---------------------------------------------------------------- runs

  /** The watcher after the first k ticks of a run that started in w. */
  function After(w: Watch, run: seq<Input>, k: nat): Watch
    requires k <= |run|
  {
    if k == 0 then w else Tick(After(w, run, k - 1), run[k - 1])
  }

  function Fired(w: Watch, run: seq<Input>, k: nat): Option<Reason>
    requires k < |run|
  {
    Fires(After(w, run, k), run[k])
  }

  ghost predicate ClockForward(run: seq<Input>) {
    forall i, j :: 0 <= i < j < |run| ==> run[i].now <= run[j].now
  }

  // ---------------------------------------------------------------- rate limit

  /** Local recoveries at ticks i <= k < j. */
  function LocalCount(w: Watch, run: seq<Input>, i: nat, j: nat): nat
    requires i <= j <= |run|
    decreases j
  {
    if i == j then 0
    else LocalCount(w, run, i, j - 1) + if Fired(w, run, j - 1) == Some(Local) then 1 else 0
  }

  /** How far a streak of local recoveries may have run ahead of one every two minutes. */
  function Credit(streak: nat): int {
    if streak <= 1 then 0
    else if streak == 2 then 110 * SECOND
    else if streak == 3 then 210 * SECOND
    else if streak == 4 then 290 * SECOND
    else 330 * SECOND
  }

  /** The next recovery of a streak pays for itself with its cooldown and its credit. */
  lemma CreditPays(streak: nat)
    requires streak >= 1
    ensures Credit(streak) + 120 * SECOND <= Cooldown(Local, streak) + Credit(streak + 1)
    ensures 0 <= Credit(streak) <= 330 * SECOND
    ensures 0 <= Cooldown(Local, streak) <= 120 * SECOND
  {
    if streak >= 5 {
      Pow2Monotone(4, streak - 1);
      assert Pow2(4) == 16;
      assert BaseGap(Local) * Pow2(streak - 1) >= 160 * SECOND;
    } else {
      assert Pow2(0) == 1 && Pow2(1) == 2 && Pow2(2) == 4 && Pow2(3) == 8;
    }
  }

  lemma LocalGapStep(w: Watch, i: Input)
    ensures Fires(w, i) != Some(Local) ==> Tick(w, i).pace.localGap == w.pace.localGap
    ensures Fires(w, i) == Some(Local) ==> Tick(w, i).pace.localGap == Bumped(w.pace.localGap, i.now, QUIET)
    ensures Fires(w, i) == Some(Local) ==>
              !RecentlyAt(w.pace.localGap.last, i.now, Cooldown(Local, w.pace.localGap.streak))
  {
  }

  /** n local recoveries between start and end, the latest recorded in b: each after the first is
      paid for by elapsed time plus the credit of the current streak. */
  predicate Paid(n: nat, start: int, end: int, b: Backoff) {
    n >= 1 ==>
      && b.last.Some? && b.streak >= 1 && start <= b.last.value <= end
      && 120 * SECOND * (n - 1) <= b.last.value - start + Credit(b.streak)
  }

  lemma PaidStep(n: nat, start: int, end: int, b: Backoff, now: int)
    requires start <= end <= now && Paid(n, start, end, b)
    requires !RecentlyAt(b.last, now, Cooldown(Local, b.streak))
    ensures Paid(n + 1, start, now, Bumped(b, now, QUIET))
  {
    if n >= 1 {
      CreditPays(b.streak);
    }
  }

  /** One tick keeps the recoveries paid for, whether or not it runs one. */
  lemma PaidTick(w: Watch, i: Input, n: nat, start: int, end: int)
    requires start <= end <= i.now && Paid(n, start, end, w.pace.localGap)
    ensures Paid(n + if Fires(w, i) == Some(Local) then 1 else 0, start, i.now, Tick(w, i).pace.localGap)
  {
    LocalGapStep(w, i);
    if Fires(w, i) == Some(Local) {
      PaidStep(n, start, end, w.pace.localGap, i.now);
    }
  }

  lemma {:induction false} RateInvariant(w: Watch, run: seq<Input>, i: nat, j: nat)
    requires i < j <= |run| && ClockForward(run)
    ensures Paid(LocalCount(w, run, i, j), run[i].now, run[j - 1].now, After(w, run, j).pace.localGap)
    decreases j
  {
    hide Tick, Fires;
    var u, n, end := After(w, run, j - 1), LocalCount(w, run, i, j - 1), run[i].now;
    if i < j - 1 {
      RateInvariant(w, run, i, j - 1);
      end := run[j - 2].now;
    }
    PaidTick(u, run[j - 1], n, run[i].now, end);
  }

  /** In any stretch of any run with a forward clock, n local-address recoveries need at least
      120 n - 450 seconds, quiet-period resets included. The start state is arbitrary. */
  lemma LocalRecoveryRate(w: Watch, run: seq<Input>, i: nat, j: nat)
    requires i < j <= |run| && ClockForward(run)
    ensures 120 * SECOND * LocalCount(w, run, i, j) <= run[j - 1].now - run[i].now + 450 * SECOND
  {
    hide After, LocalCount;
    RateInvariant(w, run, i, j);
  }

  lemma {:induction false} LastRecoverTracks(w: Watch, run: seq<Input>, k: nat, m: nat)
    requires k < m <= |run| && ClockForward(run) && Fired(w, run, k).Some?
    ensures var l := After(w, run, m).pace.lastRecover; l.Some? && run[k].now <= l.value <= run[m - 1].now
    decreases m
  {
    if k < m - 1 {
      LastRecoverTracks(w, run, k, m - 1);
    }
  }

  /** Two recoveries of any kind are at least ten seconds apart. */
  lemma RecoveriesSpaced(w: Watch, run: seq<Input>, k: nat, m: nat)
    requires k < m < |run| && ClockForward(run)
    requires Fired(w, run, k).Some? && Fired(w, run, m).Some?
    ensures run[m].now - run[k].now >= COOLDOWN
  {
    LastRecoverTracks(w, run, k, m);
  }

  // ---------------------------------------------------------------- a host that does not move

  /** Everything tick k reads is a fixed function of the beacon it was read against. */
  ghost predicate Stationary(run: seq<Input>, source: string -> string, seen: string -> string) {
    forall k :: 0 <= k < |run| ==>
      && (run[k].oldRoute.ok ==> run[k].oldRoute.ip == source(After(START, run, k).base.beacon))
      && (run[k].route.ok ==> run[k].route.ip == source(run[k].beacon))
      && (run[k].latest.Reply? ==> run[k].latest.ip == seen(run[k].latest.beacon))
      && (run[k].prev.Reply? ==> run[k].prev.ip == seen(run[k].prev.beacon))
  }

  ghost predicate Settled(w: Baseline, source: string -> string, seen: string -> string) {
    && w.local == w.announced && w.local in {"", source(w.beacon)}
    && w.observed == w.observedCurrent && w.observed in {"", seen(w.beacon)}
  }

  lemma StationaryTick(run: seq<Input>, source: string -> string, seen: string -> string, k: nat)
    requires Stationary(run, source, seen) && k < |run|
    requires Settled(After(START, run, k).base, source, seen)
    ensures Settled(Sampled(After(START, run, k).base, run[k]), source, seen)
  {
    var w, i := After(START, run, k).base, run[k];
    assert Settled(Switched(w, i), source, seen);
    assert Settled(NoteLocal(Switched(w, i), i.route), source, seen);
  }

  /** A settled tick fires nothing, so it only takes its inputs in. */
  lemma SettledTick(w: Watch, i: Input, source: string -> string, seen: string -> string)
    requires Settled(Sampled(w.base, i), source, seen) && w.registryRetries == 0
    ensures Fires(w, i).None? && Tick(w, i) == w.(base := Sampled(w.base, i))
  {
  }

  lemma {:induction false} StationarySettled(run: seq<Input>, source: string -> string, seen: string -> string, k: nat)
    requires Stationary(run, source, seen) && k <= |run|
    ensures Settled(After(START, run, k).base, source, seen) && After(START, run, k).registryRetries == 0
  {
    hide Tick, Fires, Sampled, Stationary;
    if k > 0 {
      StationarySettled(run, source, seen, k - 1);
      StationaryTick(run, source, seen, k - 1);
      SettledTick(After(START, run, k - 1), run[k - 1], source, seen);
    }
  }

  /** A host that does not move never re-announces, whatever beacon switches, offline samples
      and replies its run holds. */
  lemma {:induction false} StationaryNeverFires(run: seq<Input>, source: string -> string, seen: string -> string, k: nat)
    requires Stationary(run, source, seen) && k < |run|
    ensures Fired(START, run, k).None?
  {
    StationarySettled(run, source, seen, k);
    StationaryTick(run, source, seen, k);
    SettledTick(After(START, run, k), run[k], source, seen);
  }

  // ---------------------------------------------------------------- no move is lost

  predicate Moved(w: Baseline) { w.local != w.announced }

  /** Whether tick i, taken in w, samples the address a: on its route, or on the old one at a switch. */
  predicate Samples(w: Baseline, i: Input, a: string) {
    || (i.route.ok && i.route.ip == a)
    || (i.beacon != w.beacon && i.oldRoute.ok && i.oldRoute.ip == a)
  }

  /** No tick of run[i..j] samples the address announced at i or runs a local recovery. */
  ghost predicate Unresolved(w: Watch, run: seq<Input>, i: nat, j: nat)
    requires i <= j <= |run|
  {
    forall k :: i <= k < j ==>
      && !Samples(After(w, run, k).base, run[k], After(w, run, i).base.announced)
      && Fired(w, run, k) != Some(Local)
  }

  lemma SampledAnnounced(w: Baseline, i: Input)
    requires w.announced == "" ==> w.local == ""
    ensures Sampled(w, i).announced == "" ==> Sampled(w, i).local == ""
  {
    var s := Switched(w, i);
    assert s.announced == "" ==> s.local == "";
  }

  /** The announced address is empty only before the first sample. */
  lemma {:induction false} Announced(run: seq<Input>, k: nat)
    requires k <= |run|
    ensures var w := After(START, run, k).base; w.announced == "" ==> w.local == ""
  {
    if k > 0 {
      Announced(run, k - 1);
      SampledAnnounced(After(START, run, k - 1).base, run[k - 1]);
    }
  }

  lemma MoveKept(w: Baseline, i: Input)
    requires Moved(w) && w.announced != "" && !Samples(w, i, w.announced)
    ensures Moved(Sampled(w, i)) && Sampled(w, i).announced == w.announced
  {
    var s := Switched(w, i);
    assert Moved(s) && s.announced == w.announced;
  }

  /** A move made just before a beacon switch is seen on the old beacon's route and kept across it. */
  lemma SwitchSeesMove(w: Baseline, i: Input)
    requires w.announced != "" && i.beacon != w.beacon && i.oldRoute.ok && i.oldRoute.ip !in {"", w.announced}
    requires !(i.route.ok && i.route.ip == w.announced)
    ensures Moved(Sampled(w, i)) && Sampled(w, i).announced == w.announced
  {
    var s := Switched(w, i);
    assert Moved(s) && s.announced == w.announced;
  }

  /** A pending move outlives offline samples, beacon switches and deferred ticks, and while it
      is pending no other recovery pushes it back. */
  lemma {:induction false} MovePersists(run: seq<Input>, i: nat, j: nat)
    requires i <= j <= |run| && Moved(After(START, run, i).base) && Unresolved(START, run, i, j)
    ensures var u, v := After(START, run, i), After(START, run, j);
            Moved(v.base) && v.base.announced == u.base.announced && v.pace == u.pace
    decreases j
  {
    Announced(run, i);
    if i < j {
      MovePersists(run, i, j - 1);
      MoveKept(After(START, run, j - 1).base, run[j - 1]);
    }
  }

  /** A move pending before tick i is resolved by the first tick with a route at which the gaps that
      hold it back have passed: by then it was announced, or a sample had returned to the address
      already announced. */
  lemma NoMoveLost(run: seq<Input>, i: nat, j: nat)
    requires i <= j < |run| && Moved(After(START, run, i).base)
    requires run[j].route.ok && !HeldBack(After(START, run, i).pace, Local, run[j].now)
    ensures exists k :: i <= k <= j &&
              (Fired(START, run, k) == Some(Local) ||
               Samples(After(START, run, k).base, run[k], After(START, run, i).base.announced))
  {
    if Unresolved(START, run, i, j) && !Samples(After(START, run, j).base, run[j], After(START, run, i).base.announced) {
      MovePersists(run, i, j);
      Announced(run, i);
      MoveKept(After(START, run, j).base, run[j]);
      assert Fired(START, run, j) == Some(Local);
    } else if !Unresolved(START, run, i, j) {
      var k :| i <= k < j && (Samples(After(START, run, k).base, run[k], After(START, run, i).base.announced)
                              || Fired(START, run, k) == Some(Local));
    }
  }

  /** Those gaps have passed at the latest 120 s after the previous local recovery and 10 s after any. */
  lemma GapsPass(p: Pace, now: int)
    requires p.localGap.last.Some? ==> now >= p.localGap.last.value + 120 * SECOND
    requires p.lastRecover.Some? ==> now >= p.lastRecover.value + 10 * SECOND
    ensures !HeldBack(p, Local, now)
  {
    if p.localGap.streak >= 1 {
      CreditPays(p.localGap.streak);
    }
  }

  /** Before that a pending move is held back and no other recovery runs: the tick announces it if
      and only if it has a route and the gaps have passed. */
  lemma PendingMoveFires(w: Watch, i: Input)
    requires Moved(Sampled(w.base, i))
    ensures Fires(w, i) == if i.route.ok && !HeldBack(w.pace, Local, i.now) then Some(Local) else None
  {
  }

  /** A local recovery announces the address of the tick's own sample, ends the pending move, and forgets
      the public address: on another network the next one seen is no change. */
  lemma LocalRecoveryAnnounces(w: Watch, i: Input)
    requires Fires(w, i) == Some(Local)
    ensures var u := Tick(w, i).base;
            && !Moved(u) && u.announced == Sampled(w.base, i).local && u.observed == "" && u.observedCurrent == ""
            && (i.route.ip != "" ==> u.announced == i.route.ip)
  {
  }

  // ---------------------------------------------------------------- a public move

  /** A change of the public address is known and not yet announced. */
  predicate PublicMoved(w: Baseline) { w.observed != "" && w.observedCurrent != w.observed }

  /** The two latest replies are both of the beacon in use and say ip. */
  predicate SayBoth(i: Input, ip: string) {
    && i.latest.Reply? && i.latest.beacon == i.beacon && i.latest.ip == ip
    && i.prev.Reply? && i.prev.beacon == i.beacon && i.prev.ip == ip
  }

  /** A host whose public address a was announced, and whose beacon says b twice, re-registers in that
      tick if it has a route, its own address did not move, and 10 s since any recovery and the gap
      since the last public one have passed; else not. Afterwards b is the announced one. */
  lemma PublicMoveFires(w: Watch, i: Input, b: string)
    requires w.base.observed != "" && b != w.base.observed && SayBoth(i, b) && i.beacon == w.base.beacon
    requires w.base.announced != "" && w.base.local == w.base.announced && (i.route.ok ==> i.route.ip in {"", w.base.local})
    ensures var since, gap := w.pace.lastRecover, w.pace.observedGap;
            Fires(w, i) == Some(Observed) <==>
              && i.route.ok
              && (since.None? || i.now < since.value || i.now >= since.value + 10 * SECOND)
              && (gap.last.None? || i.now < gap.last.value || i.now >= gap.last.value + Cooldown(Observed, gap.streak))
    ensures Fires(w, i) in {None, Some(Observed)}
    ensures Fires(w, i) == Some(Observed) ==> Tick(w, i).base.observed == b && !PublicMoved(Tick(w, i).base)
    ensures Fires(w, i) == None ==> PublicMoved(Tick(w, i).base)
  {
    var s := NoteLocal(Switched(w.base, i), i.route);
    assert s.local == s.announced && s.observed == w.base.observed && s.beacon == i.beacon;
    assert NoteObserved(s, i.latest, i.prev).observedCurrent == b;
  }

  /** What ends a pending public move without announcing it: a beacon switch, or the replies saying the
      announced address again. */
  predicate Forgets(w: Baseline, i: Input) { i.beacon != w.beacon || SayBoth(i, w.observed) }

  lemma PublicKept(w: Baseline, i: Input)
    requires PublicMoved(w) && !Forgets(w, i)
    ensures PublicMoved(Sampled(w, i)) && Sampled(w, i).observed == w.observed && Sampled(w, i).beacon == w.beacon
  {
  }

  lemma PublicTick(w: Watch, i: Input)
    requires PublicMoved(w.base) && !Forgets(w.base, i) && Fires(w, i) !in {Some(Local), Some(Observed)}
    ensures var v := Tick(w, i);
            PublicMoved(v.base) && v.base.observed == w.base.observed && v.base.beacon == w.base.beacon && v.pace == w.pace
  {
    PublicKept(w.base, i);
    hide Sampled;
  }

  ghost predicate PublicUnresolved(w: Watch, run: seq<Input>, i: nat, j: nat)
    requires i <= j <= |run|
  {
    forall k :: i <= k < j ==> !Forgets(After(w, run, k).base, run[k]) && Fired(w, run, k) !in {Some(Local), Some(Observed)}
  }

  /** A pending public move outlives every tick that neither announces it nor ends it, and no registry
      retry pushes it back. */
  lemma {:induction false} PublicMovePersists(w: Watch, run: seq<Input>, i: nat, j: nat)
    requires i <= j <= |run| && PublicMoved(After(w, run, i).base) && PublicUnresolved(w, run, i, j)
    ensures var u, v := After(w, run, i), After(w, run, j);
            PublicMoved(v.base) && v.base.observed == u.base.observed && v.base.beacon == u.base.beacon && v.pace == u.pace
    decreases j
  {
    hide Tick, Fires, PublicMoved;
    if i < j {
      PublicMovePersists(w, run, i, j - 1);
      PublicTick(After(w, run, j - 1), run[j - 1]);
    }
  }

  lemma PublicDue(w: Watch, i: Input)
    requires PublicMoved(w.base) && !Forgets(w.base, i) && i.route.ok && !HeldBack(w.pace, Observed, i.now)
    ensures Fires(w, i) == Some(Observed) || Moved(Sampled(w.base, i))
  {
    PublicKept(w.base, i);
    hide Sampled;
  }

  /** No public move is lost: by the first tick with a route once its gaps have passed it was announced,
      or ended, unless a move of the host's own address is then pending, which comes first. */
  lemma NoPublicMoveLost(w: Watch, run: seq<Input>, i: nat, j: nat)
    requires i <= j < |run| && PublicMoved(After(w, run, i).base)
    requires run[j].route.ok && !HeldBack(After(w, run, i).pace, Observed, run[j].now)
    ensures || Moved(Sampled(After(w, run, j).base, run[j]))
            || exists k :: i <= k <= j && (Fired(w, run, k) in {Some(Local), Some(Observed)} || Forgets(After(w, run, k).base, run[k]))
  {
    hide Tick, Fires, PublicMoved, Sampled, Forgets;
    if PublicUnresolved(w, run, i, j) {
      PublicMovePersists(w, run, i, j);
      if !Forgets(After(w, run, j).base, run[j]) {
        PublicDue(After(w, run, j), run[j]);
      }
    } else {
      var k :| i <= k < j && (Forgets(After(w, run, k).base, run[k]) || Fired(w, run, k) in {Some(Local), Some(Observed)});
    }
  }

  /** ... at most an hour after the previous public one and 10 s after any. */
  lemma PublicGapsPass(p: Pace, now: int)
    requires p.observedGap.last.Some? ==> now >= p.observedGap.last.value + 60 * MINUTE
    requires p.lastRecover.Some? ==> now >= p.lastRecover.value + 10 * SECOND
    ensures !HeldBack(p, Observed, now)
  {
    assert Cooldown(Observed, p.observedGap.streak) <= 60 * MINUTE;
  }

  // ---------------------------------------------------------------- the gaps between recoveries

  lemma GapStep(w: Watch, i: Input, r: Reason)
    requires r != Registry
    ensures Fires(w, i) != Some(r) ==> GapFor(Tick(w, i).pace, r) == GapFor(w.pace, r)
    ensures Fires(w, i) == Some(r) ==>
              var b, c := GapFor(w.pace, r), GapFor(Tick(w, i).pace, r);
              && c.last == Some(i.now)
              && c.streak == (if b.last.Some? && i.now >= b.last.value + Quiet(r) then 1 else b.streak + 1)
              && (b.last.None? || i.now < b.last.value || i.now >= b.last.value + Cooldown(r, b.streak))
  {
  }

  lemma {:induction false} GapKept(w: Watch, run: seq<Input>, k: nat, m: nat, r: Reason)
    requires k <= m <= |run| && r != Registry && forall q :: k <= q < m ==> Fired(w, run, q) != Some(r)
    ensures GapFor(After(w, run, m).pace, r) == GapFor(After(w, run, k).pace, r)
    decreases m
  {
    hide Tick, Fires;
    if k < m {
      GapKept(w, run, k, m - 1, r);
      assert Fired(w, run, m - 1) != Some(r);
      GapStep(After(w, run, m - 1), run[m - 1], r);
    }
  }

  /** Two local (or two public) recoveries in a row: the second comes at least the current gap after the
      first, and the streak grows by one unless a quiet period lay between them. */
  lemma GapsBackOff(w: Watch, run: seq<Input>, k: nat, m: nat, r: Reason)
    requires k < m < |run| && ClockForward(run) && r != Registry && Fired(w, run, k) == Some(r) && Fired(w, run, m) == Some(r)
    requires forall q :: k < q < m ==> Fired(w, run, q) != Some(r)
    ensures var streak, apart := GapFor(After(w, run, k + 1).pace, r).streak, run[m].now - run[k].now;
            && streak >= 1 && apart >= Cooldown(r, streak)
            && GapFor(After(w, run, m + 1).pace, r).streak == if apart >= Quiet(r) then 1 else streak + 1
  {
    hide Tick, Fires, Cooldown;
    GapStep(After(w, run, k), run[k], r);
    GapKept(w, run, k + 1, m, r);
    GapStep(After(w, run, m), run[m], r);
  }

  /** The gaps, in seconds: 10, 20, 40, 80, 120 for the host's own address, 60, 120, ... 3600 for its
      public one. */
  lemma GapSchedule()
    ensures Cooldown(Local, 1) == 10 * SECOND && Cooldown(Local, 2) == 20 * SECOND && Cooldown(Local, 3) == 40 * SECOND
    ensures Cooldown(Local, 4) == 80 * SECOND && Cooldown(Local, 5) == 120 * SECOND
    ensures Cooldown(Observed, 1) == 60 * SECOND && Cooldown(Observed, 2) == 120 * SECOND
    ensures Cooldown(Observed, 6) == 1920 * SECOND && Cooldown(Observed, 7) == 3600 * SECOND
    ensures Quiet(Local) == 600 * SECOND && Quiet(Observed) == 7200 * SECOND
  {
    assert Pow2(0) == 1 && Pow2(1) == 2 && Pow2(2) == 4 && Pow2(3) == 8 && Pow2(4) == 16;
    assert Pow2(5) == 32 && Pow2(6) == 64;
  }

  // ---------------------------------------------------------------- registry retries

  /** Registry retries at ticks i <= k < j. */
  function RetryCount(w: Watch, run: seq<Input>, i: nat, j: nat): nat
    requires i <= j <= |run|
    decreases j
  {
    if i == j then 0
    else RetryCount(w, run, i, j - 1) + if Fired(w, run, j - 1) == Some(Registry) then 1 else 0
  }

  /** A recovery whose registration fails leaves three retries, one that succeeds none; a retry uses one
      up. */
  lemma RetriesLeft(w: Watch, i: Input)
    ensures var left := Tick(w, i).registryRetries;
            match Fires(w, i)
            case None => left == w.registryRetries
            case Some(Registry) => left == (if i.registryOK then 0 else w.registryRetries - 1) && w.registryRetries > 0
            case Some(_) => left == if i.registryOK then 0 else 3
  {
    hide Sampled;
  }

  /** With nothing else pending, a retry that is left runs at the first tick with a route once its gaps
      have passed. */
  lemma RetryRuns(w: Watch, i: Input)
    requires w.registryRetries > 0 && !Moved(Sampled(w.base, i)) && !PublicMoved(Sampled(w.base, i))
    ensures Fires(w, i) == if i.route.ok && !HeldBack(w.pace, Registry, i.now) then Some(Registry) else None
  {
    hide Sampled;
  }

  /** The first retry may run 10 s after the recovery whose registration failed, the next ones 20, 40, ...
      s after one another. */
  lemma RetriesBackOff(w: Watch, i: Input, now: int)
    requires Fires(w, i).Some? && now >= i.now
    ensures var p := Tick(w, i).pace;
            && p.registryGap.last == Some(i.now)
            && (Fires(w, i) != Some(Registry) ==> (HeldBack(p, Registry, now) <==> now < i.now + 10 * SECOND))
            && (Fires(w, i) == Some(Registry) ==>
                  var b := w.pace.registryGap;
                  p.registryGap.streak == if b.last.Some? && i.now >= b.last.value + 600 * SECOND then 1 else b.streak + 1)
  {
    hide Sampled;
    assert Pow2(0) == 1 && Cooldown(Registry, 1) == 10 * SECOND;
  }

  /** So between two recoveries for a move there are at most three retries. */
  lemma {:induction false} AtMostThreeRetries(w: Watch, run: seq<Input>, i: nat, j: nat)
    requires i <= j <= |run| && 0 <= w.registryRetries <= 3
    requires forall k :: i <= k < j ==> Fired(w, run, k) in {None, Some(Registry)}
    ensures 0 <= After(w, run, j).registryRetries
    ensures RetryCount(w, run, i, j) + After(w, run, j).registryRetries <= After(w, run, i).registryRetries <= 3
    decreases j
  {
    hide Tick, Fires;
    if i < j {
      AtMostThreeRetries(w, run, i, j - 1);
      RetriesLeft(After(w, run, j - 1), run[j - 1]);
    } else {
      RetriesInRange(w, run, i);
    }
  }

  lemma {:induction false} RetriesInRange(w: Watch, run: seq<Input>, k: nat)
    requires k <= |run| && 0 <= w.registryRetries <= 3
    ensures 0 <= After(w, run, k).registryRetries <= 3
  {
    hide Tick, Fires;
    if k > 0 {
      RetriesInRange(w, run, k - 1);
      RetriesLeft(After(w, run, k - 1), run[k - 1]);
    }
  }

  // ---------------------------------------------------------------- confirmations

  /** Whether tick i, taken in w, asks the beacon to confirm a reply. */
  predicate Confirms(w: Watch, i: Input) {
    var u := NoteObserved(NoteLocal(Switched(w.base, i), i.route), i.latest, i.prev);
    Sampled(w.base, i) != u
  }

  /** A lone reply with a new public address is confirmed in the tick that sees it, if the host has a
      route, that reply was not asked about, and 30 s have passed since the last confirmation. */
  lemma LoneReplyConfirmed(w: Watch, i: Input)
    requires i.beacon == w.base.beacon && i.route.ok && i.latest.Reply? && i.latest.beacon == i.beacon
    requires i.prev == NoReply && i.latest.ip != w.base.observedCurrent && w.base.confirmAskedFor != Some(i.latest.at)
    requires w.base.lastConfirm.None? || i.now >= w.base.lastConfirm.value + 30 * SECOND
    ensures Sampled(w.base, i).lastConfirm == Some(i.now) && Sampled(w.base, i).confirmAskedFor == Some(i.latest.at)
  {
  }

  lemma ConfirmStep(w: Watch, i: Input)
    requires i.beacon == w.base.beacon
    ensures var a, b := w.base, Tick(w, i).base;
            && b.beacon == a.beacon
            && (Confirms(w, i) ==>
                  && b.lastConfirm == Some(i.now) && b.confirmAskedFor == Some(i.latest.at) && a.confirmAskedFor != Some(i.latest.at)
                  && (a.lastConfirm.None? || i.now < a.lastConfirm.value || i.now >= a.lastConfirm.value + 30 * SECOND))
            && (!i.route.ok ==> !Confirms(w, i))
            && (!Confirms(w, i) ==> b.lastConfirm == a.lastConfirm && b.confirmAskedFor == a.confirmAskedFor)
  {
  }

  lemma {:induction false} ConfirmTracks(w: Watch, run: seq<Input>, k: nat, m: nat)
    requires k < m <= |run| && ClockForward(run) && Confirms(After(w, run, k), run[k])
    requires forall q :: k <= q < m ==> run[q].beacon == After(w, run, k).base.beacon
    ensures var b := After(w, run, m).base;
            b.beacon == After(w, run, k).base.beacon && b.lastConfirm.Some? && run[k].now <= b.lastConfirm.value <= run[m - 1].now
    decreases m
  {
    hide Tick, Confirms;
    if k < m - 1 {
      ConfirmTracks(w, run, k, m - 1);
    }
    ConfirmStep(After(w, run, m - 1), run[m - 1]);
  }

  /** While the beacon stays the same, two confirmations are at least 30 s apart. */
  lemma ConfirmsSpaced(w: Watch, run: seq<Input>, k: nat, m: nat)
    requires k < m < |run| && ClockForward(run) && Confirms(After(w, run, k), run[k]) && Confirms(After(w, run, m), run[m])
    requires forall q :: k <= q <= m ==> run[q].beacon == After(w, run, k).base.beacon
    ensures run[m].now - run[k].now >= 30 * SECOND
  {
    hide Tick, Confirms;
    ConfirmTracks(w, run, k, m);
    ConfirmStep(After(w, run, m), run[m]);
  }
}
