/** The relayed-handshake poll scheduler: pkg/daemon/handshakepoll.go.

    Every method runs under one mutex, so a daemon's history is a sequence of atomic events.
    `Next` says what each event may do to the scheduler, class `PollSched` is the imperative
    form proved to take only such steps, and the laws are about every history (`History`). */
module HandshakePoll {
  import opened Common

  const FAST_WINDOW: int := 2 * MINUTE
  const AUTO_REARM: int := 10 * MINUTE
  const MAX_WAITING: nat := 64
  const ON_DEMAND_GAP: int := 2 * SECOND
  const POKE_BURST: int := 3
  const POKE_REFILL: int := 5 * SECOND

  type Peer = nat

  /** A peer we sent a request to: when fast polling ends (None once answered), and when an
      automatic request may open another window. */
  datatype Wait = Wait(until: Option<int>, rearm: int)

  /** The poke bucket. fill is None until the first poke. */
  datatype Bucket = Bucket(tokens: int, fill: Option<int>)

  /** The scheduler. running is the number of the poll in flight; each poll has its own. */
  datatype Sched = Sched(waiting: map<Peer, Wait>, bucket: Bucket, pokeDue: bool,
                         lastPoll: Option<int>, running: Option<nat>, polls: nat, closed: bool)

  const FRESH := Sched(map[], Bucket(POKE_BURST, None), false, None, None, 0, false)

  datatype Event =
    | RequestSent(now: int, peer: Peer, explicit: bool)
    | Answered(now: int, peer: Peer)
    | Pruned(now: int)
    | Settled(now: int, peers: set<Peer>)
    | Begin(now: int, gap: int)
    | End(now: int)
    | Close(now: int)
    | Poke(now: int)
    | NoRegistry(now: int)

  // ---------------------------------------------------------------- the waiting table

  predicate Open(w: Wait, now: int) { w.until.Some? && now < w.until.value }

  predicate Forgettable(w: Wait, now: int) { !Open(w, now) && now >= w.rearm }

  function Prune(m: map<Peer, Wait>, now: int): map<Peer, Wait> {
    map p | p in m && !Forgettable(m[p], now) :: m[p]
  }

  /** The peers whose window is closed and whose hold-off ends soonest. */
  predicate Evictable(m: map<Peer, Wait>, now: int, p: Peer) {
    p in m && !Open(m[p], now) && forall q :: q in m && !Open(m[q], now) ==> m[p].rearm <= m[q].rearm
  }

  /** Making room for one more peer in a full table: forget what may be forgotten, then let one
      closed peer go, if there is one. */
  ghost predicate MakesRoom(m: map<Peer, Wait>, now: int, r: map<Peer, Wait>) {
    var kept := Prune(m, now);
    if |kept| < MAX_WAITING then r == kept
    else || (exists p :: Evictable(kept, now, p) && r == kept - {p})
         || ((forall p :: p in kept ==> Open(kept[p], now)) && r == kept)
  }

  function Window(now: int): Wait { Wait(Some(now + FAST_WINDOW), now + AUTO_REARM) }

  predicate HeldOff(m: map<Peer, Wait>, now: int, peer: Peer, explicit: bool) {
    peer in m && (Open(m[peer], now) || (!explicit && now < m[peer].rearm))
  }

  ghost predicate Requests(m: map<Peer, Wait>, now: int, peer: Peer, explicit: bool, r: map<Peer, Wait>) {
    if HeldOff(m, now, peer, explicit) then r == m
    else if peer in m || |m| < MAX_WAITING then r == m[peer := Window(now)]
    else exists room: map<Peer, Wait> :: MakesRoom(m, now, room)
           && r == if |room| < MAX_WAITING then room[peer := Window(now)] else room
  }

  function CloseWindows(m: map<Peer, Wait>, peers: set<Peer>): map<Peer, Wait> {
    map p | p in m :: if p in peers then m[p].(until := None) else m[p]
  }

  // ---------------------------------------------------------------- pokes

  function Refilled(b: Bucket, now: int): Bucket {
    var fill := if b.fill.None? then now else b.fill.value;
    var n := (now - fill) / POKE_REFILL;
    if n <= 0 then Bucket(b.tokens, Some(fill))
    else if b.tokens + n >= POKE_BURST then Bucket(POKE_BURST, Some(now))
    else Bucket(b.tokens + n, Some(fill + n * POKE_REFILL))
  }

  predicate Accepts(s: Sched, e: Event) {
    e.Poke? && !s.pokeDue && Refilled(s.bucket, e.now).tokens > 0
  }

  function Poked(s: Sched, now: int): Sched {
    if s.pokeDue then s
    else
      var b := Refilled(s.bucket, now);
      if b.tokens <= 0 then s.(bucket := b)
      else s.(bucket := b.(tokens := b.tokens - 1), pokeDue := true)
  }

  // ---------------------------------------------------------------- polls

  predicate Spaced(s: Sched, now: int, gap: int) { s.lastPoll.None? || now - s.lastPoll.value >= gap }

  predicate Starts(s: Sched, e: Event) {
    e.Begin? && s.running.None? && !s.closed && Spaced(s, e.now, e.gap)
  }

  function Begun(s: Sched, e: Event): Sched
    requires e.Begin?
  {
    if Starts(s, e)
    then s.(lastPoll := Some(e.now), pokeDue := false, running := Some(s.polls), polls := s.polls + 1)
    else s
  }

  ghost predicate Next(s: Sched, e: Event, t: Sched) {
    match e
    case RequestSent(now, peer, explicit) =>
      t == s.(waiting := t.waiting) && Requests(s.waiting, now, peer, explicit, t.waiting)
    case Answered(_, peer) => t == s.(waiting := CloseWindows(s.waiting, {peer}))
    case Pruned(now) => t == s.(waiting := Prune(s.waiting, now))
    case Settled(_, peers) => t == s.(waiting := CloseWindows(s.waiting, peers))
    case Begin(_, _) => t == Begun(s, e)
    case End(_) => t == s.(running := None)
    case Close(_) => t == s.(closed := true)
    case Poke(now) => t == Poked(s, now)
    case NoRegistry(_) => t == s.(pokeDue := false)
  }

  // ---------------------------------------------------------------- the imperative scheduler

  class PollSched {
    var waiting: map<Peer, Wait>
    var pokeDue: bool
    var pokeTokens: int
    var pokeFill: Option<int>
    var lastPoll: Option<int>
    var running: Option<nat>
    var polls: nat
    var closed: bool

    ghost function View(): Sched
      reads this
    {
      Sched(waiting, Bucket(pokeTokens, pokeFill), pokeDue, lastPoll, running, polls, closed)
    }

    constructor ()
      ensures View() == FRESH
    {
      waiting, pokeDue, pokeTokens, pokeFill := map[], false, POKE_BURST, None;
      lastPoll, running, polls, closed := None, None, 0, false;
    }

    method PruneTable(now: int)
      modifies `waiting
      ensures Next(old(View()), Pruned(now), View())
    {
      var todo := waiting.Keys;
      ghost var m := waiting;
      while todo != {}
        invariant todo <= waiting.Keys
        invariant waiting.Keys <= m.Keys && forall p :: p in waiting ==> waiting[p] == m[p]
        invariant forall p :: p in m ==> (p in waiting <==> p in todo || !Forgettable(m[p], now))
        decreases todo
      {
        var p :| p in todo;
        todo := todo - {p};
        if Forgettable(waiting[p], now) {
          waiting := waiting - {p};
        }
      }
      assert waiting == Prune(m, now);
    }

    /** Scans for the closed peer whose hold-off ends soonest; iteration order breaks ties. */
    method OldestClosed(now: int) returns (found: Option<Peer>)
      ensures found.Some? ==> Evictable(waiting, now, found.value)
      ensures found.None? ==> forall p :: p in waiting ==> Open(waiting[p], now)
    {
      found := None;
      var todo := waiting.Keys;
      while todo != {}
        invariant todo <= waiting.Keys
        invariant found.None? ==> forall p :: p in waiting && p !in todo ==> Open(waiting[p], now)
        invariant found.Some? ==> found.value in waiting && !Open(waiting[found.value], now)
        invariant found.Some? ==> forall p :: p in waiting && p !in todo && !Open(waiting[p], now)
                                   ==> waiting[found.value].rearm <= waiting[p].rearm
        decreases todo
      {
        var p :| p in todo;
        todo := todo - {p};
        if !Open(waiting[p], now) && (found.None? || waiting[p].rearm < waiting[found.value].rearm) {
          found := Some(p);
        }
      }
    }

    method MakeRoom(now: int)
      modifies `waiting
      ensures MakesRoom(old(waiting), now, waiting)
    {
      PruneTable(now);
      if |waiting| >= MAX_WAITING {
        var oldest := OldestClosed(now);
        if oldest.Some? {
          waiting := waiting - {oldest.value};
        }
      }
    }

    method SendRequest(now: int, peer: Peer, explicit: bool)
      modifies `waiting
      ensures Next(old(View()), RequestSent(now, peer, explicit), View())
    {
      hide MakesRoom;
      if HeldOff(waiting, now, peer, explicit) { return; }
      if peer !in waiting && |waiting| >= MAX_WAITING {
        MakeRoom(now);
        if |waiting| >= MAX_WAITING { return; }
      }
      waiting := waiting[peer := Window(now)];
    }

    method Answer(now: int, peer: Peer)
      modifies `waiting
      ensures Next(old(View()), Event.Answered(now, peer), View())
    {
      if peer in waiting {
        waiting := waiting[peer := waiting[peer].(until := None)];
      }
      assert waiting == CloseWindows(old(waiting), {peer});
    }

    /** The first half of fastActive: whether a peer not trusted is still in its window, and the trusted
        ones that are. */
    method ScanOpen(now: int, trusted: set<Peer>) returns (active: bool, settled: set<Peer>)
      modifies `waiting
      ensures Next(old(View()), Pruned(now), View())
      ensures active <==> exists p :: p in old(waiting) && Open(old(waiting)[p], now) && p !in trusted
      ensures forall p :: p in settled <==> p in old(waiting) && Open(old(waiting)[p], now) && p in trusted
    {
      PruneTable(now);
      active, settled := false, {};
      var todo := waiting.Keys;
      while todo != {}
        invariant todo <= waiting.Keys && waiting == Prune(old(waiting), now)
        invariant active <==> exists p :: p in waiting && p !in todo && Open(waiting[p], now) && p !in trusted
        invariant forall p :: p in settled <==> p in waiting && p !in todo && Open(waiting[p], now) && p in trusted
        decreases todo
      {
        var p :| p in todo;
        todo := todo - {p};
        if Open(waiting[p], now) {
          if p in trusted {
            settled := settled + {p};
          } else {
            active := true;
          }
        }
      }
    }

    /** The second half of fastActive: the open peers found trusted are settled. */
    method Settle(now: int, peers: set<Peer>)
      modifies `waiting
      ensures Next(old(View()), Event.Settled(now, peers), View())
    {
      var todo := peers;
      while todo != {}
        invariant todo <= peers && waiting == CloseWindows(old(waiting), peers - todo)
        decreases todo
      {
        var p :| p in todo;
        todo := todo - {p};
        if p in waiting {
          waiting := waiting[p := waiting[p].(until := None)];
        }
      }
    }

    /** A trigger: the poll covering it (None when one started within gap or none may start), and
        whether the caller must run it. */
    method BeginPoll(now: int, gap: int) returns (done: Option<nat>, start: bool)
      modifies this
      ensures Next(old(View()), Begin(now, gap), View())
      ensures start == Starts(old(View()), Begin(now, gap))
      ensures done == if old(running).Some? then old(running) else if start then running else None
    {
      if running.Some? { return running, false; }
      if closed { return None, false; }
      if lastPoll.Some? && now - lastPoll.value < gap { return None, false; }
      lastPoll := Some(now);
      pokeDue := false;
      running := Some(polls);
      polls := polls + 1;
      return running, true;
    }

    method EndPoll(now: int)
      modifies `running
      ensures Next(old(View()), End(now), View())
    {
      if running.Some? {
        running := None;
      }
    }

    /** The first half of shutdown: no poll starts after it. It returns the poll to wait for. */
    method CloseDown(now: int) returns (inFlight: Option<nat>)
      modifies `closed
      ensures Next(old(View()), Close(now), View()) && inFlight == running
    {
      closed := true;
      inFlight := running;
    }

    method TakePoke(now: int) returns (wake: bool)
      modifies this
      ensures Next(old(View()), Poke(now), View()) && wake == Accepts(old(View()), Poke(now))
    {
      if pokeDue { return false; }
      if pokeFill.None? {
        pokeFill := Some(now);
      }
      var n := (now - pokeFill.value) / POKE_REFILL;
      if n > 0 {
        pokeTokens := pokeTokens + n;
        if pokeTokens >= POKE_BURST {
          pokeTokens, pokeFill := POKE_BURST, Some(now);
        } else {
          pokeFill := Some(pokeFill.value + n * POKE_REFILL);
        }
      }
      if pokeTokens <= 0 { return false; }
      pokeTokens := pokeTokens - 1;
      pokeDue := true;
      return true;
    }

    /** What the poll loop asks: a poll owed to a poke, and how long it must still wait. With none
        in flight, a poll asked for once that wait is over starts, unless the scheduler is closed. */
    method PokeWait(now: int) returns (due: bool, wait: int)
      ensures due == pokeDue && 0 <= wait
      ensures due && running.None? && !closed ==>
                forall t :: t >= now + wait ==> Starts(View(), Begin(t, 2 * SECOND))
      ensures due && running.None? && wait > 0 ==> !Starts(View(), Begin(now + wait - 1, 2 * SECOND))
    {
      if !pokeDue { return false, 0; }
      if running.Some? { return true, ON_DEMAND_GAP; }
      if lastPoll.None? { return true, 0; }
      wait := ON_DEMAND_GAP - (now - lastPoll.value);
      if wait < 0 {
        wait := 0;
      }
      due := true;
    }
  }

  // ---------------------------------------------------------------- histories

  /** A history: the states ss around the events es, on a clock that does not run backwards. */
  ghost predicate History(ss: seq<Sched>, es: seq<Event>) {
    && |ss| == |es| + 1
    && ss[0] == FRESH
    && (forall k :: 0 <= k < |es| ==> Next(ss[k], es[k], ss[k + 1]))
    && (forall i, j :: 0 <= i < j < |es| ==> es[i].now <= es[j].now)
  }

  // ---------------------------------------------------------------- polls never overlap

  /** After a poll starts at event k, the last start is never before it, and a poll runs until one ends. */
  lemma {:induction false} StartTracked(ss: seq<Sched>, es: seq<Event>, k: nat, m: nat)
    requires History(ss, es) && k < m <= |es| && Starts(ss[k], es[k])
    ensures ss[m].lastPoll.Some? && es[k].now <= ss[m].lastPoll.value <= es[m - 1].now
    ensures (forall q :: k < q < m ==> !es[q].End?) ==> ss[m].running.Some?
    decreases m
  {
    hide Requests, Refilled;
    assert Next(ss[m - 1], es[m - 1], ss[m]);
    if k < m - 1 {
      StartTracked(ss, es, k, m - 1);
      assert es[m - 2].now <= es[m - 1].now;
    }
  }

  /** Two polls never overlap, and a poll claimed with gap g starts at least g after every earlier one. */
  lemma PollsNeverOverlap(ss: seq<Sched>, es: seq<Event>, k: nat, m: nat)
    requires History(ss, es) && k < m < |es|
    requires Starts(ss[k], es[k]) && Starts(ss[m], es[m])
    ensures exists q :: k < q < m && es[q].End?
    ensures es[m].now - es[k].now >= es[m].gap
  {
    StartTracked(ss, es, k, m);
  }

  /** An accepted poke stays owed until a poll starts after it, unless the registry was gone. */
  lemma {:induction false} PokeCovered(ss: seq<Sched>, es: seq<Event>, k: nat, m: nat)
    requires History(ss, es) && k < m <= |es| && Accepts(ss[k], es[k])
    ensures || ss[m].pokeDue
            || exists q :: k < q < m && (Starts(ss[q], es[q]) || es[q].NoRegistry?)
    decreases m
  {
    hide Requests, Refilled;
    assert Next(ss[m - 1], es[m - 1], ss[m]);
    if k < m - 1 {
      PokeCovered(ss, es, k, m - 1);
      if ss[m - 1].pokeDue && !ss[m].pokeDue {
        assert Starts(ss[m - 1], es[m - 1]) || es[m - 1].NoRegistry?;
      }
    }
  }

  lemma {:induction false} NumbersGrow(ss: seq<Sched>, es: seq<Event>, k: nat, m: nat)
    requires History(ss, es) && k <= m <= |es|
    ensures ss[k].polls <= ss[m].polls
    decreases m
  {
    hide Requests, Refilled;
    if k < m {
      NumbersGrow(ss, es, k, m - 1);
      assert Next(ss[m - 1], es[m - 1], ss[m]);
    }
  }

  /** Once a poll ended none is in flight, and one may start as soon as its gap has passed. */
  lemma EndFrees(ss: seq<Sched>, es: seq<Event>, k: nat, now: int, gap: int)
    requires History(ss, es) && k < |es| && es[k].End?
    ensures ss[k + 1].running.None?
    ensures Starts(ss[k + 1], Begin(now, gap)) <==>
              !ss[k].closed && (ss[k].lastPoll.None? || now >= ss[k].lastPoll.value + gap)
  {
    assert Next(ss[k], es[k], ss[k + 1]);
  }

  /** A poke while a poll is owed to an earlier one changes nothing and costs nothing. */
  lemma PokeWhileOwed(ss: seq<Sched>, es: seq<Event>, k: nat)
    requires History(ss, es) && k < |es| && es[k].Poke? && ss[k].pokeDue
    ensures ss[k + 1] == ss[k] && !Accepts(ss[k], es[k])
  {
    assert Next(ss[k], es[k], ss[k + 1]);
  }

  /** One poll settles every poke before it. */
  lemma StartSettlesPokes(ss: seq<Sched>, es: seq<Event>, k: nat)
    requires History(ss, es) && k < |es| && (Starts(ss[k], es[k]) || es[k].NoRegistry?)
    ensures !ss[k + 1].pokeDue
  {
    assert Next(ss[k], es[k], ss[k + 1]);
  }

  /** No poll number is handed out twice, so waiting for one poll is never satisfied by another. */
  lemma PollsHaveNumbers(ss: seq<Sched>, es: seq<Event>, k: nat, m: nat)
    requires History(ss, es) && k < m < |es| && Starts(ss[k], es[k]) && Starts(ss[m], es[m])
    ensures ss[k + 1].running.Some? && ss[m + 1].running.Some?
    ensures ss[k + 1].running.value < ss[m + 1].running.value
  {
    NumbersGrow(ss, es, k + 1, m);
    assert Next(ss[k], es[k], ss[k + 1]) && Next(ss[m], es[m], ss[m + 1]);
  }

  /** The poll in flight is the last one started. */
  lemma {:induction false} RunningIsNewest(ss: seq<Sched>, es: seq<Event>, k: nat)
    requires History(ss, es) && k <= |es|
    ensures ss[k].running.Some? ==> ss[k].running.value + 1 == ss[k].polls
  {
    hide Requests, Refilled;
    if k > 0 {
      RunningIsNewest(ss, es, k - 1);
      assert Next(ss[k - 1], es[k - 1], ss[k]);
    }
  }

  lemma {:induction false} ClosedForGood(ss: seq<Sched>, es: seq<Event>, k: nat, m: nat)
    requires History(ss, es) && k < m <= |es| && es[k].Close?
    ensures ss[m].closed
    ensures ss[m].running in {None, ss[k].running}
    ensures forall j :: k < j <= m && ss[j].running.None? ==> ss[m].running.None?
    decreases m
  {
    hide Requests, Refilled;
    assert Next(ss[m - 1], es[m - 1], ss[m]);
    if k < m - 1 {
      ClosedForGood(ss, es, k, m - 1);
    }
  }

  /** shutdown returns true when the poll it found in flight (if any) is no longer running, at m.
      From then on no poll is running and none ever starts. */
  lemma ShutdownIsFinal(ss: seq<Sched>, es: seq<Event>, k: nat, m: nat, p: nat)
    requires History(ss, es) && k < m <= p <= |es| && es[k].Close?
    requires ss[k].running.None? || ss[m].running != ss[k].running
    ensures ss[p].running.None?
    ensures p < |es| ==> !Starts(ss[p], es[p])
  {
    ClosedForGood(ss, es, k, m);
    ClosedForGood(ss, es, k, p);
  }

  // ---------------------------------------------------------------- the waiting table

  lemma SubmapSmaller(m: map<Peer, Wait>, r: map<Peer, Wait>)
    requires r.Keys <= m.Keys
    ensures |r| <= |m|
  {
    SubsetSmaller(r.Keys, m.Keys);
  }

  lemma {:induction false} SubsetSmaller(a: set<Peer>, b: set<Peer>)
    requires a <= b
    ensures |a| <= |b|
  {
    assert b == a + (b - a);
  }

  /** Making room never takes an open window away, and never grows the table. */
  lemma RoomKeepsOpen(m: map<Peer, Wait>, now: int, room: map<Peer, Wait>)
    requires MakesRoom(m, now, room)
    ensures room.Keys <= m.Keys && (forall p :: p in room ==> room[p] == m[p])
    ensures forall p :: p in m && Open(m[p], now) ==> p in room
    ensures |room| <= |m|
  {
    SubmapSmaller(m, room);
  }

  /** The table never exceeds 64 peers. */
  lemma {:induction false} TableBounded(ss: seq<Sched>, es: seq<Event>, k: nat)
    requires History(ss, es) && k <= |es|
    ensures |ss[k].waiting| <= 64
  {
    if k > 0 {
      TableBounded(ss, es, k - 1);
      var s, e, t := ss[k - 1], es[k - 1], ss[k];
      assert Next(s, e, t);
      TableStep(s, e, t);
    }
  }

  lemma TableStep(s: Sched, e: Event, t: Sched)
    requires Next(s, e, t) && |s.waiting| <= MAX_WAITING
    ensures |t.waiting| <= MAX_WAITING
  {
    hide Refilled, MakesRoom;
    match e {
      case RequestSent(now, peer, explicit) =>
        if !HeldOff(s.waiting, now, peer, explicit) {
          if peer in s.waiting || |s.waiting| < MAX_WAITING {
            GrowsByOne(s.waiting, peer, Window(now));
          } else {
            var room: map<Peer, Wait> :| MakesRoom(s.waiting, now, room)
              && t.waiting == if |room| < MAX_WAITING then room[peer := Window(now)] else room;
            RoomKeepsOpen(s.waiting, now, room);
            GrowsByOne(room, peer, Window(now));
          }
        }
      case Answered(_, _) => SubmapSmaller(s.waiting, t.waiting);
      case Pruned(_) => SubmapSmaller(s.waiting, t.waiting);
      case Settled(_, _) => SubmapSmaller(s.waiting, t.waiting);
      case _ =>
    }
  }

  lemma GrowsByOne(m: map<Peer, Wait>, p: Peer, w: Wait)
    ensures p in m ==> |m[p := w]| == |m|
    ensures p !in m ==> |m[p := w]| == |m| + 1
  {
    assert m[p := w].Keys == m.Keys + {p};
  }

  /** An open fast window is never extended and never evicted: the next event leaves it as it is
      or closes it. */
  lemma OpenWindowKept(s: Sched, e: Event, t: Sched, p: Peer)
    requires Next(s, e, t) && p in s.waiting && Open(s.waiting[p], e.now)
    ensures p in t.waiting && t.waiting[p].until in {None, s.waiting[p].until}
    ensures t.waiting[p].rearm == s.waiting[p].rearm
  {
    hide Refilled, MakesRoom;
    if e.RequestSent? && !HeldOff(s.waiting, e.now, e.peer, e.explicit) && e.peer !in s.waiting && |s.waiting| >= MAX_WAITING {
      var room: map<Peer, Wait> :| MakesRoom(s.waiting, e.now, room)
        && t.waiting == if |room| < MAX_WAITING then room[e.peer := Window(e.now)] else room;
      RoomKeepsOpen(s.waiting, e.now, room);
    }
  }

  /** A request the user made opens a new window even during the hold-off, unless one is open; an
      automatic one does not before the hold-off ends. */
  lemma RequestOpens(s: Sched, t: Sched, now: int, p: Peer, explicit: bool)
    requires Next(s, RequestSent(now, p, explicit), t) && p in s.waiting
    ensures var w := s.waiting[p];
            if (w.until.Some? && now < w.until.value) || (!explicit && now < w.rearm) then t == s
            else t == s.(waiting := s.waiting[p := Wait(Some(now + 2 * MINUTE), now + 10 * MINUTE)])
  {
  }

  /** So does any request to a peer not in the table, while it has room or a peer whose window is over. */
  lemma NewRequestOpens(s: Sched, t: Sched, now: int, p: Peer, explicit: bool)
    requires Next(s, RequestSent(now, p, explicit), t) && p !in s.waiting
    requires |s.waiting| < 64 || exists q :: q in s.waiting && (s.waiting[q].until.None? || now >= s.waiting[q].until.value)
    requires |s.waiting| <= 64
    ensures p in t.waiting && t.waiting[p] == Wait(Some(now + 2 * MINUTE), now + 10 * MINUTE)
  {
    if |s.waiting| >= MAX_WAITING {
      var room: map<Peer, Wait> :| MakesRoom(s.waiting, now, room)
        && t.waiting == if |room| < MAX_WAITING then room[p := Window(now)] else room;
      RoomIsMade(s.waiting, now, room);
    }
  }

  lemma RoomIsMade(m: map<Peer, Wait>, now: int, room: map<Peer, Wait>)
    requires MakesRoom(m, now, room) && |m| <= MAX_WAITING && exists q :: q in m && !Open(m[q], now)
    ensures |room| < MAX_WAITING
  {
    var kept := Prune(m, now);
    SubmapSmaller(m, kept);
    if |kept| >= MAX_WAITING {
      SameSize(kept.Keys, m.Keys);
      assert kept.Keys == m.Keys;
      var q :| q in m && !Open(m[q], now);
      assert q in kept;
      var p :| Evictable(kept, now, p) && room == kept - {p};
      assert room.Keys == kept.Keys - {p};
    }
  }

  lemma SameSize(a: set<Peer>, b: set<Peer>)
    requires a <= b && |a| == |b|
    ensures a == b
  {
    assert b == a + (b - a);
  }

  /** An answer ends the peer's fast polling at once; its hold-off and every other peer stay as they are. */
  lemma AnswerCloses(s: Sched, t: Sched, now: int, p: Peer)
    requires Next(s, Event.Answered(now, p), t)
    ensures t.waiting.Keys == s.waiting.Keys
    ensures p in s.waiting ==> t.waiting[p] == Wait(None, s.waiting[p].rearm)
    ensures forall q :: q in s.waiting && q != p ==> t.waiting[q] == s.waiting[q]
  {
  }

  /** Pruning forgets exactly the peers whose window and hold-off are both over. */
  lemma PruneForgets(s: Sched, t: Sched, now: int, p: Peer)
    requires Next(s, Pruned(now), t) && p in s.waiting
    ensures var w := s.waiting[p];
            if (w.until.Some? && now < w.until.value) || now < w.rearm then p in t.waiting && t.waiting[p] == w else p !in t.waiting
  {
  }

  /** Event e opens a fast window for p. */
  ghost predicate Opens(s: Sched, e: Event, t: Sched, p: Peer) {
    && e.RequestSent? && e.peer == p && !HeldOff(s.waiting, e.now, p, e.explicit)
    && p in t.waiting && t.waiting[p] == Window(e.now)
  }

  /** Event e removes p while its hold-off still runs: the eviction from a full table. */
  predicate Evicts(s: Sched, e: Event, t: Sched, p: Peer) {
    p in s.waiting && e.now < s.waiting[p].rearm && p !in t.waiting
  }

  /** The peer evicted is the one whose hold-off ends soonest: every closed peer that stays ends later. */
  lemma EvictsSoonest(s: Sched, e: Event, t: Sched, p: Peer, q: Peer)
    requires Next(s, e, t) && e.RequestSent? && Evicts(s, e, t, p)
    requires q in s.waiting && q in t.waiting && q != e.peer && (s.waiting[q].until.None? || e.now >= s.waiting[q].until.value)
    ensures s.waiting[p].rearm <= s.waiting[q].rearm
  {
    hide MakesRoom;
    var room: map<Peer, Wait> :| MakesRoom(s.waiting, e.now, room)
      && t.waiting == if |room| < MAX_WAITING then room[e.peer := Window(e.now)] else room;
    RoomFromSoonest(s.waiting, e.now, room, p, q);
  }

  lemma RoomFromSoonest(m: map<Peer, Wait>, now: int, room: map<Peer, Wait>, p: Peer, q: Peer)
    requires MakesRoom(m, now, room) && p in m && now < m[p].rearm && p !in room && q in room && q in m && !Open(m[q], now)
    ensures m[p].rearm <= m[q].rearm
  {
  }

  /** A table entry was opened by a request exactly AUTO_REARM before its hold-off ends, and its
      window, while not answered, ends FAST_WINDOW after that request. */
  lemma {:induction false} WindowOrigin(ss: seq<Sched>, es: seq<Event>, k: nat, p: Peer)
    returns (o: nat)
    requires History(ss, es) && k <= |es| && p in ss[k].waiting
    ensures o < k && Opens(ss[o], es[o], ss[o + 1], p)
    ensures ss[k].waiting[p].rearm == es[o].now + AUTO_REARM
    ensures ss[k].waiting[p].until in {None, Some(es[o].now + FAST_WINDOW)}
  {
    var s, e, t := ss[k - 1], es[k - 1], ss[k];
    assert Next(s, e, t);
    EntryStep(s, e, t, p);
    if Opens(s, e, t, p) {
      o := k - 1;
    } else {
      o := WindowOrigin(ss, es, k - 1, p);
    }
  }

  lemma EntryStep(s: Sched, e: Event, t: Sched, p: Peer)
    requires Next(s, e, t)
    ensures p in t.waiting ==>
              || Opens(s, e, t, p)
              || (p in s.waiting && t.waiting[p].rearm == s.waiting[p].rearm
                  && t.waiting[p].until in {None, s.waiting[p].until})
    ensures p in s.waiting && p !in t.waiting ==>
              Evicts(s, e, t, p) || e.now >= s.waiting[p].rearm
  {
    hide Refilled, MakesRoom;
    if e.RequestSent? && !HeldOff(s.waiting, e.now, e.peer, e.explicit) && e.peer !in s.waiting && |s.waiting| >= MAX_WAITING {
      var room: map<Peer, Wait> :| MakesRoom(s.waiting, e.now, room)
        && t.waiting == if |room| < MAX_WAITING then room[e.peer := Window(e.now)] else room;
      RoomKeepsOpen(s.waiting, e.now, room);
    }
  }

  /** A window not answered is open exactly until two minutes after its request, eight before the end of
      its hold-off. */
  lemma OpenIsRecent(ss: seq<Sched>, es: seq<Event>, k: nat, p: Peer, now: int)
    requires History(ss, es) && k <= |es| && p in ss[k].waiting
    ensures Open(ss[k].waiting[p], now) <==>
              ss[k].waiting[p].until.Some? && now < ss[k].waiting[p].rearm - 8 * MINUTE
  {
    var o := WindowOrigin(ss, es, k, p);
  }

  /** A fast window is open for at most two minutes: when p is open at event k, the request that
      opened it came less than FAST_WINDOW before. */
  lemma WindowsAreShort(ss: seq<Sched>, es: seq<Event>, k: nat, p: Peer)
    requires History(ss, es) && k < |es| && p in ss[k].waiting && Open(ss[k].waiting[p], es[k].now)
    ensures exists o :: 0 <= o < k && Opens(ss[o], es[o], ss[o + 1], p) && es[k].now - es[o].now < FAST_WINDOW
  {
    var o := WindowOrigin(ss, es, k, p);
  }

  lemma {:induction false} HoldOffKept(ss: seq<Sched>, es: seq<Event>, k: nat, m: nat, p: Peer)
    requires History(ss, es) && k < m <= |es| && Opens(ss[k], es[k], ss[k + 1], p)
    requires forall q :: k < q < m ==> !Evicts(ss[q], es[q], ss[q + 1], p)
    ensures || es[m - 1].now >= es[k].now + AUTO_REARM
            || (p in ss[m].waiting && ss[m].waiting[p].rearm >= es[k].now + AUTO_REARM)
    decreases m
  {
    hide Next, Opens, Evicts;
    if k < m - 1 {
      HoldOffKept(ss, es, k, m - 1, p);
      var s, e, t := ss[m - 1], es[m - 1], ss[m];
      assert Next(s, e, t) by { assert Next(ss[m - 1], es[m - 1], ss[m - 1 + 1]); }
      EntryStep(s, e, t, p);
      OpensSets(s, e, t, p);
      assert !Evicts(ss[m - 1], es[m - 1], ss[m - 1 + 1], p);
      assert es[k].now <= es[m - 1].now && es[m - 2].now <= es[m - 1].now;
    } else {
      OpensSets(ss[k], es[k], ss[k + 1], p);
    }
  }

  lemma OpensSets(s: Sched, e: Event, t: Sched, p: Peer)
    ensures Opens(s, e, t, p) ==> p in t.waiting && t.waiting[p].rearm == e.now + AUTO_REARM
  {
  }

  /** For a peer not evicted in between, a window opened by an automatic request starts at least
      ten minutes after the previous one, however that one was opened. */
  lemma AutomaticWindowsApart(ss: seq<Sched>, es: seq<Event>, k: nat, m: nat, p: Peer)
    requires History(ss, es) && k < m < |es|
    requires Opens(ss[k], es[k], ss[k + 1], p)
    requires Opens(ss[m], es[m], ss[m + 1], p) && !es[m].explicit
    requires forall q :: k < q < m ==> !Evicts(ss[q], es[q], ss[q + 1], p)
    ensures es[m].now - es[k].now >= AUTO_REARM
  {
    HoldOffKept(ss, es, k, m, p);
  }

  // ---------------------------------------------------------------- the token bucket

  /** Pokes accepted at events i <= k < j. */
  ghost function AcceptCount(ss: seq<Sched>, es: seq<Event>, i: nat, j: nat): nat
    requires i <= j <= |es| < |ss|
    decreases j
  {
    if i == j then 0
    else AcceptCount(ss, es, i, j - 1) + if Accepts(ss[j - 1], es[j - 1]) then 1 else 0
  }

  /** What the bucket is worth at now, counted in time: refill earned but not yet credited
      included, capped at a full bucket. */
  function Worth(b: Bucket, now: int): int {
    if b.fill.None? then b.tokens * POKE_REFILL
    else Min(POKE_BURST * POKE_REFILL, b.tokens * POKE_REFILL + now - b.fill.value)
  }

  predicate BucketOk(b: Bucket, now: int) {
    && 0 <= b.tokens <= POKE_BURST
    && (b.fill.Some? ==> b.fill.value <= now && b.tokens < POKE_BURST)
    && (b.fill.None? ==> b.tokens == POKE_BURST)
  }

  /** An accepted poke costs exactly one refill period's worth; nothing else changes the worth. */
  lemma PokeCost(b: Bucket, now: int)
    requires BucketOk(b, now)
    ensures var r := Refilled(b, now);
            && 0 <= r.tokens <= POKE_BURST && r.fill.Some? && r.fill.value <= now
            && Worth(r, now) == Worth(b, now) && (r.tokens > 0 <==> Worth(b, now) >= POKE_REFILL)
            && (r.tokens > 0 ==>
                  BucketOk(r.(tokens := r.tokens - 1), now)
                  && Worth(r.(tokens := r.tokens - 1), now) == Worth(b, now) - POKE_REFILL)
            && (r.tokens == 0 ==> BucketOk(r, now))
  {
  }

  lemma WorthGrows(b: Bucket, now: int, later: int)
    requires BucketOk(b, now) && now <= later
    ensures BucketOk(b, later) && 0 <= Worth(b, later) <= Worth(b, now) + later - now
    ensures Worth(b, later) <= POKE_BURST * POKE_REFILL
  {
  }

  lemma BucketStep(s: Sched, e: Event, t: Sched)
    requires Next(s, e, t) && BucketOk(s.bucket, e.now)
    ensures BucketOk(t.bucket, e.now)
    ensures Worth(t.bucket, e.now) == Worth(s.bucket, e.now) - if Accepts(s, e) then POKE_REFILL else 0
  {
    hide Requests, Refilled, Worth;
    if e.Poke? {
      PokeCost(s.bucket, e.now);
    }
  }

  lemma {:induction false} BucketAlways(ss: seq<Sched>, es: seq<Event>, k: nat)
    requires History(ss, es) && k < |es|
    ensures BucketOk(ss[k].bucket, es[k].now)
  {
    hide Next;
    if k > 0 {
      BucketAlways(ss, es, k - 1);
      assert Next(ss[k - 1], es[k - 1], ss[k - 1 + 1]);
      BucketStep(ss[k - 1], es[k - 1], ss[k]);
      assert es[k - 1].now <= es[k].now;
      WorthGrows(ss[k].bucket, es[k - 1].now, es[k].now);
    }
  }

  lemma {:induction false} AcceptsPaid(ss: seq<Sched>, es: seq<Event>, i: nat, j: nat)
    requires History(ss, es) && i < j <= |es|
    ensures BucketOk(ss[j].bucket, es[j - 1].now)
    ensures POKE_REFILL * AcceptCount(ss, es, i, j)
              <= Worth(ss[i].bucket, es[i].now) - Worth(ss[j].bucket, es[j - 1].now) + es[j - 1].now - es[i].now
    decreases j
  {
    hide Next, Worth, Refilled, Accepts;
    assert Next(ss[j - 1], es[j - 1], ss[j - 1 + 1]);
    BucketAlways(ss, es, j - 1);
    BucketStep(ss[j - 1], es[j - 1], ss[j]);
    if i < j - 1 {
      AcceptsPaid(ss, es, i, j - 1);
      assert es[j - 2].now <= es[j - 1].now;
      WorthGrows(ss[j - 1].bucket, es[j - 2].now, es[j - 1].now);
    }
  }

  lemma Shares(n: int, span: int)
    requires POKE_REFILL * n <= POKE_BURST * POKE_REFILL + span
    ensures n <= POKE_BURST + span / POKE_REFILL
  {
  }

  /** Without an accepted poke the worth grows with time, up to a full bucket. */
  lemma {:induction false} WorthRefills(ss: seq<Sched>, es: seq<Event>, k: nat, m: nat)
    requires History(ss, es) && k <= m < |es| && forall q :: k <= q < m ==> !Accepts(ss[q], es[q])
    ensures Worth(ss[m].bucket, es[m].now) ==
              Min(POKE_BURST * POKE_REFILL, Worth(ss[k].bucket, es[k].now) + es[m].now - es[k].now)
    decreases m
  {
    hide Next, Refilled, Accepts;
    BucketAlways(ss, es, m);
    if k < m {
      WorthRefills(ss, es, k, m - 1);
      BucketAlways(ss, es, m - 1);
      assert Next(ss[m - 1], es[m - 1], ss[m - 1 + 1]);
      assert !Accepts(ss[m - 1], es[m - 1]);
      BucketStep(ss[m - 1], es[m - 1], ss[m]);
      assert es[k].now <= es[m - 1].now <= es[m].now;
    }
  }

  /** The bound is not bought by refusing: a poke with none owed is accepted if the last accepted one was
      5 s before, or there was none. */
  lemma PokeAccepted(ss: seq<Sched>, es: seq<Event>, k: nat, m: nat)
    requires History(ss, es) && k <= m < |es| && es[m].Poke? && !ss[m].pokeDue
    requires forall q :: k <= q < m ==> !Accepts(ss[q], es[q])
    requires k == 0 || (Accepts(ss[k - 1], es[k - 1]) && es[m].now - es[k - 1].now >= 5 * SECOND)
    ensures Accepts(ss[m], es[m])
  {
    hide Next, Refilled;
    BucketAlways(ss, es, k);
    BucketAlways(ss, es, m);
    WorthRefills(ss, es, k, m);
    if k > 0 {
      BucketAlways(ss, es, k - 1);
      assert Next(ss[k - 1], es[k - 1], ss[k - 1 + 1]);
      BucketStep(ss[k - 1], es[k - 1], ss[k]);
      WorthFloor(ss[k].bucket, es[k - 1].now, es[k].now);
      assert es[k - 1].now <= es[k].now <= es[m].now;
    }
    PokeCost(ss[m].bucket, es[m].now);
  }

  lemma WorthFloor(b: Bucket, now: int, later: int)
    requires BucketOk(b, now) && now <= later
    ensures Worth(b, later) >= Min(POKE_BURST * POKE_REFILL, later - now)
  {
  }

  /** In any stretch of any history, spanning time T, at most 3 + T / 5 s pokes are accepted. */
  lemma TokenBucket(ss: seq<Sched>, es: seq<Event>, i: nat, j: nat)
    requires History(ss, es) && i < j <= |es|
    ensures AcceptCount(ss, es, i, j) <= 3 + (es[j - 1].now - es[i].now) / (5 * SECOND)
  {
    assert |ss| == |es| + 1;
    hide History, AcceptCount, Worth, BucketOk;
    AcceptsWorth(ss, es, i, j);
    Shares(AcceptCount(ss, es, i, j), es[j - 1].now - es[i].now);
  }

  lemma AcceptsWorth(ss: seq<Sched>, es: seq<Event>, i: nat, j: nat)
    requires History(ss, es) && i < j <= |es|
    ensures POKE_REFILL * AcceptCount(ss, es, i, j) <= POKE_BURST * POKE_REFILL + es[j - 1].now - es[i].now
  {
    assert |ss| == |es| + 1;
    hide History, AcceptCount, Worth, BucketOk;
    AcceptsPaid(ss, es, i, j);
    BucketAlways(ss, es, i);
    WorthGrows(ss[i].bucket, es[i].now, es[i].now);
    WorthGrows(ss[j].bucket, es[j - 1].now, es[j - 1].now);
  }
}
