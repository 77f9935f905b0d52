/** Matching a reply to a request: cmd/pilotctl/firstcontact.go, inboxWatch and awaitReply.

    `Watch` is the matcher's memory as a value; the functions on it say what each call does.
    Class `InboxWatch` is the imperative form proved against them. The inbox listing is an input
    of each poll, already in the order the poll sorts it into (oldest first). */
module ReplyWatch {
  import opened Common

  const GRACE: int := 750 * MILLISECOND

  datatype Message = Message(from: string, replyTo: string, receivedAt: Option<int>, body: string)

  /** One inbox file: whether it was modified after the watch began, and its message if it is
      readable and parses. */
  datatype File = File(name: string, isDir: bool, recent: bool, msg: Option<Message>)

  datatype Listing = Unreadable | Absent | Files(files: seq<File>)

  datatype Kind = Untagged | Ours | Other

  /** peer and seen are fixed when the watch is made, and so is echoed, the outcome of the look at
      the peer's earlier messages. */
  datatype Watch = Watch(peer: string, seen: set<string>, echoed: bool,
                         ids: set<string>, tagged: bool, peerEchoes: bool,
                         held: Option<Message>, heldSince: int, holdFrom: int)

  // ---------------------------------------------------------------- one poll, as functions

  function Classify(ids: set<string>, m: Message): Kind {
    if m.replyTo == "" || ids == {} then Untagged
    else if m.replyTo in ids then Ours
    else Other
  }

  /** Whether a file is a new message from the peer. */
  predicate Fresh(w: Watch, f: File) {
    && !f.isDir && f.name !in w.seen && f.recent && f.msg.Some?
    && (w.peer != "" ==> f.msg.value.from == w.peer)
  }

  /** The new messages from the peer, oldest first. */
  function Arrived(w: Watch, files: seq<File>): seq<Message> {
    if files == [] then []
    else (if Fresh(w, files[0]) then [files[0].msg.value] else []) + Arrived(w, files[1..])
  }

  /** What one pass over the new messages finds: a reply naming us, which ends it, or whether the
      peer named another request and the oldest message that names none. */
  datatype Pass = Found(reply: Message, echoes: bool) | Done(echoes: bool, oldest: Option<Message>)

  function Scan(ids: set<string>, ms: seq<Message>, echoes: bool, oldest: Option<Message>): Pass {
    if ms == [] then Pass.Done(echoes, oldest)
    else match Classify(ids, ms[0])
      case Ours => Found(ms[0], echoes)
      case Other => Scan(ids, ms[1..], true, oldest)
      case Untagged => Scan(ids, ms[1..], echoes, if oldest.None? then Some(ms[0]) else oldest)
  }

  /** Whether an untagged message is taken without waiting. */
  predicate TakesUntagged(w: Watch) { !w.tagged || (!w.peerEchoes && !w.echoed) }

  /** When the hold of a message first seen at now starts. */
  function HoldStart(w: Watch, m: Message, now: int): int {
    var arrived := if m.receivedAt.Some? && m.receivedAt.value < now then m.receivedAt.value else now;
    if arrived < w.holdFrom then w.holdFrom else arrived
  }

  function Hold(w: Watch, m: Message, now: int): Watch {
    w.(held := Some(m), heldSince := if w.held.None? then HoldStart(w, m, now) else w.heldSince)
  }

  /** The decision on the oldest untagged message, None if there is none. */
  function AfterUntagged(w: Watch, m: Option<Message>, now: int): Watch {
    if m.None? then w.(held := None)
    else if TakesUntagged(w) then w
    else Hold(w, m.value, now)
  }

  function TakenUntagged(w: Watch, m: Option<Message>, now: int): Option<Message> {
    if m.None? || TakesUntagged(w) then m
    else if w.peerEchoes || now - Hold(w, m.value, now).heldSince < GRACE then None
    else m
  }

  function AfterPoll(w: Watch, l: Listing, now: int): Watch {
    if !l.Files? then w
    else match Scan(w.ids, Arrived(w, l.files), w.peerEchoes, None)
      case Found(_, echoes) => w.(peerEchoes := echoes)
      case Done(echoes, oldest) => AfterUntagged(w.(peerEchoes := echoes), oldest, now)
  }

  function Taken(w: Watch, l: Listing, now: int): Option<Message> {
    if !l.Files? then None
    else match Scan(w.ids, Arrived(w, l.files), w.peerEchoes, None)
      case Found(reply, _) => Some(reply)
      case Done(echoes, oldest) => TakenUntagged(w.(peerEchoes := echoes), oldest, now)
  }

  function HeldReply(w: Watch): Option<Message> { if w.peerEchoes then None else w.held }

  /** A pass, file by file. */
  lemma ScanStep(w: Watch, files: seq<File>, k: nat, echoes: bool, oldest: Option<Message>)
    requires k < |files|
    ensures var f, rest := files[k], Arrived(w, files[k + 1..]);
            Scan(w.ids, Arrived(w, files[k..]), echoes, oldest) ==
              if !Fresh(w, f) then Scan(w.ids, rest, echoes, oldest)
              else match Classify(w.ids, f.msg.value)
                case Ours => Found(f.msg.value, echoes)
                case Other => Scan(w.ids, rest, true, oldest)
                case Untagged => Scan(w.ids, rest, echoes, if oldest.None? then f.msg else oldest)
  {
    var f, rest := files[k], Arrived(w, files[k + 1..]);
    assert files[k..][1..] == files[k + 1..];
    if Fresh(w, f) {
      assert ([f.msg.value] + rest)[1..] == rest;
    } else {
      assert [] + rest == rest;
    }
  }

  lemma ScanEnd(w: Watch, files: seq<File>, echoes: bool, oldest: Option<Message>)
    ensures Scan(w.ids, Arrived(w, files[|files|..]), echoes, oldest) == Pass.Done(echoes, oldest)
  {
    assert files[|files|..] == [];
  }

  // ---------------------------------------------------------------- what a pass finds

  /** A pass ends in Found exactly when some message names one of our requests, with the first one. */
  lemma {:induction false} ScanFinds(ids: set<string>, ms: seq<Message>, echoes: bool, oldest: Option<Message>)
    ensures var r := Scan(ids, ms, echoes, oldest);
            && (r.Found? <==> exists i :: 0 <= i < |ms| && Classify(ids, ms[i]) == Ours)
            && (r.Found? ==> exists i :: 0 <= i < |ms| && ms[i] == r.reply && Classify(ids, r.reply) == Ours
                               && forall j :: 0 <= j < i ==> Classify(ids, ms[j]) != Ours)
            && (r.Done? ==> (r.echoes <==> echoes || exists i :: 0 <= i < |ms| && Classify(ids, ms[i]) == Other))
            && (r.Done? && oldest.Some? ==> r.oldest == oldest)
            && (r.Done? && oldest.None? ==>
                  if r.oldest.None? then forall i :: 0 <= i < |ms| ==> Classify(ids, ms[i]) != Untagged
                  else exists i :: 0 <= i < |ms| && ms[i] == r.oldest.value && Classify(ids, ms[i]) == Untagged
                         && forall j :: 0 <= j < i ==> Classify(ids, ms[j]) != Untagged)
            && (echoes ==> r.echoes)
  {
    if ms != [] {
      var rest := ms[1..];
      assert forall i :: 0 < i < |ms| ==> ms[i] == rest[i - 1];
      match Classify(ids, ms[0]) {
        case Ours =>
        case Other => ScanFinds(ids, rest, true, oldest);
        case Untagged => ScanFinds(ids, rest, echoes, if oldest.None? then Some(ms[0]) else oldest);
      }
    }
  }

  /** With an ID registered, a poll never takes a message that names another request. */
  lemma TakenIsOurs(w: Watch, l: Listing, now: int)
    requires w.ids != {} && Taken(w, l, now).Some?
    ensures var m := Taken(w, l, now).value; m.replyTo == "" || m.replyTo in w.ids
  {
    ScanFinds(w.ids, Arrived(w, l.files), w.peerEchoes, None);
  }

  /** A reply naming our request beats every untagged message of the same poll, and among several
      the oldest wins. */
  lemma NamedReplyWins(w: Watch, l: Listing, now: int, k: nat)
    requires l.Files? && k < |Arrived(w, l.files)| && Classify(w.ids, Arrived(w, l.files)[k]) == Ours
    ensures exists i :: 0 <= i <= k && Taken(w, l, now) == Some(Arrived(w, l.files)[i])
              && Classify(w.ids, Arrived(w, l.files)[i]) == Ours
              && forall j :: 0 <= j < i ==> Classify(w.ids, Arrived(w, l.files)[j]) != Ours
  {
    var ms := Arrived(w, l.files);
    ScanFinds(w.ids, ms, w.peerEchoes, None);
    var r := Scan(w.ids, ms, w.peerEchoes, None);
    var i :| 0 <= i < |ms| && ms[i] == r.reply && Classify(w.ids, r.reply) == Ours
             && forall j :: 0 <= j < i ==> Classify(w.ids, ms[j]) != Ours;
    assert i <= k;
  }

  // ---------------------------------------------------------------- whose messages are taken

  /** m is the message of a listed file that is no directory, was not there when the watch began, was
      modified since, and is from the peer, if one is set. */
  predicate FromFile(w: Watch, f: File, m: Message) {
    && !f.isDir && f.name !in w.seen && f.recent && f.msg == Some(m) && (w.peer == "" || m.from == w.peer)
  }

  lemma {:induction false} ArrivedFrom(w: Watch, files: seq<File>, i: nat) returns (k: nat)
    requires i < |Arrived(w, files)|
    ensures k < |files| && FromFile(w, files[k], Arrived(w, files)[i])
  {
    if Fresh(w, files[0]) && i == 0 {
      k := 0;
    } else {
      k := ArrivedFrom(w, files[1..], if Fresh(w, files[0]) then i - 1 else i);
      k := k + 1;
    }
  }

  lemma {:induction false} FileArrives(w: Watch, files: seq<File>, k: nat, m: Message) returns (i: nat)
    requires k < |files| && FromFile(w, files[k], m)
    ensures i < |Arrived(w, files)| && Arrived(w, files)[i] == m
  {
    if k == 0 {
      i := 0;
    } else {
      i := FileArrives(w, files[1..], k - 1, m);
      if Fresh(w, files[0]) {
        i := i + 1;
      }
    }
  }

  /** Whatever a poll takes or holds is the message of such a file, or was held before. */
  lemma TakenFromFile(w: Watch, l: Listing, now: int)
    ensures Taken(w, l, now).Some? ==> l.Files? && exists f :: f in l.files && FromFile(w, f, Taken(w, l, now).value)
    ensures var held := AfterPoll(w, l, now).held;
            held.Some? ==> held == w.held || (l.Files? && exists f :: f in l.files && FromFile(w, f, held.value))
  {
    if l.Files? {
      var ms := Arrived(w, l.files);
      ScanFinds(w.ids, ms, w.peerEchoes, None);
      forall i | 0 <= i < |ms| ensures exists f :: f in l.files && FromFile(w, f, ms[i]) {
        var k := ArrivedFrom(w, l.files, i);
        assert l.files[k] in l.files;
      }
      hide Scan, Arrived, FromFile;
    }
  }

  /** A reply naming one of our requests, in such a file, is never passed over. */
  lemma NamedFileTaken(w: Watch, l: Listing, now: int, f: File, m: Message)
    requires l.Files? && f in l.files && FromFile(w, f, m) && m.replyTo != "" && m.replyTo in w.ids
    ensures Taken(w, l, now).Some? && Taken(w, l, now).value.replyTo in w.ids
  {
    var k :| 0 <= k < |l.files| && l.files[k] == f;
    var i := FileArrives(w, l.files, k, m);
    NamedReplyWins(w, l, now, i);
  }

  /** To a request that went out without its ID, the first new message from the peer that names no
      request is the reply, if none names ours. */
  lemma FirstUntaggedTaken(w: Watch, l: Listing, now: int, f: File, m: Message)
    requires l.Files? && f in l.files && FromFile(w, f, m) && m.replyTo == "" && !w.tagged
    ensures Taken(w, l, now).Some?
    ensures Taken(w, l, now).value.replyTo == "" || w.ids == {} || Taken(w, l, now).value.replyTo in w.ids
  {
    var k :| 0 <= k < |l.files| && l.files[k] == f;
    var i := FileArrives(w, l.files, k, m);
    ScanFinds(w.ids, Arrived(w, l.files), w.peerEchoes, None);
    assert Classify(w.ids, Arrived(w, l.files)[i]) == Untagged;
    hide Scan, Arrived;
  }

  lemma {:induction false} FirstArrives(w: Watch, files: seq<File>, k: nat, m: Message)
    requires k < |files| && FromFile(w, files[k], m) && forall j :: 0 <= j < k ==> !Fresh(w, files[j])
    ensures Arrived(w, files) != [] && Arrived(w, files)[0] == m
  {
    if k > 0 {
      FirstArrives(w, files[1..], k - 1, m);
    }
  }

  /** With no ID registered, as before IDs existed, the oldest new message from the peer is the reply,
      whatever it names. */
  lemma OldestTakenWithoutIDs(w: Watch, l: Listing, now: int, k: nat, m: Message)
    requires l.Files? && k < |l.files| && FromFile(w, l.files[k], m) && w.ids == {} && !w.tagged
    requires forall j, n :: 0 <= j < k ==> !FromFile(w, l.files[j], n)
    ensures Taken(w, l, now) == Some(m)
  {
    forall j | 0 <= j < k ensures !Fresh(w, l.files[j]) {
      if l.files[j].msg.Some? {
        assert !FromFile(w, l.files[j], l.files[j].msg.value);
      }
    }
    FirstArrives(w, l.files, k, m);
    var ms := Arrived(w, l.files);
    ScanFinds({}, ms, w.peerEchoes, None);
    assert forall i :: 0 <= i < |ms| ==> Classify({}, ms[i]) == Untagged;
    assert ms[0] == m;
    hide Scan, Arrived;
  }

  /** A message held is in the inbox now: a poll that takes nothing keeps no older one. */
  lemma HeldIsThere(w: Watch, l: Listing, now: int)
    requires l.Files? && Taken(w, l, now).None?
    ensures var held := AfterPoll(w, l, now).held;
            held.Some? ==> exists f :: f in l.files && FromFile(w, f, held.value)
  {
    var ms := Arrived(w, l.files);
    ScanFinds(w.ids, ms, w.peerEchoes, None);
    forall i | 0 <= i < |ms| ensures exists f :: f in l.files && FromFile(w, f, ms[i]) {
      var k := ArrivedFrom(w, l.files, i);
      assert l.files[k] in l.files;
    }
    hide Scan, Arrived, FromFile;
  }

  /** A hold starts when the message arrived, by its own account unless that is in the future, and not
      before our request was acknowledged. */
  lemma HoldStartIs(w: Watch, m: Message, now: int)
    ensures var start := HoldStart(w, m, now);
            && start >= w.holdFrom
            && (start > w.holdFrom ==> start == if m.receivedAt.Some? then Min(m.receivedAt.value, now) else now)
            && (start == w.holdFrom ==> w.holdFrom >= if m.receivedAt.Some? then Min(m.receivedAt.value, now) else now)
  {
  }

  // ---------------------------------------------------------------- the imperative matcher

  datatype PollResult = Failed | Polled(reply: Option<Message>)

  /** What awaitReply waits for: the reply budget, and when (if at all) it re-sends. */
  datatype Config = Config(wait: int, resendAfter: int, canResend: bool)

  /** One turn of the wait: what the inbox lists, the clock at the poll and after it, the IDs and
      tag a re-send in flight registers meanwhile, and its outcome if it ends in this turn. */
  datatype Turn = Turn(listing: Listing, polledAt: int, now: int, newIDs: set<string>, newTag: bool, ended: Option<Resend>)

  datatype Resend = Acked(at: int) | Lost

  /** used: the turns it took; waiting: they ran out first. */
  datatype Outcome = Outcome(reply: Option<Message>, resends: nat, failed: bool, waiting: bool, used: nat)

  /** The matcher a turn polls with: what a re-send registered meanwhile is in it. */
  function Ready(w: Watch, t: Turn): Watch { w.(ids := w.ids + t.newIDs, tagged := w.tagged || t.newTag) }

  /** The matcher before turn k of a wait that started in w. */
  function WatchAt(w: Watch, turns: seq<Turn>, k: nat): Watch
    requires k <= |turns|
  {
    if k == 0 then w
    else AfterPoll(Ready(WatchAt(w, turns, k - 1), turns[k - 1]), turns[k - 1].listing, turns[k - 1].polledAt)
  }

  /** What the poll of turn k takes. */
  function TakenAt(w: Watch, turns: seq<Turn>, k: nat): Option<Message>
    requires k < |turns|
  {
    Taken(Ready(WatchAt(w, turns, k), turns[k]), turns[k].listing, turns[k].polledAt)
  }

  /** Turn k goes on past its poll. */
  predicate Passes(w: Watch, turns: seq<Turn>, k: nat)
    requires k < |turns|
  {
    !turns[k].listing.Unreadable? && TakenAt(w, turns, k).None?
  }

  /** Turn k finds the re-send due: late enough, within the budget, and with nothing held. */
  predicate ResendDue(w: Watch, ackAt: int, cfg: Config, turns: seq<Turn>, k: nat)
    requires k < |turns|
  {
    && Passes(w, turns, k) && cfg.canResend && cfg.resendAfter > 0
    && ackAt + cfg.resendAfter <= turns[k].now < ackAt + cfg.wait && HeldReply(WatchAt(w, turns, k + 1)).None?
  }

  /** By turn k the re-send has ended, and if it was acknowledged, half the budget after that is
      before now. */
  ghost predicate ResendOver(cfg: Config, turns: seq<Turn>, k: nat, now: int)
    requires k <= |turns|
  {
    exists e :: 0 <= e < k && turns[e].ended.Some?
      && (turns[e].ended.value.Acked? ==> turns[e].ended.value.at + cfg.wait / 2 < now)
  }

  /** Where a wait is with its re-send: when it ends, whether it has re-sent, and whether that is in
      flight. */
  datatype Sending = Sending(deadline: int, resends: nat, inFlight: bool)

  /** One turn past its poll, with kept held: a re-send that ended extends the wait, one that is due starts. */
  function Resent(cfg: Config, ackAt: int, s: Sending, t: Turn, kept: Option<Message>): Sending {
    var over := s.inFlight && t.ended.Some?;
    var deadline := if over && t.ended.value.Acked? && t.ended.value.at + cfg.wait / 2 > s.deadline
                    then t.ended.value.at + cfg.wait / 2 else s.deadline;
    if s.resends == 0 && cfg.canResend && cfg.resendAfter > 0 && t.now - ackAt >= cfg.resendAfter
       && t.now < deadline && kept.None?
    then Sending(deadline, s.resends + 1, true)
    else Sending(deadline, s.resends, s.inFlight && !over)
  }

  /** ... before turn k. */
  function SendingAt(w: Watch, ackAt: int, cfg: Config, turns: seq<Turn>, k: nat): Sending
    requires k <= |turns|
  {
    if k == 0 then Sending(ackAt + cfg.wait, 0, false)
    else Resent(cfg, ackAt, SendingAt(w, ackAt, cfg, turns, k - 1), turns[k - 1], HeldReply(WatchAt(w, turns, k)))
  }

  /** Turn k is past the budget, extended by a re-send that was acknowledged, with none in flight. */
  predicate Expires(w: Watch, ackAt: int, cfg: Config, turns: seq<Turn>, k: nat)
    requires k < |turns|
  {
    var s := SendingAt(w, ackAt, cfg, turns, k + 1);
    turns[k].now > s.deadline && !s.inFlight
  }

  /** The first k turns neither take a reply nor expire. */
  ghost predicate GoesOn(w: Watch, ackAt: int, cfg: Config, turns: seq<Turn>, k: nat)
    requires k <= |turns|
  {
    forall j :: 0 <= j < k ==> Passes(w, turns, j) && !Expires(w, ackAt, cfg, turns, j)
  }

  /** How a wait ends, at the first turn that does not go on: on an unreadable inbox, with what the
      poll took, or, expired, with what is held. */
  ghost predicate Ends(w: Watch, ackAt: int, cfg: Config, turns: seq<Turn>, out: Outcome)
    requires 0 < out.used <= |turns|
  {
    var last := out.used - 1;
    && GoesOn(w, ackAt, cfg, turns, last)
    && out.failed == turns[last].listing.Unreadable?
    && if !Passes(w, turns, last)
       then
         && out.reply == (if out.failed then None else TakenAt(w, turns, last))
         && out.resends == SendingAt(w, ackAt, cfg, turns, last).resends
       else
         && Expires(w, ackAt, cfg, turns, last) && out.reply == HeldReply(WatchAt(w, turns, out.used))
         && out.resends == SendingAt(w, ackAt, cfg, turns, out.used).resends
  }

  /** A whole wait: it ends as Ends says, or the turns run out with every one going on. */
  ghost predicate Awaited(w: Watch, ackAt: int, cfg: Config, turns: seq<Turn>, out: Outcome)
    requires out.used <= |turns| && (out.waiting ==> out.used == |turns|) && (!out.waiting ==> out.used > 0)
  {
    if out.waiting
    then GoesOn(w, ackAt, cfg, turns, |turns|) && out.resends == SendingAt(w, ackAt, cfg, turns, |turns|).resends
    else Ends(w, ackAt, cfg, turns, out)
  }

  class InboxWatch {
    const peer: string
    const seen: set<string>
    const echoed: bool
    var ids: set<string>
    var tagged: bool
    var peerEchoes: bool
    var held: Option<Message>
    var heldSince: int
    var holdFrom: int

    ghost function View(): Watch
      reads this
    {
      Watch(peer, seen, echoed, ids, tagged, peerEchoes, held, heldSince, holdFrom)
    }

    /** The snapshot is every file in the inbox when the watch is made. */
    constructor (peer: string, seen: set<string>, echoed: bool)
      ensures View() == Watch(peer, seen, echoed, {}, false, false, None, 0, 0)
    {
      this.peer, this.seen, this.echoed := peer, seen, echoed;
      ids, tagged, peerEchoes, held, heldSince, holdFrom := {}, false, false, None, 0, 0;
    }

    method AddID(id: string)
      modifies `ids
      ensures View() == old(View()).(ids := old(ids) + if id == "" then {} else {id})
    {
      if id == "" { return; }
      ids := ids + {id};
    }

    method MarkTagged()
      modifies `tagged
      ensures View() == old(View()).(tagged := true)
    {
      tagged := true;
    }

    method UntaggedReply(m: Option<Message>, now: int) returns (r: Option<Message>)
      modifies this
      ensures View() == AfterUntagged(old(View()), m, now) && r == TakenUntagged(old(View()), m, now)
    {
      if m.None? {
        held := None;
        return None;
      }
      if !tagged || (!peerEchoes && !echoed) { return m; }
      if held.None? {
        heldSince := now;
        if m.value.receivedAt.Some? && m.value.receivedAt.value < now {
          heldSince := m.value.receivedAt.value;
        }
        if heldSince < holdFrom {
          heldSince := holdFrom;
        }
      }
      held := m;
      if peerEchoes || now - heldSince < GRACE { return None; }
      return m;
    }

    method Poll(l: Listing, now: int) returns (r: PollResult)
      modifies this
      ensures r.Failed? <==> l.Unreadable?
      ensures r.Polled? ==> r.reply == Taken(old(View()), l, now)
      ensures View() == AfterPoll(old(View()), l, now)
    {
      hide AfterUntagged, TakenUntagged, Scan, Arrived;
      if l.Unreadable? { return Failed; }
      if l.Absent? { return Polled(None); }
      var oldest: Option<Message> := None;
      ghost var w := View();
      assert l.files[0..] == l.files;
      for k := 0 to |l.files|
        invariant View() == w.(peerEchoes := peerEchoes)
        invariant Scan(ids, Arrived(w, l.files), w.peerEchoes, None)
                  == Scan(ids, Arrived(w, l.files[k..]), peerEchoes, oldest)
      {
        var f := l.files[k];
        ScanStep(w, l.files, k, peerEchoes, oldest);
        if f.isDir || f.name in seen || !f.recent || f.msg.None? || (peer != "" && f.msg.value.from != peer) {
          continue;
        }
        match Classify(ids, f.msg.value) {
          case Ours => return Polled(f.msg);
          case Other => peerEchoes := true;
          case Untagged =>
            if oldest.None? {
              oldest := f.msg;
            }
        }
      }
      ScanEnd(w, l.files, peerEchoes, oldest);
      var m := UntaggedReply(oldest, now);
      return Polled(m);
    }

    /** One turn's poll, with what a re-send registered meanwhile. */
    method PollTurn(t: Turn) returns (r: PollResult)
      modifies this
      ensures r.Failed? <==> t.listing.Unreadable?
      ensures r.Polled? ==> r.reply == Taken(Ready(old(View()), t), t.listing, t.polledAt)
      ensures View() == AfterPoll(Ready(old(View()), t), t.listing, t.polledAt)
    {
      hide AfterPoll, Taken;
      ids := ids + t.newIDs;
      if t.newTag {
        MarkTagged();
      }
      r := Poll(t.listing, t.polledAt);
    }

    /** awaitReply over the turns the clock allows: it ends at the first turn that does not go on,
        and as Ends says. */
    method Await(ackAt: int, cfg: Config, turns: seq<Turn>) returns (out: Outcome)
      modifies this
      ensures out.used <= |turns| && View() == WatchAt(old(View()).(holdFrom := ackAt), turns, out.used)
      ensures out.waiting ==> out.used == |turns| && out.reply.None?
      ensures !out.waiting ==> out.used > 0
      ensures Awaited(old(View()).(holdFrom := ackAt), ackAt, cfg, turns, out)
    {
      hide AfterPoll, Taken, Passes, Resent, TakenAt;
      holdFrom := ackAt;
      ghost var w := View();
      var deadline := ackAt + cfg.wait;
      var inFlight := false;
      out := Outcome(None, 0, false, true, 0);
      for k := 0 to |turns|
        invariant View() == WatchAt(w, turns, k) && out == Outcome(None, out.resends, false, true, k)
        invariant GoesOn(w, ackAt, cfg, turns, k)
        invariant Sending(deadline, out.resends, inFlight) == SendingAt(w, ackAt, cfg, turns, k)
      {
        var t := turns[k];
        ghost var sending := Sending(deadline, out.resends, inFlight);
        var r := PollTurn(t);
        TurnPolled(w, turns, k, r);
        out := out.(used := k + 1);
        if r.Failed? { return out.(failed := true, waiting := false); }
        if r.reply.Some? { return out.(reply := r.reply, waiting := false); }
        if inFlight && t.ended.Some? {
          inFlight := false;
          if t.ended.value.Acked? && t.ended.value.at + cfg.wait / 2 > deadline {
            deadline := t.ended.value.at + cfg.wait / 2;
          }
        }
        var kept := if peerEchoes then None else held;
        if out.resends == 0 && cfg.canResend && cfg.resendAfter > 0 && t.now - ackAt >= cfg.resendAfter
           && t.now < deadline && kept.None? {
          out := out.(resends := out.resends + 1);
          inFlight := true;
        }
        ResentIs(cfg, ackAt, sending, t, kept, Sending(deadline, out.resends, inFlight));
        if t.now > deadline && !inFlight {
          return out.(reply := kept, waiting := false);
        }
      }
    }
  }

  lemma ResentIs(cfg: Config, ackAt: int, s: Sending, t: Turn, kept: Option<Message>, s': Sending)
    requires var over := s.inFlight && t.ended.Some?;
             && s'.deadline == (if over && t.ended.value.Acked? && t.ended.value.at + cfg.wait / 2 > s.deadline
                                then t.ended.value.at + cfg.wait / 2 else s.deadline)
             && var starts := s.resends == 0 && cfg.canResend && cfg.resendAfter > 0 && t.now - ackAt >= cfg.resendAfter
                              && t.now < s'.deadline && kept.None?;
             s'.resends == (if starts then s.resends + 1 else s.resends) && s'.inFlight == (starts || (s.inFlight && !over))
    ensures s' == Resent(cfg, ackAt, s, t, kept)
  {
  }

  lemma TurnPolled(w: Watch, turns: seq<Turn>, k: nat, r: PollResult)
    requires k < |turns| && (r.Failed? <==> turns[k].listing.Unreadable?)
    requires r.Polled? ==>
               r.reply == Taken(Ready(WatchAt(w, turns, k), turns[k]), turns[k].listing, turns[k].polledAt)
    ensures Passes(w, turns, k) <==> r.Polled? && r.reply.None?
    ensures r.Polled? ==> r.reply == TakenAt(w, turns, k)
  {
    hide WatchAt, Taken;
  }

  // ---------------------------------------------------------------- the re-send

  /** What holds of the re-send before turn k of a wait that goes on so far: it is sent exactly once
      if a turn found it due, and then the wait lasts at least half a budget from its acknowledgement. */
  ghost predicate SendingFits(w: Watch, ackAt: int, cfg: Config, turns: seq<Turn>, k: nat)
    requires k <= |turns|
  {
    var s := SendingAt(w, ackAt, cfg, turns, k);
    && s.resends <= 1 && s.deadline >= ackAt + cfg.wait
    && (s.resends == 1 <==> exists j :: 0 <= j < k && ResendDue(w, ackAt, cfg, turns, j))
    && (s.resends == 0 ==> !s.inFlight && s.deadline == ackAt + cfg.wait)
    && (s.resends == 1 && !s.inFlight ==> ResendOver(cfg, turns, k, s.deadline + 1))
  }

  lemma SendingStep(w: Watch, ackAt: int, cfg: Config, turns: seq<Turn>, k: nat)
    requires k < |turns| && SendingFits(w, ackAt, cfg, turns, k) && Passes(w, turns, k)
    ensures SendingFits(w, ackAt, cfg, turns, k + 1)
  {
    hide WatchAt, Passes, HeldReply;
    var s, s' := SendingAt(w, ackAt, cfg, turns, k), SendingAt(w, ackAt, cfg, turns, k + 1);
    if s'.resends == 1 && !s'.inFlight && !s.inFlight {
      var e :| 0 <= e < k && turns[e].ended.Some?
        && (turns[e].ended.value.Acked? ==> turns[e].ended.value.at + cfg.wait / 2 < s.deadline + 1);
    }
    if s.resends == 0 {
      assert ResendDue(w, ackAt, cfg, turns, k) <==> s'.resends == 1;
    }
  }

  lemma {:induction false} SendingAlways(w: Watch, ackAt: int, cfg: Config, turns: seq<Turn>, k: nat)
    requires k <= |turns| && forall j :: 0 <= j < k ==> Passes(w, turns, j)
    ensures SendingFits(w, ackAt, cfg, turns, k)
  {
    hide Passes, WatchAt;
    if k > 0 {
      SendingAlways(w, ackAt, cfg, turns, k - 1);
      hide SendingFits;
      SendingStep(w, ackAt, cfg, turns, k - 1);
    }
  }

  lemma OverLater(cfg: Config, turns: seq<Turn>, k: nat, now: int, later: int)
    requires k <= |turns| && now <= later && ResendOver(cfg, turns, k, now)
    ensures ResendOver(cfg, turns, k, later)
  {
    var e :| 0 <= e < k && turns[e].ended.Some?
      && (turns[e].ended.value.Acked? ==> turns[e].ended.value.at + cfg.wait / 2 < now);
  }

  /** Over a whole wait the request is re-sent at most once, and exactly then if a turn it took found
      that due: late enough, within the budget, with nothing held. A wait that ends without a reply
      taken lasted its budget, and half a budget from the acknowledgement of a re-send. */
  lemma AwaitedResends(w: Watch, ackAt: int, cfg: Config, turns: seq<Turn>, out: Outcome)
    requires 0 < out.used <= |turns| && Ends(w, ackAt, cfg, turns, out)
    ensures out.resends <= 1
    ensures out.resends == 1 <==> exists k :: 0 <= k < out.used && ResendDue(w, ackAt, cfg, turns, k)
    ensures Passes(w, turns, out.used - 1) ==> turns[out.used - 1].now > ackAt + cfg.wait
    ensures Passes(w, turns, out.used - 1) && out.resends == 1 ==>
              ResendOver(cfg, turns, out.used, turns[out.used - 1].now)
  {
    hide WatchAt, HeldReply, Taken, Resent, ResendOver;
    var last := out.used - 1;
    SendingAlways(w, ackAt, cfg, turns, last);
    if Passes(w, turns, last) {
      SendingStep(w, ackAt, cfg, turns, last);
      var s := SendingAt(w, ackAt, cfg, turns, out.used);
      if s.resends == 1 {
        OverLater(cfg, turns, out.used, s.deadline + 1, turns[last].now);
      }
    }
  }

  // ---------------------------------------------------------------- the matcher over a whole wait

  /** A held message named no request: with an ID registered, only untagged messages are held. */
  lemma PollKeepsHeld(w: Watch, l: Listing, now: int)
    requires w.ids != {} && (w.held.Some? ==> w.held.value.replyTo == "")
    ensures AfterPoll(w, l, now).held.Some? ==> AfterPoll(w, l, now).held.value.replyTo == ""
    ensures AfterPoll(w, l, now).ids == w.ids && AfterPoll(w, l, now).tagged == w.tagged
    ensures w.peerEchoes ==> AfterPoll(w, l, now).peerEchoes
  {
    if l.Files? {
      ScanFinds(w.ids, Arrived(w, l.files), w.peerEchoes, None);
    }
  }

  /** Once the request is tagged and the peer has named another request, in this poll or before
      it, only a reply naming ours is taken. */
  lemma TakenOnceEchoed(w: Watch, l: Listing, now: int)
    requires w.tagged && w.ids != {} && AfterPoll(w, l, now).peerEchoes && Taken(w, l, now).Some?
    ensures Classify(w.ids, Taken(w, l, now).value) == Ours
  {
    ScanFinds(w.ids, Arrived(w, l.files), w.peerEchoes, None);
  }

  lemma {:induction false} WatchKeeps(w: Watch, turns: seq<Turn>, k: nat)
    requires k <= |turns| && w.ids != {} && (w.held.Some? ==> w.held.value.replyTo == "")
    ensures var v := WatchAt(w, turns, k); v.ids != {} && (v.held.Some? ==> v.held.value.replyTo == "")
  {
    hide AfterPoll;
    if k > 0 {
      WatchKeeps(w, turns, k - 1);
      PollKeepsHeld(Ready(WatchAt(w, turns, k - 1), turns[k - 1]), turns[k - 1].listing, turns[k - 1].polledAt);
    }
  }

  /** A wait with an ID registered before it returns a reply that names our request or none, and
      ours once the request is tagged and the peer has named another. */
  lemma AwaitedReply(w: Watch, ackAt: int, cfg: Config, turns: seq<Turn>, out: Outcome)
    requires 0 < out.used <= |turns| && Ends(w, ackAt, cfg, turns, out) && out.reply.Some?
    requires w.ids != {} && w.held.None?
    ensures var v, m := WatchAt(w, turns, out.used), out.reply.value;
            (m.replyTo == "" || m.replyTo in v.ids) && (v.tagged && v.peerEchoes ==> m.replyTo in v.ids)
  {
    hide AfterPoll, Taken;
    var last := out.used - 1;
    var u := Ready(WatchAt(w, turns, last), turns[last]);
    WatchKeeps(w, turns, last);
    WatchKeeps(w, turns, out.used);
    PollKeepsHeld(u, turns[last].listing, turns[last].polledAt);
    if TakenAt(w, turns, last).Some? {
      TakenIsOurs(u, turns[last].listing, turns[last].polledAt);
      if WatchAt(w, turns, out.used).tagged && WatchAt(w, turns, out.used).peerEchoes {
        TakenOnceEchoed(u, turns[last].listing, turns[last].polledAt);
      }
    }
  }

  /** f of a turn's listing is a new message m from the peer. */
  ghost predicate TurnHolds(w: Watch, turns: seq<Turn>, k: nat, m: Message)
    requires k < |turns|
  {
    turns[k].listing.Files? && exists f :: f in turns[k].listing.files && FromFile(w, f, m)
  }

  lemma {:induction false} HeldFromTurn(w: Watch, turns: seq<Turn>, k: nat)
    requires k <= |turns| && w.held.None?
    ensures var v := WatchAt(w, turns, k);
            && v.peer == w.peer && v.seen == w.seen
            && (v.held.Some? ==> exists j :: 0 <= j < k && TurnHolds(w, turns, j, v.held.value))
  {
    hide AfterPoll, FromFile;
    if k > 0 {
      HeldFromTurn(w, turns, k - 1);
      var u, t := Ready(WatchAt(w, turns, k - 1), turns[k - 1]), turns[k - 1];
      PollKeepsPeer(u, t.listing, t.polledAt);
      TakenFromFile(u, t.listing, t.polledAt);
      SamePeerFiles(u, w);
      var held := WatchAt(w, turns, k).held;
      if held.Some? {
        if held == u.held {
          var j :| 0 <= j < k - 1 && TurnHolds(w, turns, j, held.value);
        } else {
          assert TurnHolds(w, turns, k - 1, held.value);
        }
      }
    }
  }

  lemma PollKeepsPeer(w: Watch, l: Listing, now: int)
    ensures AfterPoll(w, l, now).peer == w.peer && AfterPoll(w, l, now).seen == w.seen
  {
    hide Scan, Arrived;
  }

  lemma SamePeerFiles(u: Watch, w: Watch)
    requires u.peer == w.peer && u.seen == w.seen
    ensures forall f, m :: FromFile(u, f, m) <==> FromFile(w, f, m)
  {
  }

  /** The reply of a whole wait, taken or held, is the message of a file one of its turns listed: no
      directory, not in the snapshot, modified since, and from the peer. */
  lemma AwaitedFromPeer(w: Watch, ackAt: int, cfg: Config, turns: seq<Turn>, out: Outcome)
    requires 0 < out.used <= |turns| && Ends(w, ackAt, cfg, turns, out) && out.reply.Some? && w.held.None?
    ensures exists k :: 0 <= k < out.used && TurnHolds(w, turns, k, out.reply.value)
  {
    hide AfterPoll, Taken, FromFile, SendingAt, WatchAt;
    var last := out.used - 1;
    HeldFromTurn(w, turns, last);
    HeldFromTurn(w, turns, out.used);
    if TakenAt(w, turns, last).Some? {
      var u := Ready(WatchAt(w, turns, last), turns[last]);
      TakenFromFile(u, turns[last].listing, turns[last].polledAt);
      SamePeerFiles(u, w);
      assert TurnHolds(w, turns, last, out.reply.value);
    }
  }

  datatype Event = IDAdded(id: string) | Tagged | Polls(listing: Listing, now: int)

  function Step(w: Watch, e: Event): Watch {
    match e
    case IDAdded(id) => w.(ids := w.ids + if id == "" then {} else {id})
    case Tagged => w.(tagged := true)
    case Polls(l, now) => AfterPoll(w, l, now)
  }

  function After(w: Watch, run: seq<Event>, k: nat): Watch
    requires k <= |run|
  {
    if k == 0 then w else Step(After(w, run, k - 1), run[k - 1])
  }

  lemma {:induction false} EchoedForGood(w: Watch, run: seq<Event>, i: nat, j: nat)
    requires i <= j <= |run| && w.ids != {} && (w.held.Some? ==> w.held.value.replyTo == "")
    ensures var v := After(w, run, j);
            && w.ids <= v.ids && (v.held.Some? ==> v.held.value.replyTo == "")
            && (After(w, run, i).tagged ==> v.tagged) && (After(w, run, i).peerEchoes ==> v.peerEchoes)
    decreases j
  {
    hide AfterPoll;
    if j > 0 {
      var u := After(w, run, j - 1);
      EchoedForGood(w, run, if i < j then i else j - 1, j - 1);
      if run[j - 1].Polls? {
        PollKeepsHeld(u, run[j - 1].listing, run[j - 1].now);
      }
    }
  }

  /** Over any growth of the inbox and any schedule of polls: once the request is tagged and the
      peer has named another request, every later poll takes only replies that name ours, and no
      held message is ever given out. */
  lemma OnlyOursOnceEchoed(w: Watch, run: seq<Event>, i: nat, j: nat)
    requires i <= j < |run| && w.ids != {} && (w.held.Some? ==> w.held.value.replyTo == "")
    requires After(w, run, i).tagged && After(w, run, i).peerEchoes
    ensures HeldReply(After(w, run, j)).None?
    ensures run[j].Polls? && Taken(After(w, run, j), run[j].listing, run[j].now).Some? ==>
              Classify(After(w, run, j).ids, Taken(After(w, run, j), run[j].listing, run[j].now).value) == Ours
  {
    EchoedForGood(w, run, i, j);
    var u := After(w, run, j);
    if run[j].Polls? && Taken(u, run[j].listing, run[j].now).Some? {
      PollKeepsHeld(u, run[j].listing, run[j].now);
      TakenOnceEchoed(u, run[j].listing, run[j].now);
    }
  }

  // ---------------------------------------------------------------- the grace period

  /** A poll of l finds m the oldest untagged message, and no message naming a request. */
  predicate Oldest(w: Watch, l: Listing, m: Message) {
    l.Files? && Scan(w.ids, Arrived(w, l.files), w.peerEchoes, None) == Pass.Done(false, Some(m))
  }

  /** Every poll of run[i..j] does. */
  ghost predicate Holding(w: Watch, run: seq<Event>, i: nat, j: nat, m: Message)
    requires j <= |run|
  {
    forall k :: i <= k < j && run[k].Polls? ==> Oldest(After(w, run, k), run[k].listing, m)
  }

  lemma HoldStep(w: Watch, l: Listing, now: int, m: Message)
    requires Oldest(w, l, m) && w.tagged && w.echoed && !w.peerEchoes
    ensures AfterPoll(w, l, now) == Hold(w, m, now)
    ensures Taken(w, l, now).Some? <==> now - Hold(w, m, now).heldSince >= GRACE
  {
  }

  /** When a message seen at now starts to be held: its own start, or that of the hold it walks into. */
  function HeldFrom(w: Watch, m: Message, now: int): int {
    if w.held.None? then HoldStart(w, m, now) else w.heldSince
  }

  lemma {:induction false} HeldThroughout(w: Watch, run: seq<Event>, i: nat, j: nat, m: Message)
    requires i < j <= |run| && run[i].Polls? && Holding(w, run, i, j, m)
    requires var u := After(w, run, i); u.tagged && u.echoed && !u.peerEchoes
    ensures var u, v := After(w, run, i), After(w, run, j);
            && v.tagged && v.echoed && !v.peerEchoes && v.held == Some(m) && v.holdFrom == u.holdFrom
            && v.heldSince == HeldFrom(u, m, run[i].now)
    decreases j
  {
    hide AfterPoll, Oldest;
    var v := After(w, run, j - 1);
    if i < j - 1 {
      HeldThroughout(w, run, i, j - 1, m);
    }
    if run[j - 1].Polls? {
      HoldStep(v, run[j - 1].listing, run[j - 1].now, m);
    }
  }

  /** From a peer known to echo IDs, an untagged message that stays the oldest one is taken exactly
      when the grace period since its hold has passed: a hold that starts when it arrived (or was
      first seen, or our request was acknowledged, if later), or the one it walked into. */
  lemma HoldDecides(w: Watch, run: seq<Event>, i: nat, l: Listing, now: int, m: Message)
    requires i < |run| && run[i].Polls? && Holding(w, run, i, |run|, m) && Oldest(After(w, run, |run|), l, m)
    requires var u := After(w, run, i); u.tagged && u.echoed && !u.peerEchoes
    ensures Taken(After(w, run, |run|), l, now).Some? <==>
              now >= HeldFrom(After(w, run, i), m, run[i].now) + 750 * MILLISECOND
  {
    hide AfterPoll, Taken, Oldest;
    HeldThroughout(w, run, i, |run|, m);
    HoldStep(After(w, run, |run|), l, now, m);
  }

  /** So the message's own grace is kept at every later poll, whenever it comes, exactly when nothing
      was held at its first one, or what was held has been since the message's own start or later. */
  lemma GraceRespected(w: Watch, run: seq<Event>, i: nat, l: Listing, m: Message)
    requires i < |run| && run[i].Polls? && Holding(w, run, i, |run|, m) && Oldest(After(w, run, |run|), l, m)
    requires var u := After(w, run, i); u.tagged && u.echoed && !u.peerEchoes
    ensures var u := After(w, run, i);
            (forall now :: Taken(After(w, run, |run|), l, now).Some? ==> now >= HoldStart(u, m, run[i].now) + GRACE)
            <==> u.held.None? || u.heldSince >= HoldStart(u, m, run[i].now)
  {
    hide AfterPoll, Taken, Oldest, After;
    var u := After(w, run, i);
    forall now
      ensures Taken(After(w, run, |run|), l, now).Some? <==> now >= HeldFrom(u, m, run[i].now) + GRACE
    {
      HoldDecides(w, run, i, l, now, m);
    }
    if u.held.Some? && u.heldSince < HoldStart(u, m, run[i].now) {
      assert Taken(After(w, run, |run|), l, u.heldSince + GRACE).Some?;
    }
  }

  /** A message that becomes the oldest during somebody else's hold inherits that hold's start: b
      arrives 800 ms into the hold of a, a leaves the inbox, and b is taken 1 ms after it arrived. */
  lemma HoldIsInherited(w: Watch, a: Message, b: Message, run: seq<Event>)
    requires w == Watch("peer", {}, true, {"id"}, true, false, None, 0, 0)
    requires a == Message("peer", "", Some(0), "a") && b == Message("peer", "", Some(800 * MILLISECOND), "b")
    requires run == [Polls(Files([File("1", false, true, Some(a))]), MILLISECOND),
                     Polls(Files([File("2", false, true, Some(b))]), 801 * MILLISECOND)]
    ensures Taken(w, run[0].listing, run[0].now).None?
    ensures Taken(After(w, run, 1), run[1].listing, run[1].now) == Some(b)
  {
    assert Arrived(w, []) == [];
    assert Arrived(w, run[0].listing.files) == [a];
    assert Scan(w.ids, [a], false, None) == Pass.Done(false, Some(a));
    assert After(w, run, 0) == w;
    var u := After(w, run, 1);
    assert u == w.(held := Some(a), heldSince := 0);
    assert Arrived(u, []) == [];
    assert Arrived(u, run[1].listing.files) == [b];
    assert Scan(u.ids, [b], false, None) == Pass.Done(false, Some(b));
  }
}
