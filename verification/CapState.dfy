/** The spend log and its anchor: cmd/pilotctl/appstore.go, loadCapStateRecords and
    loadCapStateRecordsAnchored.

    The chained HMAC under the node's key is a function `mac` from a record and the previous
    chain value to a chain value; `Sound` is what the proofs ask of it. Base64 is a bijection and
    is left out, so chain values and their texts are the same strings, "" meaning none. */
module CapState {
  import opened Common

  datatype Record = Record(at: int, asset: string, amount: nat)

  /** One line of the log as the reader takes it in. */
  datatype Line = Blank | Garbage | Entry(rec: Record, hmac: string)

  /** A record as loaded, with its verified chain value. */
  datatype Loaded = Loaded(rec: Record, chain: string)

  datatype Result<T> = Ok(value: T) | Refused

  /** The sidecar anchor: nothing there, something unreadable or forged, or a count and tail. */
  datatype Anchor = Missing | Corrupt | Anchored(count: int, tail: string)

  type Mac = (Record, string) -> string

  /** HMAC as the proofs need it: no two inputs share a value, and no value is empty. */
  ghost predicate Sound(mac: Mac) {
    && (forall r, p :: mac(r, p) != "")
    && (forall r, p, r', p' :: mac(r, p) == mac(r', p') ==> r == r' && p == p')
  }

  // ---------------------------------------------------------------- what a log says

  /** The entries of a log, blank lines dropped. */
  function Entries(lines: seq<Line>): (es: seq<Line>)
    ensures forall i :: 0 <= i < |es| ==> es[i] != Blank
  {
    if lines == [] then []
    else
      var rest := Entries(lines[..|lines| - 1]);
      if lines[|lines| - 1].Blank? then rest else rest + [lines[|lines| - 1]]
  }

  predicate Parsed(es: seq<Line>) { forall i :: 0 <= i < |es| ==> es[i].Entry? }

  predicate Plain(es: seq<Line>) { forall i :: 0 <= i < |es| ==> es[i].Entry? && es[i].hmac == "" }

  /** The chain value before entry i. */
  function Prev(es: seq<Line>, i: nat): string
    requires i <= |es|
  {
    if i == 0 || !es[i - 1].Entry? then "" else es[i - 1].hmac
  }

  predicate Link(es: seq<Line>, i: nat, mac: Mac)
    requires i < |es|
  {
    es[i].Entry? && es[i].hmac == mac(es[i].rec, Prev(es, i))
  }

  predicate Tagged(es: seq<Line>) { forall i :: 0 <= i < |es| ==> es[i].Entry? && es[i].hmac != "" }

  /** Every entry carries the MAC of its record and of the entry before it. */
  predicate Chained(es: seq<Line>, mac: Mac) {
    Tagged(es) && forall i :: 0 <= i < |es| ==> Link(es, i, mac)
  }

  lemma ChainedSnoc(es: seq<Line>, line: Line, mac: Mac)
    ensures Chained(es + [line], mac) <==>
              Chained(es, mac) && line.Entry? && line.hmac != "" && line.hmac == mac(line.rec, Prev(es, |es|))
  {
    var fs := es + [line];
    forall i | 0 <= i < |es|
      ensures Link(fs, i, mac) <==> Link(es, i, mac)
    {
      assert fs[i] == es[i] && Prev(fs, i) == Prev(es, i);
    }
    if line.Entry? {
      SnocKinds(es, line);
      assert Link(fs, |es|, mac) <==> line.hmac == mac(line.rec, Prev(es, |es|));
    } else {
      assert fs[|es|] == line;
    }
    hide Link, Tagged;
    if Chained(fs, mac) {
      assert forall i :: 0 <= i < |es| ==> Link(fs, i, mac);
    }
  }

  lemma ChainedPrefix(es: seq<Line>, n: nat, mac: Mac)
    requires n <= |es| && Chained(es, mac)
    ensures Chained(es[..n], mac)
  {
    assert forall i :: 0 <= i < n ==> Prev(es[..n], i) == Prev(es, i);
    assert forall i :: 0 <= i < n ==> (Link(es[..n], i, mac) <==> Link(es, i, mac));
  }

  lemma SnocKinds(es: seq<Line>, line: Line)
    requires line.Entry?
    ensures Parsed(es + [line]) <==> Parsed(es)
    ensures Tagged(es + [line]) <==> Tagged(es) && line.hmac != ""
    ensures Plain(es + [line]) <==> Plain(es) && line.hmac == ""
  {
    var fs := es + [line];
    assert fs[|es|] == line && forall i :: 0 <= i < |es| ==> fs[i] == es[i];
  }

  /** A line that breaks the chain refuses the whole log, whatever follows it. */
  lemma BrokenLink(es: seq<Line>, line: Line, all: seq<Line>, mac: Mac)
    requires es + [line] <= all && line.Entry? && line.hmac != "" && Parsed(es)
    requires !Tagged(es) || line.hmac != mac(line.rec, Prev(es, |es|))
    ensures !Acceptable(all, Some(mac))
  {
    assert all[|es|] == line;
    if Chained(all, mac) {
      ChainedPrefix(all, |es| + 1, mac);
      assert all[..|es| + 1] == es + [line];
      ChainedSnoc(es, line, mac);
    }
  }

  /** What the reader accepts: with a key, a log without MACs or one intact chain, never a mix. */
  predicate Acceptable(es: seq<Line>, key: Option<Mac>) {
    Parsed(es) && (key.Some? ==> Plain(es) || Chained(es, key.value))
  }

  function Loads(es: seq<Line>, key: Option<Mac>): seq<Loaded>
    requires Parsed(es)
  {
    seq(|es|, i requires 0 <= i < |es| => Loaded(es[i].rec, if key.Some? then es[i].hmac else ""))
  }

  lemma {:induction false} EntriesPrefix(lines: seq<Line>, k: nat)
    requires k <= |lines|
    ensures Entries(lines[..k]) <= Entries(lines)
    decreases |lines|
  {
    if k == |lines| {
      assert lines[..k] == lines;
    } else {
      var init := lines[..|lines| - 1];
      EntriesPrefix(init, k);
      assert init[..k] == lines[..k];
    }
  }

  /** The reader: one pass over the lines, carrying the previous chain value. */
  method LoadRecords(lines: seq<Line>, key: Option<Mac>) returns (r: Result<seq<Loaded>>)
    ensures r.Ok? <==> Acceptable(Entries(lines), key)
    ensures r.Ok? ==> r.value == Loads(Entries(lines), key)
  {
    assert Tagged([]) && Plain([]) && (key.Some? ==> Chained([], key.value));
    hide Tagged, Plain, Link;
    var out: seq<Loaded> := [];
    var prev := "";
    var sawHMAC, sawPlain := false, false;
    for k := 0 to |lines|
      invariant var es := Entries(lines[..k]);
                && Parsed(es) && out == Loads(es, key)
                && sawPlain == !Tagged(es) && sawHMAC == !Plain(es)
                && (key.Some? && !sawPlain ==>
                      Chained(es, key.value) && prev == Prev(es, |es|))
    {
      ghost var es := Entries(lines[..k]);
      var line := lines[k];
      assert lines[..k + 1][..k] == lines[..k];
      EntriesPrefix(lines, k + 1);
      if line.Blank? { continue; }
      if line.Garbage? {
        assert Entries(lines)[|es|] == line;
        return Refused;
      }
      SnocKinds(es, line);
      var chain := "";
      if key.Some? && line.hmac != "" {
        if key.value(line.rec, prev) != line.hmac {
          BrokenLink(es, line, Entries(lines), key.value);
          return Refused;
        }
        ChainedSnoc(es, line, key.value);
        prev := line.hmac;
        chain := line.hmac;
      }
      if line.hmac != "" {
        sawHMAC := true;
      } else {
        sawPlain := true;
      }
      out := out + [Loaded(line.rec, chain)];
    }
    assert lines[..|lines|] == lines;
    if key.Some? && sawHMAC && sawPlain { return Refused; }
    return Ok(out);
  }

  // ---------------------------------------------------------------- the anchor

  /** What the anchored reader accepts, over the log's entries and the anchor it finds. */
  predicate Admits(es: seq<Line>, key: Option<Mac>, a: Anchor, strict: bool) {
    && Acceptable(es, key)
    && (key.None? || (
          && !a.Corrupt?
          && if Plain(es) then a.Anchored? ==> a.count <= 0
             else if a.Missing? then !strict
             else a.count <= |es| && (a.count > 0 ==> es[a.count - 1].hmac == a.tail)))
  }

  /** The anchor an accepted load leaves behind, when the sidecar can be written. */
  function Advanced(es: seq<Line>, key: Option<Mac>, a: Anchor): Anchor
    requires Parsed(es)
  {
    if key.None? || Plain(es) || (a.Anchored? && |es| <= a.count) then a
    else Anchored(|es|, es[|es| - 1].hmac)
  }

  /** A line that carries a MAC. */
  predicate Authentic(line: Line) { line.Entry? && line.hmac != "" }

  /** The entries are the lines that are not blank. */
  lemma {:induction false} EntriesAre(lines: seq<Line>)
    ensures forall line :: line in Entries(lines) <==> line in lines && !line.Blank?
    ensures Parsed(Entries(lines)) <==> forall i :: 0 <= i < |lines| ==> !lines[i].Garbage?
    ensures Plain(Entries(lines)) ==> forall i :: 0 <= i < |lines| ==> !Authentic(lines[i])
    ensures Parsed(Entries(lines)) && (forall i :: 0 <= i < |lines| ==> !Authentic(lines[i])) ==> Plain(Entries(lines))
  {
    EntriesIn(lines);
    var es := Entries(lines);
    assert forall i :: 0 <= i < |es| ==> es[i] in es;
    assert forall i :: 0 <= i < |lines| ==> lines[i] in lines;
    assert forall i :: 0 <= i < |lines| && !lines[i].Blank? ==> lines[i] in es;
    hide Entries;
  }

  lemma {:induction false} EntriesIn(lines: seq<Line>)
    ensures forall line :: line in Entries(lines) <==> line in lines && !line.Blank?
  {
    if lines != [] {
      var init := lines[..|lines| - 1];
      EntriesIn(init);
      assert lines == init + [lines[|lines| - 1]];
    }
  }

  class CapStore {
    var anchor: Anchor

    constructor (a: Anchor)
      ensures anchor == a
    {
      anchor := a;
    }

    method LoadAnchored(lines: seq<Line>, key: Option<Mac>, strict: bool, writable: bool)
      returns (r: Result<seq<Loaded>>)
      modifies this
      ensures r.Ok? <==> Admits(Entries(lines), key, old(anchor), strict)
      ensures r.Ok? ==> r.value == Loads(Entries(lines), key)
      ensures anchor == if r.Ok? && writable then Advanced(Entries(lines), key, old(anchor)) else old(anchor)
      // Without a key the anchor is not looked at; with one, an unreadable or forged anchor refuses everything.
      ensures key.None? ==> anchor == old(anchor) && (r.Ok? <==> forall i :: 0 <= i < |lines| ==> !lines[i].Garbage?)
      ensures key.Some? && old(anchor).Corrupt? ==> r.Refused? && anchor == old(anchor)
      // A log without MACs is refused once a chain was anchored, one with them without an anchor in strict mode.
      ensures key.Some? && old(anchor).Anchored? && old(anchor).count > 0 && (forall i :: 0 <= i < |lines| ==> !Authentic(lines[i])) ==>
                r.Refused? && anchor == old(anchor)
      ensures key.Some? && old(anchor).Missing? && strict && (exists i :: 0 <= i < |lines| && Authentic(lines[i])) ==>
                r.Refused? && anchor == old(anchor)
    {
      ghost var es := Entries(lines);
      EntriesAre(lines);
      r := LoadRecords(lines, key);
      if r.Refused? || key.None? { return; }
      var count, tail := 0, "";
      while count < |r.value| && r.value[count].chain != ""
        invariant 0 <= count <= |es|
        invariant tail == if count == 0 then "" else es[count - 1].hmac
        invariant Chained(es, key.value) || count == 0
      {
        tail := r.value[count].chain;
        count := count + 1;
      }
      assert if Plain(es) then count == 0 else count == |es| && count > 0;
      if anchor.Corrupt? { return Refused; }
      if count == 0 {
        if anchor.Anchored? && anchor.count > 0 { return Refused; }
        return;
      }
      if anchor.Missing? {
        if strict { return Refused; }
        if writable {
          anchor := Anchored(count, tail);
        }
        return;
      }
      if count < anchor.count { return Refused; }
      if anchor.count > 0 && r.value[anchor.count - 1].chain != anchor.tail { return Refused; }
      if count > anchor.count && writable {
        anchor := Anchored(count, tail);
      }
    }
  }

  // ---------------------------------------------------------------- accepted logs only grow

  /** Two intact chains that agree on one chain value agree on everything before it. */
  lemma {:induction false} ChainDetermines(mac: Mac, a: seq<Line>, b: seq<Line>, n: nat)
    requires Sound(mac) && Chained(a, mac) && Chained(b, mac)
    requires 0 < n <= |a| && n <= |b| && a[n - 1].hmac == b[n - 1].hmac
    ensures a[..n] == b[..n]
  {
    assert Link(a, n - 1, mac) && Link(b, n - 1, mac);
    assert mac(a[n - 1].rec, Prev(a, n - 1)) == mac(b[n - 1].rec, Prev(b, n - 1));
    if n > 1 {
      ChainDetermines(mac, a, b, n - 1);
      assert a[..n] == a[..n - 1] + [a[n - 1]] && b[..n] == b[..n - 1] + [b[n - 1]];
    }
  }

  /** With an anchor taken from the chain a, a chain is accepted exactly when it continues a. */
  lemma AdmitsExtensionsOnly(mac: Mac, a: seq<Line>, b: seq<Line>, strict: bool)
    requires Sound(mac) && a != [] && Chained(a, mac) && Chained(b, mac)
    ensures Admits(b, Some(mac), Anchored(|a|, a[|a| - 1].hmac), strict) <==> a <= b
  {
    if |a| <= |b| && b[|a| - 1].hmac == a[|a| - 1].hmac {
      ChainDetermines(mac, a, b, |a|);
      assert a[..|a|] == a;
    }
    if a <= b {
      assert b[|a| - 1] == a[|a| - 1];
    }
  }

  /** One load of a run: whatever the log file holds then, and whether the strict flag is set. */
  datatype Load = Load(lines: seq<Line>, strict: bool)

  /** The anchor before load k of a run that found the anchor first, whose anchor writes succeed and
      whose anchor file nothing else changes. */
  function AnchorAt(mac: Mac, first: Anchor, run: seq<Load>, k: nat): Anchor
    requires k <= |run|
    decreases k, 0
  {
    if k == 0 then first
    else
      var a := AnchorAt(mac, first, run, k - 1);
      if Accepted(mac, first, run, k - 1) then Advanced(Entries(run[k - 1].lines), Some(mac), a) else a
  }

  predicate Accepted(mac: Mac, first: Anchor, run: seq<Load>, k: nat)
    requires k < |run|
    decreases k, 1
  {
    Admits(Entries(run[k].lines), Some(mac), AnchorAt(mac, first, run, k), run[k].strict)
  }

  /** Load k was accepted and its log carried an authenticated chain. */
  predicate Authenticated(mac: Mac, first: Anchor, run: seq<Load>, k: nat)
    requires k < |run|
  {
    Accepted(mac, first, run, k) && !Plain(Entries(run[k].lines))
  }

  /** The anchor a run holds was taken from a chain of the run that continues every authenticated
      log accepted so far. */
  lemma {:induction false} AnchorRemembers(mac: Mac, first: Anchor, run: seq<Load>, i: nat, k: nat) returns (top: seq<Line>)
    requires Sound(mac) && i < k <= |run| && Authenticated(mac, first, run, i)
    ensures top != [] && Chained(top, mac)
    ensures AnchorAt(mac, first, run, k) == Anchored(|top|, top[|top| - 1].hmac)
    ensures Entries(run[i].lines) <= top
    decreases k
  {
    var es := Entries(run[k - 1].lines);
    if i == k - 1 {
      top := es;
      var a := AnchorAt(mac, first, run, i);
      if a.Anchored? && |es| <= a.count {
        assert a.count == |es| && a.tail == es[|es| - 1].hmac;
      }
    } else {
      top := AnchorRemembers(mac, first, run, i, k - 1);
      if Accepted(mac, first, run, k - 1) {
        AdmitsExtensionsOnly(mac, top, es, run[k - 1].strict);
        if |top| < |es| {
          top := es;
        }
      }
    }
  }

  /** Accepted authenticated logs are prefix-monotone: a later one starts with every record of
      each earlier one, whatever the log file was changed to in between. */
  lemma AcceptedLogsGrow(mac: Mac, first: Anchor, run: seq<Load>, i: nat, j: nat)
    requires Sound(mac) && i < j < |run| && Authenticated(mac, first, run, i) && Accepted(mac, first, run, j)
    ensures Authenticated(mac, first, run, j) && Parsed(Entries(run[j].lines))
    ensures Entries(run[i].lines) <= Entries(run[j].lines)
  {
    var top := AnchorRemembers(mac, first, run, i, j);
    assert !Plain(Entries(run[j].lines));
    AdmitsExtensionsOnly(mac, top, Entries(run[j].lines), run[j].strict);
  }

  /** From an anchor that is unreadable or forged no load of any run is accepted: garbling the sidecar
      erases nothing. */
  lemma {:induction false} CorruptRefusesAll(mac: Mac, run: seq<Load>, k: nat)
    requires k <= |run|
    ensures AnchorAt(mac, Corrupt, run, k) == Corrupt
    ensures k < |run| ==> !Accepted(mac, Corrupt, run, k)
  {
    if k > 0 {
      CorruptRefusesAll(mac, run, k - 1);
    }
  }

  /** The first authenticated log is accepted without an anchor, unless strict, and anchored whole. */
  lemma FirstLogAnchored(mac: Mac, es: seq<Line>, strict: bool)
    requires es != [] && Chained(es, mac)
    ensures Admits(es, Some(mac), Missing, strict) <==> !strict
    ensures Advanced(es, Some(mac), Missing) == Anchored(|es|, es[|es| - 1].hmac)
  {
    assert es[0].Entry? && es[0].hmac != "";
  }

  /** Adding to an anchored chain moves the anchor to its end; loading it again leaves the anchor. */
  lemma AnchorFollows(mac: Mac, a: seq<Line>, b: seq<Line>)
    requires a != [] && a <= b && Chained(b, mac)
    ensures Advanced(b, Some(mac), Anchored(|a|, a[|a| - 1].hmac)) == Anchored(|b|, b[|b| - 1].hmac)
  {
    assert b[0].Entry? && b[0].hmac != "";
    if |a| == |b| {
      assert a == b;
    }
  }

  // ---------------------------------------------------------------- reported usage

  const UINT64: nat := 0x1_0000_0000_0000_0000

  /** The spend recorded for an asset since cutoff, as a true sum. */
  function Spent(es: seq<Line>, asset: string, cutoff: int): nat
    requires Parsed(es)
  {
    if es == [] then 0
    else
      var e := es[|es| - 1].rec;
      Spent(es[..|es| - 1], asset, cutoff) + if e.asset == asset && e.at >= cutoff then e.amount else 0
  }

  /** The usage report over a loaded log: a uint64 accumulator, which wraps. */
  method Used(es: seq<Line>, asset: string, cutoff: int) returns (used: nat)
    requires Parsed(es)
    ensures used == Spent(es, asset, cutoff) % UINT64
  {
    used := 0;
    for k := 0 to |es|
      invariant used == Spent(es[..k], asset, cutoff) % UINT64
    {
      assert es[..k + 1][..k] == es[..k];
      var r := es[k].rec;
      if r.asset != asset || r.at < cutoff { continue; }
      used := (used + r.amount) % UINT64;
    }
    assert es[..|es|] == es;
  }

  /** Records of another asset, or from before the cutoff, count for nothing ... */
  lemma {:induction false} OthersCountNothing(es: seq<Line>, asset: string, cutoff: int)
    requires Parsed(es) && forall i :: 0 <= i < |es| ==> es[i].rec.asset != asset || es[i].rec.at < cutoff
    ensures Spent(es, asset, cutoff) == 0
  {
    if es != [] {
      OthersCountNothing(es[..|es| - 1], asset, cutoff);
    }
  }

  /** ... and every other record, wherever it stands, for exactly its amount. */
  lemma EachCountsOnce(es: seq<Line>, k: nat, asset: string, cutoff: int)
    requires Parsed(es) && k < |es| && es[k].rec.asset == asset && es[k].rec.at >= cutoff
    ensures Spent(es, asset, cutoff) == Spent(es[..k], asset, cutoff) + es[k].rec.amount + Spent(es[k + 1..], asset, cutoff)
  {
    SpentSplits(es, k, asset, cutoff);
    SpentSplits(es[k..], 1, asset, cutoff);
    assert es[k..][1..] == es[k + 1..] && es[k..][..1] == [es[k]];
    assert [es[k]][..0] == [];
    assert Spent([], asset, cutoff) == 0;
  }

  lemma {:induction false} SpentSplits(es: seq<Line>, n: nat, asset: string, cutoff: int)
    requires Parsed(es) && n <= |es|
    ensures Spent(es, asset, cutoff) == Spent(es[..n], asset, cutoff) + Spent(es[n..], asset, cutoff)
    decreases |es|
  {
    if n == |es| {
      assert es[..n] == es && es[n..] == [];
    } else {
      var init := es[..|es| - 1];
      SpentSplits(init, n, asset, cutoff);
      assert init[..n] == es[..n] && es[n..][..|es| - n - 1] == init[n..];
    }
  }

  /** The true sum never decreases from one accepted authenticated log to a later one. The
      reported uint64 keeps that exactly when adding the new spends to it does not carry out of
      64 bits. */
  lemma UsageNeverDecreases(mac: Mac, first: Anchor, run: seq<Load>, i: nat, j: nat, asset: string, cutoff: int)
    requires Sound(mac) && i < j < |run| && Authenticated(mac, first, run, i) && Accepted(mac, first, run, j)
    ensures var es, fs := Entries(run[i].lines), Entries(run[j].lines);
            && es <= fs
            && Spent(es, asset, cutoff) <= Spent(fs, asset, cutoff)
            && (Spent(es, asset, cutoff) % UINT64 <= Spent(fs, asset, cutoff) % UINT64 <==>
                Spent(es, asset, cutoff) % UINT64 + Spent(fs[|es|..], asset, cutoff) % UINT64 < UINT64)
  {
    hide AnchorAt, Accepted, Authenticated, Spent, Chained, Sound, Admits;
    AcceptedLogsGrow(mac, first, run, i, j);
    var es, fs := Entries(run[i].lines), Entries(run[j].lines);
    SpentSplits(fs, |es|, asset, cutoff);
    assert fs[..|es|] == es;
    WrapCarries(Spent(es, asset, cutoff), Spent(fs[|es|..], asset, cutoff));
  }

  lemma WrapCarries(a: nat, b: nat)
    ensures a % UINT64 <= (a + b) % UINT64 <==> a % UINT64 + b % UINT64 < UINT64
  {
    var x, y := a % UINT64, b % UINT64;
    assert (a + b) % UINT64 == if x + y < UINT64 then x + y else x + y - UINT64;
  }

  /** A carry does happen: two accepted spends that together fill 64 bits report as nothing spent. */
  lemma WrappedUsage(mac: Mac, e: Line, f: Line, run: seq<Load>)
    requires Sound(mac)
    requires e == Entry(Record(0, "usd", UINT64 - 1), mac(Record(0, "usd", UINT64 - 1), ""))
    requires f == Entry(Record(0, "usd", 1), mac(Record(0, "usd", 1), e.hmac))
    requires run == [Load([e], false), Load([e, f], false)]
    ensures Accepted(mac, Missing, run, 0) && Accepted(mac, Missing, run, 1)
    ensures Spent(Entries(run[0].lines), "usd", 0) % UINT64 == UINT64 - 1
    ensures Spent(Entries(run[1].lines), "usd", 0) % UINT64 == 0
  {
    WrappedEntries(e, f);
    assert e.hmac != "" && f.hmac != "";
    hide Sound, Entries, Spent;
    assert Chained([], mac);
    ChainedSnoc([], e, mac);
    ChainedSnoc([e], f, mac);
    assert [] + [e] == [e] && [e] + [f] == [e, f];
    hide Chained;
    assert AnchorAt(mac, Missing, run, 1) == Anchored(1, e.hmac);
  }

  lemma WrappedEntries(e: Line, f: Line)
    requires e.Entry? && e.rec == Record(0, "usd", UINT64 - 1) && f.Entry? && f.rec == Record(0, "usd", 1)
    ensures Entries([e]) == [e] && Entries([e, f]) == [e, f]
    ensures Spent([e], "usd", 0) % UINT64 == UINT64 - 1 && Spent([e, f], "usd", 0) % UINT64 == 0
  {
    assert [e][..0] == [] && [e, f][..1] == [e];
    assert Entries([]) == [] && Entries([e]) == [e];
    assert Spent([], "usd", 0) == 0 && Spent([e], "usd", 0) == UINT64 - 1;
  }
}
