/**
  Reassembly of lines from UDP datagrams (receiver/udp.go). The clock is an object whose time never
  goes back; peers and datagrams come in any interleaving.
 */
module Udp {
  import opened Points
  import opened TextLines

  type Peer = string

  // ---- The clock and the storage ----

  class Clock {
    var now: int

    constructor () { now := 0; }

    /** time.Now. */
    method Now() returns (t: int)
      modifies this
      ensures old(now) <= t == now
    {
      var passed :| 0 <= passed;
      now := now + passed;
      return now;
    }
  }

  datatype Record = Record(deadline: int, data: string)

  /** What the storage is asked to do: hand out a peer's tail, at that time, or keep one. */
  datatype Event = Asked(peer: Peer, at: int) | Kept(peer: Peer, record: Record)

  function After(tails: map<Peer, Record>, e: Event): map<Peer, Record> {
    match e
    case Asked(p, at) => tails - {p}
    case Kept(p, r) => tails[p := r]
  }

  /** The tails that were kept and not asked for since. */
  function TailsIn(log: seq<Event>): map<Peer, Record> {
    if log == [] then map[] else After(TailsIn(log[..|log| - 1]), log[|log| - 1])
  }

  lemma TailsSnoc(log: seq<Event>, e: Event)
    ensures TailsIn(log + [e]) == After(TailsIn(log), e)
  {
    assert (log + [e])[..|log|] == log;
  }

  const SECOND: int := 1_000_000_000

  class IncompleteStorage {
    var records: map<Peer, Record>
    var expires: int
    var nextPurge: int
    var maxSize: int
    const clock: Clock
    ghost var tails: map<Peer, Record>    // history: the last tail of each peer that was not popped since
    ghost var log: seq<Event>             // history: every Store and Pop, with its time

    /** Only expired tails may be missing. */
    ghost predicate Valid()
      reads this, clock
    {
      && expires == 5 * SECOND
      && tails == TailsIn(log)
      && (forall p :: p in records ==> p in tails && records[p] == tails[p])
      && (forall p :: p in tails && p !in records ==> tails[p].deadline < clock.now)
    }

    constructor (clock: Clock)
      modifies clock
      ensures Valid() && this.clock == clock && records == map[] && log == [] && maxSize == 10000
      ensures old(clock.now) + 1_000_000_000 <= nextPurge <= clock.now + 1_000_000_000
    {
      this.clock, records, tails, log, expires, maxSize := clock, map[], map[], [], 5 * SECOND, 10000;
      nextPurge := 0;
      new;
      var t := clock.Now();
      nextPurge := t + SECOND;
    }

    /** History: one more event. */
    ghost method Note(e: Event)
      requires tails == TailsIn(log)
      modifies this`tails, this`log
      ensures tails == After(old(tails), e) == TailsIn(log) && log == old(log) + [e]
    {
      TailsSnoc(log, e);
      tails, log := After(tails, e), log + [e];
    }

    /** The assignment to the map in Store. */
    method Put(addr: Peer, data: string)
      requires Valid()
      modifies this`records, this`tails, this`log, clock
      ensures Valid() && old(clock.now) <= clock.now
      ensures addr in tails && tails[addr] == Record(clock.now + expires, data)
      ensures tails == old(tails)[addr := tails[addr]] && log == old(log) + [Kept(addr, tails[addr])]
      ensures records == old(records)[addr := tails[addr]] && records.Keys == old(records.Keys) + {addr}
    {
      var t := clock.Now();
      records := records[addr := Record(t + expires, data)];
      Note(Kept(addr, Record(t + expires, data)));
    }

    method Store(addr: Peer, data: string)
      requires Valid()
      modifies this, clock
      ensures Valid() && old(clock.now) <= clock.now
      ensures addr in tails && tails[addr].data == data
      ensures old(clock.now) + 5_000_000_000 <= tails[addr].deadline <= clock.now + 5_000_000_000
      ensures tails == old(tails)[addr := tails[addr]] && log == old(log) + [Kept(addr, tails[addr])]
      ensures |old(records.Keys) + {addr}| < maxSize || old(nextPurge) > clock.now ==>
                records == old(records)[addr := tails[addr]] && nextPurge == old(nextPurge)
      ensures |old(records.Keys) + {addr}| >= maxSize && old(nextPurge) <= old(clock.now) ==>
                && nextPurge >= old(clock.now) + 1_000_000_000
                && forall p :: p in records ==> records[p].deadline >= old(clock.now)
    {
      Put(addr, data);
      CheckAndClear();
    }

    /** The tail comes back unless its deadline is over; either way it is gone from the storage. */
    method Pop(addr: Peer) returns (data: string, found: bool)
      requires Valid()
      modifies this, clock
      ensures Valid() && old(clock.now) <= clock.now
      ensures tails == old(tails) - {addr} && log == old(log) + [Asked(addr, clock.now)]
      ensures addr !in old(tails) ==> !found
      ensures addr in old(tails) ==> (found <==> clock.now <= old(tails)[addr].deadline)
      ensures if found then data == old(tails)[addr].data else data == []
    {
      data, found := [], false;
      if addr in records {
        var record := records[addr];
        records := records - {addr};
        var t := clock.Now();
        if t <= record.deadline {
          data, found := record.data, true;
        }
      }
      Note(Asked(addr, clock.now));
    }

    /** The range loop: expired records are deleted. */
    method Purge()
      requires Valid()
      modifies this`records, this`nextPurge, clock
      ensures Valid() && old(clock.now) <= clock.now
      ensures forall p :: p in records ==>
                p in old(records) && records[p] == old(records)[p] && records[p].deadline >= old(clock.now)
      ensures forall p :: p in old(records) && p !in records ==> old(records)[p].deadline < clock.now
      ensures nextPurge == clock.now + 1_000_000_000
    {
      var t := clock.Now();
      var rest := records.Keys;
      ghost var start := records;
      while rest != {}
        invariant rest <= records.Keys && clock.now == t
        invariant forall p :: p in records ==> p in start && records[p] == start[p]
        invariant forall p :: p in start && p !in records ==> start[p].deadline < t
        invariant forall p :: p in records && p !in rest ==> start[p].deadline >= t
        decreases |rest|
      {
        var key :| key in rest;
        if records[key].deadline < t {
          records := records - {key};
        }
        rest := rest - {key};
      }
      var now := clock.Now();
      nextPurge := now + SECOND;
    }

    method CheckAndClear()
      requires Valid()
      modifies this`records, this`nextPurge, clock
      ensures Valid() && old(clock.now) <= clock.now
      ensures |old(records)| < maxSize || old(nextPurge) > clock.now ==>
                records == old(records) && nextPurge == old(nextPurge)
      ensures |old(records)| >= maxSize && old(nextPurge) <= old(clock.now) ==>
                && nextPurge >= old(clock.now) + 1_000_000_000
                && forall p :: p in records ==> records[p].deadline >= old(clock.now)
    {
      if |records| < maxSize {
        return;
      }
      var t := clock.Now();
      if nextPurge > t {
        return;
      }
      Purge();
    }
  }

  // ---- The receive loop ----

  type Streams = map<Peer, string>

  function StreamIn(streams: Streams, p: Peer): string {
    if p in streams then streams[p] else []
  }

  type Given = map<Peer, seq<string>>

  function GivenTo(given: Given, p: Peer): seq<string> {
    if p in given then given[p] else []
  }

  /** The parser got the lines of the peer's stream, and the unfinished line is stored. */
  ghost predicate PeerOk(stream: string, given: seq<string>, tails: map<Peer, Record>, p: Peer) {
    && given == Lines(stream)
    && (p in tails <==> Tail(stream) != [])
    && (p in tails ==> tails[p].data == Tail(stream))
  }

  ghost predicate Reassembled(streams: Streams, given: Given, tails: map<Peer, Record>) {
    forall p :: PeerOk(StreamIn(streams, p), GivenTo(given, p), tails, p)
  }

  /** A datagram behind the tail or, if that was lost, alone. */
  lemma NextPiece(stream: string, given: seq<string>, late: bool, datagram: string, data: string)
    requires given == Lines(stream) && data == (if late then [] else Tail(stream)) + datagram
    ensures var stream' := (if late then Complete(stream) else stream) + datagram;
            Lines(stream') == given + Lines(data) && Tail(stream') == Tail(data)
  {
    if late { CompleteHasAllLines(stream); }
    CutAnywhere(if late then Complete(stream) else stream, datagram);
  }

  lemma OneDatagram(streams: Streams, given: Given, tails: map<Peer, Record>, peer: Peer, late: bool, datagram: string,
                    data: string, streams': Streams, given': Given, tails': map<Peer, Record>)
    requires Reassembled(streams, given, tails)
    requires var s := StreamIn(streams, peer);
             && data == (if late then [] else Tail(s)) + datagram
             && streams' == streams[peer := (if late then Complete(s) else s) + datagram]
             && given' == given[peer := GivenTo(given, peer) + Lines(data)]
    requires (peer in tails' <==> Tail(data) != []) && (peer in tails' ==> tails'[peer].data == Tail(data))
    requires tails' - {peer} == tails - {peer}
    ensures Reassembled(streams', given', tails')
  {
    forall p
      ensures PeerOk(StreamIn(streams', p), GivenTo(given', p), tails', p)
    {
      assert p != peer ==> (p in tails' <==> p in tails' - {peer}) && (p in tails <==> p in tails - {peer});
      assert PeerOk(StreamIn(streams, p), GivenTo(given, p), tails, p);
      if p == peer { NextPiece(StreamIn(streams, p), GivenTo(given, p), late, datagram, data); }
    }
  }

  /** The datagrams of one peer, put together. */
  function Sent(datagrams: seq<(Peer, string)>, p: Peer): string {
    if datagrams == [] then []
    else
      var (peer, bytes) := datagrams[|datagrams| - 1];
      Sent(datagrams[..|datagrams| - 1], p) + (if peer == p then bytes else [])
  }

  // ---- The history of a run ----

  /** A datagram, when the storage was asked for the peer's tail, and the tail that was kept then. */
  datatype Received = Received(peer: Peer, bytes: string, popped: int, left: Option<Record>)

  function DatagramsOf(h: seq<Received>): (datagrams: seq<(Peer, string)>)
    ensures |datagrams| == |h| && forall k :: 0 <= k < |h| ==> datagrams[k] == (h[k].peer, h[k].bytes)
  {
    seq(|h|, k requires 0 <= k < |h| => (h[k].peer, h[k].bytes))
  }

  function KeptEvents(p: Peer, left: Option<Record>): seq<Event> {
    match left case None => [] case Some(r) => [Kept(p, r)]
  }

  function TailOf(tails: map<Peer, Record>, p: Peer): Option<Record> {
    if p in tails then Some(tails[p]) else None
  }

  /** What a datagram made the storage do. */
  function EventsOfOne(e: Received): seq<Event> {
    [Asked(e.peer, e.popped)] + KeptEvents(e.peer, e.left)
  }

  function EventsOf(h: seq<Received>): seq<Event> {
    if h == [] then [] else EventsOf(h[..|h| - 1]) + EventsOfOne(h[|h| - 1])
  }

  /** The tail that the peer's last datagram left. */
  function LastLeft(h: seq<Received>, p: Peer): Option<Record> {
    if h == [] then None
    else if h[|h| - 1].peer == p then h[|h| - 1].left
    else LastLeft(h[..|h| - 1], p)
  }

  /** After `h`, the peer of `e` has a tail, and it is asked for after its deadline. */
  predicate Late(h: seq<Received>, e: Received) {
    LastLeft(h, e.peer).Some? && LastLeft(h, e.peer).value.deadline < e.popped
  }

  /** The stream of a peer without the tails that were lost. */
  function Remaining(h: seq<Received>, p: Peer): string {
    if h == [] then []
    else
      var before, e := h[..|h| - 1], h[|h| - 1];
      if e.peer != p then Remaining(before, p)
      else (if Late(before, e) then Complete(Remaining(before, p)) else Remaining(before, p)) + e.bytes
  }

  /** No tail of the peer was asked for after its deadline. */
  predicate Prompt(h: seq<Received>, p: Peer) {
    h == [] ||
    var before, e := h[..|h| - 1], h[|h| - 1];
    Prompt(before, p) && (e.peer == p ==> !Late(before, e))
  }

  /** A tail is kept exactly when there is one, with a deadline five seconds after some moment in between. */
  ghost predicate KeptInTime(left: Option<Record>, tail: string, from: int, to: int) {
    match left
    case None => tail == []
    case Some(r) => r.data == tail != [] && from + 5 * SECOND <= r.deadline <= to + 5 * SECOND
  }

  /** Each datagram left the unfinished line of what remains of its peer's stream, if there was one. */
  predicate LeavesTails(h: seq<Received>) {
    h == [] ||
    var before, e := h[..|h| - 1], h[|h| - 1];
    var tail := Tail(Remaining(h, e.peer));
    && LeavesTails(before)
    && (e.left.None? ==> tail == [])
    && (e.left.Some? ==> e.left.value.data == tail != [])
  }

  /**
    The times go up from `from` to `to`; a tail's deadline is five seconds after it was kept, which was
    before the next pop.
   */
  predicate Timed(h: seq<Received>, from: int, to: int) {
    if h == [] then from <= to
    else
      var e := h[|h| - 1];
      && Timed(h[..|h| - 1], from, e.popped) && e.popped <= to
      && (e.left.Some? ==> e.popped + 5_000_000_000 <= e.left.value.deadline <= to + 5_000_000_000)
  }

  /** Of two datagrams: when their tails were asked for, and when the tail of the first one expires. */
  lemma {:induction false} TimesGoUp(h: seq<Received>, from: int, to: int, i: nat, j: nat)
    requires Timed(h, from, to) && i < j < |h|
    ensures from <= h[i].popped <= h[j].popped <= to
    ensures h[i].left.Some? ==>
              h[i].popped + 5_000_000_000 <= h[i].left.value.deadline <= h[j].popped + 5_000_000_000
    decreases |h|
  {
    var before := h[..|h| - 1];
    if j < |h| - 1 {
      TimesGoUp(before, from, h[|h| - 1].popped, i, j);
    } else if i < j - 1 {
      TimesGoUp(before, from, h[j].popped, i, j - 1);
    } else {
      TimesStart(before[..i], from, before[i].popped);
    }
  }

  lemma {:induction false} TimesStart(h: seq<Received>, from: int, to: int)
    requires Timed(h, from, to)
    ensures from <= to
    decreases |h|
  {
    if h != [] { TimesStart(h[..|h| - 1], from, h[|h| - 1].popped); }
  }

  ghost predicate TailIs(h: seq<Received>, streams: Streams, tails: map<Peer, Record>, p: Peer) {
    && StreamIn(streams, p) == Remaining(h, p)
    && LastLeft(h, p) == TailOf(tails, p)
  }

  /** The history is true to the streams and tails. */
  ghost predicate HistoryOk(h: seq<Received>, streams: Streams, tails: map<Peer, Record>) {
    LeavesTails(h) && forall p :: TailIs(h, streams, tails, p)
  }

  lemma Snoc(h: seq<Received>, e: Received)
    ensures (h + [e])[..|h|] == h
  {
  }

  lemma OtherTail(h: seq<Received>, e: Received, streams: Streams, tails: map<Peer, Record>,
                  streams': Streams, tails': map<Peer, Record>, p: Peer)
    requires TailIs(h, streams, tails, p) && p != e.peer && StreamIn(streams', p) == StreamIn(streams, p)
    requires tails' - {e.peer} == tails - {e.peer}
    ensures TailIs(h + [e], streams', tails', p)
  {
    Snoc(h, e);
    assert p in tails' <==> p in tails' - {e.peer};
    assert p in tails <==> p in tails - {e.peer};
    if p in tails { assert (tails' - {e.peer})[p] == (tails - {e.peer})[p]; }
  }

  lemma OwnTail(h: seq<Received>, e: Received, stream: string, streams': Streams, tails': map<Peer, Record>)
    requires LeavesTails(h) && stream == Remaining(h, e.peer)
    requires StreamIn(streams', e.peer) == (if Late(h, e) then Complete(stream) else stream) + e.bytes
    requires e.left == TailOf(tails', e.peer)
    requires (e.peer in tails' <==> Tail(StreamIn(streams', e.peer)) != [])
    requires (e.peer in tails' ==> tails'[e.peer].data == Tail(StreamIn(streams', e.peer)))
    ensures TailIs(h + [e], streams', tails', e.peer) && LeavesTails(h + [e])
  {
    Snoc(h, e);
  }

  lemma HistoryGoesOn(h: seq<Received>, e: Received, streams: Streams, tails: map<Peer, Record>,
                      streams': Streams, given': Given, tails': map<Peer, Record>)
    requires HistoryOk(h, streams, tails) && Reassembled(streams', given', tails')
    requires var s := StreamIn(streams, e.peer);
             streams' == streams[e.peer := (if Late(h, e) then Complete(s) else s) + e.bytes]
    requires e.left == TailOf(tails', e.peer)
    requires tails' - {e.peer} == tails - {e.peer}
    ensures HistoryOk(h + [e], streams', tails')
  {
    assert TailIs(h, streams, tails, e.peer);
    assert PeerOk(StreamIn(streams', e.peer), GivenTo(given', e.peer), tails', e.peer);
    OwnTail(h, e, StreamIn(streams, e.peer), streams', tails');
    forall p | p != e.peer
      ensures TailIs(h + [e], streams', tails', p)
    {
      OtherTail(h, e, streams, tails, streams', tails', p);
    }
  }

  lemma NothingYet(tails: map<Peer, Record>)
    requires Reassembled(map[], map[], tails)
    ensures HistoryOk([], map[], tails)
  {
    forall p
      ensures p !in tails
    {
      assert PeerOk(StreamIn(map[], p), GivenTo(map[], p), tails, p);
    }
  }

  lemma EventsSnoc(log: seq<Event>, h: seq<Received>, e: Received)
    ensures log + EventsOf(h) + EventsOfOne(e) == log + EventsOf(h + [e])
  {
    Snoc(h, e);
  }

  lemma DatagramsSnoc(datagrams: seq<(Peer, string)>, n: nat, h: seq<Received>, e: Received)
    requires n < |datagrams| && DatagramsOf(h) == datagrams[..n] && datagrams[n] == (e.peer, e.bytes)
    ensures DatagramsOf(h + [e]) == datagrams[..n + 1]
  {
    assert |h| == |DatagramsOf(h)| == n;
    forall k | 0 <= k < n
      ensures DatagramsOf(h + [e])[k] == datagrams[k]
    {
      assert DatagramsOf(h)[k] == datagrams[..n][k];
    }
  }

  lemma LateIs(h: seq<Received>, e: Received, streams: Streams, tails: map<Peer, Record>)
    requires TailIs(h, streams, tails, e.peer)
    ensures Late(h, e) <==> e.peer in tails && tails[e.peer].deadline < e.popped
  {
  }

  lemma TimeGoesOn(h: seq<Received>, e: Received, from: int, now: int, later: int)
    requires Timed(h, from, now) && now <= e.popped <= later
    requires e.left.Some? ==> e.popped + 5 * SECOND <= e.left.value.deadline <= later + 5 * SECOND
    ensures Timed(h + [e], from, later)
  {
    Snoc(h, e);
  }

  lemma GoesOn(h: seq<Received>, e: Received, from: int, now: int, later: int, late: bool,
               streams: Streams, tails: map<Peer, Record>, streams': Streams, given': Given, tails': map<Peer, Record>)
    requires HistoryOk(h, streams, tails) && Timed(h, from, now) && Reassembled(streams', given', tails')
    requires now <= e.popped <= later && (late <==> e.peer in tails && tails[e.peer].deadline < e.popped)
    requires var s := StreamIn(streams, e.peer);
             streams' == streams[e.peer := (if late then Complete(s) else s) + e.bytes]
    requires e.left == TailOf(tails', e.peer)
    requires KeptInTime(e.left, Tail(StreamIn(streams', e.peer)), e.popped, later)
    requires tails' - {e.peer} == tails - {e.peer}
    ensures HistoryOk(h + [e], streams', tails') && Timed(h + [e], from, later)
  {
    assert TailIs(h, streams, tails, e.peer);
    LateIs(h, e, streams, tails);
    HistoryGoesOn(h, e, streams, tails, streams', given', tails');
    TimeGoesOn(h, e, from, now, later);
  }

  // ---- What a peer gets ----

  lemma {:induction false} LeftIsTail(h: seq<Received>, p: Peer)
    requires LeavesTails(h)
    ensures LastLeft(h, p).Some? ==> Tail(Remaining(h, p)) != []
  {
    if h != [] { LeftIsTail(h[..|h| - 1], p); }
  }

  lemma SentBefore(h: seq<Received>, p: Peer)
    requires h != []
    ensures var before, e := h[..|h| - 1], h[|h| - 1];
            Sent(DatagramsOf(h), p) == Sent(DatagramsOf(before), p) + (if e.peer == p then e.bytes else [])
  {
    assert DatagramsOf(h)[..|h| - 1] == DatagramsOf(h[..|h| - 1]);
  }

  /** A prompt peer has lost nothing, and any other has. */
  lemma {:induction false} RemainingIsSent(h: seq<Received>, p: Peer)
    requires LeavesTails(h)
    ensures Prompt(h, p) ==> Remaining(h, p) == Sent(DatagramsOf(h), p)
    ensures !Prompt(h, p) ==> |Remaining(h, p)| < |Sent(DatagramsOf(h), p)|
  {
    if h != [] {
      var before, e := h[..|h| - 1], h[|h| - 1];
      RemainingIsSent(before, p);
      LeftIsTail(before, p);
      SentBefore(h, p);
      assert Tail(Remaining(before, p)) != [] ==> |Complete(Remaining(before, p))| < |Remaining(before, p)|;
    }
  }

  /** A stream is known from its lines and its tail. */
  lemma SameStream(a: string, b: string)
    requires Lines(a) == Lines(b) && Tail(a) == Tail(b)
    ensures a == b
  {
    LinesAreTheStream(a);
    LinesAreTheStream(b);
  }

  /** A peer is served right exactly when it is prompt. */
  lemma RightWhenPrompt(h: seq<Received>, given: Given, tails: map<Peer, Record>, p: Peer)
    requires LeavesTails(h)
    requires PeerOk(Remaining(h, p), GivenTo(given, p), tails, p)
    ensures PeerOk(Sent(DatagramsOf(h), p), GivenTo(given, p), tails, p) <==> Prompt(h, p)
  {
    RemainingIsSent(h, p);
    if PeerOk(Sent(DatagramsOf(h), p), GivenTo(given, p), tails, p) {
      SameStream(Remaining(h, p), Sent(DatagramsOf(h), p));
    }
  }

  lemma AllRight(h: seq<Received>, streams: Streams, given: Given, tails: map<Peer, Record>)
    requires HistoryOk(h, streams, tails) && Reassembled(streams, given, tails)
    ensures forall p :: PeerOk(Remaining(h, p), GivenTo(given, p), tails, p)
    ensures forall p :: PeerOk(Sent(DatagramsOf(h), p), GivenTo(given, p), tails, p) <==> Prompt(h, p)
  {
    forall p
      ensures PeerOk(Remaining(h, p), GivenTo(given, p), tails, p)
      ensures PeerOk(Sent(DatagramsOf(h), p), GivenTo(given, p), tails, p) <==> Prompt(h, p)
    {
      assert TailIs(h, streams, tails, p) && PeerOk(StreamIn(streams, p), GivenTo(given, p), tails, p);
      RightWhenPrompt(h, given, tails, p);
    }
  }

  /** A character and the end of its line. */
  lemma TwoBytes(s: string, c: char)
    requires c != NEWLINE && Lines(s) == []
    ensures Lines(s + [c]) == [] && Tail(s + [c]) == Tail(s) + [c]
    ensures Lines(s + [c, NEWLINE]) == [Tail(s) + [c, NEWLINE]] && Tail(s + [c, NEWLINE]) == []
  {
    OneByte(s, c);
    OneByte(s + [c], NEWLINE);
    assert s + [c, NEWLINE] == s + [c] + [NEWLINE];
    assert Tail(s) + [c] + [NEWLINE] == Tail(s) + [c, NEWLINE];
  }

  lemma RemainingSnoc(h: seq<Received>, e: Received)
    ensures Remaining(h + [e], e.peer) ==
            (if Late(h, e) then Complete(Remaining(h, e.peer)) else Remaining(h, e.peer)) + e.bytes
    ensures LeavesTails(h + [e]) ==> LeavesTails(h) && LastLeft(h + [e], e.peer) == e.left
    ensures Sent(DatagramsOf(h + [e]), e.peer) == Sent(DatagramsOf(h), e.peer) + e.bytes
  {
    Snoc(h, e);
    SentBefore(h + [e], e.peer);
  }

  lemma LineOf(x: char, y: char)
    requires y != NEWLINE && Lines([x]) == [] && Tail([x]) == [x]
    ensures Lines([x] + [y, NEWLINE]) == [[x, y, NEWLINE]] && Lines([] + [y, NEWLINE]) == [[y, NEWLINE]]
  {
    TwoBytes([], y);
    TwoBytes([x], y);
    assert [x] + [y, NEWLINE] == [x, y, NEWLINE] && [] + [y, NEWLINE] == [y, NEWLINE];
  }

  /** The second of two datagrams, with the end of the line. */
  lemma LineEnds(h: seq<Received>, second: Received, x: char, y: char)
    requires second.bytes == [y, NEWLINE] && y != NEWLINE
    requires Lines([x]) == [] && Tail([x]) == [x] && Complete([x]) == []
    requires Remaining(h, second.peer) == [x] == Sent(DatagramsOf(h), second.peer)
    ensures Lines(Sent(DatagramsOf(h + [second]), second.peer)) == [[x, y, NEWLINE]]
    ensures Lines(Remaining(h + [second], second.peer)) == if Late(h, second) then [[y, NEWLINE]] else [[x, y, NEWLINE]]
  {
    RemainingSnoc(h, second);
    LineOf(x, y);
  }

  /** The smallest loss: a line in two datagrams, the second one after the deadline of the first one's tail. */
  lemma LateTailIsLost(first: Received, second: Received, x: char, y: char)
    requires first.peer == second.peer && first.bytes == [x] && second.bytes == [y, NEWLINE]
    requires x != NEWLINE && y != NEWLINE && LeavesTails([first] + [second])
    ensures first.left.Some? && first.left.value.data == [x]
    ensures Lines(Sent(DatagramsOf([first] + [second]), first.peer)) == [[x, y, NEWLINE]]
    ensures Lines(Remaining([first] + [second], first.peer)) ==
            if first.left.value.deadline < second.popped then [[y, NEWLINE]] else [[x, y, NEWLINE]]
  {
    var h := [first];
    OneRemains(first, x);
    LineEnds(h, second, x, y);
    Snoc(h, second);
    assert Late(h, second) <==> first.left.value.deadline < second.popped;
  }

  lemma OneRemains(first: Received, x: char)
    requires first.bytes == [x] && x != NEWLINE
    ensures Remaining([first], first.peer) == [x] == Sent(DatagramsOf([first]), first.peer)
    ensures Lines([x]) == [] && Tail([x]) == [x] && Complete([x]) == []
    ensures LastLeft([first], first.peer) == first.left
    ensures LeavesTails([first]) ==> first.left.Some? && first.left.value.data == [x]
  {
    TwoBytes([], x);
    RemainingSnoc([], first);
    assert [] + [x] == [x] && [] + [first] == [first];
  }

  lemma Absent(tails: map<Peer, Record>, p: Peer)
    requires p !in tails
    ensures tails - {p} == tails
  {
  }

  lemma Restored(tails: map<Peer, Record>, p: Peer, r: Record)
    requires p !in tails
    ensures tails[p := r] - {p} == tails
  {
  }

  /** The lines of the data go to the parser, and what is left is stored. */
  method Deliver(storage: IncompleteStorage, peer: Peer, data: string) returns (lines: seq<string>)
    requires storage.Valid() && peer !in storage.tails
    modifies storage, storage.clock
    ensures storage.Valid() && old(storage.clock.now) <= storage.clock.now
    ensures lines == Lines(data)
    ensures KeptInTime(TailOf(storage.tails, peer), Tail(data), old(storage.clock.now), storage.clock.now)
    ensures (storage.tails - {peer}, storage.log) ==
            (old(storage.tails), old(storage.log) + KeptEvents(peer, TailOf(storage.tails, peer)))
  {
    var line;
    lines, line := SplitLines(data);
    if |line| > 0 {
      storage.Store(peer, line);
      Restored(old(storage.tails), peer, storage.tails[peer]);
    } else {
      Absent(storage.tails, peer);
      assert storage.log + [] == storage.log;
    }
  }

  class Receiver {
    const clock: Clock
    const storage: IncompleteStorage
    ghost var streams: Streams    // history: the bytes of each peer, without the tails that expired
    ghost var given: Given        // history: the lines that each peer's datagrams gave to the parser

    ghost predicate Valid()
      reads this, clock, storage
    {
      && storage.clock == clock && storage.Valid()
      && Reassembled(streams, given, storage.tails)
    }

    constructor (clock: Clock)
      modifies clock
      ensures Valid() && fresh(storage) && this.clock == clock && streams == map[] && given == map[]
    {
      this.clock := clock;
      storage := new IncompleteStorage(clock);
      streams, given := map[], map[];
    }

    /** One datagram: `lines` go to the parser. The tail is lost if its deadline was over at `popped`. */
    method Receive(peer: Peer, datagram: string) returns (lines: seq<string>, ghost late: bool, ghost popped: int)
      requires Valid()
      modifies this, clock, storage
      ensures Valid() && old(clock.now) <= popped <= clock.now
      ensures late <==> peer in old(storage.tails) && old(storage.tails)[peer].deadline < popped
      ensures var s := StreamIn(old(streams), peer);
              streams == old(streams)[peer := (if late then Complete(s) else s) + datagram]
      ensures given == old(given)[peer := GivenTo(old(given), peer) + lines]
      ensures KeptInTime(TailOf(storage.tails, peer), Tail(StreamIn(streams, peer)), popped, clock.now)
      ensures (storage.tails - {peer}, storage.log) ==
              (old(storage.tails) - {peer},
               old(storage.log) + EventsOfOne(Received(peer, datagram, popped, TailOf(storage.tails, peer))))
    {
      var prev, found := storage.Pop(peer);
      popped, late := clock.now, peer in old(storage.tails) && !found;
      var data := if found then prev + datagram else datagram;
      ghost var s := StreamIn(streams, peer);
      assert PeerOk(s, GivenTo(given, peer), old(storage.tails), peer);
      assert data == (if late then [] else Tail(s)) + datagram;
      lines := Deliver(storage, peer, data);
      assert storage.log == old(storage.log) + ([Asked(peer, popped)] + KeptEvents(peer, TailOf(storage.tails, peer)));
      streams := streams[peer := (if late then Complete(s) else s) + datagram];
      given := given[peer := GivenTo(given, peer) + lines];
      OneDatagram(old(streams), old(given), old(storage.tails), peer, late, datagram, data,
                  streams, given, storage.tails);
    }

    /** One datagram, with the history `h` before it. */
    method ReceiveNext(peer: Peer, datagram: string, ghost h: seq<Received>, ghost from: int)
      returns (lines: seq<string>, ghost e: Received)
      requires Valid() && HistoryOk(h, streams, storage.tails) && Timed(h, from, clock.now)
      modifies this, clock, storage
      ensures Valid() && HistoryOk(h + [e], streams, storage.tails) && Timed(h + [e], from, clock.now)
      ensures (e.peer, e.bytes) == (peer, datagram) && old(clock.now) <= clock.now
      ensures storage.log == old(storage.log) + EventsOfOne(e)
    {
      ghost var late, popped;
      lines, late, popped := Receive(peer, datagram);
      e := Received(peer, datagram, popped, TailOf(storage.tails, peer));
      GoesOn(h, e, from, old(clock.now), clock.now, late, old(streams), old(storage.tails),
             streams, given, storage.tails);
    }

    /**
      Any interleaving of peers, any cutting into datagrams, purges at any moment: a peer gets the lines
      of what remains of its stream without the tails that were asked for after their deadlines; so it
      gets those of its whole stream if and only if none was. `history` is what the storage logged.
     */
    method ReceiveWorker(datagrams: seq<(Peer, string)>) returns (ghost history: seq<Received>)
      requires Valid() && streams == map[] && given == map[]
      modifies this, clock, storage
      ensures Valid() && DatagramsOf(history) == datagrams
      ensures storage.log == old(storage.log) + EventsOf(history)
      ensures Timed(history, old(clock.now), clock.now) && LeavesTails(history)
      ensures forall p :: PeerOk(Remaining(history, p), GivenTo(given, p), storage.tails, p)
      ensures forall p :: PeerOk(Sent(datagrams, p), GivenTo(given, p), storage.tails, p) <==> Prompt(history, p)
    {
      history := [];
      NothingYet(storage.tails);
      for n := 0 to |datagrams|
        invariant Valid() && old(clock.now) <= clock.now
        invariant DatagramsOf(history) == datagrams[..n]
        invariant storage.log == old(storage.log) + EventsOf(history)
        invariant Timed(history, old(clock.now), clock.now) && HistoryOk(history, streams, storage.tails)
      {
        var lines, e := ReceiveNext(datagrams[n].0, datagrams[n].1, history, old(clock.now));
        EventsSnoc(old(storage.log), history, e);
        DatagramsSnoc(datagrams, n, history, e);
        history := history + [e];
      }
      assert datagrams[..|datagrams|] == datagrams;
      AllRight(history, streams, given, storage.tails);
    }
  }
}
