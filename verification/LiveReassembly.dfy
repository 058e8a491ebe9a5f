/** Live reassembly: finished, idle and oversized streams are closed on every sweep, the number of
    concurrent streams is bounded by eviction, and every closure is accounted for. */
module LiveReassembly {
  import opened Collections
  import opened Wrappers
  import opened Bytes
  import opened HalfStreams
  import opened Sessions
  import opened Assembler
  import opened Oldest

  datatype Reason = Fin | Rst | Idle | Cap | Evicted

  datatype Config = Config(idleTimeout: int, maxSessions: nat, maxBufferBytes: int)

  datatype Stats = Stats(
    packets: nat,
    evicted: nat,
    closedFin: nat,
    closedRst: nat,
    closedIdle: nat,
    closedCap: nat,
    truncated: nat,
    completed: nat,
    active: nat)

  /** A session with what the live path adds: when and why it was closed, and where its frames are. */
  datatype LiveSession = LiveSession(session: Session, endTs: int,
    closedBy: Reason, rawRefs: seq<Ref>, trackedBytes: nat)

  datatype Live = Live(table: Table, refs: map<Key, seq<Ref>>, stats: Stats)

  const NO_STATS := Stats(0, 0, 0, 0, 0, 0, 0, 0, 0)
  const NEW_LIVE := Live(EMPTY_TABLE, map[], NO_STATS)

  // ----- specification -----

  function RefsFor(refs: map<Key, seq<Ref>>, k: Key): seq<Ref> {
    if k in refs then refs[k] else []
  }

  function PacketFed(l: Live, p: Packet): Live {
    var k := KeyOf(p.src, p.dst);
    Live(TableFed(l.table, p),
         if p.rawRef.Some? then l.refs[k := RefsFor(l.refs, k) + [p.rawRef.value]] else l.refs,
         l.stats.(packets := l.stats.packets + 1))
  }

  function LastTs(st: StreamState): int {
    Max(st.ha.lastTs, st.hb.lastTs)
  }

  function Buffered(st: StreamState): nat {
    |Buf(st.ha)| + |Buf(st.hb)|
  }

  function CloseReason(st: StreamState): Reason {
    if st.ha.rst || st.hb.rst then Rst else Fin
  }

  /** Why a sweep at time `now` closes a stream, if it does. A stream that never carried data has no
      last activity and is never idle. */
  function WhyClose(cfg: Config, st: StreamState, now: int): Option<Reason> {
    if st.complete then Some(CloseReason(st))
    else if LastTs(st) != 0 && now - LastTs(st) > cfg.idleTimeout then Some(Idle)
    else if Buffered(st) > cfg.maxBufferBytes then Some(Cap)
    else None
  }

  function LiveSessionOf(st: StreamState, refs: seq<Ref>, reason: Reason): Option<LiveSession> {
    var s := SessionOf(st);
    if s.None? then None else Some(LiveSession(s.value, LastTs(st), reason, refs, Buffered(st)))
  }

  /** The counters move only for closures that yield a session. */
  function Counted(s: Stats, reason: Reason): Stats {
    match reason
    case Fin => s.(closedFin := s.closedFin + 1, completed := s.completed + 1)
    case Rst => s.(closedRst := s.closedRst + 1, completed := s.completed + 1)
    case Idle => s.(closedIdle := s.closedIdle + 1, completed := s.completed + 1)
    case Cap => s.(closedCap := s.closedCap + 1, truncated := s.truncated + 1, completed := s.completed + 1)
    case Evicted => s.(closedCap := s.closedCap + 1, completed := s.completed + 1)
  }

  datatype Closing = Closing(key: Key, reason: Reason)

  /** The state after emitting one stream, and the session it yields. Once per stream: a key that
      is no longer in the table yields nothing. */
  function EmittedOne(l: Live, c: Closing): (Live, Option<LiveSession>) {
    if c.key !in l.table.streams then (l, None)
    else
      var sess := LiveSessionOf(l.table.streams[c.key], RefsFor(l.refs, c.key), c.reason);
      (Live(Without(l.table, c.key), l.refs - {c.key},
            if sess.Some? then Counted(l.stats, c.reason) else l.stats), sess)
  }

  function Closed(l: Live, c: Closing): (Live, Option<LiveSession>) {
    EmittedOne(if c.reason == Evicted then l.(stats := l.stats.(evicted := l.stats.evicted + 1)) else l, c)
  }

  function AllClosed(l: Live, cs: seq<Closing>): (Live, seq<Option<LiveSession>>) {
    if cs == [] then (l, [])
    else
      var (l1, out) := AllClosed(l, cs[..|cs| - 1]);
      var (l2, sess) := Closed(l1, cs[|cs| - 1]);
      (l2, out + [sess])
  }

  /** What a sweep closes before it looks at the session cap, in table order. */
  function ToClose(cfg: Config, t: Table, order: seq<Key>, now: int): seq<Closing>
    requires forall k <- order :: k in t.streams
  {
    if order == [] then []
    else
      var front, k := ToClose(cfg, t, order[..|order| - 1], now), order[|order| - 1];
      var why := WhyClose(cfg, t.streams[k], now);
      if why.Some? then front + [Closing(k, why.value)] else front
  }

  function Incomplete(t: Table, order: seq<Key>): (r: seq<Key>)
    requires forall k <- order :: k in t.streams
    ensures forall k :: k in r <==> k in order && !t.streams[k].complete
  {
    if order == [] then []
    else
      var front, k := Incomplete(t, order[..|order| - 1]), order[|order| - 1];
      if t.streams[k].complete then front else front + [k]
  }

  /** When each stream was first seen. */
  function Ages(streams: map<Key, StreamState>): (ages: map<Key, int>)
    ensures ages.Keys == streams.Keys
  {
    map k | k in streams :: streams[k].firstTs
  }

  function OldestBeyond(byAge: seq<Key>, cap: nat): (r: seq<Closing>)
    ensures |r| == if |byAge| <= cap then 0 else |byAge| - cap
    ensures forall i :: 0 <= i < |r| ==> r[i] == Closing(byAge[i], Evicted)
  {
    if |byAge| <= cap then []
    else seq(|byAge| - cap, i requires 0 <= i < |byAge| - cap => Closing(byAge[i], Evicted))
  }

  /** The oldest incomplete streams beyond the session cap. */
  function Evictions(cfg: Config, t: Table): seq<Closing>
    requires forall k <- t.order :: k in t.streams
  {
    OldestBeyond(SortByStamp(Ages(t.streams), Incomplete(t, t.order)), cfg.maxSessions)
  }

  function OnlySome(xs: seq<Option<LiveSession>>): seq<Option<LiveSession>> {
    if xs == [] then []
    else
      var front := OnlySome(xs[..|xs| - 1]);
      if xs[|xs| - 1].Some? then front + [xs[|xs| - 1]] else front
  }

  function Recounted(l: Live): Live {
    l.(stats := l.stats.(active := |l.table.streams|))
  }

  /** A sweep: the state it leaves, and what it returns. Streams of no known protocol closed in the
      first pass show up as None; the eviction pass leaves them out. */
  function Swept(cfg: Config, l: Live, now: int): (Live, seq<Option<LiveSession>>)
    requires Consistent(l.table)
  {
    var (l1, out1) := AllClosed(l, ToClose(cfg, l.table, l.table.order, now));
    ClosingKeepsConsistency(l, ToClose(cfg, l.table, l.table.order, now));
    var (l2, out2) := AllClosed(l1, Evictions(cfg, l1.table));
    (Recounted(l2), out1 + OnlySome(out2))
  }

  /** What drain closes: the complete streams. */
  function Complete(t: Table, order: seq<Key>): seq<Closing>
    requires forall k <- order :: k in t.streams
  {
    if order == [] then []
    else
      var front, k := Complete(t, order[..|order| - 1]), order[|order| - 1];
      if t.streams[k].complete then front + [Closing(k, CloseReason(t.streams[k]))] else front
  }

  function Drained(l: Live): (Live, seq<Option<LiveSession>>)
    requires forall k <- l.table.order :: k in l.table.streams
  {
    var (l1, out) := AllClosed(l, Complete(l.table, l.table.order));
    (Recounted(l1), OnlySome(out))
  }

  // ----- what closing does -----

  ghost function KeysOf(cs: seq<Closing>): set<Key> {
    set c <- cs :: c.key
  }

  lemma {:induction false} RemovedIsDistinct(order: seq<Key>, k: Key)
    requires forall i, j :: 0 <= i < j < |order| ==> order[i] != order[j]
    ensures var r := Removed(order, k); forall i, j :: 0 <= i < j < |r| ==> r[i] != r[j]
  {
    if order != [] {
      RemovedIsDistinct(order[1..], k);
      assert order[0] !in order[1..];
      assert order[0] !in Removed(order[1..], k);
    }
  }

  lemma ClosingOne(l: Live, c: Closing)
    requires Consistent(l.table)
    ensures var l' := Closed(l, c).0;
            && Consistent(l'.table)
            && l'.table.streams == l.table.streams - {c.key}
            && l'.refs == if c.key in l.table.streams then l.refs - {c.key} else l.refs
  {
    hide SessionOf;
    RemovedIsDistinct(l.table.order, c.key);
    var t' := Closed(l, c).0.table;
    assert t' == if c.key in l.table.streams then Without(l.table, c.key) else l.table;
    if c.key in l.table.streams {
      assert t'.order == Removed(l.table.order, c.key);
      assert Consistent(t');
    } else {
      assert t' == l.table;
    }
  }

  /** Closing removes exactly the closed streams, from the table and from the refs, and leaves every
      other stream as it was. */
  lemma {:induction false} ClosingKeepsConsistency(l: Live, cs: seq<Closing>)
    requires Consistent(l.table)
    ensures var l' := AllClosed(l, cs).0;
            && Consistent(l'.table)
            && l'.table.streams == l.table.streams - KeysOf(cs)
            && l'.refs == l.refs - KeysOf(cs) * l.table.streams.Keys
  {
    hide SessionOf, Closed;
    if cs == [] {
      assert KeysOf(cs) == {};
    } else {
      var front, c := cs[..|cs| - 1], cs[|cs| - 1];
      ClosingKeepsConsistency(l, front);
      ClosingOne(AllClosed(l, front).0, c);
      assert KeysOf(cs) == KeysOf(front) + {c.key};
    }
  }

  // ----- what a sweep guarantees -----

  lemma {:induction false} ToCloseIsWhy(cfg: Config, t: Table, order: seq<Key>, now: int)
    requires forall k <- order :: k in t.streams
    ensures forall k ::
              k in KeysOf(ToClose(cfg, t, order, now)) <==> k in order && WhyClose(cfg, t.streams[k], now).Some?
    ensures forall c <- ToClose(cfg, t, order, now) ::
        c.key in t.streams && WhyClose(cfg, t.streams[c.key], now) == Some(c.reason)
  {
    hide WhyClose;
    if order != [] {
      var front, k := order[..|order| - 1], order[|order| - 1];
      ToCloseIsWhy(cfg, t, front, now);
      var cs := ToClose(cfg, t, order, now);
      assert WhyClose(cfg, t.streams[k], now).Some? ==>
          cs == ToClose(cfg, t, front, now) + [Closing(k, WhyClose(cfg, t.streams[k], now).value)];
      assert WhyClose(cfg, t.streams[k], now).Some? ==> KeysOf(cs) == KeysOf(ToClose(cfg, t, front, now)) + {k};
    }
  }

  /** When no stream is complete, the incomplete ones are all of them. */
  lemma {:induction false} AllIncomplete(t: Table, order: seq<Key>)
    requires forall k <- order :: k in t.streams && !t.streams[k].complete
    ensures Incomplete(t, order) == order
  {
    if order != [] { AllIncomplete(t, order[..|order| - 1]); }
  }

  /** Eviction takes the oldest streams, and exactly as many as exceed the cap. */
  lemma EvictionTakesTheOldest(cfg: Config, t: Table)
    requires Consistent(t) && forall k <- t.streams :: !t.streams[k].complete
    ensures var gone := KeysOf(Evictions(cfg, t));
            && AreOldest(Ages(t.streams), gone)
            && |t.streams.Keys - gone| == (if |t.streams| <= cfg.maxSessions then |t.streams| else cfg.maxSessions)
  {
    hide SortByStamp, Incomplete, Sorted, KeysOf, OldestBeyond, AreOldest;
    AllIncomplete(t, t.order);
    AllByStamp(Ages(t.streams), t.order);
    var byAge := SortByStamp(Ages(t.streams), t.order);
    var n := if |byAge| <= cfg.maxSessions then 0 else |byAge| - cfg.maxSessions;
    PrefixIsOldest(Ages(t.streams), byAge, n);
    EvictedKeys(OldestBeyond(byAge, cfg.maxSessions), byAge[..n]);
  }

  lemma EvictedKeys(cs: seq<Closing>, ks: seq<Key>)
    requires |cs| == |ks| && forall i :: 0 <= i < |cs| ==> cs[i].key == ks[i]
    ensures KeysOf(cs) == set k | k in ks
  {
    forall k | k in ks
      ensures k in KeysOf(cs)
    {
      var i :| 0 <= i < |ks| && ks[i] == k;
      assert cs[i] in cs;
    }
  }

  /** What a sweep makes of the streams it found: none is left that is complete, idle past the
      timeout or over its byte cap; no more than the session cap remain; the survivors are unchanged;
      and whatever was closed without such a reason was evicted to meet the cap and is no younger
      than any survivor. */
  ghost predicate WellSwept(cfg: Config, before: map<Key, StreamState>, after: map<Key, StreamState>, now: int) {
    && (forall k <- after :: k in before && after[k] == before[k] && WhyClose(cfg, after[k], now).None?)
    && |after| <= cfg.maxSessions
    && (forall v, k :: v in before && v !in after && WhyClose(cfg, before[v], now).None? && k in after
          ==> before[v].firstTs <= after[k].firstTs)
    && ((exists v :: v in before && v !in after && WhyClose(cfg, before[v], now).None?) ==> |after| == cfg.maxSessions)
  }

  lemma SweepGuarantees(cfg: Config, l: Live, now: int)
    requires Consistent(l.table)
    ensures var l' := Swept(cfg, l, now).0;
            Consistent(l'.table) && WellSwept(cfg, l.table.streams, l'.table.streams, now)
  {
    hide Evictions, AllClosed, ToClose, WhyClose, KeysOf, WellSwept, Ages, AreOldest;
    var cs := ToClose(cfg, l.table, l.table.order, now);
    ToCloseIsWhy(cfg, l.table, l.table.order, now);
    ClosingKeepsConsistency(l, cs);
    var l1 := AllClosed(l, cs).0;
    StillOpen(cfg, l, l1, now);
    EvictionTakesTheOldest(cfg, l1.table);
    var es := Evictions(cfg, l1.table);
    ClosingKeepsConsistency(l1, es);
    TwoPasses(cfg, l.table.streams, KeysOf(cs), KeysOf(es), now);
  }

  /** Someone is evicted only when the cap is exceeded, and then exactly the cap remains. */
  lemma EvictedSize(mid: set<Key>, evicted: set<Key>, cap: nat)
    requires evicted <= mid && |mid - evicted| == (if |mid| <= cap then |mid| else cap)
    ensures |mid - evicted| <= cap && (evicted != {} ==> |mid - evicted| == cap)
  {
    if evicted != {} {
      assert mid == (mid - evicted) + evicted;
      assert |mid| == |mid - evicted| + |evicted|;
    }
  }

  lemma TwoPasses(cfg: Config, before: map<Key, StreamState>, closed: set<Key>, evicted: set<Key>, now: int)
    requires forall k :: k in closed <==> k in before && WhyClose(cfg, before[k], now).Some?
    requires var mid := before - closed;
             && |mid.Keys - evicted| == (if |mid| <= cfg.maxSessions then |mid| else cfg.maxSessions)
             && AreOldest(Ages(mid), evicted)
    ensures WellSwept(cfg, before, (before - closed) - evicted, now)
  {
    hide WhyClose;
    var mid := before - closed;
    var after := mid - evicted;
    assert after.Keys == mid.Keys - evicted;
    EvictedSize(mid.Keys, evicted, cfg.maxSessions);
  }

  lemma StillOpen(cfg: Config, l: Live, l1: Live, now: int)
    requires forall k <- l1.table.streams :: k in l.table.streams && l1.table.streams[k] == l.table.streams[k]
    requires forall k <- l1.table.streams :: WhyClose(cfg, l.table.streams[k], now).None?
    ensures forall k <- l1.table.streams ::
        WhyClose(cfg, l1.table.streams[k], now).None? && !l1.table.streams[k].complete
  {
    hide CloseReason;
  }

  // ----- the object -----

  class LiveReassembler {
    const cfg: Config
    const asm: StreamAssembler
    var refs: map<Key, seq<Ref>>
    var stats: Stats

    ghost function State(): Live
      reads this, asm
    {
      Live(asm.State(), refs, stats)
    }

    constructor (cfg: Config)
      ensures this.cfg == cfg && fresh(asm) && State() == NEW_LIVE
    {
      this.cfg := cfg;
      asm := new StreamAssembler();
      refs, stats := map[], NO_STATS;
    }

    method FeedPacket(p: Packet)
      modifies this, asm
      ensures State() == PacketFed(old(State()), p)
    {
      hide TableFed;
      stats := stats.(packets := stats.packets + 1);
      asm.Feed(p);
      if p.rawRef.Some? {
        var k := KeyOf(p.src, p.dst);
        refs := refs[k := (if k in refs then refs[k] else []) + [p.rawRef.value]];
      }
    }

    method EmitOne(c: Closing) returns (sess: Option<LiveSession>)
      modifies this, asm
      ensures (State(), sess) == EmittedOne(old(State()), c)
    {
      hide SessionOf, Without, Removed;
      if c.key !in asm.streams { return None; }
      var rawRefs := if c.key in refs then refs[c.key] else [];
      var st := asm.Pop(c.key);
      refs := refs - {c.key};
      var session := BuildSession(st);
      if session.None? { return None; }
      stats := Counted(stats, c.reason);
      sess := Some(LiveSession(session.value, LastTs(st), c.reason, rawRefs, Buffered(st)));
    }

    /** Emit a list of streams, keeping the Nones. */
    method EmitAll(cs: seq<Closing>) returns (out: seq<Option<LiveSession>>)
      modifies this, asm
      ensures (State(), out) == AllClosed(old(State()), cs)
    {
      hide EmittedOne;
      out := [];
      for i := 0 to |cs|
        invariant (State(), out) == AllClosed(old(State()), cs[..i])
      {
        assert cs[..i + 1][..i] == cs[..i];
        if cs[i].reason == Evicted { stats := stats.(evicted := stats.evicted + 1); }
        var sess := EmitOne(cs[i]);
        out := out + [sess];
      }
      assert cs[..|cs|] == cs;
    }

    method Sweep(now: int) returns (out: seq<Option<LiveSession>>)
      requires Consistent(asm.State())
      modifies this, asm
      ensures (State(), out) == Swept(cfg, old(State()), now)
    {
      hide AllClosed, Evictions, OnlySome, Without, KeysOf;
      ghost var l := State();
      var order := asm.order;
      var toClose: seq<Closing> := [];
      for i := 0 to |order|
        invariant State() == l && toClose == ToClose(cfg, l.table, order[..i], now)
      {
        assert order[..i + 1][..i] == order[..i];
        var st := asm.streams[order[i]];
        if st.complete {
          toClose := toClose + [Closing(order[i], CloseReason(st))];
        } else if LastTs(st) != 0 && now - LastTs(st) > cfg.idleTimeout {
          toClose := toClose + [Closing(order[i], Idle)];
        } else if Buffered(st) > cfg.maxBufferBytes {
          toClose := toClose + [Closing(order[i], Cap)];
        }
      }
      assert order[..|order|] == order;
      ClosingKeepsConsistency(l, toClose);
      out := EmitAll(toClose);
      var victims := Evictions(cfg, Table(asm.order, asm.streams));
      var evicted := EmitAll(victims);
      out := out + OnlySome(evicted);
      stats := stats.(active := |asm.streams|);
    }

    method Drain() returns (out: seq<Option<LiveSession>>)
      requires Consistent(asm.State())
      modifies this, asm
      ensures (State(), out) == Drained(old(State()))
    {
      hide AllClosed;
      ghost var l := State();
      var order := asm.order;
      var finished: seq<Closing> := [];
      for i := 0 to |order|
        invariant State() == l && finished == Complete(l.table, order[..i])
      {
        assert order[..i + 1][..i] == order[..i];
        var st := asm.streams[order[i]];
        if st.complete { finished := finished + [Closing(order[i], CloseReason(st))]; }
      }
      assert order[..|order|] == order;
      var all := EmitAll(finished);
      out := OnlySome(all);
      stats := stats.(active := |asm.streams|);
    }
  }

  // ----- accounting over whole runs -----

  datatype Step = Feed(p: Packet) | Sweep(now: int) | Drain

  /** One closed stream: its packets, and the session it yielded. */
  datatype Record = Record(key: Key, packets: seq<Packet>, reason: Reason, session: Option<LiveSession>)

  /** A reassembler watched from outside: which packets each open stream has taken, and a log of the
      closed ones. */
  datatype Watched = Watched(live: Live, hist: map<Key, seq<Packet>>, log: seq<Record>)

  function HistFor(hist: map<Key, seq<Packet>>, k: Key): seq<Packet> {
    if k in hist then hist[k] else []
  }

  function WatchedFeed(w: Watched, p: Packet): Watched {
    var k := KeyOf(p.src, p.dst);
    Watched(PacketFed(w.live, p), w.hist[k := HistFor(w.hist, k) + [p]], w.log)
  }

  function WatchedClose(w: Watched, c: Closing): Watched {
    var (live, session) := Closed(w.live, c);
    if c.key in w.live.table.streams
    then Watched(live, w.hist - {c.key}, w.log + [Record(c.key, HistFor(w.hist, c.key), c.reason, session)])
    else Watched(live, w.hist, w.log)
  }

  function WatchedCloseAll(w: Watched, cs: seq<Closing>): Watched {
    if cs == [] then w else WatchedClose(WatchedCloseAll(w, cs[..|cs| - 1]), cs[|cs| - 1])
  }

  /** Watching changes nothing. */
  lemma {:induction false} WatchingIsTransparent(w: Watched, cs: seq<Closing>)
    ensures WatchedCloseAll(w, cs).live == AllClosed(w.live, cs).0
  {
    hide Closed;
    if cs != [] { WatchingIsTransparent(w, cs[..|cs| - 1]); }
  }

  function RefsOf(ps: seq<Packet>): seq<Ref> {
    if ps == [] then []
    else
      var front, last := RefsOf(ps[..|ps| - 1]), ps[|ps| - 1];
      if last.rawRef.Some? then front + [last.rawRef.value] else front
  }

  /** All packets of the closed streams of one connection, oldest stream first. */
  function LoggedFor(log: seq<Record>, k: Key): seq<Packet> {
    if log == [] then []
    else
      var front, last := LoggedFor(log[..|log| - 1], k), log[|log| - 1];
      if last.key == k then front + last.packets else front
  }

  function Yielded(log: seq<Record>): nat {
    if log == [] then 0 else Yielded(log[..|log| - 1]) + if log[|log| - 1].session.Some? then 1 else 0
  }

  function EvictedIn(log: seq<Record>): nat {
    if log == [] then 0 else EvictedIn(log[..|log| - 1]) + if log[|log| - 1].reason == Evicted then 1 else 0
  }

  /** Every open stream is what its own packets make, and its refs are theirs, in order. */
  ghost predicate OpenStreamsAccounted(l: Live, hist: map<Key, seq<Packet>>) {
    && Consistent(l.table) && hist.Keys == l.table.streams.Keys && l.refs.Keys <= hist.Keys
    && forall k <- hist ::
         hist[k] != [] && l.table.streams[k] == StreamRun(k, hist[k]) && RefsFor(l.refs, k) == RefsOf(hist[k])
  }

  /** Every closed stream yielded the session of its own packets, with exactly their refs, in order. */
  ghost predicate ClosedStreamsAccounted(log: seq<Record>) {
    forall r <- log ::
      r.packets != [] && r.session == LiveSessionOf(StreamRun(r.key, r.packets), RefsOf(r.packets), r.reason)
  }

  /** Every packet is in exactly one stream: per connection, the closed streams followed by the open
      one are the packets fed, in order. */
  ghost predicate PacketsConserved(log: seq<Record>, hist: map<Key, seq<Packet>>, fed: seq<Packet>) {
    forall k :: Of(fed, k) == LoggedFor(log, k) + HistFor(hist, k)
  }

  ghost predicate CountersBalance(s: Stats, log: seq<Record>, fed: nat) {
    && s.packets == fed
    && s.completed == s.closedFin + s.closedRst + s.closedIdle + s.closedCap
    && s.completed == Yielded(log)
    && s.evicted == EvictedIn(log)
    && s.truncated <= s.closedCap
  }

  ghost predicate Accounted(w: Watched, fed: seq<Packet>) {
    && OpenStreamsAccounted(w.live, w.hist)
    && ClosedStreamsAccounted(w.log)
    && PacketsConserved(w.log, w.hist, fed)
    && CountersBalance(w.live.stats, w.log, |fed|)
  }

  lemma RunOneMore(k: Key, qs: seq<Packet>, p: Packet)
    ensures StreamRun(k, qs + [p]) == StreamFed(if qs == [] then NewStream(k, p.seg.ts) else StreamRun(k, qs), p)
    ensures RefsOf(qs + [p]) == if p.rawRef.Some? then RefsOf(qs) + [p.rawRef.value] else RefsOf(qs)
  {
    hide StreamFed;
    assert (qs + [p])[..|qs|] == qs;
  }

  lemma TableTakesPacket(t: Table, p: Packet)
    requires Consistent(t)
    ensures var k := KeyOf(p.src, p.dst);
            && Consistent(TableFed(t, p))
            && TableFed(t, p).streams
               == t.streams[k := StreamFed(if k in t.streams then t.streams[k] else NewStream(k, p.seg.ts), p)]
  {
    hide StreamFed, KeyOf;
  }

  lemma FeedKeepsOpenStreams(l: Live, hist: map<Key, seq<Packet>>, p: Packet)
    requires OpenStreamsAccounted(l, hist)
    ensures var k := KeyOf(p.src, p.dst);
            OpenStreamsAccounted(PacketFed(l, p), hist[k := HistFor(hist, k) + [p]])
  {
    hide StreamFed, KeyOf, StreamRun, RefsOf, TableFed, Consistent;
    var k := KeyOf(p.src, p.dst);
    TableTakesPacket(l.table, p);
    RunOneMore(k, HistFor(hist, k), p);
    EmptyRefs();
  }

  lemma EmptyRefs()
    ensures RefsOf([]) == []
  {
  }

  lemma FeedKeepsAccounts(w: Watched, p: Packet, fed: seq<Packet>)
    requires Accounted(w, fed)
    ensures Accounted(WatchedFeed(w, p), fed + [p])
  {
    hide OpenStreamsAccounted, ClosedStreamsAccounted, KeyOf, TableFed;
    FeedKeepsOpenStreams(w.live, w.hist, p);
    assert (fed + [p])[..|fed|] == fed;
    var w' := WatchedFeed(w, p);
    forall k
      ensures Of(fed + [p], k) == LoggedFor(w'.log, k) + HistFor(w'.hist, k)
    {
      Assoc(LoggedFor(w.log, k), HistFor(w.hist, k), [p]);
    }
  }

  lemma CloseKeepsOpenStreams(w: Watched, c: Closing)
    requires OpenStreamsAccounted(w.live, w.hist) && c.key in w.live.table.streams
    ensures OpenStreamsAccounted(WatchedClose(w, c).live, WatchedClose(w, c).hist)
  {
    hide SessionOf, StreamRun, RefsOf;
    ClosingOne(w.live, c);
  }

  lemma CloseKeepsPackets(log: seq<Record>, hist: map<Key, seq<Packet>>, r: Record, fed: seq<Packet>)
    requires PacketsConserved(log, hist, fed) && r.packets == HistFor(hist, r.key)
    ensures PacketsConserved(log + [r], hist - {r.key}, fed)
  {
    assert (log + [r])[..|log|] == log;
    forall k
      ensures Of(fed, k) == LoggedFor(log + [r], k) + HistFor(hist - {r.key}, k)
    {
      assert k == r.key ==> HistFor(hist - {r.key}, k) == [];
    }
  }

  lemma CloseKeepsCounters(w: Watched, c: Closing, r: Record, fed: nat)
    requires CountersBalance(w.live.stats, w.log, fed) && c.key in w.live.table.streams
    requires r.reason == c.reason && r.session == Closed(w.live, c).1
    ensures CountersBalance(Closed(w.live, c).0.stats, w.log + [r], fed)
  {
    hide SessionOf, Without;
    assert (w.log + [r])[..|w.log|] == w.log;
  }

  lemma CloseKeepsAccounts(w: Watched, c: Closing, fed: seq<Packet>)
    requires Accounted(w, fed) && (c.reason == Evicted ==> c.key in w.live.table.streams)
    ensures Accounted(WatchedClose(w, c), fed)
  {
    hide SessionOf, StreamRun, RefsOf, Of, LoggedFor, Without, PacketsConserved, CountersBalance;
    if c.key in w.live.table.streams {
      var w' := WatchedClose(w, c);
      var r := Record(c.key, HistFor(w.hist, c.key), c.reason, Closed(w.live, c).1);
      CloseKeepsOpenStreams(w, c);
      CloseKeepsPackets(w.log, w.hist, r, fed);
      CloseKeepsCounters(w, c, r, |fed|);
      assert r.session == LiveSessionOf(StreamRun(r.key, r.packets), RefsOf(r.packets), r.reason);
    }
  }

  /** A list of closings never evicts a stream it has already closed. */
  ghost predicate EvictsOpen(cs: seq<Closing>, t: Table) {
    forall i :: 0 <= i < |cs| && cs[i].reason == Evicted ==>
      cs[i].key in t.streams && forall j :: 0 <= j < i ==> cs[j].key != cs[i].key
  }

  lemma {:induction false} CloseAllKeepsAccounts(w: Watched, cs: seq<Closing>, fed: seq<Packet>)
    requires Accounted(w, fed) && EvictsOpen(cs, w.live.table)
    ensures Accounted(WatchedCloseAll(w, cs), fed)
  {
    hide WatchedClose, Closed, PacketsConserved, CountersBalance, ClosedStreamsAccounted;
    if cs != [] {
      var front := cs[..|cs| - 1];
      CloseAllKeepsAccounts(w, front, fed);
      WatchingIsTransparent(w, front);
      ClosingKeepsConsistency(w.live, front);
      CloseKeepsAccounts(WatchedCloseAll(w, front), cs[|cs| - 1], fed);
    }
  }

  function WatchedSweep(cfg: Config, w: Watched, now: int): Watched
    requires Consistent(w.live.table)
  {
    var w1 := WatchedCloseAll(w, ToClose(cfg, w.live.table, w.live.table.order, now));
    WatchingIsTransparent(w, ToClose(cfg, w.live.table, w.live.table.order, now));
    ClosingKeepsConsistency(w.live, ToClose(cfg, w.live.table, w.live.table.order, now));
    var w2 := WatchedCloseAll(w1, Evictions(cfg, w1.live.table));
    Watched(Recounted(w2.live), w2.hist, w2.log)
  }

  function WatchedDrain(w: Watched): Watched
    requires Consistent(w.live.table)
  {
    var w1 := WatchedCloseAll(w, Complete(w.live.table, w.live.table.order));
    Watched(Recounted(w1.live), w1.hist, w1.log)
  }

  lemma WatchedSweepIsSweep(cfg: Config, w: Watched, now: int)
    requires Consistent(w.live.table)
    ensures WatchedSweep(cfg, w, now).live == Swept(cfg, w.live, now).0
    ensures WatchedDrain(w).live == Drained(w.live).0
  {
    hide ToClose, Evictions, AllClosed, WatchedCloseAll;
    var cs := ToClose(cfg, w.live.table, w.live.table.order, now);
    WatchingIsTransparent(w, cs);
    ClosingKeepsConsistency(w.live, cs);
    var w1 := WatchedCloseAll(w, cs);
    WatchingIsTransparent(w1, Evictions(cfg, w1.live.table));
    WatchingIsTransparent(w, Complete(w.live.table, w.live.table.order));
  }

  lemma {:induction false} CompleteNeverEvicts(t: Table, order: seq<Key>)
    requires forall k <- order :: k in t.streams
    ensures forall c <- Complete(t, order) :: c.reason != Evicted
  {
    if order != [] { CompleteNeverEvicts(t, order[..|order| - 1]); }
  }

  lemma EvictionsAreOpen(cfg: Config, t: Table)
    requires Consistent(t) && forall k <- t.streams :: !t.streams[k].complete
    ensures EvictsOpen(Evictions(cfg, t), t)
  {
    hide SortByStamp, Incomplete, Sorted;
    AllIncomplete(t, t.order);
    AllByStamp(Ages(t.streams), t.order);
  }

  lemma SweepKeepsAccounts(cfg: Config, w: Watched, now: int, fed: seq<Packet>)
    requires Accounted(w, fed)
    ensures Accounted(WatchedSweep(cfg, w, now), fed)
  {
    hide WatchedCloseAll, Evictions, ToClose, PacketsConserved, ClosedStreamsAccounted, AllClosed, WhyClose;
    var t := w.live.table;
    var cs := ToClose(cfg, t, t.order, now);
    ToCloseIsWhy(cfg, t, t.order, now);
    ReasonsOfClosing(cfg, t, cs, now);
    CloseAllKeepsAccounts(w, cs, fed);
    WatchingIsTransparent(w, cs);
    ClosingKeepsConsistency(w.live, cs);
    var w1 := WatchedCloseAll(w, cs);
    StillOpen(cfg, w.live, w1.live, now);
    EvictionsAreOpen(cfg, w1.live.table);
    CloseAllKeepsAccounts(w1, Evictions(cfg, w1.live.table), fed);
    RecountKeepsAccounts(WatchedCloseAll(w1, Evictions(cfg, w1.live.table)), fed);
  }

  lemma RecountKeepsAccounts(w: Watched, fed: seq<Packet>)
    requires Accounted(w, fed)
    ensures Accounted(Watched(Recounted(w.live), w.hist, w.log), fed)
  {
    hide PacketsConserved, ClosedStreamsAccounted, StreamRun, RefsOf;
  }

  lemma ReasonsOfClosing(cfg: Config, t: Table, cs: seq<Closing>, now: int)
    requires forall c <- cs :: c.key in t.streams && WhyClose(cfg, t.streams[c.key], now) == Some(c.reason)
    ensures EvictsOpen(cs, t)
  {
    assert forall c <- cs :: c.reason != Evicted;
  }

  function Next(cfg: Config, w: Watched, s: Step): Watched
    requires Consistent(w.live.table)
  {
    match s
    case Feed(p) => WatchedFeed(w, p)
    case Sweep(now) => WatchedSweep(cfg, w, now)
    case Drain => WatchedDrain(w)
  }

  function FedBy(steps: seq<Step>): seq<Packet> {
    if steps == [] then []
    else
      var front, last := FedBy(steps[..|steps| - 1]), steps[|steps| - 1];
      if last.Feed? then front + [last.p] else front
  }

  const NEW_WATCHED := Watched(NEW_LIVE, map[], [])

  lemma StepKeepsConsistency(cfg: Config, w: Watched, s: Step)
    requires Consistent(w.live.table)
    ensures Consistent(Next(cfg, w, s).live.table)
  {
    hide AllClosed, WatchedSweep, WatchedDrain, WatchedCloseAll, TableFed, Evictions, Complete, WhyClose, WellSwept;
    match s
    case Feed(p) => TableTakesPacket(w.live.table, p);
    case Sweep(now) =>
      WatchedSweepIsSweep(cfg, w, now);
      SweepGuarantees(cfg, w.live, now);
    case Drain =>
      WatchedSweepIsSweep(cfg, w, 0);
      ClosingKeepsConsistency(w.live, Complete(w.live.table, w.live.table.order));
  }

  /** What a run of steps makes of a new reassembler. */
  function RunSteps(cfg: Config, steps: seq<Step>): (w: Watched)
    ensures Consistent(w.live.table)
  {
    if steps == [] then NEW_WATCHED
    else
      var v := RunSteps(cfg, steps[..|steps| - 1]);
      StepKeepsConsistency(cfg, v, steps[|steps| - 1]);
      Next(cfg, v, steps[|steps| - 1])
  }

  lemma StepKeepsAccounts(cfg: Config, w: Watched, s: Step, fed: seq<Packet>)
    requires Accounted(w, fed)
    ensures Accounted(Next(cfg, w, s), if s.Feed? then fed + [s.p] else fed)
  {
    hide PacketsConserved, ClosedStreamsAccounted, WatchedSweep, WatchedFeed, WatchedCloseAll, Complete, TableFed;
    match s
    case Feed(p) => FeedKeepsAccounts(w, p, fed);
    case Sweep(now) => SweepKeepsAccounts(cfg, w, now, fed);
    case Drain =>
      CompleteNeverEvicts(w.live.table, w.live.table.order);
      CloseAllKeepsAccounts(w, Complete(w.live.table, w.live.table.order), fed);
      RecountKeepsAccounts(WatchedCloseAll(w, Complete(w.live.table, w.live.table.order)), fed);
  }

  /** Over every run of feeding, sweeping and draining the accounts balance: each packet is in
      exactly one stream, each stream is closed at most once, every session is made from exactly its
      stream's packets and carries exactly their refs in order, and completed sessions are the sum
      of the closures by cause. */
  lemma {:induction false} EveryRunIsAccounted(cfg: Config, steps: seq<Step>)
    ensures Accounted(RunSteps(cfg, steps), FedBy(steps))
  {
    hide Accounted, Next;
    if steps == [] {
      NewIsAccounted();
    } else {
      var front, last := steps[..|steps| - 1], steps[|steps| - 1];
      EveryRunIsAccounted(cfg, front);
      StepKeepsAccounts(cfg, RunSteps(cfg, front), last, FedBy(front));
    }
  }

  lemma NewIsAccounted()
    ensures Accounted(NEW_WATCHED, [])
  {
  }

  // ----- what the callers get -----

  function SessionsOf(out: seq<Option<LiveSession>>): seq<LiveSession> {
    if out == [] then []
    else
      var front, last := SessionsOf(out[..|out| - 1]), out[|out| - 1];
      if last.Some? then front + [last.value] else front
  }

  /** The sessions of the log, in the order the streams were closed. */
  function SessionsIn(log: seq<Record>): seq<LiveSession> {
    if log == [] then []
    else
      var front, last := SessionsIn(log[..|log| - 1]), log[|log| - 1];
      if last.session.Some? then front + [last.session.value] else front
  }

  lemma {:induction false} SessionsOfBoth(a: seq<Option<LiveSession>>, b: seq<Option<LiveSession>>)
    ensures SessionsOf(a + b) == SessionsOf(a) + SessionsOf(b)
    decreases |b|
  {
    if b == [] {
      assert a + b == a;
    } else {
      assert (a + b)[..|a| + |b| - 1] == a + b[..|b| - 1];
      SessionsOfBoth(a, b[..|b| - 1]);
    }
  }

  lemma {:induction false} OnlySomeKeepsSessions(out: seq<Option<LiveSession>>)
    ensures SessionsOf(OnlySome(out)) == SessionsOf(out)
  {
    if out != [] {
      var front, last := out[..|out| - 1], out[|out| - 1];
      OnlySomeKeepsSessions(front);
      if last.Some? { assert (OnlySome(front) + [last])[..|OnlySome(front)|] == OnlySome(front); }
    }
  }

  lemma OneClosingIsLogged(w: Watched, c: Closing)
    ensures var sess := Closed(w.live, c).1;
            SessionsIn(WatchedClose(w, c).log) == SessionsIn(w.log) + if sess.Some? then [sess.value] else []
  {
    hide LiveSessionOf, Counted, HistFor, RefsFor;
    var log := WatchedClose(w, c).log;
    if log != w.log { assert log[..|w.log|] == w.log; }
  }

  lemma OneMoreSession(out: seq<Option<LiveSession>>, o: Option<LiveSession>)
    ensures SessionsOf(out + [o]) == SessionsOf(out) + if o.Some? then [o.value] else []
  {
    assert (out + [o])[..|out|] == out;
  }

  lemma {:induction false} ClosingsAreLogged(w: Watched, cs: seq<Closing>)
    ensures SessionsIn(WatchedCloseAll(w, cs).log) == SessionsIn(w.log) + SessionsOf(AllClosed(w.live, cs).1)
  {
    hide Closed, WatchedClose, SessionsIn, SessionsOf;
    if cs == [] {
      assert SessionsOf([]) == [] by { NoSessions(); }
    } else {
      var front, c := cs[..|cs| - 1], cs[|cs| - 1];
      ClosingsAreLogged(w, front);
      WatchingIsTransparent(w, front);
      var (l1, out) := AllClosed(w.live, front);
      OneClosingIsLogged(WatchedCloseAll(w, front), c);
      OneMoreSession(out, Closed(l1, c).1);
    }
  }

  lemma NoSessions()
    ensures SessionsOf([]) == []
  {
  }

  /** What the call of a step returns. */
  function Returned(cfg: Config, w: Watched, s: Step): seq<Option<LiveSession>>
    requires Consistent(w.live.table)
  {
    match s
    case Feed(_) => []
    case Sweep(now) => Swept(cfg, w.live, now).1
    case Drain => Drained(w.live).1
  }

  /** A sweep or a drain returns exactly the sessions of the streams it closes, in that order. */
  lemma StepReturnsTheLogged(cfg: Config, w: Watched, s: Step)
    requires Consistent(w.live.table)
    ensures SessionsIn(Next(cfg, w, s).log) == SessionsIn(w.log) + SessionsOf(Returned(cfg, w, s))
  {
    hide AllClosed, WatchedCloseAll, ToClose, Evictions, Complete, OnlySome, SessionsIn, SessionsOf, Recounted;
    var t := w.live.table;
    match s
    case Feed(_) => NoSessions();
    case Sweep(now) =>
      var cs := ToClose(cfg, t, t.order, now);
      ClosingsAreLogged(w, cs);
      WatchingIsTransparent(w, cs);
      ClosingKeepsConsistency(w.live, cs);
      var w1 := WatchedCloseAll(w, cs);
      var es := Evictions(cfg, w1.live.table);
      ClosingsAreLogged(w1, es);
      var (out1, out2) := (AllClosed(w.live, cs).1, AllClosed(w1.live, es).1);
      OnlySomeKeepsSessions(out2);
      SessionsOfBoth(out1, OnlySome(out2));
    case Drain =>
      ClosingsAreLogged(w, Complete(t, t.order));
      OnlySomeKeepsSessions(AllClosed(w.live, Complete(t, t.order)).1);
  }

  /** All that the calls of a run return, one after the other. */
  function ReturnedBy(cfg: Config, steps: seq<Step>): seq<Option<LiveSession>> {
    if steps == [] then []
    else
      ReturnedBy(cfg, steps[..|steps| - 1])
      + Returned(cfg, RunSteps(cfg, steps[..|steps| - 1]), steps[|steps| - 1])
  }

  /** Over every run the callers get exactly the sessions of the log, each once and in order. */
  lemma {:induction false} EverySessionIsReturned(cfg: Config, steps: seq<Step>)
    ensures SessionsOf(ReturnedBy(cfg, steps)) == SessionsIn(RunSteps(cfg, steps).log)
  {
    hide Next, Returned;
    if steps != [] {
      var front, last := steps[..|steps| - 1], steps[|steps| - 1];
      EverySessionIsReturned(cfg, front);
      StepReturnsTheLogged(cfg, RunSteps(cfg, front), last);
      SessionsOfBoth(ReturnedBy(cfg, front), Returned(cfg, RunSteps(cfg, front), last));
    }
  }
}
