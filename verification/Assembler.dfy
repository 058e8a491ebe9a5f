/** Demultiplexing of captured packets into bidirectional TCP streams. */
module Assembler {
  import opened Strings
  import opened Wrappers
  import opened Bytes
  import opened HalfStreams
  import opened Sessions
  import RawStore

  datatype Endpoint = Endpoint(ip: string, port: int)

  /** A directionless connection: its two ends in sorted order. */
  datatype Key = Key(a: Endpoint, b: Endpoint)

  /** Where a frame lies in the raw capture store. */
  type Ref = RawStore.Ref

  datatype Packet = Packet(src: Endpoint, dst: Endpoint, seg: Segment, rawRef: Option<Ref>)

  // ----- keys -----

  /** Python's <= on (ip, port) tuples. */
  predicate EndLe(x: Endpoint, y: Endpoint) {
    if x.ip == y.ip then x.port <= y.port else StrLe(x.ip, y.ip)
  }

  function KeyOf(x: Endpoint, y: Endpoint): Key {
    if EndLe(x, y) then Key(x, y) else Key(y, x)
  }

  /** Two packets share a key exactly when they belong to the same connection, in either direction. */
  lemma KeyJoinsBothDirections(x: Endpoint, y: Endpoint, u: Endpoint, v: Endpoint)
    ensures KeyOf(x, y) == KeyOf(u, v) <==> (x == u && y == v) || (x == v && y == u)
  {
    StrLeIsTotal(x.ip, y.ip);
    StrLeIsTotal(u.ip, v.ip);
  }

  // ----- one connection -----

  /** The value of a bidirectional stream; `ha` holds the bytes sent by end A. */
  datatype StreamState = StreamState(
    key: Key,
    ha: Half,
    hb: Half,
    synByA: bool,
    synByB: bool,
    complete: bool,
    firstTs: int)

  function NewStream(k: Key, ts: int): StreamState {
    StreamState(k, NEW_HALF, NEW_HALF, false, false, false, ts)
  }

  predicate IsFinished(ha: Half, hb: Half) {
    ha.rst || hb.rst || (ha.finSeq.Some? && hb.finSeq.Some?)
  }

  function StreamFed(st: StreamState, p: Packet): StreamState {
    var fromA := p.src == st.key.a;
    var ha := if fromA then Fed(st.ha, p.seg) else st.ha;
    var hb := if fromA then st.hb else Fed(st.hb, p.seg);
    StreamState(st.key, ha, hb, st.synByA || (fromA && p.seg.syn), st.synByB || (!fromA && p.seg.syn),
                st.complete || IsFinished(ha, hb), st.firstTs)
  }

  /** A stream that has seen exactly these packets. */
  function StreamRun(k: Key, ps: seq<Packet>): StreamState
    requires ps != []
    decreases |ps|
  {
    var last := ps[|ps| - 1];
    StreamFed(if |ps| == 1 then NewStream(k, last.seg.ts) else StreamRun(k, ps[..|ps| - 1]), last)
  }

  class Stream {
    const key: Key
    const ha: HalfStream
    const hb: HalfStream
    const firstTs: int
    var synByA: bool
    var synByB: bool
    var complete: bool

    ghost const Parts: set<object> := {this, ha, hb}

    ghost predicate Valid()
      reads this, ha, hb
    {
      ha != hb && ha.Valid() && hb.Valid()
    }

    ghost function State(): StreamState
      reads this, ha, hb
    {
      StreamState(key, ha.State(), hb.State(), synByA, synByB, complete, firstTs)
    }

    constructor (key: Key, ts: int)
      ensures Valid() && fresh(Parts)
      ensures State() == NewStream(key, ts)
    {
      this.key := key;
      ha := new HalfStream();
      hb := new HalfStream();
      firstTs := ts;
      synByA, synByB, complete := false, false, false;
    }

    method Feed(p: Packet)
      requires Valid()
      modifies this, ha, hb
      ensures Valid()
      ensures State() == StreamFed(old(State()), p)
    {
      hide Fed;
      if p.src == key.a {
        if p.seg.syn { synByA := true; }
        ha.Feed(p.seg);
      } else {
        if p.seg.syn { synByB := true; }
        hb.Feed(p.seg);
      }
      if ha.rst || hb.rst || (ha.finSeq.Some? && hb.finSeq.Some?) {
        complete := true;
      }
    }
  }

  // ----- all connections -----

  /** The value of the assembler's stream table; `order` is the insertion order of its keys. */
  datatype Table = Table(order: seq<Key>, streams: map<Key, StreamState>)

  const EMPTY_TABLE := Table([], map[])

  function WithStream(t: Table, k: Key, ts: int): (r: Table)
    ensures k in r.streams
  {
    if k in t.streams then t else Table(t.order + [k], t.streams[k := NewStream(k, ts)])
  }

  function TableFed(t: Table, p: Packet): Table {
    var k := KeyOf(p.src, p.dst);
    var t1 := WithStream(t, k, p.seg.ts);
    Table(t1.order, t1.streams[k := StreamFed(t1.streams[k], p)])
  }

  function TableRun(ps: seq<Packet>): Table {
    if ps == [] then EMPTY_TABLE else TableFed(TableRun(ps[..|ps| - 1]), ps[|ps| - 1])
  }

  // ----- sessions -----

  predicate IsMailPort(port: int) {
    ProtocolOfPort(port) != UNKNOWN
  }

  /** The SYN sender is the client; else the end with the ephemeral port; else the first talker. */
  function ResolveClient(st: StreamState): (c: Endpoint)
    ensures c == st.key.a || c == st.key.b
  {
    var a, b := st.key.a, st.key.b;
    var ta, tb := st.ha.firstTs, st.hb.firstTs;
    if st.synByA && !st.synByB then a
    else if st.synByB && !st.synByA then b
    else if IsMailPort(a.port) && !IsMailPort(b.port) then b
    else if IsMailPort(b.port) && !IsMailPort(a.port) then a
    else if ta != 0 && (tb == 0 || ta < tb) then a
    else if tb != 0 && (ta == 0 || tb < ta) then b
    else a
  }

  function ServerOf(st: StreamState): Endpoint {
    if ResolveClient(st) == st.key.a then st.key.b else st.key.a
  }

  function Buf(h: Half): ByteString {
    if h.win.Some? then h.win.value.buf else []
  }

  function ClientBytes(st: StreamState): ByteString {
    Buf(if ResolveClient(st) == st.key.a then st.ha else st.hb)
  }

  function ServerBytes(st: StreamState): ByteString {
    Buf(if ResolveClient(st) == st.key.a then st.hb else st.ha)
  }

  datatype Session = Session(protocol: Protocol, client: Endpoint, server: Endpoint, startTs: int, split: Split)

  /** The session of a finished stream; streams of no known protocol yield none. */
  function SessionOf(st: StreamState): Option<Session> {
    var server := ServerOf(st);
    var protocol := DetectProtocol(server.port, ClientBytes(st), ServerBytes(st));
    if protocol == UNKNOWN then None
    else
      Some(Session(protocol, ResolveClient(st), server, st.firstTs,
                   SplitOf(server.port, protocol, ClientBytes(st), ServerBytes(st))))
  }

  method BuildSession(st: StreamState) returns (sess: Option<Session>)
    ensures sess == SessionOf(st)
  {
    var client := ResolveClient(st);
    var server, clientBytes, serverBytes := st.key.b, Buf(st.ha), Buf(st.hb);
    if client != st.key.a {
      server, clientBytes, serverBytes := st.key.a, Buf(st.hb), Buf(st.ha);
    }
    var protocol := DetectProtocol(server.port, clientBytes, serverBytes);
    if protocol == UNKNOWN { return None; }
    var split := AssignTlsSegments(server.port, protocol, clientBytes, serverBytes);
    sess := Some(Session(protocol, client, server, st.firstTs, split));
  }

  /** The table of streams. Its entries are stream values: what the object of class Stream with the
      same fields would hold. */
  class StreamAssembler {
    var streams: map<Key, StreamState>
    var order: seq<Key>

    ghost function State(): Table
      reads this
    {
      Table(order, streams)
    }

    constructor ()
      ensures State() == EMPTY_TABLE
    {
      streams, order := map[], [];
    }

    method Feed(p: Packet)
      modifies this
      ensures State() == TableFed(old(State()), p)
    {
      var k := KeyOf(p.src, p.dst);
      if k !in streams {
        streams := streams[k := NewStream(k, p.seg.ts)];
        order := order + [k];
      }
      streams := streams[k := StreamFed(streams[k], p)];
    }

    /** The sessions of all complete streams, in the order the streams were opened. */
    method Emit() returns (out: seq<Session>)
      requires forall k <- order :: k in streams
      ensures out == Emitted(streams, order)
    {
      out := [];
      for i := 0 to |order|
        invariant out == Emitted(streams, order[..i])
      {
        assert order[..i + 1][..i] == order[..i];
        if streams[order[i]].complete {
          var sess := BuildSession(streams[order[i]]);
          if sess.Some? { out := out + [sess.value]; }
        }
      }
      assert order[..|order|] == order;
    }

    /** dict.pop: the key leaves the table and the iteration order. */
    method Pop(k: Key) returns (st: StreamState)
      requires k in streams
      modifies this
      ensures st == old(streams)[k]
      ensures State() == Without(old(State()), k)
    {
      st := streams[k];
      streams := streams - {k};
      order := Removed(order, k);
    }
  }

  function Emitted(streams: map<Key, StreamState>, order: seq<Key>): seq<Session>
    requires forall k <- order :: k in streams
  {
    if order == [] then []
    else
      var front, st := Emitted(streams, order[..|order| - 1]), streams[order[|order| - 1]];
      var sess := SessionOf(st);
      if st.complete && sess.Some? then front + [sess.value] else front
  }

  function Removed(order: seq<Key>, k: Key): (r: seq<Key>)
    ensures forall x :: x in r <==> x in order && x != k
  {
    if order == [] then []
    else if order[0] == k then Removed(order[1..], k)
    else [order[0]] + Removed(order[1..], k)
  }

  function Without(t: Table, k: Key): Table {
    Table(Removed(t.order, k), t.streams - {k})
  }

  // ----- demultiplexing over whole captures -----

  /** The packets of one connection, in order. */
  function Of(ps: seq<Packet>, k: Key): seq<Packet> {
    if ps == [] then []
    else
      var front, last := Of(ps[..|ps| - 1], k), ps[|ps| - 1];
      if KeyOf(last.src, last.dst) == k then front + [last] else front
  }

  /** What end x sent to end y, in order. */
  function Sent(ps: seq<Packet>, x: Endpoint, y: Endpoint): seq<Segment> {
    if ps == [] then []
    else
      var front, last := Sent(ps[..|ps| - 1], x, y), ps[|ps| - 1];
      if last.src == x && last.dst == y then front + [last.seg] else front
  }

  /** For every interleaving of any number of connections: the stream of a connection is exactly
      what its own packets alone would have made. */
  lemma {:induction false} StreamsDoNotInterfere(ps: seq<Packet>, k: Key)
    ensures k in TableRun(ps).streams <==> Of(ps, k) != []
    ensures k in TableRun(ps).streams ==> TableRun(ps).streams[k] == StreamRun(k, Of(ps, k))
  {
    hide StreamFed;
    if ps != [] {
      var front, last := ps[..|ps| - 1], ps[|ps| - 1];
      StreamsDoNotInterfere(front, k);
      var mine := Of(front, k);
      if KeyOf(last.src, last.dst) == k {
        assert (mine + [last])[..|mine|] == mine;
        assert Of(ps, k) == mine + [last];
      }
    }
  }

  ghost predicate AllKeyed(qs: seq<Packet>, k: Key) {
    forall q <- qs :: KeyOf(q.src, q.dst) == k
  }

  lemma {:induction false} OfIsKeyed(ps: seq<Packet>, k: Key)
    ensures AllKeyed(Of(ps, k), k)
  {
    if ps != [] { OfIsKeyed(ps[..|ps| - 1], k); }
  }

  lemma {:induction false} SentWithinConnection(ps: seq<Packet>, x: Endpoint, y: Endpoint)
    ensures Sent(Of(ps, KeyOf(x, y)), x, y) == Sent(ps, x, y)
  {
    if ps != [] {
      var front, last := ps[..|ps| - 1], ps[|ps| - 1];
      var k := KeyOf(x, y);
      SentWithinConnection(front, x, y);
      if KeyOf(last.src, last.dst) == k {
        var mine := Of(front, k);
        assert Of(ps, k) == mine + [last];
        assert (mine + [last])[..|mine|] == mine;
      }
    }
  }

  /** Each half of a stream is the reassembly of what that end sent. */
  lemma {:induction false} HalvesAreDirections(k: Key, qs: seq<Packet>)
    requires qs != [] && AllKeyed(qs, k) && k.a != k.b
    ensures StreamRun(k, qs).key == k
    ensures StreamRun(k, qs).ha == Run(Sent(qs, k.a, k.b))
    ensures StreamRun(k, qs).hb == Run(Sent(qs, k.b, k.a))
    decreases |qs|
  {
    var front, last := qs[..|qs| - 1], qs[|qs| - 1];
    assert last in qs;
    if |qs| > 1 {
      HalvesAreDirections(k, front);
    }
    RunMore(Sent(front, k.a, k.b), last.seg);
    RunMore(Sent(front, k.b, k.a), last.seg);
    assert (last.src == k.a && last.dst == k.b) || (last.src == k.b && last.dst == k.a);
  }

  lemma RunMore(segs: seq<Segment>, s: Segment)
    ensures Run(segs + [s]) == Fed(Run(segs), s)
  {
    assert (segs + [s])[..|segs|] == segs;
  }

  /** The table lists every stream exactly once. */
  ghost predicate Consistent(t: Table) {
    && (forall k :: k in t.order <==> k in t.streams)
    && (forall i, j :: 0 <= i < j < |t.order| ==> t.order[i] != t.order[j])
  }

  lemma {:induction false} TableIsConsistent(ps: seq<Packet>)
    ensures Consistent(TableRun(ps))
  {
    if ps != [] { TableIsConsistent(ps[..|ps| - 1]); }
  }

  /** Whichever end sorts first: the client bytes of a stream are the reassembly of exactly what the
      client sent to the server in the whole capture, and the server bytes of the converse. */
  lemma BytesBelongToTheirSender(ps: seq<Packet>, k: Key)
    requires k in TableRun(ps).streams && k.a != k.b
    ensures var st := TableRun(ps).streams[k];
            var c, s := ResolveClient(st), ServerOf(st);
            && KeyOf(c, s) == k && c != s
            && ClientBytes(st) == Buf(Run(Sent(ps, c, s)))
            && ServerBytes(st) == Buf(Run(Sent(ps, s, c)))
  {
    StreamsDoNotInterfere(ps, k);
    var qs := Of(ps, k);
    OfIsKeyed(ps, k);
    HalvesAreDirections(k, qs);
    var q := qs[0];
    assert q in qs && KeyOf(q.src, q.dst) == k;
    KeyJoinsBothDirections(q.src, q.dst, k.a, k.b);
    KeyJoinsBothDirections(k.a, k.b, k.b, k.a);
    SentWithinConnection(ps, k.a, k.b);
    SentWithinConnection(ps, k.b, k.a);
  }

  /** End to end: if all that the client sent agrees with one true stream, then an emitted session's
      plaintext followed by its TLS part is a contiguous stretch of that stream. */
  lemma SessionIsTheClientStream(ps: seq<Packet>, k: Key, t: int -> Byte) returns (lo: int, hi: int)
    requires k in TableRun(ps).streams && k.a != k.b
    requires SessionOf(TableRun(ps).streams[k]).Some?
    requires var st := TableRun(ps).streams[k];
             forall s <- Sent(ps, ResolveClient(st), ServerOf(st)) :: Agrees(t, s.sq, s.payload)
    ensures var sess := SessionOf(TableRun(ps).streams[k]).value;
            lo <= hi && sess.split.plaintext + sess.split.tls == Slice(t, lo, hi)
  {
    var st := TableRun(ps).streams[k];
    BytesBelongToTheirSender(ps, k);
    var segs := Sent(ps, ResolveClient(st), ServerOf(st));
    EmittedBytesAreTheStream(segs, t);
    var h := Run(segs);
    lo, hi := 0, 0;
    if h.win.Some? { lo, hi := h.win.value.base, h.win.value.frontier; }
    assert ClientBytes(st) == Slice(t, lo, hi);
    ClientIsPartitioned(ServerOf(st).port, SessionOf(st).value.protocol, ClientBytes(st), ServerBytes(st));
  }

  lemma {:induction false} SynFlags(k: Key, qs: seq<Packet>)
    requires qs != []
    ensures StreamRun(k, qs).key == k
    ensures StreamRun(k, qs).synByA <==> exists q <- qs :: q.src == k.a && q.seg.syn
    ensures StreamRun(k, qs).synByB <==> exists q <- qs :: q.src != k.a && q.seg.syn
    decreases |qs|
  {
    var front, last := qs[..|qs| - 1], qs[|qs| - 1];
    assert forall q :: q in qs <==> q in front || q == last;
    if |qs| > 1 { SynFlags(k, front); }
  }

  /** The time of the first data that an end sent; a time of zero counts as none. */
  function FirstData(qs: seq<Packet>, x: Endpoint): int {
    if qs == [] then 0
    else
      var before, last := FirstData(qs[..|qs| - 1], x), qs[|qs| - 1];
      if before == 0 && last.src == x && last.seg.payload != [] then last.seg.ts else before
  }

  lemma {:induction false} FirstTimes(k: Key, qs: seq<Packet>)
    requires qs != [] && AllKeyed(qs, k) && k.a != k.b
    ensures StreamRun(k, qs).key == k
    ensures StreamRun(k, qs).ha.firstTs == FirstData(qs, k.a)
    ensures StreamRun(k, qs).hb.firstTs == FirstData(qs, k.b)
    decreases |qs|
  {
    hide Put, Opened;
    var front, last := qs[..|qs| - 1], qs[|qs| - 1];
    assert last in qs && KeyOf(last.src, last.dst) == k;
    if |qs| > 1 {
      assert forall q <- front :: q in qs;
      FirstTimes(k, front);
    }
  }

  ghost predicate SentSyn(qs: seq<Packet>, x: Endpoint) {
    exists q <- qs :: q.src == x && q.seg.syn
  }

  /** Which end talks first; a tie, or silence, falls to the end that sorts first. */
  predicate TalksFirst(x: Endpoint, y: Endpoint, tx: int, ty: int) {
    if tx == ty then EndLe(x, y) else tx != 0 && (ty == 0 || tx < ty)
  }

  /** Exactly when an end of a connection is taken for its client: it alone was seen sending a SYN
      flag; or both or neither were, and only the other end has a mail port; or the ports do not tell
      either, and it talks first. After a full handshake both ends have sent the flag, since the
      SYN-ACK carries it, so that the ports and the first talker decide. */
  lemma WhoIsTheClient(qs: seq<Packet>, c: Endpoint, s: Endpoint)
    requires qs != [] && c != s && AllKeyed(qs, KeyOf(c, s))
    ensures ResolveClient(StreamRun(KeyOf(c, s), qs)) == c <==>
              if SentSyn(qs, c) != SentSyn(qs, s) then SentSyn(qs, c)
              else if IsMailPort(c.port) != IsMailPort(s.port) then IsMailPort(s.port)
              else TalksFirst(c, s, FirstData(qs, c), FirstData(qs, s))
  {
    hide IsMailPort, FirstData, StreamRun;
    var k := KeyOf(c, s);
    StrLeIsTotal(c.ip, s.ip);
    SynFlags(k, qs);
    FirstTimes(k, qs);
    forall q | q in qs
      ensures q.src != k.a <==> q.src == k.b
    {
      assert KeyOf(q.src, q.dst) == k;
    }
  }

  /** A full handshake, then the server's banner, then the client's first command. */
  function Greeting(c: Endpoint, s: Endpoint, isn: int, banner: ByteString, hello: ByteString, t: int): seq<Packet> {
    [Packet(c, s, Segment(isn, [], true, false, false, t), None),
     Packet(s, c, Segment(isn, [], true, false, false, t + 1), None),
     Packet(s, c, Segment(isn + 1, banner, false, false, false, t + 2), None),
     Packet(c, s, Segment(isn + 1, hello, false, false, false, t + 3), None)]
  }

  /** On ports that are no mail ports this swaps the roles: the end that sends the banner is taken for
      the client of the connection that the other end opened. */
  lemma BannerSwapsRoles(c: Endpoint, s: Endpoint, isn: int, banner: ByteString, hello: ByteString, t: int)
    requires c != s && !IsMailPort(c.port) && !IsMailPort(s.port) && banner != [] && hello != [] && 0 < t
    ensures var st := StreamRun(KeyOf(c, s), Greeting(c, s, isn, banner, hello, t));
            ResolveClient(st) == s && ServerOf(st) == c
  {
    hide StreamRun, IsMailPort;
    var qs := Greeting(c, s, isn, banner, hello, t);
    KeyJoinsBothDirections(c, s, s, c);
    assert qs[0] in qs && qs[1] in qs;
    assert qs[..3][..2] == qs[..2] && qs[..2][..1] == qs[..1] && qs[..1][..0] == [];
    assert FirstData(qs[..1], s) == 0 && FirstData(qs[..2], s) == 0 && FirstData(qs[..3], s) == t + 2;
    assert FirstData(qs[..1], c) == 0 && FirstData(qs[..2], c) == 0 && FirstData(qs[..3], c) == 0;
    WhoIsTheClient(qs, s, c);
    StreamKeeps(KeyOf(c, s), qs);
  }

  lemma StreamKeeps(k: Key, qs: seq<Packet>)
    requires qs != []
    ensures StreamRun(k, qs).key == k
  {
    SynFlags(k, qs);
  }

  /** As on port 2525. */
  lemma RolesSwapOnPort2525(x: string, y: string, isn: int, banner: ByteString, hello: ByteString, t: int)
    requires banner != [] && hello != [] && 0 < t
    ensures var (c, s) := (Endpoint(x, 40000), Endpoint(y, 2525));
            ResolveClient(StreamRun(KeyOf(c, s), Greeting(c, s, isn, banner, hello, t))) == s
  {
    assert !IsMailPort(40000) && !IsMailPort(2525);
    BannerSwapsRoles(Endpoint(x, 40000), Endpoint(y, 2525), isn, banner, hello, t);
  }
}
