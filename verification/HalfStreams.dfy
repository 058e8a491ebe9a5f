/** One direction of a TCP connection: online reassembly of a byte stream. */
module HalfStreams {
  import opened Wrappers
  import opened Bytes

  /** What one packet contributes to its direction. */
  datatype Segment = Segment(sq: int, payload: ByteString, syn: bool, fin: bool, rst: bool, ts: int)

  /** Reassembly proper: the position the stream starts at, the next position to emit, the segments
      buffered beyond it, and the bytes emitted so far. */
  datatype Window = Window(base: int, frontier: int, pending: map<int, ByteString>, buf: ByteString)

  /** The value of a half-stream; it has no window until data arrives. */
  datatype Half = Half(win: Option<Window>, finSeq: Option<int>, rst: bool,
                       firstTs: int, lastTs: int, synSeq: Option<int>)

  const NEW_HALF := Half(None, None, false, 0, 0, None)

  // ----- the specification of the updates -----

  /** Emit every buffered segment that starts exactly at the frontier. */
  function Flushed(w: Window): Window
    decreases |w.pending|
  {
    var f := w.frontier;
    if f !in w.pending then w
    else Flushed(Window(w.base, f + |w.pending[f]|, w.pending - {f}, w.buf + w.pending[f]))
  }

  /** Data below the frontier is a retransmission; only the rest is buffered and flushed. */
  function Put(w: Window, sq: int, data: ByteString): Window {
    if sq + |data| <= w.frontier then w
    else
      var skip := if sq < w.frontier then w.frontier - sq else 0;
      Flushed(w.(pending := w.pending[sq + skip := data[skip..]]))
  }

  /** The window data finds or opens: anchored after the SYN, or else at the first data. */
  function Opened(h: Half, sq: int): Window {
    if h.win.Some? then h.win.value
    else
      var base := if h.synSeq.Some? then h.synSeq.value + 1 else sq;
      Window(base, base, map[], [])
  }

  function Stored(h: Half, sq: int, data: ByteString, ts: int): Half {
    if data == [] then h
    else
      Half(Some(Put(Opened(h, sq), sq, data)), h.finSeq, h.rst,
           if h.firstTs == 0 then ts else h.firstTs, ts, h.synSeq)
  }

  /** The SYN, FIN and RST marks of a packet. */
  function Marked(h: Half, s: Segment): (r: Half)
    ensures r.win == h.win
  {
    Half(h.win,
         if s.fin then Some(s.sq + |s.payload|) else h.finSeq,
         h.rst || s.rst, h.firstTs, h.lastTs,
         if s.syn then Some(s.sq) else h.synSeq)
  }

  function Fed(h: Half, s: Segment): Half {
    Stored(Marked(h, s), s.sq, s.payload, s.ts)
  }

  function Run(segs: seq<Segment>): Half {
    if segs == [] then NEW_HALF
    else Fed(Run(segs[..|segs| - 1]), segs[|segs| - 1])
  }

  // ----- the object -----

  class HalfStream {
    var baseSeq: Option<int>
    var frontier: Option<int>
    var pending: map<int, ByteString>
    var buf: ByteString
    var finSeq: Option<int>
    var rst: bool
    var firstTs: int
    var lastTs: int
    var synSeq: Option<int>

    ghost predicate Valid()
      reads this
    {
      if baseSeq.Some? then frontier.Some? else frontier.None? && pending == map[] && buf == []
    }

    ghost function Win(): Window
      requires baseSeq.Some? && frontier.Some?
      reads this
    {
      Window(baseSeq.value, frontier.value, pending, buf)
    }

    ghost function State(): Half
      reads this
    {
      Half(if baseSeq.Some? && frontier.Some? then Some(Win()) else None, finSeq, rst, firstTs, lastTs, synSeq)
    }

    constructor ()
      ensures Valid() && State() == NEW_HALF
    {
      baseSeq, frontier, pending, buf := None, None, map[], [];
      finSeq, rst, firstTs, lastTs, synSeq := None, false, 0, 0, None;
    }

    method Flush()
      requires Valid() && baseSeq.Some?
      modifies `frontier, `pending, `buf
      ensures Valid() && Win() == Flushed(old(Win()))
    {
      while frontier.value in pending
        invariant Valid()
        invariant Flushed(Win()) == Flushed(old(Win()))
        decreases |pending|
      {
        var seg := pending[frontier.value];
        buf := buf + seg;
        frontier := Some(frontier.value + |seg|);
        pending := pending - {frontier.value - |seg|};
      }
    }

    method Store(sq: int, data: ByteString, ts: int)
      requires Valid()
      modifies this
      ensures Valid() && State() == Stored(old(State()), sq, data, ts)
    {
      hide Flushed;
      if data == [] { return; }
      ghost var w := Opened(State(), sq);
      if firstTs == 0 { firstTs := ts; }
      lastTs := ts;
      if synSeq.Some? && baseSeq.None? { baseSeq := Some(synSeq.value + 1); }
      if baseSeq.None? { baseSeq := Some(sq); }
      if frontier.None? { frontier := baseSeq; }
      assert Win() == w;
      var end := sq + |data|;
      if end <= frontier.value { return; }
      var start, rest := sq, data;
      if sq < frontier.value {
        var skip := frontier.value - sq;
        start, rest := frontier.value, data[skip..];
      }
      pending := pending[start := rest];
      Flush();
    }

    method Feed(s: Segment)
      requires Valid()
      modifies this
      ensures Valid() && State() == Fed(old(State()), s)
    {
      if s.syn { synSeq := Some(s.sq); }
      if s.fin { finSeq := Some(s.sq + |s.payload|); }
      if s.rst { rst := true; }
      assert State() == Marked(old(State()), s);
      if s.payload != [] { Store(s.sq, s.payload, s.ts); }
    }
  }

  // ----- safety: the buffer is always a slice of the true stream -----

  /** The bytes of the true stream `t` from position `lo` up to `hi`. */
  function Slice(t: int -> Byte, lo: int, hi: int): (s: ByteString)
    requires lo <= hi
    ensures |s| == hi - lo && forall i :: 0 <= i < hi - lo ==> s[i] == t(lo + i)
  {
    seq(hi - lo, i requires 0 <= i < hi - lo => t(lo + i))
  }

  ghost predicate Agrees(t: int -> Byte, sq: int, data: ByteString) {
    data == Slice(t, sq, sq + |data|)
  }

  /** The emitted bytes and every buffered segment are what the true stream has at their positions. */
  ghost predicate Faithful(w: Window, t: int -> Byte) {
    && w.base + |w.buf| == w.frontier
    && Agrees(t, w.base, w.buf)
    && forall k <- w.pending :: w.pending[k] != [] && Agrees(t, k, w.pending[k])
  }

  /** What no update takes back: the base, the emitted bytes, the order of the frontier. */
  ghost predicate Extends(before: Window, after: Window) {
    before.buf <= after.buf && before.base == after.base && before.frontier <= after.frontier
  }

  lemma {:induction false} FlushKeepsFaith(w: Window, t: int -> Byte)
    requires Faithful(w, t)
    ensures Faithful(Flushed(w), t) && Extends(w, Flushed(w)) && Flushed(w).frontier !in Flushed(w).pending
    decreases |w.pending|
  {
    var f := w.frontier;
    if f in w.pending {
      var v := Window(w.base, f + |w.pending[f]|, w.pending - {f}, w.buf + w.pending[f]);
      assert Agrees(t, v.base, v.buf);
      FlushKeepsFaith(v, t);
    }
  }

  lemma PutKeepsFaith(w: Window, sq: int, data: ByteString, t: int -> Byte)
    requires Faithful(w, t) && Agrees(t, sq, data) && data != []
    ensures Faithful(Put(w, sq, data), t) && Extends(w, Put(w, sq, data))
  {
    if sq + |data| > w.frontier {
      var skip := if sq < w.frontier then w.frontier - sq else 0;
      var rest := data[skip..];
      assert Agrees(t, sq + skip, rest) by { assert rest == Slice(t, sq + skip, sq + |data|); }
      var v := w.(pending := w.pending[sq + skip := rest]);
      FlushKeepsFaith(v, t);
    }
  }

  /** Whatever is lost, repeated, reordered or overlapping: the emitted bytes are exactly the true
      stream from the base to the frontier. */
  lemma {:induction false} EmittedBytesAreTheStream(segs: seq<Segment>, t: int -> Byte)
    requires forall s <- segs :: Agrees(t, s.sq, s.payload)
    ensures var h := Run(segs);
            h.win.Some? ==>
              && Faithful(h.win.value, t)
              && h.win.value.base <= h.win.value.frontier
              && h.win.value.buf == Slice(t, h.win.value.base, h.win.value.frontier)
  {
    if segs != [] {
      var front, last := segs[..|segs| - 1], segs[|segs| - 1];
      EmittedBytesAreTheStream(front, t);
      if last.payload != [] {
        PutKeepsFaith(Opened(Marked(Run(front), last), last.sq), last.sq, last.payload, t);
      }
    }
  }

  /** Over a whole run emitted bytes are only appended to; base and frontier never move back. */
  lemma {:induction false} RunsOnlyExtend(segs: seq<Segment>, k: nat, t: int -> Byte)
    requires k <= |segs|
    requires forall s <- segs :: Agrees(t, s.sq, s.payload)
    ensures Run(segs[..k]).win.Some? ==>
              Run(segs).win.Some? && Extends(Run(segs[..k]).win.value, Run(segs).win.value)
    decreases |segs|
  {
    if k == |segs| {
      assert segs[..k] == segs;
    } else {
      var front, last := segs[..|segs| - 1], segs[|segs| - 1];
      assert front[..k] == segs[..k];
      RunsOnlyExtend(front, k, t);
      EmittedBytesAreTheStream(front, t);
      if last.payload != [] && Run(front).win.Some? {
        PutKeepsFaith(Run(front).win.value, last.sq, last.payload, t);
      }
    }
  }

  // ----- order independence on a fixed segmentation -----

  /** The true stream of a sender that never re-segments: `bytes` from position `start` on, tiled
      by non-empty pieces that are keyed by their own start. */
  datatype Cutting = Cutting(start: int, bytes: ByteString, pieces: map<int, ByteString>) {
    ghost predicate Valid() {
      && IsCut(start)
      && (forall p {:trigger Next(p)} :: p in pieces ==>
            && start <= p && pieces[p] != [] && Next(p) <= End() && IsCut(Next(p))
            && pieces[p] == bytes[p - start..Next(p) - start])
      && (forall p, q {:trigger Next(p), q in pieces} :: p in pieces && q in pieces && p < q ==> Next(p) <= q)
    }

    function End(): int { start + |bytes| }

    ghost predicate IsCut(x: int) { x in pieces || x == End() }

    ghost function Next(p: int): int
      requires p in pieces
    {
      p + |pieces[p]|
    }
  }

  /** The received pieces that start at m or later. */
  ghost function Beyond(c: Cutting, r: set<int>, m: int): map<int, ByteString>
    requires r <= c.pieces.Keys
  {
    map p | p in r && m <= p :: c.pieces[p]
  }

  /** The one window that belongs to anchor `a` and received pieces `r`: everything from `a` up to
      cut `m` has been emitted, and the received pieces from `m` on are buffered whole. */
  ghost predicate Canonical(w: Window, c: Cutting, r: set<int>, a: int, m: int)
    requires c.Valid() && r <= c.pieces.Keys
  {
    && c.start <= a <= m <= c.End() && c.IsCut(m)
    && (forall p <- c.pieces :: a <= p < m ==> p in r)
    && w == Window(a, m, Beyond(c, r, m), c.bytes[a - c.start..m - c.start])
  }

  lemma JoinPiece(c: Cutting, a: int, m: int)
    requires c.Valid() && m in c.pieces && c.start <= a <= m
    ensures c.Next(m) <= c.End() && c.IsCut(c.Next(m))
    ensures c.bytes[a - c.start..m - c.start] + c.pieces[m] == c.bytes[a - c.start..c.Next(m) - c.start]
  {
  }

  lemma {:induction false} FlushIsCanonical(w: Window, c: Cutting, r: set<int>, a: int, m: int) returns (n: int)
    requires c.Valid() && r <= c.pieces.Keys && Canonical(w, c, r, a, m)
    ensures Canonical(Flushed(w), c, r, a, n) && n !in r
    decreases |w.pending|
  {
    n := m;
    if m in r {
      JoinPiece(c, a, m);
      var v := Window(a, c.Next(m), w.pending - {m}, w.buf + w.pending[m]);
      assert v.pending == Beyond(c, r, c.Next(m));
      n := FlushIsCanonical(v, c, r, a, c.Next(m));
    }
  }

  /** A piece arrives: the window stays canonical, for one more received piece. Pieces before the
      anchor are ignored. */
  lemma PutPiece(w: Window, c: Cutting, r: set<int>, a: int, m: int, p: int) returns (n: int)
    requires c.Valid() && r <= c.pieces.Keys && Canonical(w, c, r, a, m) && m !in r
    requires p in c.pieces
    ensures var r' := if a <= p then r + {p} else r;
            Canonical(Put(w, p, c.pieces[p]), c, r', a, n) && n !in r'
  {
    var next := c.Next(p);
    if p < m {
      assert a <= p ==> r + {p} == r;
      n := m;
    } else {
      var data := c.pieces[p];
      assert data[0..] == data;
      var v := w.(pending := w.pending[p := data]);
      assert v.pending == Beyond(c, r + {p}, m);
      n := FlushIsCanonical(v, c, r + {p}, a, m);
    }
  }

  /** The packets of one direction of such a sender: any payload is one of the pieces, and a SYN
      carries the position just before the first piece. */
  ghost predicate FixedSegmentation(segs: seq<Segment>, c: Cutting) {
    forall s <- segs ::
      && (s.syn ==> s.sq + 1 == c.start)
      && (s.payload != [] ==> s.sq in c.pieces && s.payload == c.pieces[s.sq])
  }

  ghost predicate Has(segs: seq<Segment>, p: int) {
    exists s <- segs :: s.payload != [] && s.sq == p
  }

  /** Packet number k is the first one with a payload. */
  ghost predicate FirstData(segs: seq<Segment>, k: nat) {
    k < |segs| && segs[k].payload != [] && forall j :: 0 <= j < k ==> segs[j].payload == []
  }

  /** The pieces that arrived, from the anchor on. */
  ghost function Arrived(segs: seq<Segment>, c: Cutting, a: int): (r: set<int>)
    ensures r <= c.pieces.Keys
  {
    set p | p in c.pieces && a <= p && Has(segs, p)
  }

  /** The anchor: the start of the stream when a SYN came no later than the first data, otherwise
      the start of whichever piece arrived first. */
  ghost function Anchor(segs: seq<Segment>, c: Cutting, k: nat): int
    requires FirstData(segs, k)
  {
    if exists j :: 0 <= j <= k && segs[j].syn then c.start else segs[k].sq
  }

  lemma {:induction false} BeforeAnyData(segs: seq<Segment>, c: Cutting)
    requires FixedSegmentation(segs, c)
    requires forall s <- segs :: s.payload == []
    ensures var h := Run(segs);
            && h.win == None
            && (h.synSeq.Some? <==> exists s <- segs :: s.syn)
            && (h.synSeq.Some? ==> h.synSeq.value + 1 == c.start)
  {
    if segs != [] {
      BeforeAnyData(segs[..|segs| - 1], c);
    }
  }

  lemma ArrivedMore(front: seq<Segment>, last: Segment, c: Cutting, a: int)
    requires last.payload != [] ==> last.sq in c.pieces
    ensures Arrived(front + [last], c, a)
            == if last.payload != [] && a <= last.sq then Arrived(front, c, a) + {last.sq} else Arrived(front, c, a)
  {
    assert forall s :: s in front + [last] <==> s in front || s == last;
    assert forall p :: Has(front + [last], p) <==> Has(front, p) || (last.payload != [] && last.sq == p);
  }

  lemma SynByIndex(front: seq<Segment>, last: Segment)
    requires !last.syn
    ensures (exists s <- front :: s.syn) <==> exists j :: 0 <= j <= |front| && (front + [last])[j].syn
  {
    var segs := front + [last];
    if s :| s in front && s.syn {
      var j :| 0 <= j < |front| && front[j] == s;
      assert segs[j].syn;
    }
    if j :| 0 <= j <= |front| && segs[j].syn {
      assert front[j] in front;
    }
  }

  /** The window that the first data opens is at the anchor. */
  lemma OpenedAtAnchor(front: seq<Segment>, last: Segment, c: Cutting)
    requires FixedSegmentation(front, c) && c.Valid()
    requires (forall s <- front :: s.payload == []) && last.payload != [] && last.sq in c.pieces && !last.syn
    ensures FirstData(front + [last], |front|)
    ensures var a := Anchor(front + [last], c, |front|);
            c.start <= a <= c.End() && c.IsCut(a)
            && Opened(Marked(Run(front), last), last.sq) == Window(a, a, map[], [])
  {
    hide Put, Run;
    assert forall j :: 0 <= j < |front| ==> (front + [last])[j] == front[j] && front[j] in front;
    BeforeAnyData(front, c);
    SynByIndex(front, last);
    var next := c.Next(last.sq);
  }

  lemma FirstPiece(front: seq<Segment>, last: Segment, c: Cutting) returns (m: int)
    requires c.Valid() && FixedSegmentation(front + [last], c)
    requires (forall s <- front :: s.payload == []) && last.payload != []
    ensures FirstData(front + [last], |front|)
    ensures var a := Anchor(front + [last], c, |front|);
            var r := Arrived(front + [last], c, a);
            var h := Fed(Run(front), last);
            h.win.Some? && Canonical(h.win.value, c, r, a, m) && m !in r
  {
    assert last in front + [last] && forall s <- front :: s in front + [last];
    var next := c.Next(last.sq);
    assert !last.syn;
    OpenedAtAnchor(front, last, c);
    var a := Anchor(front + [last], c, |front|);
    var w := Window(a, a, map[], []);
    assert Beyond(c, {}, a) == map[];
    m := PutPiece(w, c, {}, a, a, last.sq);
    assert Arrived(front, c, a) == {};
    ArrivedMore(front, last, c, a);
  }

  /** For every order of arrival, with any repetition: once data has arrived the window is a
      function of the anchor and of which pieces have arrived, and the frontier is the end of the
      longest gap-free run of received pieces. */
  lemma {:induction false} WindowIsCanonical(segs: seq<Segment>, c: Cutting, k: nat) returns (m: int)
    requires c.Valid() && FixedSegmentation(segs, c) && FirstData(segs, k)
    ensures var a := Anchor(segs, c, k);
            && Run(segs).win.Some?
            && Canonical(Run(segs).win.value, c, Arrived(segs, c, a), a, m) && m !in Arrived(segs, c, a)
    decreases |segs|
  {
    hide Put, Canonical;
    var front, last := segs[..|segs| - 1], segs[|segs| - 1];
    assert segs == front + [last] && last in segs;
    if k == |segs| - 1 {
      m := FirstPiece(front, last, c);
    } else {
      m := WindowIsCanonical(front, c, k);
      var a := Anchor(front, c, k);
      ArrivedMore(front, last, c, a);
      if last.payload != [] {
        m := PutPiece(Run(front).win.value, c, Arrived(front, c, a), a, m, last.sq);
      }
    }
  }

  /** Two directions that received the same pieces from the same anchor end alike, whatever the
      orders and the repetitions. */
  lemma OrderIndependence(x: seq<Segment>, y: seq<Segment>, c: Cutting, k: nat, l: nat)
    requires c.Valid() && FixedSegmentation(x, c) && FixedSegmentation(y, c)
    requires FirstData(x, k) && FirstData(y, l) && Anchor(x, c, k) == Anchor(y, c, l)
    requires forall p :: Has(x, p) <==> Has(y, p)
    ensures Run(x).win == Run(y).win && Run(x).win.Some?
  {
    hide Run;
    var m := WindowIsCanonical(x, c, k);
    var n := WindowIsCanonical(y, c, l);
    assert Arrived(x, c, Anchor(x, c, k)) == Arrived(y, c, Anchor(x, c, k));
    assert m == n;
  }

  /** When every piece has arrived, everything from the anchor on has been emitted and nothing is
      left in the buffer; so the whole stream comes out if and only if a SYN came no later than the
      data or the first piece arrived first. */
  lemma CompleteDelivery(segs: seq<Segment>, c: Cutting, k: nat) returns (w: Window)
    requires c.Valid() && FixedSegmentation(segs, c) && FirstData(segs, k)
    requires forall p <- c.pieces :: Has(segs, p)
    ensures Run(segs).win == Some(w) && c.start <= Anchor(segs, c, k) <= c.End()
    ensures w.pending == map[] && w.buf == c.bytes[Anchor(segs, c, k) - c.start..]
    ensures w.buf == c.bytes <==> (exists j :: 0 <= j <= k && segs[j].syn) || segs[k].sq == c.start
  {
    assert segs[k] in segs;
    var m := WindowIsCanonical(segs, c, k);
    w := Run(segs).win.value;
    var r := Arrived(segs, c, Anchor(segs, c, k));
    assert m == c.End();
    forall p | p in r
      ensures p < m
    {
      var next := c.Next(p);
    }
    assert Beyond(c, r, m) == map[];
  }

  // ----- arbitrary overlap: when the frontier is as far as it could be -----

  /** Where the chain of segments that starts at f ends, each one starting where the last ended. */
  function ChainEnd(pending: map<int, ByteString>, f: int): int
    decreases |pending|
  {
    if f in pending then ChainEnd(pending - {f}, f + |pending[f]|) else f
  }

  /** A buffered segment holds the byte at position p. */
  ghost predicate Covers(pending: map<int, ByteString>, p: int) {
    exists k <- pending :: k <= p < k + |pending[k]|
  }

  /** A buffered segment starts before position e and reaches past it. */
  ghost predicate Straddles(pending: map<int, ByteString>, e: int) {
    exists k <- pending :: k < e < k + |pending[k]|
  }

  /** The flush stops at the end of the chain, and takes out nothing that reaches past it. */
  lemma {:induction false} FlushStopsAtChainEnd(w: Window)
    requires forall k <- w.pending :: w.pending[k] != []
    ensures var v := Flushed(w);
            && v.frontier == ChainEnd(w.pending, w.frontier) && v.frontier !in v.pending
            && (forall k <- v.pending :: k in w.pending && v.pending[k] == w.pending[k])
            && (forall k <- w.pending :: k !in v.pending ==> k + |w.pending[k]| <= v.frontier)
            && w.frontier <= v.frontier
    decreases |w.pending|
  {
    var f := w.frontier;
    if f in w.pending {
      FlushStopsAtChainEnd(Window(w.base, f + |w.pending[f]|, w.pending - {f}, w.buf + w.pending[f]));
    }
  }

  /** With arbitrary overlap the frontier can stop short of bytes that are already buffered. From a
      state where it does not, data leaves it short if and only if the data reaches the frontier
      and a segment buffered before the call straddles the end of the chain the data completes. */
  lemma FrontierIsMaximalIff(w: Window, sq: int, data: ByteString)
    requires data != [] && (forall k <- w.pending :: w.pending[k] != [])
    requires !Covers(w.pending, w.frontier)
    ensures var v := Put(w, sq, data);
            Covers(v.pending, v.frontier)
            <==> sq <= w.frontier < sq + |data|
                 && Straddles(w.pending, ChainEnd(w.pending[w.frontier := data[w.frontier - sq..]], w.frontier))
  {
    hide ChainEnd;
    if sq + |data| > w.frontier {
      var skip := if sq < w.frontier then w.frontier - sq else 0;
      var rest := data[skip..];
      var u := w.(pending := w.pending[sq + skip := rest]);
      var v := Flushed(u);
      FlushStopsAtChainEnd(u);
      if sq <= w.frontier {
        assert v.frontier >= w.frontier + |rest| by { ChainPassesFirst(u.pending, w.frontier); }
        forall k | k in w.pending && k < v.frontier < k + |w.pending[k]|
          ensures k in v.pending && v.pending[k] == w.pending[k]
        {
          assert k != w.frontier;
        }
        forall k | k in v.pending && k <= v.frontier < k + |v.pending[k]|
          ensures k in w.pending && w.pending[k] == v.pending[k] && k < v.frontier
        {
          assert k != w.frontier;
        }
      } else {
        assert v == u;
        assert forall k <- w.pending :: !(k <= w.frontier < k + |w.pending[k]|);
      }
    }
  }

  lemma {:induction false} ChainPassesFirst(pending: map<int, ByteString>, f: int)
    requires f in pending && forall k <- pending :: pending[k] != []
    ensures ChainEnd(pending, f) >= f + |pending[f]|
    decreases |pending|
  {
    if f + |pending[f]| in pending - {f} {
      ChainPassesFirst(pending - {f}, f + |pending[f]|);
    }
  }

  /** Concretely: bytes 0, then 3-5, then 1-3 arrive. Every byte of 0-5 has been received, but the
      buffered segment at 3 is jumped over and bytes 4 and 5 are never emitted. */
  lemma OverlapCanStrandBytes()
    ensures var w := Window(0, 0, map[], []);
            Put(Put(Put(w, 0, [0]), 3, [3, 4, 5]), 1, [1, 2, 3]) == Window(0, 4, map[3 := [3, 4, 5]], [0, 1, 2, 3])
  {
    var w0 := Window(0, 1, map[], [0]);
    assert Put(Window(0, 0, map[], []), 0, [0]) == w0 by {
      var u := Window(0, 0, map[0 := [0]], []);
      assert Flushed(u) == Flushed(Window(0, 1, u.pending - {0}, [] + [0]));
      assert u.pending - {0} == map[];
    }
    var w1 := Window(0, 1, map[3 := [3, 4, 5]], [0]);
    assert Put(w0, 3, [3, 4, 5]) == w1;
    var u := Window(0, 1, map[3 := [3, 4, 5], 1 := [1, 2, 3]], [0]);
    assert w1.pending[1 := [1, 2, 3]] == u.pending;
    assert u.pending - {1} == w1.pending;
    assert [0] + [1, 2, 3] == [0, 1, 2, 3];
    assert Flushed(u) == Flushed(Window(0, 4, w1.pending, [0, 1, 2, 3]));
  }
}
