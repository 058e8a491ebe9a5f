/** Where the limits of the live path end: streams that are never idle, and bytes no cap sees. */
module LiveLimits {
  import opened Wrappers
  import opened Bytes
  import opened HalfStreams
  import opened Assembler
  import opened LiveReassembly

  // ----- idleness -----

  /** The time of a direction's last data is set by data only. */
  lemma LastTsOf(h: Half, s: Segment)
    ensures Fed(h, s).lastTs == if s.payload == [] then h.lastTs else s.ts
  {
    hide Put, Opened;
  }

  lemma StreamLastTs(st: StreamState, p: Packet)
    requires st.ha.lastTs >= 0 && st.hb.lastTs >= 0 && p.seg.ts > 0
    ensures var r := StreamFed(st, p);
            && r.ha.lastTs >= 0 && r.hb.lastTs >= 0
            && (LastTs(r) != 0 <==> LastTs(st) != 0 || p.seg.payload != [])
  {
    hide Fed;
    LastTsOf(st.ha, p.seg);
    LastTsOf(st.hb, p.seg);
  }

  ghost predicate Timed(ps: seq<Packet>) {
    forall p <- ps :: p.seg.ts > 0
  }

  ghost predicate HasData(ps: seq<Packet>) {
    exists p <- ps :: p.seg.payload != []
  }

  lemma OneMorePacket(ps: seq<Packet>)
    requires ps != []
    ensures var (front, last) := (ps[..|ps| - 1], ps[|ps| - 1]);
            && (HasData(ps) <==> HasData(front) || last.seg.payload != [])
            && (Timed(ps) ==> Timed(front) && last.seg.ts > 0) && !HasData([])
  {
    var front, last := ps[..|ps| - 1], ps[|ps| - 1];
    assert forall p :: p in ps <==> p in front || p == last by { assert ps == front + [last]; }
  }

  lemma {:induction false} ActiveIff(k: Key, ps: seq<Packet>)
    requires ps != [] && Timed(ps)
    ensures var st := StreamRun(k, ps);
            st.ha.lastTs >= 0 && st.hb.lastTs >= 0 && (LastTs(st) != 0 <==> HasData(ps))
    decreases |ps|
  {
    hide StreamFed, HasData, Timed;
    var front, last := ps[..|ps| - 1], ps[|ps| - 1];
    OneMorePacket(ps);
    if |ps| > 1 {
      ActiveIff(k, front);
      StreamLastTs(StreamRun(k, front), last);
    } else {
      StreamLastTs(NewStream(k, last.seg.ts), last);
    }
  }

  /** A stream that is not complete is closed for idleness, however long one waits, if and only if it
      has carried data. A connection attempt that is never answered stays in the table until it is
      evicted for the session cap. */
  lemma IdleIff(cfg: Config, k: Key, ps: seq<Packet>)
    requires ps != [] && Timed(ps) && !StreamRun(k, ps).complete
    ensures (exists now :: WhyClose(cfg, StreamRun(k, ps), now) == Some(Idle)) <==> HasData(ps)
  {
    hide StreamRun, HasData;
    ActiveIff(k, ps);
    var st := StreamRun(k, ps);
    if LastTs(st) != 0 {
      assert WhyClose(cfg, st, LastTs(st) + cfg.idleTimeout + 1) == Some(Idle);
    }
  }

  // ----- the byte cap -----

  /** A SYN, and then n single bytes behind a gap: the first byte of the stream never comes. */
  function Gapped(k: Key, n: nat, ts: int): seq<Packet> {
    if n == 0 then [Packet(k.a, k.b, Segment(0, [], true, false, false, ts), None)]
    else Gapped(k, n - 1, ts) + [Packet(k.a, k.b, Segment(n + 1, [0], false, false, false, ts), None)]
  }

  /** The n bytes, by their positions. */
  function Singles(n: nat): (m: map<int, ByteString>)
    ensures |m| == n && forall i :: i in m <==> 2 <= i < n + 2
    ensures forall i <- m :: m[i] == [0]
  {
    if n == 0 then map[] else Singles(n - 1)[n + 1 := [0]]
  }

  /** What the sender's direction then is. */
  ghost predicate Behind(h: Half, n: nat, ts: int) {
    && h.synSeq == Some(0) && h.finSeq == None && !h.rst && h.lastTs == (if n == 0 then 0 else ts)
    && (n == 0 ==> h.win == None)
    && (n > 0 ==> h.win.Some? && h.win.value.frontier == 1 && h.win.value.buf == []
                  && h.win.value.pending == Singles(n))
  }

  lemma OneMoreBehind(h: Half, n: nat, ts: int)
    requires Behind(h, n, ts)
    ensures Behind(Fed(h, Segment(n + 2, [0], false, false, false, ts)), n + 1, ts)
  {
    var s := Segment(n + 2, [0], false, false, false, ts);
    var w := Opened(Marked(h, s), s.sq);
    assert w.frontier == 1 && w.buf == [] && w.pending == Singles(n);
    assert w.pending[n + 2 := [0]] == Singles(n + 1);
  }

  lemma {:induction false} GappedIs(k: Key, n: nat, ts: int)
    ensures Gapped(k, n, ts) != []
    ensures var st := StreamRun(k, Gapped(k, n, ts));
            st.key == k && Behind(st.ha, n, ts) && st.hb == NEW_HALF && !st.complete
  {
    hide Behind, Fed;
    if n == 0 {
      hide *;
      OnlySyn(k, ts);
    } else {
      var (front, all) := (Gapped(k, n - 1, ts), Gapped(k, n, ts));
      assert all[..|all| - 1] == front;
      GappedIs(k, n - 1, ts);
      var st := StreamRun(k, front);
      OneMoreBehind(st.ha, n - 1, ts);
      BehindIsOpen(Fed(st.ha, all[|all| - 1].seg), n, ts);
    }
  }

  lemma OnlySyn(k: Key, ts: int)
    ensures Gapped(k, 0, ts) != []
    ensures var st := StreamRun(k, Gapped(k, 0, ts));
            st.key == k && Behind(st.ha, 0, ts) && st.hb == NEW_HALF && !st.complete
  {
  }

  lemma BehindIsOpen(h: Half, n: nat, ts: int)
    requires Behind(h, n, ts)
    ensures h.finSeq == None && !h.rst
  {
  }

  /** The byte cap counts only what has been put in order. Behind one missing byte a stream can hold
      any number of bytes, and no sweep before the idle timeout closes it. */
  lemma PendingBytesAreUncapped(cfg: Config, k: Key, n: nat, ts: int, now: int)
    requires n > 0 && 0 <= cfg.maxBufferBytes && now - ts <= cfg.idleTimeout && 0 < ts
    ensures Gapped(k, n, ts) != []
    ensures var st := StreamRun(k, Gapped(k, n, ts));
            && WhyClose(cfg, st, now) == None && Buffered(st) == 0
            && st.ha.win.Some? && |st.ha.win.value.pending| == n
            && forall i <- st.ha.win.value.pending :: st.ha.win.value.pending[i] == [0]
  {
    hide StreamRun;
    GappedIs(k, n, ts);
  }
}
