/** The rolling store of raw frames: time-chunked segment files, refs into them, and the purge. */
module RawStore {
  import opened Wrappers
  import opened Bytes

  const HEADER := 20
  const MAGIC: ByteString := [0x20, 0x57, 0x50, 0x43]
  const CHECK_EVERY := 128

  datatype Config = Config(retention: int, segmentSeconds: int, minFree: int)

  datatype Ref = Ref(seg: int, offset: nat, length: nat)

  datatype Outcome = Stored(ref: Ref) | GuardDropped | TooLong

  /** The segment files by starting second, the open one, and the counters. */
  datatype Store = Store(
    files: map<int, ByteString>,
    current: Option<int>,
    frames: nat,
    bytes: nat,
    active: bool,
    dropped: nat,
    since: nat)

  const EMPTY := Store(map[], None, 0, 0, false, 0, CHECK_EVERY)

  // ----- specification -----

  function FromLittle(a: Byte, b: Byte, c: Byte, d: Byte): (n: int)
    ensures 0 <= n < 0x1_0000_0000
  {
    a + 256 * (b + 256 * (c + 256 * d))
  }

  /** n.to_bytes(4, "little"). */
  function Little(n: int): (s: ByteString)
    requires 0 <= n < 0x1_0000_0000
    ensures |s| == 4 && FromLittle(s[0], s[1], s[2], s[3]) == n
  {
    var (q, r, t) := (n / 256, n / 256 / 256, n / 256 / 256 / 256);
    [n % 256, q % 256, r % 256, t]
  }

  predicate Fits(frame: ByteString) {
    |frame| < 0x1_0000_0000
  }

  /** One frame as it lies in a segment: header, magic, payload. `stamp` is the eight bytes that hold
      the capture time. */
  function Packed(stamp: ByteString, frame: ByteString): (s: ByteString)
    requires |stamp| == 8 && Fits(frame)
    ensures |s| == HEADER + 4 + |frame|
  {
    [0, 0, 0, 0, 0, 0, 0, 0] + stamp + Little(|frame|) + MAGIC + frame
  }

  /** int(ts) // segment_seconds * segment_seconds, for times from the epoch on. */
  function SegmentOf(ts: real, segmentSeconds: int): int
    requires 0.0 <= ts && 0 < segmentSeconds
  {
    ts.Floor / segmentSeconds * segmentSeconds
  }

  predicate Measures(s: Store) {
    s.active || s.since + 1 >= CHECK_EVERY
  }

  /** `free` is what statvfs would answer now. */
  function Guarded(s: Store, c: Config, free: Option<int>): (r: Store)
    ensures r == s.(active := r.active, since := r.since)
  {
    if Measures(s) then
      s.(since := 0, active := if free.Some? then free.value < c.minFree else s.active)
    else s.(since := s.since + 1)
  }

  function FileOf(s: Store, seg: int): ByteString {
    if seg in s.files then s.files[seg] else []
  }

  function Opened(s: Store, seg: int): Store {
    s.(files := s.files[seg := FileOf(s, seg)], current := Some(seg))
  }

  function Written(s0: Store, c: Config, ts: real, stamp: ByteString, frame: ByteString,
    free: Option<int>): (Store, Outcome)
    requires 0.0 <= ts && 0 < c.segmentSeconds && |stamp| == 8
  {
    var s := Guarded(s0, c, free);
    if s.active then (s.(dropped := s.dropped + 1), GuardDropped)
    else
      var seg := SegmentOf(ts, c.segmentSeconds);
      var s1 := Opened(s, seg);
      if !Fits(frame) then (s1, TooLong)
      else
        var packed := Packed(stamp, frame);
        (s1.(files := s1.files[seg := s1.files[seg] + packed], frames := s1.frames + 1, bytes := s1.bytes + |packed|),
         Stored(Ref(seg, |s1.files[seg]|, |packed|)))
  }

  predicate IsOld(c: Config, now: real, seg: int) {
    seg + c.segmentSeconds < now.Floor - c.retention
  }

  predicate Expired(s: Store, c: Config, now: real, seg: int) {
    IsOld(c, now, seg) && s.current != Some(seg)
  }

  function Purged(s: Store, c: Config, now: real): (p: Store)
    ensures p == s.(files := p.files)
  {
    s.(files := map seg | seg in s.files && !Expired(s, c, now, seg) :: s.files[seg])
  }

  lemma PurgedFiles(s: Store, c: Config, now: real, files: map<int, ByteString>)
    requires forall seg :: seg in files <==> seg in s.files && !Expired(s, c, now, seg)
    requires forall seg <- files :: files[seg] == s.files[seg]
    ensures files == Purged(s, c, now).files
  {
    var p := Purged(s, c, now).files;
    assert forall seg :: seg in p <==> seg in files;
  }

  /** f.seek(offset); f.read(length). */
  function Slice(file: ByteString, offset: nat, length: nat): ByteString {
    if offset >= |file| then []
    else if offset + length <= |file| then file[offset..offset + length]
    else file[offset..]
  }

  function ReadAll(files: map<int, ByteString>, refs: seq<Ref>): seq<ByteString> {
    if refs == [] then []
    else
      var front, r := ReadAll(files, refs[..|refs| - 1]), refs[|refs| - 1];
      if r.seg in files then front + [Slice(files[r.seg], r.offset, r.length)] else front
  }

  // ----- the object -----

  class RollingRawStore {
    const config: Config
    var files: map<int, ByteString>
    var current: Option<int>
    var frames: nat
    var bytes: nat
    var active: bool
    var dropped: nat
    var since: nat

    function State(): Store
      reads this
    {
      Store(files, current, frames, bytes, active, dropped, since)
    }

    /** The open segment has a file. */
    ghost predicate Valid()
      reads this
    {
      current.Some? ==> current.value in files
    }

    constructor (config: Config)
      ensures this.config == config && State() == EMPTY && Valid()
    {
      this.config := config;
      files, current, frames, bytes := map[], None, 0, 0;
      active, dropped, since := false, 0, CHECK_EVERY;
    }

    method OpenSegment(ts: real) returns (seg: int)
      requires Valid() && 0.0 <= ts && 0 < config.segmentSeconds
      modifies `files, `current
      ensures Valid() && seg == SegmentOf(ts, config.segmentSeconds) && State() == Opened(old(State()), seg)
    {
      seg := ts.Floor / config.segmentSeconds * config.segmentSeconds;
      assert seg in files ==> files == files[seg := files[seg]];
      if current == Some(seg) { return; }
      if seg !in files { files := files[seg := []]; }
      current := Some(seg);
    }

    method ShouldDrop(free: Option<int>) returns (drop: bool)
      modifies `since, `active
      ensures State() == Guarded(old(State()), config, free) && drop == active
    {
      since := since + 1;
      if active || since >= CHECK_EVERY {
        since := 0;
        if free.Some? { active := free.value < config.minFree; }
      }
      drop := active;
    }

    method Write(ts: real, stamp: ByteString, frame: ByteString, free: Option<int>) returns (outcome: Outcome)
      requires Valid() && 0.0 <= ts && 0 < config.segmentSeconds && |stamp| == 8
      modifies this
      ensures Valid() && (State(), outcome) == Written(old(State()), config, ts, stamp, frame, free)
    {
      hide Packed, SegmentOf, Guarded;
      var drop := ShouldDrop(free);
      if drop {
        dropped := dropped + 1;
        return GuardDropped;
      }
      var seg := OpenSegment(ts);
      if !Fits(frame) { return TooLong; }
      var offset := |files[seg]|;
      var packed := Packed(stamp, frame);
      files := files[seg := files[seg] + packed];
      frames, bytes := frames + 1, bytes + |packed|;
      outcome := Stored(Ref(seg, offset, |packed|));
    }

    method ReadFrames(refs: seq<Ref>) returns (out: seq<ByteString>)
      ensures out == ReadAll(files, refs)
    {
      out := [];
      for i := 0 to |refs|
        invariant out == ReadAll(files, refs[..i])
      {
        assert refs[..i + 1][..i] == refs[..i];
        if refs[i].seg in files { out := out + [Slice(files[refs[i].seg], refs[i].offset, refs[i].length)]; }
      }
      assert refs[..|refs|] == refs;
    }

    /** `listing` is what the directory holds, in any order. */
    method Purge(now: real, listing: seq<int>) returns (removed: nat)
      requires Valid() && forall seg :: seg in listing <==> seg in files
      modifies `files
      ensures Valid() && State() == Purged(old(State()), config, now)
      ensures removed == |old(files)| - |files|
    {
      hide IsOld, Purged;
      removed := 0;
      for i := 0 to |listing|
        invariant Valid() && current == old(current)
        invariant forall seg ::
            seg in files <==> seg in old(files) && !(seg in listing[..i] && Expired(old(State()), config, now, seg))
        invariant forall seg <- files :: files[seg] == old(files)[seg]
        invariant removed + |files| == |old(files)|
      {
        var seg := listing[i];
        assert listing[..i + 1] == listing[..i] + [seg];
        if IsOld(config, now, seg) && current != Some(seg) && seg in files {
          assert (files - {seg}).Keys == files.Keys - {seg};
          files := files - {seg};
          removed := removed + 1;
        }
      }
      assert listing[..|listing|] == listing;
      PurgedFiles(old(State()), config, now, files);
      assert State() == old(State()).(files := files);
      assert Purged(old(State()), config, now) == old(State()).(files := files);
    }

    method Close()
      modifies `current
      ensures Valid() && State() == old(State()).(current := None)
    {
      current := None;
    }
  }

  // ----- runs -----

  datatype Op =
    | Write(ts: real, stamp: ByteString, frame: ByteString, free: Option<int>)
    | Purge(now: real)
    | Close

  /** A stored frame: its capture time, the ref that was returned, its bytes, and whether its segment
      has survived every purge since. */
  datatype Entry = Entry(ts: real, ref: Ref, packed: ByteString, alive: bool)

  /** The store, every frame ever stored, the number of write calls, those that raised, and the last
      reading of the free space. */
  datatype History = History(store: Store, log: seq<Entry>, calls: nat, raised: nat, reading: Option<int>)

  const START := History(EMPTY, [], 0, 0, None)

  predicate Allowed(op: Op) {
    op.Write? ==> 0.0 <= op.ts && |op.stamp| == 8
  }

  function Mark(log: seq<Entry>, s: Store, c: Config, now: real): (r: seq<Entry>)
    ensures |r| == |log|
    ensures forall i :: 0 <= i < |r| ==> r[i] == log[i].(alive := log[i].alive && !Expired(s, c, now, log[i].ref.seg))
  {
    seq(|log|, i requires 0 <= i < |log| => log[i].(alive := log[i].alive && !Expired(s, c, now, log[i].ref.seg)))
  }

  function Step(h: History, c: Config, op: Op): History
    requires Allowed(op) && 0 < c.segmentSeconds
  {
    match op
    case Write(ts, stamp, frame, free) =>
      var (s, outcome) := Written(h.store, c, ts, stamp, frame, free);
      var log := if outcome.Stored? then h.log + [Entry(ts, outcome.ref, Packed(stamp, frame), true)] else h.log;
      History(s, log, h.calls + 1, h.raised + (if outcome.TooLong? then 1 else 0),
              if Measures(h.store) && free.Some? then free else h.reading)
    case Purge(now) => h.(store := Purged(h.store, c, now), log := Mark(h.log, h.store, c, now))
    case Close => h.(store := h.store.(current := None))
  }

  function Run(c: Config, ops: seq<Op>): History
    requires 0 < c.segmentSeconds && forall op <- ops :: Allowed(op)
  {
    if ops == [] then START else Step(Run(c, ops[..|ops| - 1]), c, ops[|ops| - 1])
  }

  // ----- what lies in a segment -----

  /** The surviving frames of a segment, end to end. */
  function Contents(log: seq<Entry>, seg: int): ByteString {
    if log == [] then []
    else
      var front, e := Contents(log[..|log| - 1], seg), log[|log| - 1];
      if e.alive && e.ref.seg == seg then front + e.packed else front
  }

  /** Every segment file is exactly its surviving frames in the order written, and every ref starts
      where the frames before it end. */
  ghost predicate Faithful(h: History) {
    && (forall seg :: FileOf(h.store, seg) == Contents(h.log, seg))
    && (forall e <- h.log :: e.alive ==> e.ref.seg in h.store.files)
    && forall i :: 0 <= i < |h.log| && h.log[i].alive ==>
         h.log[i].ref.offset == |Contents(h.log[..i], h.log[i].ref.seg)| && h.log[i].ref.length == |h.log[i].packed|
  }

  lemma ContentsMore(log: seq<Entry>, e: Entry, seg: int)
    ensures Contents(log + [e], seg)
         == if e.alive && e.ref.seg == seg then Contents(log, seg) + e.packed else Contents(log, seg)
  {
    assert (log + [e])[..|log|] == log;
  }

  lemma {:induction false} MarkedContents(log: seq<Entry>, s: Store, c: Config, now: real, seg: int)
    ensures Contents(Mark(log, s, c, now), seg) == if Expired(s, c, now, seg) then [] else Contents(log, seg)
  {
    hide Expired;
    if log != [] {
      var front, e := log[..|log| - 1], log[|log| - 1];
      MarkedContents(front, s, c, now, seg);
      assert Mark(log, s, c, now)[..|log| - 1] == Mark(front, s, c, now);
    }
  }

  /** A frame that survives lies at its ref. */
  lemma {:induction false} ContentsAt(log: seq<Entry>, i: nat)
    requires i < |log| && log[i].alive
    ensures var e, all := log[i], Contents(log, log[i].ref.seg);
            var at := |Contents(log[..i], e.ref.seg)|;
            at + |e.packed| <= |all| && all[at..at + |e.packed|] == e.packed
  {
    var front := log[..|log| - 1];
    if i < |front| {
      ContentsAt(front, i);
      assert front[..i] == log[..i];
    }
  }

  lemma StoredIsFaithful(h: History, c: Config, op: Op)
    requires Faithful(h) && op.Write? && Allowed(op) && 0 < c.segmentSeconds
    ensures Faithful(Step(h, c, op))
  {
    hide SegmentOf, Packed, Fits, Contents;
    var h' := Step(h, c, op);
    var outcome := Written(h.store, c, op.ts, op.stamp, op.frame, op.free).1;
    if outcome.Stored? {
      var e := h'.log[|h.log|];
      forall seg
        ensures Contents(h'.log, seg)
             == if seg == e.ref.seg then Contents(h.log, seg) + e.packed else Contents(h.log, seg)
      {
        ContentsMore(h.log, e, seg);
      }
      forall i | 0 <= i <= |h.log|
        ensures h'.log[..i] == h.log[..i]
      {
      }
      assert h'.log[..|h.log|] == h.log;
    }
  }

  lemma PurgedIsFaithful(h: History, c: Config, now: real)
    requires Faithful(h) && 0 < c.segmentSeconds
    ensures Faithful(Step(h, c, Purge(now)))
  {
    hide Expired, Contents;
    var h' := Step(h, c, Purge(now));
    forall seg
      ensures Contents(h'.log, seg) == if Expired(h.store, c, now, seg) then [] else Contents(h.log, seg)
    {
      MarkedContents(h.log, h.store, c, now, seg);
    }
    forall i | 0 <= i < |h'.log| && h'.log[i].alive
      ensures h'.log[i].ref.offset == |Contents(h'.log[..i], h'.log[i].ref.seg)|
      ensures h'.log[i].ref.seg in h'.store.files
    {
      assert h'.log[..i] == Mark(h.log[..i], h.store, c, now);
      MarkedContents(h.log[..i], h.store, c, now, h.log[i].ref.seg);
      assert h.log[i] in h.log;
    }
  }

  lemma {:induction false} RunsAreFaithful(c: Config, ops: seq<Op>)
    requires 0 < c.segmentSeconds && forall op <- ops :: Allowed(op)
    ensures Faithful(Run(c, ops))
  {
    hide Step, Faithful;
    if ops == [] {
      NothingIsFaithful();
    } else {
      var front, op := ops[..|ops| - 1], ops[|ops| - 1];
      RunsAreFaithful(c, front);
      match op
      case Write(_, _, _, _) => StoredIsFaithful(Run(c, front), c, op);
      case Purge(now) => PurgedIsFaithful(Run(c, front), c, now);
      case Close => ClosedIsFaithful(Run(c, front), c);
    }
  }

  lemma NothingIsFaithful()
    ensures Faithful(START)
  {
  }

  lemma ClosedIsFaithful(h: History, c: Config)
    requires Faithful(h) && 0 < c.segmentSeconds
    ensures Faithful(Step(h, c, Close))
  {
    assert forall seg :: FileOf(Step(h, c, Close).store, seg) == FileOf(h.store, seg);
  }

  /** After any run, the ref of a frame whose segment has not been purged reads back exactly that
      frame. */
  lemma RefsReadBack(c: Config, ops: seq<Op>, i: nat)
    requires 0 < c.segmentSeconds && forall op <- ops :: Allowed(op)
    requires i < |Run(c, ops).log| && Run(c, ops).log[i].alive
    ensures var h := Run(c, ops); ReadAll(h.store.files, [h.log[i].ref]) == [h.log[i].packed]
  {
    hide Run, Contents;
    RunsAreFaithful(c, ops);
    var h := Run(c, ops);
    var e := h.log[i];
    assert e in h.log;
    ContentsAt(h.log, i);
    assert h.store.files[e.ref.seg] == Contents(h.log, e.ref.seg);
    assert [e.ref][..0] == [];
    if e.ref.offset == |Contents(h.log, e.ref.seg)| { assert e.packed == []; }
  }

  ghost predicate Apart(a: Ref, b: Ref) {
    a.seg != b.seg || a.offset + a.length <= b.offset
  }

  /** Surviving refs never overlap, and follow each other in the order written. */
  lemma RefsAreDisjoint(c: Config, ops: seq<Op>, i: nat, j: nat)
    requires 0 < c.segmentSeconds && forall op <- ops :: Allowed(op)
    requires i < j < |Run(c, ops).log| && Run(c, ops).log[i].alive && Run(c, ops).log[j].alive
    ensures Apart(Run(c, ops).log[i].ref, Run(c, ops).log[j].ref)
  {
    hide Run, Contents;
    RunsAreFaithful(c, ops);
    var h := Run(c, ops);
    if h.log[i].ref.seg == h.log[j].ref.seg {
      ContentsAt(h.log[..j], i);
      assert h.log[..j][..i] == h.log[..i];
    }
  }

  // ----- retention -----

  /** Frames lie in the segment of their capture time. */
  ghost predicate InSegment(c: Config, log: seq<Entry>)
    requires 0 < c.segmentSeconds
  {
    forall e <- log :: 0.0 <= e.ts && e.ref.seg == SegmentOf(e.ts, c.segmentSeconds)
  }

  lemma ExpiredIsOld(s: Store, c: Config, now: real, ts: real)
    requires 0.0 <= ts && 0 < c.segmentSeconds && Expired(s, c, now, SegmentOf(ts, c.segmentSeconds))
    ensures ts < now - c.retention as real
  {
    var seg := SegmentOf(ts, c.segmentSeconds);
    SegmentIsNear(ts.Floor, c.segmentSeconds);
    assert seg as real + c.segmentSeconds as real < now.Floor as real - c.retention as real;
  }

  lemma SegmentIsNear(t: int, width: int)
    requires 0 < width
    ensures t / width * width <= t < t / width * width + width
  {
  }

  lemma NewEntryInSegment(h: History, c: Config, op: Op)
    requires Allowed(op) && 0 < c.segmentSeconds && op.Write? && InSegment(c, h.log)
    ensures InSegment(c, Step(h, c, op).log)
  {
    hide SegmentOf, Guarded, Packed, Fits;
  }

  lemma MarkedInSegment(h: History, c: Config, op: Op)
    requires Allowed(op) && 0 < c.segmentSeconds && !op.Write? && InSegment(c, h.log)
    ensures InSegment(c, Step(h, c, op).log)
  {
    hide SegmentOf, Expired, Purged;
    var h' := Step(h, c, op);
    forall i | 0 <= i < |h'.log|
      ensures 0.0 <= h'.log[i].ts && h'.log[i].ref.seg == SegmentOf(h'.log[i].ts, c.segmentSeconds)
    {
      assert h.log[i] in h.log;
    }
  }

  lemma {:induction false} RunsAreInSegment(c: Config, ops: seq<Op>)
    requires 0 < c.segmentSeconds && forall op <- ops :: Allowed(op)
    ensures InSegment(c, Run(c, ops).log)
  {
    hide Step, SegmentOf;
    if ops != [] {
      var front, op := ops[..|ops| - 1], ops[|ops| - 1];
      RunsAreInSegment(c, front);
      if op.Write? { NewEntryInSegment(Run(c, front), c, op); } else { MarkedInSegment(Run(c, front), c, op); }
    }
  }

  /** A purge never removes a frame captured within the retention window before it: whenever a step
      of a run takes a frame away, the step is a purge and the frame is older than that purge's
      window. */
  lemma PurgeSparesTheWindow(c: Config, ops: seq<Op>, op: Op, i: nat)
    requires 0 < c.segmentSeconds && (forall o <- ops :: Allowed(o)) && Allowed(op) && i < |Run(c, ops).log|
    ensures var h := Run(c, ops);
            var h' := Step(h, c, op);
            |h.log| <= |h'.log| && h'.log[i] == h.log[i].(alive := h'.log[i].alive)
            && (h.log[i].alive && !h'.log[i].alive ==>
                  op.Purge? && h.log[i].ts < op.now - c.retention as real)
  {
    hide Run, SegmentOf, Written, Expired;
    RunsAreInSegment(c, ops);
    var h := Run(c, ops);
    assert h.log[i] in h.log;
    if op.Purge? && Expired(h.store, c, op.now, h.log[i].ref.seg) {
      ExpiredIsOld(h.store, c, op.now, h.log[i].ts);
    }
  }

  const ONE_MINUTE := Config(60, 300, 0)

  function Misleading(stamp: ByteString, a: Byte, b: Byte): (ops: seq<Op>)
    requires |stamp| == 8
    ensures forall op <- ops :: Allowed(op)
  {
    [Write(0.0, stamp, [a], None), Close, Purge(1000.0), Write(1.0, stamp, [b], None)]
  }

  lemma RunFour(c: Config, ops: seq<Op>)
    requires 0 < c.segmentSeconds && |ops| == 4 && forall op <- ops :: Allowed(op)
    ensures Run(c, ops) == Step(Step(Step(Step(START, c, ops[0]), c, ops[1]), c, ops[2]), c, ops[3])
  {
    hide Step;
    assert ops[..3][..2] == ops[..2] && ops[..2][..1] == ops[..1] && ops[..1][..0] == [];
    assert Run(c, ops[..1]) == Step(START, c, ops[0]);
    assert Run(c, ops[..2]) == Step(Step(START, c, ops[0]), c, ops[1]);
    assert Run(c, ops[..3]) == Step(Step(Step(START, c, ops[0]), c, ops[1]), c, ops[2]);
  }

  /** Once its segment is purged and opened again, a ref reads another frame's bytes. */
  lemma PurgedRefCanMislead(stamp: ByteString, a: Byte, b: Byte)
    requires |stamp| == 8 && a != b
    ensures var h := Run(ONE_MINUTE, Misleading(stamp, a, b));
            && |h.log| == 2 && h.log[0].packed == Packed(stamp, [a]) && !h.log[0].alive
            && ReadAll(h.store.files, [h.log[0].ref]) == [Packed(stamp, [b])]
  {
    hide Packed, Run;
    var ops := Misleading(stamp, a, b);
    RunFour(ONE_MINUTE, ops);
    assert SegmentOf(0.0, 300) == 0 && SegmentOf(1.0, 300) == 0 && (1000.0).Floor == 1000;
    var h1 := Step(START, ONE_MINUTE, ops[0]);
    assert h1.log[0].ref == Ref(0, 0, 25) && h1.store.files.Keys == {0};
    var h3 := Step(Step(h1, ONE_MINUTE, Close), ONE_MINUTE, Purge(1000.0));
    assert h3.store.files == map[];
    var h4 := Step(h3, ONE_MINUTE, ops[3]);
    assert h4.store.files[0] == [] + Packed(stamp, [b]) == Packed(stamp, [b]);
    assert h4.store.files == map[0 := Packed(stamp, [b])];
    ReadOne(h4.store.files, Ref(0, 0, 25));
  }

  lemma ReadOne(files: map<int, ByteString>, r: Ref)
    requires r.seg in files && r.offset == 0 && |files[r.seg]| == r.length && r.length > 0
    ensures ReadAll(files, [r]) == [files[r.seg]]
  {
    assert [r][..0] == [] && [r][0] == r;
    assert Slice(files[r.seg], r.offset, r.length) == files[r.seg];
    assert ReadAll(files, []) == [];
  }

  /** A ref reads nothing exactly when its segment has no file. */
  lemma ReadsNothingIff(files: map<int, ByteString>, r: Ref)
    ensures ReadAll(files, [r]) == [] <==> r.seg !in files
  {
    assert [r][..0] == [] && [r][0] == r;
    assert ReadAll(files, []) == [];
  }

  /** No ref of a purged frame reads anything. */
  ghost predicate NoneMisleads(h: History) {
    forall e <- h.log :: !e.alive ==> ReadAll(h.store.files, [e.ref]) == []
  }

  /** A write into a segment that a purge has removed before. */
  ghost predicate Reuses(h: History, c: Config, op: Op)
    requires Allowed(op) && 0 < c.segmentSeconds
  {
    op.Write? && !Guarded(h.store, c, op.free).active
    && exists e <- h.log :: !e.alive && e.ref.seg == SegmentOf(op.ts, c.segmentSeconds)
  }

  lemma ReuseMisleads(h: History, c: Config, op: Op)
    requires Allowed(op) && 0 < c.segmentSeconds && Reuses(h, c, op)
    ensures !NoneMisleads(Step(h, c, op))
  {
    hide SegmentOf, Packed, Guarded, ReadAll;
    var h' := Step(h, c, op);
    var e :| e in h.log && !e.alive && e.ref.seg == SegmentOf(op.ts, c.segmentSeconds);
    assert e in h'.log && e.ref.seg in h'.store.files;
    ReadsNothingIff(h'.store.files, e.ref);
  }

  /** The file of a dead entry's segment is gone after the step. */
  lemma DeadSegmentIsGone(h: History, c: Config, op: Op, i: nat)
    requires Allowed(op) && 0 < c.segmentSeconds && !Reuses(h, c, op) && i < |h.log|
    requires !h.log[i].alive ==> h.log[i].ref.seg !in h.store.files
    ensures var h' := Step(h, c, op);
            h'.log[i].ref == h.log[i].ref && (!h'.log[i].alive ==> h.log[i].ref.seg !in h'.store.files)
  {
    hide SegmentOf, Packed, Guarded, IsOld;
    assert h.log[i] in h.log;
    match op
    case Write(_, _, _, _) =>
    case Purge(_) =>
    case Close =>
  }

  lemma DeadStayAway(h: History, c: Config, op: Op)
    requires Allowed(op) && 0 < c.segmentSeconds && NoneMisleads(h) && !Reuses(h, c, op)
    ensures NoneMisleads(Step(h, c, op))
  {
    hide Reuses, ReadAll, Step;
    var h' := Step(h, c, op);
    NewEntryLives(h, c, op);
    forall i | 0 <= i < |h'.log| && !h'.log[i].alive
      ensures ReadAll(h'.store.files, [h'.log[i].ref]) == []
    {
      assert h.log[i] in h.log;
      ReadsNothingIff(h.store.files, h.log[i].ref);
      DeadSegmentIsGone(h, c, op, i);
      ReadsNothingIff(h'.store.files, h.log[i].ref);
    }
  }

  lemma NewEntryLives(h: History, c: Config, op: Op)
    requires Allowed(op) && 0 < c.segmentSeconds
    ensures var h' := Step(h, c, op);
            |h.log| <= |h'.log| && forall i :: |h.log| <= i < |h'.log| ==> h'.log[i].alive
  {
    hide SegmentOf, Packed, Guarded, Expired;
  }

  lemma RunSplits(c: Config, ops: seq<Op>, k: nat)
    requires 0 < c.segmentSeconds && (forall op <- ops :: Allowed(op)) && k < |ops|
    ensures (forall op <- ops[..k] :: Allowed(op)) && (forall op <- ops[..k + 1] :: Allowed(op)) && Allowed(ops[k])
    ensures Run(c, ops[..k + 1]) == Step(Run(c, ops[..k]), c, ops[k])
  {
    assert ops[..k + 1][..k] == ops[..k] && ops[k] in ops;
  }

  ghost predicate NeverMisleads(c: Config, ops: seq<Op>)
    requires 0 < c.segmentSeconds && forall op <- ops :: Allowed(op)
  {
    forall k :: 0 <= k <= |ops| ==> NoneMisleads(Run(c, ops[..k]))
  }

  ghost predicate NeverReuses(c: Config, ops: seq<Op>)
    requires 0 < c.segmentSeconds && forall op <- ops :: Allowed(op)
  {
    forall k :: 0 <= k < |ops| ==> Reuses(Run(c, ops[..k]), c, ops[k]) == false
  }

  lemma {:induction false} MisleadingTo(c: Config, ops: seq<Op>, k: nat)
    requires 0 < c.segmentSeconds && (forall op <- ops :: Allowed(op)) && NeverReuses(c, ops) && k <= |ops|
    ensures (forall op <- ops[..k] :: Allowed(op)) && NoneMisleads(Run(c, ops[..k]))
  {
    hide Step, Reuses;
    if k == 0 {
      assert ops[..0] == [];
    } else {
      MisleadingTo(c, ops, k - 1);
      RunSplits(c, ops, k - 1);
      DeadStayAway(Run(c, ops[..k - 1]), c, ops[k - 1]);
    }
  }

  /** In a run the ref of a purged frame never reads anything if and only if no write of the run goes
      into a segment that was purged before. */
  lemma PurgedRefsMisleadIff(c: Config, ops: seq<Op>)
    requires 0 < c.segmentSeconds && forall op <- ops :: Allowed(op)
    ensures NeverMisleads(c, ops) <==> NeverReuses(c, ops)
  {
    hide Step, Reuses, NoneMisleads, Run;
    if NeverReuses(c, ops) {
      forall k: nat | k <= |ops|
        ensures NoneMisleads(Run(c, ops[..k]))
      {
        MisleadingTo(c, ops, k);
      }
    }
    forall k: nat | k < |ops|
      ensures NeverMisleads(c, ops) ==> !Reuses(Run(c, ops[..k]), c, ops[k])
    {
      RunSplits(c, ops, k);
      if Reuses(Run(c, ops[..k]), c, ops[k]) { ReuseMisleads(Run(c, ops[..k]), c, ops[k]); }
    }
  }

  // ----- accounting and the disk guard -----

  /** Every call is stored, dropped by the guard, or raised; the byte counter is the size of all
      frames ever stored. */
  ghost predicate Accounted(h: History, c: Config) {
    && h.store.frames == |h.log| && h.store.frames + h.store.dropped + h.raised == h.calls
    && h.store.bytes == TotalSize(h.log)
    && h.store.since <= CHECK_EVERY
    && h.store.active == (h.reading.Some? && h.reading.value < c.minFree)
    && (h.calls > 0 ==> h.store.since < CHECK_EVERY)
  }

  function TotalSize(log: seq<Entry>): nat {
    if log == [] then 0 else TotalSize(log[..|log| - 1]) + |log[|log| - 1].packed|
  }

  lemma {:induction false} MarkKeepsSize(log: seq<Entry>, s: Store, c: Config, now: real)
    ensures TotalSize(Mark(log, s, c, now)) == TotalSize(log)
  {
    hide Expired;
    if log != [] {
      MarkKeepsSize(log[..|log| - 1], s, c, now);
      assert Mark(log, s, c, now)[..|log| - 1] == Mark(log[..|log| - 1], s, c, now);
    }
  }

  /** Over every run frames + guard drops + raised calls equals write calls, and the guard is on
      exactly when the last successful reading was below the floor. */
  lemma {:induction false} EveryCallIsAccounted(c: Config, ops: seq<Op>)
    requires 0 < c.segmentSeconds && forall op <- ops :: Allowed(op)
    ensures Accounted(Run(c, ops), c)
  {
    hide Written, Accounted;
    if ops == [] {
      assert Accounted(START, c) by { StartIsAccounted(c); }
    } else {
      EveryCallIsAccounted(c, ops[..|ops| - 1]);
      StepKeepsAccounts(Run(c, ops[..|ops| - 1]), c, ops[|ops| - 1]);
    }
  }

  lemma StartIsAccounted(c: Config)
    ensures Accounted(START, c)
  {
  }

  /** The guard follows the reading. */
  lemma GuardStep(s: Store, reading: Option<int>, c: Config, free: Option<int>)
    requires s.since <= CHECK_EVERY && s.active == (reading.Some? && reading.value < c.minFree)
    ensures var g := Guarded(s, c, free);
            var r := if Measures(s) && free.Some? then free else reading;
            g.since < CHECK_EVERY && g.active == (r.Some? && r.value < c.minFree)
  {
  }

  /** A write counts once: as a drop, as a raised call, or as a stored frame with its bytes. */
  lemma WriteCounts(s: Store, c: Config, ts: real, stamp: ByteString, frame: ByteString, free: Option<int>)
    requires 0.0 <= ts && 0 < c.segmentSeconds && |stamp| == 8
    ensures var (g, (s', outcome)) := (Guarded(s, c, free), Written(s, c, ts, stamp, frame, free));
            && s'.active == g.active && s'.since == g.since
            && s'.dropped == s.dropped + (if outcome.GuardDropped? then 1 else 0)
            && s'.frames == s.frames + (if outcome.Stored? then 1 else 0)
            && (outcome.Stored? ==> Fits(frame) && s'.bytes == s.bytes + |Packed(stamp, frame)|)
            && (!outcome.Stored? ==> s'.bytes == s.bytes)
  {
    hide Packed, SegmentOf, Guarded;
  }

  lemma OneMoreSize(log: seq<Entry>, e: Entry)
    ensures TotalSize(log + [e]) == TotalSize(log) + |e.packed|
  {
    assert (log + [e])[..|log|] == log;
  }

  lemma WriteKeepsAccounts(h: History, c: Config, op: Op)
    requires Accounted(h, c) && op.Write? && Allowed(op) && 0 < c.segmentSeconds
    ensures Accounted(Step(h, c, op), c)
  {
    hide Packed, SegmentOf, Guarded, Written, Measures, Fits, TotalSize;
    GuardStep(h.store, h.reading, c, op.free);
    WriteCounts(h.store, c, op.ts, op.stamp, op.frame, op.free);
    var outcome := Written(h.store, c, op.ts, op.stamp, op.frame, op.free).1;
    match outcome
    case Stored(ref) => OneMoreSize(h.log, Entry(op.ts, ref, Packed(op.stamp, op.frame), true));
    case GuardDropped =>
    case TooLong =>
  }

  lemma StepKeepsAccounts(h: History, c: Config, op: Op)
    requires Accounted(h, c) && Allowed(op) && 0 < c.segmentSeconds
    ensures Accounted(Step(h, c, op), c)
  {
    hide Written, Expired, TotalSize;
    match op
    case Write(_, _, _, _) => WriteKeepsAccounts(h, c, op);
    case Purge(now) => MarkKeepsSize(h.log, h.store, c, now);
    case Close =>
  }

  /** A frame is dropped exactly when the last reading, this call's included, was below the floor;
      a call that reads enough space while frames are being dropped is itself stored again; and
      a reading is taken at the first call, at every call while dropping, and otherwise at least at
      every 128th. */
  lemma GuardFollowsTheReading(c: Config, ops: seq<Op>, op: Op)
    requires 0 < c.segmentSeconds && (forall o <- ops :: Allowed(o)) && op.Write? && Allowed(op)
    ensures var h := Run(c, ops);
            var h' := Step(h, c, op);
            && ((h'.store.dropped == h.store.dropped + 1) <==> (h'.reading.Some? && h'.reading.value < c.minFree))
            && (h.store.active && op.free.Some? && op.free.value >= c.minFree ==> h'.store.dropped == h.store.dropped)
            && (h.calls == 0 || h.store.active || h.store.since == CHECK_EVERY - 1 <==> h'.store.since == 0)
            && (h'.store.since != 0 ==> h'.store.since == h.store.since + 1)
  {
    hide Run, Packed, SegmentOf;
    EveryCallIsAccounted(c, ops);
    FirstCallMeasures(c, ops);
  }

  lemma {:induction false} FirstCallMeasures(c: Config, ops: seq<Op>)
    requires 0 < c.segmentSeconds && forall op <- ops :: Allowed(op)
    ensures Run(c, ops).calls == 0 ==> Run(c, ops).store.since == CHECK_EVERY
  {
    hide Written;
    if ops != [] { FirstCallMeasures(c, ops[..|ops| - 1]); }
  }

  // ----- segments describe themselves -----

  datatype Frame = Frame(stamp: ByteString, payload: ByteString)

  predicate Storable(f: Frame) {
    |f.stamp| == 8 && Fits(f.payload)
  }

  function Segment(fs: seq<Frame>): ByteString
    requires forall f <- fs :: Storable(f)
  {
    if fs == [] then [] else assert Storable(fs[0]); Packed(fs[0].stamp, fs[0].payload) + Segment(fs[1..])
  }

  lemma PackedHead(f: Frame, rest: ByteString)
    requires Storable(f)
    ensures var s := Packed(f.stamp, f.payload) + rest;
            && FromLittle(s[16], s[17], s[18], s[19]) == |f.payload|
            && s[8..16] == f.stamp && s[20..24] == MAGIC
            && s[24..24 + |f.payload|] == f.payload && s[24 + |f.payload|..] == rest
  {
    var packed := Packed(f.stamp, f.payload);
    var s := packed + rest;
    var size := Little(|f.payload|);
    assert forall i :: 0 <= i < 4 ==> s[16 + i] == size[i];
    assert forall i :: 0 <= i < 8 ==> s[8 + i] == f.stamp[i];
    assert forall i :: 0 <= i < 4 ==> s[20 + i] == MAGIC[i];
    assert forall i :: 0 <= i < |f.payload| ==> s[24 + i] == f.payload[i];
  }

  /** The bytes of a segment determine its frames. */
  lemma {:induction false} SegmentsAreSelfDescribing(fs: seq<Frame>, gs: seq<Frame>)
    requires (forall f <- fs :: Storable(f)) && (forall g <- gs :: Storable(g)) && Segment(fs) == Segment(gs)
    ensures fs == gs
  {
    hide Packed;
    if fs != [] && gs != [] {
      PackedHead(fs[0], Segment(fs[1..]));
      PackedHead(gs[0], Segment(gs[1..]));
      SegmentsAreSelfDescribing(fs[1..], gs[1..]);
      assert fs == [fs[0]] + fs[1..] && gs == [gs[0]] + gs[1..];
    }
  }
}
