/** The sensor's on-disk queue and the loop that ships it. */
module DiskQueue {
  import opened Wrappers
  import opened Collections
  import Bytes

  /** One line of the queue file; a line that does not decode holds no item. */
  datatype Line<T> = Line(item: Option<T>, size: nat)

  /** The queue file, the offset file, the offset in memory and the drop counter. */
  datatype Queue<T> = Queue(lines: seq<Line<T>>, offFile: nat, offset: nat, dropped: nat)

  const COMPACT_ABOVE := 5000
  const SHIP_BATCH := 100

  // ----- specification -----

  function Size<T>(lines: seq<Line<T>>): nat {
    if lines == [] then 0 else lines[0].size + Size(lines[1..])
  }

  /** max(1, n // 10). */
  function DropCount(n: nat): (d: nat)
    ensures 1 <= d && (1 <= n ==> d <= n)
  {
    if n / 10 > 1 then n / 10 else 1
  }

  /** lines[n:], which is empty when n is too large. */
  function From<T>(lines: seq<Line<T>>, n: nat): seq<Line<T>> {
    if n <= |lines| then lines[n..] else []
  }

  function OldestDropped<T>(q: Queue<T>): Queue<T> {
    var drop := DropCount(|q.lines|);
    Queue(From(q.lines, drop), 0, 0, q.dropped + drop)
  }

  predicate Overflows<T>(q: Queue<T>, line: Line<T>, maxBytes: int) {
    Size(q.lines + [line]) > maxBytes
  }

  function Appended<T>(q: Queue<T>, line: Line<T>, maxBytes: int): Queue<T> {
    var q1 := q.(lines := q.lines + [line]);
    if Overflows(q, line, maxBytes) then OldestDropped(q1) else q1
  }

  /** The items of the lines that decode. */
  function Decoded<T>(lines: seq<Line<T>>): seq<T> {
    if lines == [] then []
    else
      var front, last := Decoded(lines[..|lines| - 1]), lines[|lines| - 1];
      if last.item.Some? then front + [last.item.value] else front
  }

  function Start<T>(q: Queue<T>): nat {
    Min(q.offset, |q.lines|)
  }

  function Window<T>(q: Queue<T>, limit: nat): seq<Line<T>> {
    q.lines[Start(q)..Min(Start(q) + limit, |q.lines|)]
  }

  function OffsetWritten<T>(q: Queue<T>, n: nat): Queue<T> {
    q.(offFile := n, offset := n)
  }

  function Acked<T>(q: Queue<T>, through: nat): Queue<T> {
    if through > COMPACT_ABOVE then OffsetWritten(q, 0).(lines := From(q.lines, through))
    else OffsetWritten(q, through)
  }

  // ----- the object -----

  class DiskQueue<T> {
    const maxBytes: int
    var lines: seq<Line<T>>
    var offFile: nat
    var offset: nat
    var dropped: nat

    function State(): Queue<T>
      reads this
    {
      Queue(lines, offFile, offset, dropped)
    }

    /** Opening the queue reads the offset file. */
    constructor (maxBytes: int, lines: seq<Line<T>>, offFile: nat)
      ensures this.maxBytes == maxBytes && State() == Queue(lines, offFile, offFile, 0)
    {
      this.maxBytes, this.lines := maxBytes, lines;
      this.offFile, offset, dropped := offFile, offFile, 0;
    }

    method WriteOffset(n: nat)
      modifies `offFile, `offset
      ensures State() == OffsetWritten(old(State()), n)
    {
      offFile, offset := n, n;
    }

    method DropOldest()
      modifies this
      ensures State() == OldestDropped(old(State()))
    {
      var drop := if |lines| / 10 > 1 then |lines| / 10 else 1;
      dropped := dropped + drop;
      lines := From(lines, drop);
      WriteOffset(0);
    }

    method Append(line: Line<T>)
      modifies this
      ensures State() == Appended(old(State()), line, maxBytes)
    {
      lines := lines + [line];
      if Size(lines) > maxBytes { DropOldest(); }
    }

    method ReadBatch(limit: nat) returns (start: nat, out: seq<T>)
      ensures start == Start(State()) && out == Decoded(Window(State(), limit))
    {
      start := Min(offset, |lines|);
      var window := lines[start..Min(start + limit, |lines|)];
      out := [];
      for i := 0 to |window|
        invariant out == Decoded(window[..i])
      {
        assert window[..i + 1][..i] == window[..i];
        if window[i].item.Some? { out := out + [window[i].item.value]; }
      }
      assert window[..|window|] == window;
    }

    method Ack(through: nat)
      modifies this
      ensures State() == Acked(old(State()), through)
    {
      WriteOffset(through);
      if through > COMPACT_ABOVE {
        lines := From(lines, through);
        WriteOffset(0);
      }
    }

    method Depth() returns (n: nat)
      ensures n == if |lines| > offset then |lines| - offset else 0
    {
      n := if |lines| > offset then |lines| - offset else 0;
    }
  }

  // ----- the shipping loop -----

  /** What one turn of the loop does to the queue and to the items delivered so far; a failed send
      leaves both alone. */
  function Turn<T>(q: Queue<T>, sent: seq<T>, ok: bool): (Queue<T>, seq<T>) {
    var batch := Decoded(Window(q, SHIP_BATCH));
    if batch == [] || !ok then (q, sent) else (Acked(q, Start(q) + |batch|), sent + batch)
  }

  function Turns<T>(q: Queue<T>, outcomes: seq<bool>): (Queue<T>, seq<T>) {
    if outcomes == [] then (q, [])
    else
      var (q1, sent) := Turns(q, outcomes[..|outcomes| - 1]);
      Turn(q1, sent, outcomes[|outcomes| - 1])
  }

  /** One turn per element of `outcomes`, which says whether the send of that turn succeeds. */
  method ShipLoop<T>(queue: DiskQueue<T>, outcomes: seq<bool>) returns (shipped: nat, sent: seq<T>)
    modifies queue
    ensures (queue.State(), sent) == Turns(old(queue.State()), outcomes)
    ensures shipped == |sent|
  {
    hide Acked, Decoded, Window;
    shipped, sent := 0, [];
    for i := 0 to |outcomes|
      invariant (queue.State(), sent) == Turns(old(queue.State()), outcomes[..i])
      invariant shipped == |sent|
    {
      assert outcomes[..i + 1][..i] == outcomes[..i];
      var start, batch := queue.ReadBatch(SHIP_BATCH);
      if batch != [] && outcomes[i] {
        sent := sent + batch;
        queue.Ack(start + |batch|);
        shipped := shipped + |batch|;
      }
    }
    assert outcomes[..|outcomes|] == outcomes;
  }

  ghost predicate WellFormed<T>(q: Queue<T>) {
    q.offset <= |q.lines| && forall l <- q.lines :: l.item.Some?
  }

  /** The items still to be shipped. */
  ghost function Backlog<T>(q: Queue<T>): seq<T> {
    Decoded(q.lines[Start(q)..])
  }

  lemma {:induction false} DecodedAppends<T>(xs: seq<Line<T>>, ys: seq<Line<T>>)
    ensures Decoded(xs + ys) == Decoded(xs) + Decoded(ys)
    decreases |ys|
  {
    if ys == [] {
      assert xs + ys == xs;
    } else {
      assert (xs + ys)[..|xs| + |ys| - 1] == xs + ys[..|ys| - 1];
      DecodedAppends(xs, ys[..|ys| - 1]);
    }
  }

  lemma WindowAndRest<T>(q: Queue<T>, limit: nat)
    ensures var window := Window(q, limit);
            && Start(q) + |window| <= |q.lines| && (forall l <- window :: l in q.lines)
            && q.lines[Start(q)..] == window + q.lines[Start(q) + |window|..]
  {
  }

  lemma TurnTakesFromTheFront<T>(q: Queue<T>, sent: seq<T>, ok: bool)
    requires WellFormed(q)
    ensures var (q', sent') := Turn(q, sent, ok);
            WellFormed(q') && sent' + Backlog(q') == sent + Backlog(q)
  {
    hide Decoded, Window;
    var window, batch := Window(q, SHIP_BATCH), Decoded(Window(q, SHIP_BATCH));
    DecodedCount(window);
    WindowAndRest(q, SHIP_BATCH);
    if batch != [] && ok {
      var rest := q.lines[Start(q) + |window|..];
      DecodedAppends(window, rest);
      Bytes.Assoc(sent, batch, Decoded(rest));
      var q' := Turn(q, sent, ok).0;
      assert q'.lines[Start(q')..] == rest;
    }
  }

  /** On well-formed lines the loop ships a prefix of the backlog, in order and each item once,
      whatever sends fail, and keeps exactly the rest. */
  lemma {:induction false} LoopShipsAPrefix<T>(q: Queue<T>, outcomes: seq<bool>)
    requires WellFormed(q)
    ensures var (q', sent) := Turns(q, outcomes);
            WellFormed(q') && sent + Backlog(q') == Backlog(q)
  {
    hide Turn, Backlog, WellFormed;
    if outcomes == [] {
      assert [] + Backlog(q) == Backlog(q);
    } else {
      LoopShipsAPrefix(q, outcomes[..|outcomes| - 1]);
      var (q1, sent) := Turns(q, outcomes[..|outcomes| - 1]);
      TurnTakesFromTheFront(q1, sent, outcomes[|outcomes| - 1]);
    }
  }

  // ----- the same loop beside appends, outages and crashes -----

  /** A batch between its read and its ack: the offset it was read at, the number of its first item
      among all items ever appended, and its items. */
  datatype Flight<T> = Idle | Reading(start: nat, first: nat, batch: seq<T>)
    | Delivered(start: nat, first: nat, batch: seq<T>)

  datatype Step<T> =
    | Append(item: T, size: nat)
    | Read
    | Send(ok: bool)
    | Ack
    | CrashBeforeCompaction
    | CrashBeforeDrop(item: T, size: nat)
    | CrashInDrop(item: T, size: nat)
    | Restart

  /** The system with its history: all items ever appended; how many of them have left the front of
      the file; which were acked and which were dropped by the bound (by number), in all and since the
      last restart; and the items of all acked batches, in order. */
  datatype World<T> = World(
    q: Queue<T>,
    flight: Flight<T>,
    appended: seq<T>,
    base: nat,
    acked: set<nat>,
    dropped: set<nat>,
    recent: set<nat>,
    shipped: seq<T>)

  function NewWorld<T>(): World<T> {
    World(Queue([], 0, 0, 0), Idle, [], 0, {}, {}, {}, [])
  }

  /** The numbers from lo up to hi. */
  function Range(lo: nat, hi: nat): (s: set<nat>)
    ensures forall i :: i in s <==> lo <= i < hi
    ensures lo <= hi ==> |s| == hi - lo
    decreases hi
  {
    if lo < hi then Range(lo, hi - 1) + {hi - 1} else {}
  }

  /** A new object over the same files: the offset is the one on disk, and the drop counter starts
      again from zero. */
  function Restarted<T>(w: World<T>): World<T> {
    w.(flight := Idle, q := w.q.(offset := w.q.offFile, dropped := 0), recent := {})
  }

  /** The history of an append, with the lines the bound dropped. */
  function AppendedTo<T>(w: World<T>, item: T, drop: nat, q: Queue<T>): World<T> {
    var gone := Range(w.base, w.base + drop);
    w.(q := q, appended := w.appended + [item], base := w.base + drop, dropped := w.dropped + gone,
       recent := w.recent + gone)
  }

  /** The lines that the bound drops when this item is appended. */
  function DropOf<T>(w: World<T>, item: T, size: nat, maxBytes: int): (drop: nat)
    ensures drop <= |w.q.lines| + 1
  {
    if Overflows(w.q, Line(Some(item), size), maxBytes) then DropCount(|w.q.lines| + 1) else 0
  }

  function Next<T>(w: World<T>, s: Step<T>, maxBytes: int): World<T> {
    match s
    case Append(item, size) =>
      AppendedTo(w, item, DropOf(w, item, size, maxBytes), Appended(w.q, Line(Some(item), size), maxBytes))
    case CrashBeforeDrop(item, size) =>
      Restarted(AppendedTo(w, item, 0, w.q.(lines := w.q.lines + [Line(Some(item), size)])))
    case CrashInDrop(item, size) =>
      var drop := DropOf(w, item, size, maxBytes);
      Restarted(AppendedTo(w, item, drop, w.q.(lines := From(w.q.lines + [Line(Some(item), size)], drop))))
    case Read =>
      if w.flight != Idle then w
      else
        var batch := Decoded(Window(w.q, SHIP_BATCH));
        if batch == [] then w else w.(flight := Reading(Start(w.q), w.base + Start(w.q), batch))
    case Send(ok) =>
      if !w.flight.Reading? then w
      else if ok then w.(flight := Delivered(w.flight.start, w.flight.first, w.flight.batch))
      else w.(flight := Idle)
    case Ack =>
      if !w.flight.Delivered? then w
      else
        var through := w.flight.start + |w.flight.batch|;
        Settled(w).(q := Acked(w.q, through), base := if through > COMPACT_ABOVE then w.base + through else w.base)
    case CrashBeforeCompaction =>
      if !w.flight.Delivered? then w
      else Restarted(Settled(w).(q := OffsetWritten(w.q, w.flight.start + |w.flight.batch|)))
    case Restart => Restarted(w)
  }

  /** The history after the batch in flight has been acked. */
  function Settled<T>(w: World<T>): World<T>
    requires w.flight.Delivered?
  {
    var lo := w.flight.first;
    w.(flight := Idle, acked := w.acked + Range(lo, lo + |w.flight.batch|), shipped := w.shipped + w.flight.batch)
  }

  /** Steps that keep to the assumptions: the bound does not drop lines while a batch is between its
      read and its ack, and a crash between the drop and the reset of the offset finds it at zero. */
  predicate Allowed<T>(w: World<T>, s: Step<T>, maxBytes: int) {
    && (s.Append? && Overflows(w.q, Line(Some(s.item), s.size), maxBytes) ==> w.flight == Idle)
    && (s.CrashInDrop? ==> w.q.offFile == 0)
  }

  function Run<T>(steps: seq<Step<T>>, maxBytes: int): World<T> {
    if steps == [] then NewWorld()
    else Next(Run(steps[..|steps| - 1], maxBytes), steps[|steps| - 1], maxBytes)
  }

  ghost predicate AllAllowed<T>(steps: seq<Step<T>>, maxBytes: int) {
    forall i :: 0 <= i < |steps| ==> Allowed(Run(steps[..i], maxBytes), steps[i], maxBytes)
  }

  // ----- the invariant -----

  /** The file holds exactly the items from number `base` on, one per line. */
  ghost predicate FileHolds<T>(lines: seq<Line<T>>, appended: seq<T>, base: nat) {
    && base + |lines| == |appended|
    && forall i :: 0 <= i < |lines| ==> lines[i].item == Some(appended[base + i])
  }

  /** Number of the next item to be read. */
  function Cursor<T>(w: World<T>): nat {
    w.base + w.q.offset
  }

  ghost predicate FileOk<T>(w: World<T>) {
    FileHolds(w.q.lines, w.appended, w.base) && w.q.offset == w.q.offFile && w.q.offset <= |w.q.lines|
  }

  /** All before the cursor is acked or dropped; the counter holds the drops since the last restart. */
  ghost predicate HistoryOk<T>(w: World<T>) {
    && (forall i: nat :: i < Cursor(w) ==> i in w.acked || i in w.dropped)
    && (forall i <- w.dropped :: i < w.base) && w.recent <= w.dropped && |w.recent| == w.q.dropped
    && (forall i <- w.acked :: i < |w.appended|)
  }

  ghost predicate FlightOk<T>(w: World<T>) {
    w.flight != Idle ==>
      && w.flight.start == w.q.offset && w.flight.first == Cursor(w) && w.flight.batch != []
      && w.flight.start + |w.flight.batch| <= |w.q.lines| && Cursor(w) + |w.flight.batch| <= |w.appended|
      && w.flight.batch == w.appended[Cursor(w)..Cursor(w) + |w.flight.batch|]
  }

  ghost predicate FifoOk<T>(w: World<T>) {
    w.dropped == {} ==>
      && Cursor(w) <= |w.appended| && w.shipped == w.appended[..Cursor(w)]
      && forall i <- w.acked :: i < Cursor(w)
  }

  ghost predicate Inv<T>(w: World<T>) {
    FileOk(w) && HistoryOk(w) && FlightOk(w) && FifoOk(w)
  }

  lemma {:induction false} DecodedIsSlice<T>(lines: seq<Line<T>>, appended: seq<T>, base: nat)
    requires base + |lines| <= |appended|
    requires forall i :: 0 <= i < |lines| ==> lines[i].item == Some(appended[base + i])
    ensures Decoded(lines) == appended[base..base + |lines|]
  {
    if lines != [] {
      DecodedIsSlice(lines[..|lines| - 1], appended, base);
    }
  }

  /** An append that drops `drop` lines and then has the offset at the front, or drops none. */
  ghost predicate GoodAppend<T>(w: World<T>, item: T, size: nat, drop: nat, q: Queue<T>) {
    && drop <= |w.q.lines| + 1 && q.lines == (w.q.lines + [Line(Some(item), size)])[drop..]
    && q.dropped == w.q.dropped + drop && q.offset == q.offFile
    && (if drop > 0 then w.flight == Idle && q.offset == 0 else q.offset == w.q.offset)
  }

  lemma AppendedFile<T>(w: World<T>, item: T, size: nat, drop: nat, q: Queue<T>)
    requires FileOk(w) && GoodAppend(w, item, size, drop, q)
    ensures FileOk(AppendedTo(w, item, drop, q))
  {
    hide Range;
  }

  lemma AppendedHistory<T>(w: World<T>, item: T, size: nat, drop: nat, q: Queue<T>)
    requires FileOk(w) && HistoryOk(w) && GoodAppend(w, item, size, drop, q)
    ensures HistoryOk(AppendedTo(w, item, drop, q))
  {
    hide Range, FileHolds;
    var w' := AppendedTo(w, item, drop, q);
    assert w.recent !! Range(w.base, w.base + drop);
    assert |w'.recent| == |w.recent| + drop;
  }

  lemma AppendedFlight<T>(w: World<T>, item: T, size: nat, drop: nat, q: Queue<T>)
    requires FlightOk(w) && FifoOk(w) && GoodAppend(w, item, size, drop, q)
    ensures FlightOk(AppendedTo(w, item, drop, q)) && FifoOk(AppendedTo(w, item, drop, q))
  {
    hide Range;
    if drop > 0 { assert w.base in AppendedTo(w, item, drop, q).dropped; }
  }

  lemma AppendedKeepsInv<T>(w: World<T>, item: T, size: nat, drop: nat, q: Queue<T>)
    requires Inv(w) && GoodAppend(w, item, size, drop, q)
    ensures Inv(AppendedTo(w, item, drop, q))
  {
    hide GoodAppend, AppendedTo, FileOk, HistoryOk, FlightOk, FifoOk;
    AppendedFile(w, item, size, drop, q);
    AppendedHistory(w, item, size, drop, q);
    AppendedFlight(w, item, size, drop, q);
  }

  lemma AppendKeepsInv<T>(w: World<T>, s: Step<T>, maxBytes: int)
    requires Inv(w) && s.Append? && Allowed(w, s, maxBytes)
    ensures Inv(Next(w, s, maxBytes))
  {
    var drop, q := DropOf(w, s.item, s.size, maxBytes), Appended(w.q, Line(Some(s.item), s.size), maxBytes);
    assert GoodAppend(w, s.item, s.size, drop, q) by {
      hide Size, FileHolds, HistoryOk, FlightOk, FifoOk, DropCount;
    }
    hide *;
    AppendedKeepsInv(w, s.item, s.size, drop, q);
    assert Next(w, s, maxBytes) == AppendedTo(w, s.item, drop, q) by { AppendIs(w, s, maxBytes); }
  }

  lemma AppendIs<T>(w: World<T>, s: Step<T>, maxBytes: int)
    requires s.Append?
    ensures Next(w, s, maxBytes)
         == AppendedTo(w, s.item, DropOf(w, s.item, s.size, maxBytes),
                       Appended(w.q, Line(Some(s.item), s.size), maxBytes))
  {
    hide AppendedTo, DropOf, Appended;
  }

  lemma RestartKeepsInv<T>(w: World<T>)
    requires Inv(w)
    ensures Inv(Restarted(w))
  {
    hide FileHolds;
  }

  lemma RestartAbsorbs<T>(w: World<T>, item: T, drop: nat, q: Queue<T>, q': Queue<T>)
    requires q.lines == q'.lines && q.offFile == q'.offFile
    ensures Restarted(AppendedTo(w, item, drop, q)) == Restarted(AppendedTo(Restarted(w), item, drop, q'))
  {
    hide Range;
  }

  /** A crashed append is an append to the restarted queue, and another restart. */
  lemma CrashKeepsInv<T>(w: World<T>, item: T, size: nat, drop: nat, q: Queue<T>)
    requires Inv(w) && drop <= |w.q.lines| + 1 && (drop > 0 ==> w.q.offFile == 0)
    requires q.lines == (w.q.lines + [Line(Some(item), size)])[drop..] && q.offFile == w.q.offFile
    ensures Inv(Restarted(AppendedTo(w, item, drop, q)))
  {
    var rest := Restarted(w);
    var q' := rest.q.(lines := q.lines, dropped := drop);
    RestartKeepsInv(w);
    RestartAbsorbs(w, item, drop, q, q');
    assert GoodAppend(rest, item, size, drop, q') by {
      hide FileHolds, HistoryOk, FlightOk, FifoOk, AppendedTo;
    }
    hide *;
    AppendedKeepsInv(rest, item, size, drop, q');
    RestartKeepsInv(AppendedTo(rest, item, drop, q'));
  }

  lemma CrashedAppendKeepsInv<T>(w: World<T>, s: Step<T>, maxBytes: int)
    requires Inv(w) && (s.CrashBeforeDrop? || s.CrashInDrop?) && Allowed(w, s, maxBytes)
    ensures Inv(Next(w, s, maxBytes))
  {
    hide Inv, AppendedTo, Restarted, DropOf, Overflows;
    var lines := w.q.lines + [Line(Some(s.item), s.size)];
    if s.CrashBeforeDrop? {
      assert lines[0..] == lines;
      CrashKeepsInv(w, s.item, s.size, 0, w.q.(lines := lines));
    } else {
      var drop := DropOf(w, s.item, s.size, maxBytes);
      CrashKeepsInv(w, s.item, s.size, drop, w.q.(lines := From(lines, drop)));
    }
  }

  lemma ReadKeepsInv<T>(w: World<T>, s: Step<T>, maxBytes: int)
    requires Inv(w) && s.Read?
    ensures Inv(Next(w, s, maxBytes))
  {
    hide Decoded;
    var window := Window(w.q, SHIP_BATCH);
    forall i | 0 <= i < |window|
      ensures window[i].item == Some(w.appended[Cursor(w) + i])
    {
      assert window[i] == w.q.lines[Start(w.q) + i];
    }
    DecodedIsSlice(window, w.appended, Cursor(w));
  }

  /** The queue after an ack: the cursor moves past the batch; compaction takes lines off the front. */
  ghost predicate GoodAck<T>(w: World<T>, q: Queue<T>, base: nat)
    requires w.flight.Delivered?
  {
    && w.base <= base <= w.base + |w.q.lines| && q.lines == w.q.lines[base - w.base..]
    && base + q.offset == Cursor(w) + |w.flight.batch| && q.offset == q.offFile && q.dropped == w.q.dropped
  }

  lemma SettledHistory<T>(w: World<T>, q: Queue<T>, base: nat)
    requires HistoryOk(w) && FlightOk(w) && w.flight.Delivered? && GoodAck(w, q, base)
    ensures HistoryOk(Settled(w).(q := q, base := base))
  {
    hide Range;
  }

  lemma SettledFifo<T>(w: World<T>, q: Queue<T>, base: nat)
    requires FifoOk(w) && FlightOk(w) && w.flight.Delivered? && GoodAck(w, q, base)
    ensures FifoOk(Settled(w).(q := q, base := base))
  {
    hide Range;
    var c, n := Cursor(w), |w.flight.batch|;
    assert w.appended[..c] + w.appended[c..c + n] == w.appended[..c + n];
  }

  lemma SettledKeepsInv<T>(w: World<T>, q: Queue<T>, base: nat)
    requires Inv(w) && w.flight.Delivered? && GoodAck(w, q, base)
    ensures Inv(Settled(w).(q := q, base := base))
  {
    hide HistoryOk, FifoOk, Range;
    SettledHistory(w, q, base);
    SettledFifo(w, q, base);
  }

  lemma AckKeepsInv<T>(w: World<T>, s: Step<T>, maxBytes: int)
    requires Inv(w) && (s.Ack? || s.CrashBeforeCompaction?)
    ensures Inv(Next(w, s, maxBytes))
  {
    hide HistoryOk, FifoOk, FileHolds, Settled;
    if w.flight.Delivered? {
      var through := w.flight.start + |w.flight.batch|;
      if s.Ack? {
        SettledKeepsInv(w, Acked(w.q, through), if through > COMPACT_ABOVE then w.base + through else w.base);
      } else {
        SettledKeepsInv(w, OffsetWritten(w.q, through), w.base);
        RestartKeepsInv(Settled(w).(q := OffsetWritten(w.q, through), base := w.base));
        SettledBase(w);
      }
    }
  }

  lemma SettledBase<T>(w: World<T>)
    requires w.flight.Delivered?
    ensures Settled(w).base == w.base
  {
  }

  lemma StepKeepsInv<T>(w: World<T>, s: Step<T>, maxBytes: int)
    requires Inv(w) && Allowed(w, s, maxBytes)
    ensures Inv(Next(w, s, maxBytes))
  {
    hide Inv, Next, Size;
    match s
    case Append(_, _) => AppendKeepsInv(w, s, maxBytes);
    case CrashBeforeDrop(_, _) => CrashedAppendKeepsInv(w, s, maxBytes);
    case CrashInDrop(_, _) => CrashedAppendKeepsInv(w, s, maxBytes);
    case Read => ReadKeepsInv(w, s, maxBytes);
    case Send(_) => QuietStepKeepsInv(w, s, maxBytes);
    case Ack => AckKeepsInv(w, s, maxBytes);
    case CrashBeforeCompaction => AckKeepsInv(w, s, maxBytes);
    case Restart => QuietStepKeepsInv(w, s, maxBytes);
  }

  lemma QuietStepKeepsInv<T>(w: World<T>, s: Step<T>, maxBytes: int)
    requires Inv(w) && (s.Send? || s.Restart?)
    ensures Inv(Next(w, s, maxBytes))
  {
  }

  lemma {:induction false} InvHolds<T>(steps: seq<Step<T>>, maxBytes: int)
    requires AllAllowed(steps, maxBytes)
    ensures Inv(Run(steps, maxBytes))
  {
    hide Next, Allowed, Inv;
    if steps == [] {
      NewIsInv<T>();
    } else {
      var n := |steps| - 1;
      forall i | 0 <= i < n
        ensures Allowed(Run(steps[..n][..i], maxBytes), steps[..n][i], maxBytes)
      {
        assert steps[..n][..i] == steps[..i];
      }
      InvHolds(steps[..n], maxBytes);
      StepKeepsInv(Run(steps[..n], maxBytes), steps[n], maxBytes);
    }
  }

  lemma NewIsInv<T>()
    ensures Inv(NewWorld<T>())
  {
  }

  // ----- what follows for every run -----

  /** Nothing is skipped: over every run with outages, restarts, crashes before a drop or before
      compaction, and overflow at rest, each appended item has been acked, or was dropped by the
      bound, or is still in the file where the next reads will find it. The counter holds the drops
      since the last restart. */
  lemma NothingIsSkipped<T>(steps: seq<Step<T>>, maxBytes: int, i: nat)
    requires AllAllowed(steps, maxBytes) && i < |Run(steps, maxBytes).appended|
    ensures var w := Run(steps, maxBytes);
            && (i in w.acked || i in w.dropped
                || (Cursor(w) <= i && i - w.base < |w.q.lines| && w.q.lines[i - w.base].item == Some(w.appended[i])))
            && w.recent <= w.dropped && |w.recent| == w.q.dropped
  {
    hide Run, Next;
    InvHolds(steps, maxBytes);
  }

  /** A FIFO: as long as the bound has dropped nothing, the acked batches one after the other are
      exactly the first items appended, each once, and compaction cannot be seen. */
  lemma ShippedIsAPrefix<T>(steps: seq<Step<T>>, maxBytes: int)
    requires AllAllowed(steps, maxBytes) && Run(steps, maxBytes).dropped == {}
    ensures var w := Run(steps, maxBytes);
            Cursor(w) <= |w.appended| && w.shipped == w.appended[..Cursor(w)]
  {
    InvHolds(steps, maxBytes);
  }

  /** The counter tells all that was dropped if and only if nothing was dropped before the last
      restart. */
  lemma CounterIsCompleteIff<T>(steps: seq<Step<T>>, maxBytes: int)
    requires AllAllowed(steps, maxBytes)
    ensures var w := Run(steps, maxBytes); w.q.dropped == |w.dropped| <==> w.recent == w.dropped
  {
    InvHolds(steps, maxBytes);
    hide Run;
    var w := Run(steps, maxBytes);
    SubsetSize(w.recent, w.dropped);
  }

  lemma SizeOfTwo<T>(x: T, y: T)
    ensures Size([Line(Some(x), 1)]) == 1 && Size([Line(Some(x), 1), Line(Some(y), 1)]) == 2
  {
    var two := [Line(Some(x), 1), Line(Some(y), 1)];
    assert two[1..] == [Line(Some(y), 1)] && two[1..][1..] == [] && [Line(Some(x), 1)][1..] == [];
  }

  lemma FirstAppendFits<T>(a: T, b: T)
    ensures Next(NewWorld(), Append(a, 1), 1) == World(Queue([Line(Some(a), 1)], 0, 0, 0), Idle, [a], 0, {}, {}, {}, [])
  {
    hide Size;
    SizeOfTwo(a, b);
    assert [] + [Line(Some(a), 1)] == [Line(Some(a), 1)] && Range(0, 0) == {};
  }

  lemma SecondAppendDrops<T>(a: T, b: T)
    ensures Next(World(Queue([Line(Some(a), 1)], 0, 0, 0), Idle, [a], 0, {}, {}, {}, []), Append(b, 1), 1)
         == World(Queue([Line(Some(b), 1)], 0, 0, 1), Idle, [a, b], 1, {}, {0}, {0}, [])
  {
    hide Size;
    SizeOfTwo(a, b);
    var two := [Line(Some(a), 1)] + [Line(Some(b), 1)];
    assert two == [Line(Some(a), 1), Line(Some(b), 1)] && two[1..] == [Line(Some(b), 1)];
    assert Range(0, 1) == {0};
  }

  lemma OneItemIsShipped<T>(a: T, b: T)
    ensures var w := World(Queue([Line(Some(b), 1)], 0, 0, 0), Idle, [a, b], 1, {}, {0}, {}, []);
            Next(Next(Next(w, Read, 1), Send(true), 1), Ack, 1)
            == World(Queue([Line(Some(b), 1)], 1, 1, 0), Idle, [a, b], 1, {1}, {0}, {}, [b])
  {
    var w := World(Queue([Line(Some(b), 1)], 0, 0, 0), Idle, [a, b], 1, {}, {0}, {}, []);
    var window := Window(w.q, SHIP_BATCH);
    assert window == [Line(Some(b), 1)] && window[..0] == [] && Decoded(window) == [b];
    assert Next(w, Read, 1).flight == Reading(0, 1, [b]);
    assert Range(1, 2) == {1};
  }

  /** A restart forgets the drops: two items of which the first is dropped, a restart, and the second
      is shipped. The counter then reads zero, and the first item was never shipped. */
  lemma RestartForgetsDrops<T>(a: T, b: T)
    ensures var steps := [Append(a, 1), Append(b, 1), Restart, Read, Send(true), Ack];
            var w := Run(steps, 1);
            w.q.dropped == 0 && w.dropped == {0} && w.appended == [a, b] && w.shipped == [b]
  {
    hide Next, NewWorld;
    var steps := [Append(a, 1), Append(b, 1), Restart, Read, Send(true), Ack];
    FirstAppendFits(a, b);
    SecondAppendDrops(a, b);
    OneItemIsShipped(a, b);
    assert Restarted(World(Queue([Line(Some(b), 1)], 0, 0, 1), Idle, [a, b], 1, {}, {0}, {0}, []))
        == World(Queue([Line(Some(b), 1)], 0, 0, 0), Idle, [a, b], 1, {}, {0}, {}, []);
    var w2 := Next(Next(NewWorld(), Append(a, 1), 1), Append(b, 1), 1);
    RestartIs(w2, 1);
    SixSteps(steps, 1);
  }

  lemma RestartIs<T>(w: World<T>, maxBytes: int)
    ensures Next(w, Restart, maxBytes) == Restarted(w)
  {
  }

  lemma RunMore<T>(steps: seq<Step<T>>, k: nat, maxBytes: int)
    requires k < |steps|
    ensures Run(steps[..k + 1], maxBytes) == Next(Run(steps[..k], maxBytes), steps[k], maxBytes)
  {
    assert steps[..k + 1][..k] == steps[..k];
  }

  lemma SixSteps<T>(steps: seq<Step<T>>, m: int)
    requires |steps| == 6
    ensures var w := Next(Next(Next(NewWorld(), steps[0], m), steps[1], m), steps[2], m);
            Run(steps, m) == Next(Next(Next(w, steps[3], m), steps[4], m), steps[5], m)
  {
    hide Next;
    assert Run(steps[..0], m) == NewWorld() && steps[..6] == steps;
    hide Run;
    RunMore(steps, 0, m);
    RunMore(steps, 1, m);
    RunMore(steps, 2, m);
    RunMore(steps, 3, m);
    RunMore(steps, 4, m);
    RunMore(steps, 5, m);
  }

  /** Every batch that leaves the sensor starts with the oldest item not yet acked or dropped. */
  lemma BatchesStartAtTheCursor<T>(steps: seq<Step<T>>, maxBytes: int)
    requires AllAllowed(steps, maxBytes) && Run(steps, maxBytes).flight != Idle
    ensures var w := Run(steps, maxBytes);
            w.flight.first == Cursor(w) && w.flight.first + |w.flight.batch| <= |w.appended|
            && w.flight.batch == w.appended[w.flight.first..w.flight.first + |w.flight.batch|]
  {
    InvHolds(steps, maxBytes);
  }

  /** Overflow at rest: reading restarts at the front of what is left. Beyond the counted drops
      nothing is lost, and what lies before the old cursor is delivered again. */
  lemma OverflowAtRest<T>(w: World<T>, s: Step<T>, maxBytes: int)
    requires Inv(w) && s.Append? && w.flight == Idle && Overflows(w.q, Line(Some(s.item), s.size), maxBytes)
    ensures var w' := Next(w, s, maxBytes);
            var drop := DropCount(|w.q.lines| + 1);
            && Cursor(w') == w.base + drop
            && w'.dropped == w.dropped + Range(w.base, w.base + drop) && w'.q.dropped == w.q.dropped + drop
            && w'.recent == w.recent + Range(w.base, w.base + drop)
            && forall i :: Cursor(w') <= i < Cursor(w) ==> i in w.acked || i in w.dropped
  {
    hide Size;
  }

  /** Overflow between a read and its ack breaks this. The ack then advances past lines that were
      never read: exactly the items behind the batch and behind the drop, up to as many as were
      dropped, are passed over, save those that an earlier delivery had acked. */
  lemma OverflowInFlightSkips<T>(w: World<T>, s: Step<T>, maxBytes: int, i: nat)
    requires Inv(w) && w.flight.Delivered?
    requires s.Append? && Overflows(w.q, Line(Some(s.item), s.size), maxBytes)
    ensures var w' := Next(Next(w, s, maxBytes), Ack, maxBytes);
            var drop := DropCount(|w.q.lines| + 1);
            var behind := w.flight.first + |w.flight.batch|;
            PassedOver(w', i)
            <==> behind <= i < behind + drop && w.base + drop <= i < |w.appended| + 1 && i !in w.acked
  {
    hide Size, Range, DropCount;
  }

  /** What the cursor of w' has passed without an ack or a drop. */
  predicate PassedOver<T>(w: World<T>, i: nat) {
    i < Cursor(w) && i < |w.appended| && i !in w.acked && i !in w.dropped
  }

  /** A crash between the drop and the reset of the offset leaves the old offset over the shortened
      file. Exactly the items behind both the drop and the old cursor, up to as many as the offset,
      are passed over, save those that an earlier delivery had acked. */
  lemma CrashInDropSkips<T>(w: World<T>, s: Step<T>, maxBytes: int, i: nat)
    requires Inv(w) && s.CrashInDrop? && Overflows(w.q, Line(Some(s.item), s.size), maxBytes)
    ensures var drop := DropOf(w, s.item, s.size, maxBytes);
            var (lo, hi) := (Max(w.base + drop, w.base + w.q.offset),
                             Min(w.base + drop + w.q.offset, |w.appended| + 1));
            PassedOver(Next(w, s, maxBytes), i) <==> lo <= i < hi && i !in w.acked
  {
    hide Size, Overflows, Range, DropCount;
  }

  /** So the first drop of a run, when such a crash hits it, loses something if and only if the offset
      was not zero. */
  lemma CrashInDropLosesIff<T>(w: World<T>, s: Step<T>, maxBytes: int)
    requires Inv(w) && w.dropped == {}
    requires s.CrashInDrop? && Overflows(w.q, Line(Some(s.item), s.size), maxBytes)
    ensures (exists i: nat :: PassedOver(Next(w, s, maxBytes), i)) <==> w.q.offset > 0
  {
    DropLeavesALine(w, s, maxBytes);
    assert forall i <- w.acked :: i < w.base + w.q.offset;
    hide Next, PassedOver, Overflows, Inv;
    var drop := DropOf(w, s.item, s.size, maxBytes);
    var lo := Max(w.base + drop, w.base + w.q.offset);
    forall i: nat
      ensures PassedOver(Next(w, s, maxBytes), i) <==> lo <= i < Min(w.base + drop + w.q.offset, |w.appended| + 1)
    {
      CrashInDropSkips(w, s, maxBytes, i);
    }
    if w.q.offset > 0 { assert PassedOver(Next(w, s, maxBytes), lo); }
  }

  lemma DropLeavesALine<T>(w: World<T>, s: Step<T>, maxBytes: int)
    requires Inv(w) && s.CrashInDrop? && Overflows(w.q, Line(Some(s.item), s.size), maxBytes)
    ensures var drop := DropOf(w, s.item, s.size, maxBytes);
            1 <= drop && (w.q.offset > 0 ==> drop <= |w.q.lines|) && w.q.offset <= |w.q.lines|
            && w.base + |w.q.lines| == |w.appended|
  {
    hide Size, Overflows, Range;
  }

  /** A crash between the rewrite of the file by compaction and the reset of the offset. */
  function CrashedInCompaction<T>(w: World<T>): World<T>
    requires w.flight.Delivered?
  {
    var through := w.flight.start + |w.flight.batch|;
    var q := Queue(From(w.q.lines, through), through, through, w.q.dropped);
    Restarted(Settled(w).(q := q, base := w.base + through))
  }

  /** After it the stale offset applies to the shortened file: exactly the items up to that far behind
      the rewritten front are passed over, save those that an earlier delivery had acked. Nothing at
      all is read until the file has grown beyond the stale offset. */
  lemma CrashInCompactionSkips<T>(w: World<T>, limit: nat, i: nat)
    requires Inv(w) && w.flight.Delivered? && w.flight.start + |w.flight.batch| > COMPACT_ABOVE && limit > 0
    ensures var w' := CrashedInCompaction(w);
            var through := w.flight.start + |w.flight.batch|;
            && FileHolds(w'.q.lines, w'.appended, w'.base)
            && Cursor(w') == w'.base + through
            && (Window(w'.q, limit) == [] <==> |w'.q.lines| <= through)
            && (PassedOver(w', i) <==> w'.base <= i < Min(Cursor(w'), |w'.appended|) && i !in w'.acked)
  {
    hide Range;
  }

  // ----- lines that do not decode -----

  lemma {:induction false} DecodedCount<T>(lines: seq<Line<T>>)
    ensures |Decoded(lines)| <= |lines|
    ensures |Decoded(lines)| == |lines| <==> forall l <- lines :: l.item.Some?
    ensures Decoded(lines) == [] <==> forall l <- lines :: l.item.None?
  {
    if lines != [] {
      DecodedCount(lines[..|lines| - 1]);
      assert lines == lines[..|lines| - 1] + [lines[|lines| - 1]];
    }
  }

  /** The ack covers what was read if and only if every line of the window decodes; otherwise it
      stops short, by the number of lines that did not. */
  lemma AckCoversTheWindowIff<T>(q: Queue<T>, limit: nat)
    ensures var window := Window(q, limit);
            var through := Start(q) + |Decoded(window)|;
            through == Start(q) + |window| <==> forall l <- window :: l.item.Some?
  {
    DecodedCount(Window(q, limit));
  }

  /** A read takes nothing if and only if no line of the window decodes. */
  lemma StuckIff<T>(w: World<T>, maxBytes: int)
    requires w.flight == Idle
    ensures Next(w, Read, maxBytes) == w <==> forall l <- Window(w.q, SHIP_BATCH) :: l.item.None?
  {
    DecodedCount(Window(w.q, SHIP_BATCH));
  }

  /** A full window of lines that do not decode. */
  ghost predicate Jammed<T>(w: World<T>) {
    && w.flight == Idle && w.q.offset + SHIP_BATCH <= |w.q.lines|
    && forall i :: w.q.offset <= i < w.q.offset + SHIP_BATCH ==> w.q.lines[i].item.None?
  }

  function Continued<T>(w: World<T>, steps: seq<Step<T>>, maxBytes: int): World<T>
    decreases |steps|
  {
    if steps == [] then w else Continued(Next(w, steps[0], maxBytes), steps[1..], maxBytes)
  }

  /** The bound drops lines. */
  predicate Drops<T>(w: World<T>, s: Step<T>, maxBytes: int) {
    (s.Append? || s.CrashInDrop?) && Overflows(w.q, Line(Some(s.item), s.size), maxBytes)
  }

  predicate NoDrops<T>(w: World<T>, steps: seq<Step<T>>, maxBytes: int)
    decreases |steps|
  {
    steps == [] || (!Drops(w, steps[0], maxBytes) && NoDrops(Next(w, steps[0], maxBytes), steps[1..], maxBytes))
  }

  /** Whatever is appended without a drop leaves the window as it is. */
  lemma JammedAppend<T>(w: World<T>, q: Queue<T>, line: Line<T>)
    requires Jammed(w) && q.lines == w.q.lines + [line] && q.offset == w.q.offset
    ensures Jammed(w.(q := q))
  {
  }

  lemma JammedRead<T>(w: World<T>, maxBytes: int)
    requires Jammed(w)
    ensures Next(w, Read, maxBytes) == w
  {
    assert Window(w.q, SHIP_BATCH) == w.q.lines[w.q.offset..w.q.offset + SHIP_BATCH];
    StuckIff(w, maxBytes);
  }

  lemma JammedStep<T>(w: World<T>, s: Step<T>, maxBytes: int)
    requires Jammed(w) && w.q.offset == w.q.offFile && !Drops(w, s, maxBytes)
    ensures var w' := Next(w, s, maxBytes); Jammed(w') && w'.q.offset == w'.q.offFile && w'.shipped == w.shipped
  {
    hide Overflows, Range, Decoded, Window, Jammed;
    if s.Read? {
      JammedRead(w, maxBytes);
    } else if s.Append? || s.CrashInDrop? || s.CrashBeforeDrop? {
      var w' := Next(w, s, maxBytes);
      JammedAppend(w, w'.q, Line(Some(s.item), s.size));
      JammedSame(w.(q := w'.q), w');
    } else {
      assert w.flight == Idle by { JammedIsIdle(w); }
      JammedSame(w, Next(w, s, maxBytes));
    }
  }

  lemma JammedIsIdle<T>(w: World<T>)
    requires Jammed(w)
    ensures w.flight == Idle
  {
  }

  lemma JammedSame<T>(w: World<T>, w': World<T>)
    requires Jammed(w) && w'.flight == w.flight && w'.q.lines == w.q.lines && w'.q.offset == w.q.offset
    ensures Jammed(w')
  {
  }

  lemma {:induction false} JammedStays<T>(w: World<T>, steps: seq<Step<T>>, maxBytes: int)
    requires Jammed(w) && w.q.offset == w.q.offFile && NoDrops(w, steps, maxBytes)
    ensures Continued(w, steps, maxBytes).shipped == w.shipped
    decreases |steps|
  {
    hide Next, Jammed, Drops;
    if steps != [] {
      JammedStep(w, steps[0], maxBytes);
      JammedStays(Next(w, steps[0], maxBytes), steps[1..], maxBytes);
    }
  }

  /** How far the offset is beyond the end of the file. */
  function Beyond<T>(q: Queue<T>): nat {
    Max(0, q.offset - |q.lines|)
  }

  lemma {:induction false} SizeAppends<T>(lines: seq<Line<T>>, line: Line<T>)
    ensures Size(lines + [line]) == Size(lines) + line.size
  {
    if lines != [] {
      SizeAppends(lines[1..], line);
      assert (lines + [line])[1..] == lines[1..] + [line];
    }
  }

  lemma Batch<T>(w: World<T>, maxBytes: int)
    requires w.flight == Idle && exists l <- Window(w.q, SHIP_BATCH) :: l.item.Some?
    ensures var w' := Next(w, Read, maxBytes); w'.flight.Reading? && w'.flight.batch != [] && w'.shipped == w.shipped
  {
    DecodedCount(Window(w.q, SHIP_BATCH));
  }

  /** The continuation drops nothing and ships something. */
  ghost predicate Ships<T>(w: World<T>, steps: seq<Step<T>>, maxBytes: int) {
    NoDrops(w, steps, maxBytes) && Continued(w, steps, maxBytes).shipped != w.shipped
  }

  lemma StepThenShips<T>(w: World<T>, s: Step<T>, rest: seq<Step<T>>, maxBytes: int)
    requires !Drops(w, s, maxBytes) && Next(w, s, maxBytes).shipped == w.shipped
    requires Ships(Next(w, s, maxBytes), rest, maxBytes)
    ensures Ships(w, [s] + rest, maxBytes)
  {
    hide Drops, Next;
    assert ([s] + rest)[1..] == rest;
  }

  /** A batch once read can be shipped. */
  lemma BatchShips<T>(w: World<T>, maxBytes: int) returns (steps: seq<Step<T>>)
    requires w.flight != Idle && w.flight.batch != []
    ensures Ships(w, steps, maxBytes)
    decreases w.flight.Reading?
  {
    if w.flight.Reading? {
      steps := BatchShips(Next(w, Send(true), maxBytes), maxBytes);
      StepThenShips(w, Send(true), steps, maxBytes);
      steps := [Send(true)] + steps;
    } else {
      steps := [Ack];
      assert Next(w, Ack, maxBytes).shipped == w.shipped + w.flight.batch;
      assert steps[1..] == [];
    }
  }

  /** A worthwhile window ships at once. */
  lemma WindowShips<T>(w: World<T>, maxBytes: int) returns (steps: seq<Step<T>>)
    requires w.flight == Idle && exists l <- Window(w.q, SHIP_BATCH) :: l.item.Some?
    ensures Ships(w, steps, maxBytes)
  {
    Batch(w, maxBytes);
    steps := BatchShips(Next(w, Read, maxBytes), maxBytes);
    StepThenShips(w, Read, steps, maxBytes);
    steps := [Read] + steps;
  }

  /** The file has room for appends up to one line beyond the offset. */
  predicate Fits<T>(w: World<T>, size: nat, maxBytes: int) {
    Size(w.q.lines) + (Beyond(w.q) + 1) * size <= maxBytes
  }

  lemma FittingAppend<T>(w: World<T>, item: T, size: nat, maxBytes: int)
    requires w.flight == Idle && Fits(w, size, maxBytes)
    ensures var w' := Next(w, Append(item, size), maxBytes);
            && !Drops(w, Append(item, size), maxBytes) && w'.shipped == w.shipped && w'.flight == Idle
            && w'.q.lines == w.q.lines + [Line(Some(item), size)] && w'.q.offset == w.q.offset
            && (Beyond(w.q) > 0 ==> Fits(w', size, maxBytes))
  {
    hide Range, Fits;
    assert !Drops(w, Append(item, size), maxBytes) by { NextFits(w, item, size, maxBytes); }
    if Beyond(w.q) > 0 { StillFits(w, Next(w, Append(item, size), maxBytes), item, size, maxBytes); }
  }

  lemma NextFits<T>(w: World<T>, item: T, size: nat, maxBytes: int)
    requires Fits(w, size, maxBytes)
    ensures Size(w.q.lines + [Line(Some(item), size)]) <= maxBytes
  {
    SizeAppends(w.q.lines, Line(Some(item), size));
    assert (Beyond(w.q) + 1) * size == Beyond(w.q) * size + size;
  }

  lemma StillFits<T>(w: World<T>, w': World<T>, item: T, size: nat, maxBytes: int)
    requires Fits(w, size, maxBytes) && Beyond(w.q) > 0
    requires w'.q.lines == w.q.lines + [Line(Some(item), size)] && w'.q.offset == w.q.offset
    ensures Fits(w', size, maxBytes)
  {
    SizeAppends(w.q.lines, Line(Some(item), size));
    assert (Beyond(w.q) + 1) * size == Beyond(w.q) * size + size;
  }

  /** A window that is short can be filled up and shipped. */
  lemma {:induction false} ShortWindowShips<T>(w: World<T>, item: T, size: nat, maxBytes: int)
    returns (steps: seq<Step<T>>)
    requires w.flight == Idle && w.q.offset + SHIP_BATCH > |w.q.lines| && Fits(w, size, maxBytes)
    ensures Ships(w, steps, maxBytes)
    decreases Beyond(w.q)
  {
    hide Next, Drops, Ships, Fits;
    var w' := Next(w, Append(item, size), maxBytes);
    FittingAppend(w, item, size, maxBytes);
    if Beyond(w.q) > 0 {
      steps := ShortWindowShips(w', item, size, maxBytes);
    } else {
      assert Window(w'.q, SHIP_BATCH)[|w.q.lines| - w.q.offset] == Line(Some(item), size);
      steps := WindowShips(w', maxBytes);
    }
    StepThenShips(w, Append(item, size), steps, maxBytes);
    steps := [Append(item, size)] + steps;
  }

  /** Unless the bound drops lines, shipping has stopped for good if and only if a full window of lines
      that do not decode is at the cursor: then no continuation of reads, sends, acks, restarts and
      appends ships anything; in every other state some continuation does, if the file has room. */
  lemma StoppedForGoodIff<T>(w: World<T>, item: T, size: nat, maxBytes: int)
    requires w.q.offset == w.q.offFile && (w.flight != Idle ==> w.flight.batch != []) && Fits(w, size, maxBytes)
    ensures Jammed(w)
       <==> forall steps :: !Ships(w, steps, maxBytes)
  {
    hide Ships, Fits, Next;
    if Jammed(w) {
      forall steps
        ensures !Ships(w, steps, maxBytes)
      {
        JammedNeverShips(w, steps, maxBytes);
      }
    } else {
      var steps;
      if w.flight != Idle {
        steps := BatchShips(w, maxBytes);
      } else if exists l <- Window(w.q, SHIP_BATCH) :: l.item.Some? {
        steps := WindowShips(w, maxBytes);
      } else {
        assert w.q.offset + SHIP_BATCH > |w.q.lines| by {
          if w.q.offset + SHIP_BATCH <= |w.q.lines| { FullWindowJams(w); }
        }
        steps := ShortWindowShips(w, item, size, maxBytes);
      }
      assert Ships(w, steps, maxBytes);
    }
  }

  lemma JammedNeverShips<T>(w: World<T>, steps: seq<Step<T>>, maxBytes: int)
    requires Jammed(w) && w.q.offset == w.q.offFile
    ensures !Ships(w, steps, maxBytes)
  {
    hide Continued, NoDrops, Jammed;
    if NoDrops(w, steps, maxBytes) { JammedStays(w, steps, maxBytes); }
  }

  lemma FullWindowJams<T>(w: World<T>)
    requires w.flight == Idle && w.q.offset + SHIP_BATCH <= |w.q.lines|
    requires forall l <- Window(w.q, SHIP_BATCH) :: l.item.None?
    ensures Jammed(w)
  {
    forall i | w.q.offset <= i < w.q.offset + SHIP_BATCH
      ensures w.q.lines[i].item.None?
    {
      assert Window(w.q, SHIP_BATCH)[i - w.q.offset] == w.q.lines[i];
    }
  }
}
