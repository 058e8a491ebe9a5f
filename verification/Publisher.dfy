/** The bounded publisher of the capture path: it never blocks the sniffer, buffers what the broker
    refuses, and drops the oldest when the buffer is full. */
module Publisher {

  /** Raised is the IndexError of popleft on an empty buffer, which escapes to the caller. */
  datatype Outcome = Sent | Buffered | Raised

  datatype Buffer<T> = Buffer(buf: seq<T>, dropped: nat)

  /** publish(): `up` says whether the broker takes the payload. */
  function Published<T>(s: Buffer<T>, x: T, up: bool, maxBuffer: int): (Buffer<T>, Outcome) {
    if up then (s, Sent)
    else if |s.buf| < maxBuffer then (Buffer(s.buf + [x], s.dropped), Buffered)
    else if s.buf == [] then (s, Raised)
    else (Buffer(s.buf[1..] + [x], s.dropped + 1), Buffered)
  }

  /** Attempts per payload, first delay and longest delay. */
  datatype Retry = Retry(retries: int, base: real, cap: real)

  ghost predicate Sane(r: Retry) { 0.0 <= r.base && 0.0 <= r.cap }

  function MaxTries(r: Retry): nat { if r.retries > 1 then r.retries else 1 }

  function MinReal(x: real, y: real): real { if x < y then x else y }

  /** The broker's answers and the draws of random.uniform(0, b), by attempt number since the start
      of a flush. */
  datatype Weather = Weather(up: nat -> bool, uniform: (nat, real) -> real)

  ghost predicate Plausible(w: Weather) {
    forall k, b :: 0.0 <= b ==> 0.0 <= w.uniform(k, b) <= b
  }

  /** min(cap, delay) + uniform(0, delay * 0.25). */
  function Nap(w: Weather, r: Retry, k: nat, delay: real): real {
    MinReal(r.cap, delay) + w.uniform(k, delay * 0.25)
  }

  /** Up to `left` attempts on one payload from attempt k on: whether one succeeded, the number of
      the next attempt, and the time slept. */
  function Tries(w: Weather, r: Retry, k: nat, left: nat, delay: real): (bool, nat, real)
    decreases left
  {
    if left == 0 then (false, k, 0.0)
    else if w.up(k) then (true, k + 1, 0.0)
    else
      var nap := Nap(w, r, k, delay);
      var (ok, next, slept) := Tries(w, r, k + 1, left - 1, MinReal(r.cap, delay * 2.0));
      (ok, next, nap + slept)
  }

  datatype Flushed<T> = Flushed(rest: seq<T>, sent: nat, attempts: nat, slept: real)

  /** flush(): payloads leave from the front until one fails all its attempts. */
  function FlushFrom<T>(buf: seq<T>, w: Weather, r: Retry, k: nat): (f: Flushed<T>)
    ensures f.sent <= |buf| && f.rest == buf[f.sent..]
    decreases |buf|
  {
    if buf == [] then Flushed(buf, 0, k, 0.0)
    else
      var (ok, next, slept) := Tries(w, r, k, MaxTries(r), r.base);
      if !ok then Flushed(buf, 0, next, slept)
      else
        var f := FlushFrom(buf[1..], w, r, next);
        Flushed(f.rest, f.sent + 1, f.attempts, slept + f.slept)
  }

  class ResilientPublisher<T> {
    const maxBuffer: int
    var buf: seq<T>
    var dropped: nat

    function State(): Buffer<T>
      reads this
    {
      Buffer(buf, dropped)
    }

    constructor (maxBuffer: int)
      ensures this.maxBuffer == maxBuffer && State() == Buffer([], 0)
    {
      this.maxBuffer, buf, dropped := maxBuffer, [], 0;
    }

    method Publish(x: T, up: bool) returns (outcome: Outcome)
      modifies this
      ensures (State(), outcome) == Published(old(State()), x, up, maxBuffer)
    {
      if up { return Sent; }
      if |buf| >= maxBuffer {
        if buf == [] { return Raised; }
        buf := buf[1..];
        dropped := dropped + 1;
      }
      buf := buf + [x];
      outcome := Buffered;
    }

    /** The attempts on the payload at the front. */
    method TryFront(w: Weather, r: Retry, start: nat) returns (ok: bool, next: nat, slept: real)
      ensures (ok, next, slept) == Tries(w, r, start, MaxTries(r), r.base)
    {
      hide Nap;
      ok, next, slept := false, start, 0.0;
      var delay, left := r.base, MaxTries(r);
      ghost var goal := Tries(w, r, start, MaxTries(r), r.base);
      while left > 0
        invariant !ok
        invariant var t := Tries(w, r, next, left, delay);
                  goal.0 == t.0 && goal.1 == t.1 && goal.2 == slept + t.2
      {
        if w.up(next) {
          ok, next := true, next + 1;
          return;
        }
        slept := slept + Nap(w, r, next, delay);
        delay := MinReal(r.cap, delay * 2.0);
        next, left := next + 1, left - 1;
      }
    }

    method Flush(w: Weather, r: Retry) returns (sent: nat, attempts: nat, slept: real)
      modifies `buf
      ensures Flushed(buf, sent, attempts, slept) == FlushFrom(old(buf), w, r, 0)
    {
      hide Tries;
      sent, attempts, slept := 0, 0, 0.0;
      ghost var goal := FlushFrom(buf, w, r, 0);
      while buf != []
        invariant var f := FlushFrom(buf, w, r, attempts);
                  goal == Flushed(f.rest, sent + f.sent, f.attempts, slept + f.slept)
        decreases |buf|
      {
        var ok, next, nap := TryFront(w, r, attempts);
        attempts, slept := next, slept + nap;
        if !ok { return; }
        buf := buf[1..];
        sent := sent + 1;
      }
    }
  }

  // ----- bounded work -----

  /** The longest single wait. */
  function LongestNap(r: Retry): real {
    r.cap + (if r.base < r.cap then r.cap else r.base) * 0.25
  }

  /** n waits of at most the longest; a product kept in one place. */
  function Naps(r: Retry, n: nat): real {
    n as real * LongestNap(r)
  }

  lemma NapsAdd(r: Retry, m: nat, n: nat)
    ensures Naps(r, m + n) == Naps(r, m) + Naps(r, n)
    ensures Naps(r, 0) == 0.0 && Naps(r, 1) == LongestNap(r)
  {
    assert (m + n) as real == m as real + n as real;
  }

  lemma NapsGrow(r: Retry, m: nat, n: nat)
    requires Sane(r) && m <= n
    ensures 0.0 <= Naps(r, m) <= Naps(r, n)
  {
    assert m as real <= n as real;
  }

  lemma OneNap(w: Weather, r: Retry, k: nat, delay: real)
    requires Sane(r) && Plausible(w) && 0.0 <= delay && (delay <= r.cap || delay <= r.base)
    ensures 0.0 <= Nap(w, r, k, delay) <= LongestNap(r)
  {
  }

  lemma {:induction false} TriesAreBounded(w: Weather, r: Retry, k: nat, left: nat, delay: real)
    requires Sane(r) && Plausible(w) && 0.0 <= delay && (delay <= r.cap || delay <= r.base)
    ensures var (ok, next, slept) := Tries(w, r, k, left, delay);
            && k <= next <= k + left && (left > 0 ==> k < next)
            && 0.0 <= slept <= Naps(r, left)
    decreases left
  {
    hide Naps, LongestNap, Nap;
    NapsGrow(r, 0, left);
    NapsAdd(r, 0, 0);
    if left > 0 && !w.up(k) {
      OneNap(w, r, k, delay);
      TriesAreBounded(w, r, k + 1, left - 1, MinReal(r.cap, delay * 2.0));
      NapsAdd(r, left - 1, 1);
    }
  }

  /** Attempts on `sent` delivered payloads and one more. */
  function Budget(r: Retry, sent: nat): nat {
    (sent + 1) * MaxTries(r)
  }

  lemma BudgetGrows(r: Retry, sent: nat)
    ensures Budget(r, sent + 1) == MaxTries(r) + Budget(r, sent) && Budget(r, 0) == MaxTries(r)
    ensures Budget(r, sent) >= sent + 1
  {
  }

  /** A flush makes at most the configured number of attempts per payload it sends and for the one it
      gives up on, and its total sleep is bounded by that many longest waits. */
  lemma {:induction false} FlushIsBounded<T>(buf: seq<T>, w: Weather, r: Retry, k: nat)
    requires Sane(r) && Plausible(w)
    ensures var f := FlushFrom(buf, w, r, k);
            && k + f.sent <= f.attempts <= k + Budget(r, f.sent)
            && 0.0 <= f.slept <= Naps(r, Budget(r, f.sent))
    decreases |buf|
  {
    hide Tries, Naps, LongestNap, Budget;
    var n := MaxTries(r);
    TriesAreBounded(w, r, k, n, r.base);
    NapsGrow(r, 0, n);
    NapsAdd(r, 0, 0);
    BudgetGrows(r, 0);
    if buf != [] {
      var (ok, next, slept) := Tries(w, r, k, n, r.base);
      if ok {
        FlushIsBounded(buf[1..], w, r, next);
        var f := FlushFrom(buf[1..], w, r, next);
        BudgetGrows(r, f.sent);
        NapsAdd(r, n, Budget(r, f.sent));
      }
    }
  }

  // ----- conservation over whole runs -----

  datatype Step<T> = Offer(x: T, up: bool) | Flush(w: Weather, r: Retry)

  /** How a payload left the buffer. */
  datatype Exit<T> = Delivered(x: T) | Dropped(x: T)

  /** The publisher with its history: payloads sent at once, payloads the broker refused, and how
      payloads left the buffer, all in order of time. */
  datatype World<T> = World(s: Buffer<T>, direct: seq<T>, refused: seq<T>, exits: seq<Exit<T>>)

  function NewWorld<T>(): World<T> { World(Buffer([], 0), [], [], []) }

  function DeliveredAll<T>(xs: seq<T>): (es: seq<Exit<T>>)
    ensures |es| == |xs| && forall i :: 0 <= i < |es| ==> es[i] == Delivered(xs[i])
  {
    seq(|xs|, i requires 0 <= i < |xs| => Delivered(xs[i]))
  }

  function Next<T>(w: World<T>, s: Step<T>, maxBuffer: int): World<T> {
    match s
    case Offer(x, up) =>
      var (s', outcome) := Published(w.s, x, up, maxBuffer);
      if outcome == Sent then w.(direct := w.direct + [x])
      else if outcome == Raised then w
      else
        World(s', w.direct, w.refused + [x],
              if |w.s.buf| < maxBuffer || w.s.buf == [] then w.exits else w.exits + [Dropped(w.s.buf[0])])
    case Flush(weather, r) =>
      var f := FlushFrom(w.s.buf, weather, r, 0);
      World(Buffer(f.rest, w.s.dropped), w.direct, w.refused, w.exits + DeliveredAll(w.s.buf[..f.sent]))
  }

  function Run<T>(steps: seq<Step<T>>, maxBuffer: int): World<T> {
    if steps == [] then NewWorld()
    else Next(Run(steps[..|steps| - 1], maxBuffer), steps[|steps| - 1], maxBuffer)
  }

  function Payloads<T>(es: seq<Exit<T>>): (xs: seq<T>)
    ensures |xs| == |es| && forall i :: 0 <= i < |es| ==> xs[i] == es[i].x
  {
    seq(|es|, i requires 0 <= i < |es| => es[i].x)
  }

  function DropsIn<T>(es: seq<Exit<T>>): nat {
    if es == [] then 0 else DropsIn(es[..|es| - 1]) + if es[|es| - 1].Dropped? then 1 else 0
  }

  function DeliveriesIn<T>(es: seq<Exit<T>>): nat {
    if es == [] then 0 else DeliveriesIn(es[..|es| - 1]) + if es[|es| - 1].Delivered? then 1 else 0
  }

  lemma {:induction false} ExitsAreOneOrTheOther<T>(es: seq<Exit<T>>)
    ensures DeliveriesIn(es) + DropsIn(es) == |es|
  {
    if es != [] { ExitsAreOneOrTheOther(es[..|es| - 1]); }
  }

  function Offers<T>(steps: seq<Step<T>>): nat {
    if steps == [] then 0 else Offers(steps[..|steps| - 1]) + if steps[|steps| - 1].Offer? then 1 else 0
  }

  /** Refused payloads leave in the order they came, each once, delivered or dropped; the buffer is
      exactly the newest of them, and within its bound. */
  ghost predicate Conserved<T>(w: World<T>, maxBuffer: int) {
    && Payloads(w.exits) + w.s.buf == w.refused
    && w.s.dropped == DropsIn(w.exits)
    && |w.s.buf| <= maxBuffer
  }

  lemma {:induction false} NoDropsInDeliveries<T>(es: seq<Exit<T>>, xs: seq<T>)
    ensures DropsIn(es + DeliveredAll(xs)) == DropsIn(es)
    decreases |xs|
  {
    if xs == [] {
      assert es + DeliveredAll(xs) == es;
    } else {
      var front := xs[..|xs| - 1];
      assert (es + DeliveredAll(xs))[..|es| + |xs| - 1] == es + DeliveredAll(front);
      NoDropsInDeliveries(es, front);
    }
  }

  lemma PayloadsMore<T>(es: seq<Exit<T>>, e: Exit<T>)
    ensures Payloads(es + [e]) == Payloads(es) + [e.x]
    ensures DropsIn(es + [e]) == DropsIn(es) + if e.Dropped? then 1 else 0
  {
    assert (es + [e])[..|es|] == es;
  }

  /** Making room for x: the oldest payload leaves as a drop. */
  lemma DropConserves<T>(gone: seq<T>, buf: seq<T>, x: T)
    requires buf != []
    ensures (gone + [buf[0]]) + (buf[1..] + [x]) == (gone + buf) + [x]
  {
    assert buf == [buf[0]] + buf[1..];
  }

  lemma OfferConserves<T>(w: World<T>, x: T, up: bool, maxBuffer: int)
    requires 1 <= maxBuffer && Conserved(w, maxBuffer)
    ensures Conserved(Next(w, Offer(x, up), maxBuffer), maxBuffer)
  {
    hide Payloads, DropsIn;
    if !up {
      if |w.s.buf| >= maxBuffer {
        PayloadsMore(w.exits, Dropped(w.s.buf[0]));
        DropConserves(Payloads(w.exits), w.s.buf, x);
      } else {
        assert (Payloads(w.exits) + w.s.buf) + [x] == Payloads(w.exits) + (w.s.buf + [x]);
      }
    }
  }

  lemma FlushConserves<T>(w: World<T>, weather: Weather, r: Retry, maxBuffer: int)
    requires Conserved(w, maxBuffer)
    ensures Conserved(Next(w, Flush(weather, r), maxBuffer), maxBuffer)
  {
    hide FlushFrom, DropsIn;
    var f := FlushFrom(w.s.buf, weather, r, 0);
    var out := w.s.buf[..f.sent];
    NoDropsInDeliveries(w.exits, out);
    assert Payloads(w.exits + DeliveredAll(out)) == Payloads(w.exits) + out;
    assert (Payloads(w.exits) + out) + f.rest == Payloads(w.exits) + w.s.buf;
  }

  lemma StepConserves<T>(w: World<T>, s: Step<T>, maxBuffer: int)
    requires 1 <= maxBuffer && Conserved(w, maxBuffer)
    ensures var w' := Next(w, s, maxBuffer);
            && Conserved(w', maxBuffer)
            && |w'.direct| + |w'.refused| == |w.direct| + |w.refused| + if s.Offer? then 1 else 0
  {
    match s
    case Offer(x, up) =>
      OfferConserves(w, x, up, maxBuffer);
      hide Conserved;
    case Flush(weather, r) =>
      FlushConserves(w, weather, r, maxBuffer);
      hide Conserved;
  }

  /** Over every run: what was offered is what was sent at once, plus what a flush delivered, plus
      the counted drops, plus what is still buffered. Payloads that pass through the buffer keep their
      order; one that is sent at once overtakes those. */
  lemma {:induction false} EveryRunConserves<T>(steps: seq<Step<T>>, maxBuffer: int)
    requires 1 <= maxBuffer
    ensures var w := Run(steps, maxBuffer);
            && Conserved(w, maxBuffer)
            && Offers(steps) == |w.direct| + DeliveriesIn(w.exits) + w.s.dropped + |w.s.buf|
  {
    OffersAreCounted(steps, maxBuffer);
    ConservedSizes(Run(steps, maxBuffer), maxBuffer);
  }

  lemma {:induction false} OffersAreCounted<T>(steps: seq<Step<T>>, maxBuffer: int)
    requires 1 <= maxBuffer
    ensures Conserved(Run(steps, maxBuffer), maxBuffer)
    ensures Offers(steps) == |Run(steps, maxBuffer).direct| + |Run(steps, maxBuffer).refused|
  {
    hide Next, Conserved;
    if steps == [] {
      NewIsConserved<T>(maxBuffer);
    } else {
      OffersAreCounted(steps[..|steps| - 1], maxBuffer);
      StepConserves(Run(steps[..|steps| - 1], maxBuffer), steps[|steps| - 1], maxBuffer);
    }
  }

  lemma NewIsConserved<T>(maxBuffer: int)
    requires 1 <= maxBuffer
    ensures Conserved(NewWorld<T>(), maxBuffer)
  {
  }

  lemma ConservedSizes<T>(w: World<T>, maxBuffer: int)
    requires Conserved(w, maxBuffer)
    ensures |w.refused| == DeliveriesIn(w.exits) + w.s.dropped + |w.s.buf|
  {
    ExitsAreOneOrTheOther(w.exits);
    assert |Payloads(w.exits) + w.s.buf| == |w.exits| + |w.s.buf|;
  }

  /** A publish raises, and the payload is gone without a count, exactly when the broker is down and
      the publisher was configured without room for a single payload. */
  lemma PublishRaisesIff<T>(s: Buffer<T>, x: T, up: bool, maxBuffer: int)
    requires |s.buf| <= maxBuffer || s.buf == []
    ensures Published(s, x, up, maxBuffer).1 == Raised <==> !up && maxBuffer <= 0
  {
  }
}
