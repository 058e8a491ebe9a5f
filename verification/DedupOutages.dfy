/** Deduplication by one instance while Redis comes and goes. */
module DedupOutages {
  import opened AlertState

  /** A call by some instance, and how Redis answered it. */
  datatype DedupCall = DedupCall(call: Call, id: int, reply: Reply)

  /** A fresh verdict, and whether Redis gave it or the memory. */
  datatype Pass = Pass(v: Verdict, shared: bool)

  /** The keys in Redis with their expiry, the instance's memory, and its fresh verdicts in order. */
  datatype Deduping = Deduping(expiry: map<string, int>, d: Dedup, passed: seq<Pass>)

  /** The fresh verdicts of the memory. */
  function FromMemory(passed: seq<Pass>): seq<Verdict> {
    if passed == [] then []
    else
      var front, last := FromMemory(passed[..|passed| - 1]), passed[|passed| - 1];
      if last.shared then front else front + [last.v]
  }

  /** One call, as check_and_set_dedup treats it; the memory of the other instances is their own. */
  function Deduped(s: Deduping, c: DedupCall, id: int, window: int): Deduping
    requires Consistent(s.d)
  {
    var v := Verdict(c.call.key, c.call.now);
    var (taken, ok) := SetNx(s.expiry, v.key, v.now, window);
    var expiry := if c.reply.Failed? then s.expiry else taken;
    if c.id != id then s.(expiry := expiry)
    else if c.reply.Answered? then Deduping(expiry, s.d, if ok then s.passed + [Pass(v, true)] else s.passed)
    else
      var (d, unseen) := MemDedup(s.d, v.key, v.now, window);
      Deduping(expiry, d, if unseen then s.passed + [Pass(v, false)] else s.passed)
  }

  ghost predicate CallsInOrder(calls: seq<DedupCall>) {
    forall i, j :: 0 <= i < j < |calls| ==> calls[i].call.now <= calls[j].call.now
  }

  /** Fresh verdicts of Redis for one key are a window apart. */
  ghost predicate SharedSpaced(passed: seq<Pass>, window: int) {
    forall i, j :: 0 <= i < j < |passed| && passed[i].shared && passed[j].shared ==>
      passed[i].v.key == passed[j].v.key ==> passed[j].v.now - passed[i].v.now >= window
  }

  /** Redis remembers its fresh verdicts until they expire. */
  ghost predicate Remembers(s: Deduping, window: int) {
    forall p <- s.passed :: p.shared ==> p.v.key in s.expiry && s.expiry[p.v.key] >= p.v.now + window
  }

  ghost predicate PassedInOrder(passed: seq<Pass>, now: int) {
    && (forall i, j :: 0 <= i < j < |passed| ==> passed[i].v.now <= passed[j].v.now)
    && forall p <- passed :: p.v.now <= now
  }

  ghost predicate SharedOk(s: Deduping, now: int, window: int) {
    SharedSpaced(s.passed, window) && Remembers(s, window) && PassedInOrder(s.passed, now)
  }

  ghost predicate MemoryOk(s: Deduping, now: int, window: int) {
    var l := DedupLog(s.d, FromMemory(s.passed));
    DedupInv(l, now) && Spaced(l.passed, window) && InOrder(l.passed)
  }

  lemma OrderMore(passed: seq<Pass>, p: Pass, prev: int)
    requires PassedInOrder(passed, prev) && prev <= p.v.now
    ensures PassedInOrder(passed, p.v.now) && PassedInOrder(passed + [p], p.v.now)
  {
    assert forall i :: 0 <= i < |passed| ==> passed[i] in passed;
  }

  /** A fresh verdict of Redis is a window after the last one for its key. */
  lemma SharedPass(s: Deduping, v: Verdict, window: int)
    requires SharedSpaced(s.passed, window) && Remembers(s, window) && SetNx(s.expiry, v.key, v.now, window).1
    ensures SharedSpaced(s.passed + [Pass(v, true)], window)
  {
    assert forall i :: 0 <= i < |s.passed| ==> s.passed[i] in s.passed;
  }

  /** Redis goes on remembering. */
  lemma StillRemembers(s: Deduping, v: Verdict, window: int)
    requires Remembers(s, window) && forall p <- s.passed :: p.v.now <= v.now
    ensures var expiry := SetNx(s.expiry, v.key, v.now, window).0;
            && (forall p <- s.passed :: p.shared ==> p.v.key in expiry && expiry[p.v.key] >= p.v.now + window)
            && (SetNx(s.expiry, v.key, v.now, window).1 ==> v.key in expiry && expiry[v.key] >= v.now + window)
  {
  }

  lemma MemoryPass(passed: seq<Pass>, v: Verdict, window: int)
    requires SharedSpaced(passed, window)
    ensures SharedSpaced(passed + [Pass(v, false)], window)
  {
  }

  /** What a call leaves of the verdicts of Redis. */
  lemma SharedStep(s: Deduping, c: DedupCall, id: int, prev: int, window: int)
    requires Consistent(s.d) && SharedOk(s, prev, window) && prev <= c.call.now
    ensures SharedOk(Deduped(s, c, id, window), c.call.now, window)
  {
    hide MemDedup, Consistent, PassedInOrder, SharedSpaced, SetNx;
    var v := Verdict(c.call.key, c.call.now);
    OrderMore(s.passed, Pass(v, true), prev);
    OrderMore(s.passed, Pass(v, false), prev);
    EarlierExpire(s, c.call.now, prev);
    StillRemembers(s, v, window);
    MemoryPass(s.passed, v, window);
    if SetNx(s.expiry, v.key, v.now, window).1 { SharedPass(s, v, window); }
  }

  lemma EarlierExpire(s: Deduping, now: int, prev: int)
    requires PassedInOrder(s.passed, prev) && prev <= now
    ensures forall p <- s.passed :: p.v.now <= now
  {
  }

  lemma FromMemoryMore(passed: seq<Pass>, p: Pass)
    ensures FromMemory(passed + [p]) == if p.shared then FromMemory(passed) else FromMemory(passed) + [p.v]
  {
    assert (passed + [p])[..|passed|] == passed;
  }

  /** What a call leaves of the verdicts of the memory. */
  lemma MemoryStep(s: Deduping, c: DedupCall, id: int, prev: int, window: int)
    requires Consistent(s.d) && MemoryOk(s, prev, window) && prev <= c.call.now
    ensures MemoryOk(Deduped(s, c, id, window), c.call.now, window)
  {
    hide MemDedup, Consistent, Spaced, InOrder, DedupInv, FromMemory;
    var l := DedupLog(s.d, FromMemory(s.passed));
    var v := Verdict(c.call.key, c.call.now);
    FromMemoryMore(s.passed, Pass(v, true));
    FromMemoryMore(s.passed, Pass(v, false));
    InvLater(l, prev, c.call.now);
    DedupStepKeepsInv(l, prev, v.key, v.now, window);
    SpacedStep(l, prev, v.key, v.now, window);
  }

  lemma InvLater(l: DedupLog, prev: int, now: int)
    requires DedupInv(l, prev) && prev <= now
    ensures DedupInv(l, now)
  {
    hide Consistent, Crowded, LastPassed;
  }

  /** The run of one instance. */
  function DedupedRun(calls: seq<DedupCall>, id: int, window: int): (s: Deduping)
    requires CallsInOrder(calls)
    ensures var now := if calls == [] then 0 else calls[|calls| - 1].call.now;
            MemoryOk(s, now, window) && SharedOk(s, now, window)
  {
    if calls == [] then Deduping(map[], NO_DEDUP, [])
    else
      var front, last := calls[..|calls| - 1], calls[|calls| - 1];
      var s := DedupedRun(front, id, window);
      var prev := if front == [] then last.call.now else front[|front| - 1].call.now;
      MemoryStep(s, last, id, prev, window);
      SharedStep(s, last, id, prev, window);
      Deduped(s, last, id, window)
  }

  /** Where a verdict of the memory stands among them. */
  lemma {:induction false} MemoryAt(passed: seq<Pass>, i: nat)
    requires i < |passed| && !passed[i].shared
    ensures var n := |FromMemory(passed[..i])|;
            && n < |FromMemory(passed)| && FromMemory(passed)[n] == passed[i].v
            && FromMemory(passed)[..n] == FromMemory(passed[..i])
  {
    var front := passed[..|passed| - 1];
    if i < |front| {
      assert front[..i] == passed[..i];
      MemoryAt(front, i);
    } else {
      assert passed[..i] == front;
    }
  }

  /** Two fresh verdicts of the memory for one key are a window apart, or the key was crowded out. */
  lemma MemorySpaced(passed: seq<Pass>, i: nat, j: nat, window: int)
    requires Spaced(FromMemory(passed), window)
    requires i < j < |passed| && !passed[i].shared && !passed[j].shared && passed[i].v.key == passed[j].v.key
    ensures passed[j].v.now - passed[i].v.now >= window
         || Crowded(FromMemory(passed[..j]), passed[i].v.key, passed[i].v.now)
  {
    hide FromMemory, Crowded;
    MemoryAt(passed, i);
    MemoryAt(passed, j);
    MemoryAt(passed[..j], i);
    assert passed[..j][..i] == passed[..i];
  }

  /** Both verdicts are of the memory, and the key was crowded out in between. */
  ghost predicate CrowdedBetween(passed: seq<Pass>, i: nat, j: nat)
    requires i < j < |passed|
  {
    !passed[i].shared && !passed[j].shared && Crowded(FromMemory(passed[..j]), passed[i].v.key, passed[i].v.now)
  }

  /** Whatever calls Redis answers, and whoever else calls it: one instance gives at most two fresh
      verdicts for a key within a window. Of any three, two are of its memory, which in between has
      given fresh verdicts for at least 4001 other keys and dropped this one. */
  lemma AtMostTwoPerWindow(calls: seq<DedupCall>, id: int, window: int, i: nat, j: nat, k: nat)
    requires CallsInOrder(calls)
    requires var passed := DedupedRun(calls, id, window).passed;
             && i < j < k < |passed| && passed[i].v.key == passed[j].v.key == passed[k].v.key
             && passed[k].v.now - passed[i].v.now < window
    ensures var passed := DedupedRun(calls, id, window).passed;
            CrowdedBetween(passed, i, j) || CrowdedBetween(passed, j, k) || CrowdedBetween(passed, i, k)
  {
    hide DedupedRun, FromMemory, Crowded, Spaced, DedupInv, Remembers;
    var passed := DedupedRun(calls, id, window).passed;
    if !passed[i].shared && !passed[j].shared { MemorySpaced(passed, i, j, window); }
    if !passed[j].shared && !passed[k].shared { MemorySpaced(passed, j, k, window); }
    if !passed[i].shared && !passed[k].shared { MemorySpaced(passed, i, k, window); }
  }

  lemma OneMore(calls: seq<DedupCall>, c: DedupCall, id: int, window: int)
    requires CallsInOrder(calls + [c])
    ensures CallsInOrder(calls) && Consistent(DedupedRun(calls, id, window).d)
    ensures DedupedRun(calls + [c], id, window) == Deduped(DedupedRun(calls, id, window), c, id, window)
    ensures calls == [] ==> DedupedRun(calls, id, window) == Deduping(map[], NO_DEDUP, [])
  {
    hide Deduped, SharedOk, Spaced, InOrder, Crowded, LastPassed;
    var all := calls + [c];
    assert all[..|calls|] == calls;
    assert forall i :: 0 <= i < |calls| ==> all[i] == calls[i];
  }

  lemma TwoMore(c: DedupCall, d: DedupCall, id: int, window: int)
    requires CallsInOrder([c, d])
    ensures var s := Deduping(map[], NO_DEDUP, []);
            && Consistent(s.d) && Consistent(Deduped(s, c, id, window).d)
            && DedupedRun([c, d], id, window) == Deduped(Deduped(s, c, id, window), d, id, window)
  {
    assert [c] + [d] == [c, d] && [] + [c] == [c];
    hide *;
    OneMore([c], d, id, window);
    OneMore([], c, id, window);
  }

  lemma FirstTwo(c: DedupCall, d: DedupCall, id: int)
    requires c == DedupCall(Call("k", 400), id, Answered) && d == DedupCall(Call("k", 401), id, Failed)
    ensures Consistent(NO_DEDUP) && Consistent(Deduped(Deduping(map[], NO_DEDUP, []), c, id, 300).d)
    ensures Deduped(Deduped(Deduping(map[], NO_DEDUP, []), c, id, 300), d, id, 300).passed
         == [Pass(Verdict("k", 400), true), Pass(Verdict("k", 401), false)]
  {
    hide Trimmed;
  }

  /** Two there can be: one that Redis gives, and one of the memory when Redis fails right after. */
  lemma TwoInAWindow(id: int)
    ensures var calls := [DedupCall(Call("k", 400), id, Answered), DedupCall(Call("k", 401), id, Failed)];
            DedupedRun(calls, id, 300).passed == [Pass(Verdict("k", 400), true), Pass(Verdict("k", 401), false)]
  {
    hide DedupedRun, Deduped, Consistent;
    var (c, d) := (DedupCall(Call("k", 400), id, Answered), DedupCall(Call("k", 401), id, Failed));
    TwoMore(c, d, id, 300);
    FirstTwo(c, d, id);
  }
}
