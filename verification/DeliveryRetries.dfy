/** Bounded retries, over every run: what an entry can cost, and which steps add to that. */
module DeliveryRetries {
  import opened Collections
  import opened Delivery

  // ----- who holds an entry -----

  /** How often the worker holds e, in its batch or in hand. */
  ghost function HoldCount(w: Worker, e: nat): nat {
    multiset(w.todo)[e] + if !w.phase.Idle? && w.phase.e == e then 1 else 0
  }

  ghost function Holders(ws: seq<Worker>, e: nat): nat {
    if ws == [] then 0 else Holders(ws[..|ws| - 1], e) + HoldCount(ws[|ws| - 1], e)
  }

  /** Some worker has cleared the counter of e, which it is to ack next. */
  ghost predicate Clearing(s: Sys, e: nat) {
    exists w :: 0 <= w < |s.workers| && s.workers[w].phase == Cleared(e)
  }

  ghost predicate ClearingBut(s: Sys, w: nat, e: nat) {
    exists v :: 0 <= v < |s.workers| && v != w && s.workers[v].phase == Cleared(e)
  }

  lemma {:induction false} HoldersUpdate(ws: seq<Worker>, w: nat, wk: Worker, e: nat)
    requires w < |ws|
    ensures Holders(ws[w := wk], e) == Holders(ws, e) - HoldCount(ws[w], e) + HoldCount(wk, e)
  {
    hide HoldCount;
    var (front, ws') := (ws[..|ws| - 1], ws[w := wk]);
    if w == |ws| - 1 {
      assert ws'[..|ws| - 1] == front;
    } else {
      assert ws'[..|ws| - 1] == front[w := wk];
      HoldersUpdate(front, w, wk, e);
    }
  }

  lemma {:induction false} HoldersCover(ws: seq<Worker>, v: nat, e: nat)
    requires v < |ws|
    ensures Holders(ws, e) >= HoldCount(ws[v], e)
  {
    hide HoldCount;
    if v < |ws| - 1 { HoldersCover(ws[..|ws| - 1], v, e); }
  }

  /** When one worker moves, the others hold and clear what they did. */
  lemma OneMoves(s: Sys, s': Sys, w: nat, e: nat)
    requires w < |s.workers| && |s'.workers| == |s.workers| && s'.workers == s.workers[w := s'.workers[w]]
    ensures Holders(s'.workers, e)
         == Holders(s.workers, e) - HoldCount(s.workers[w], e) + HoldCount(s'.workers[w], e)
    ensures Holders(s.workers, e) >= HoldCount(s.workers[w], e) + if ClearingBut(s, w, e) then 1 else 0
    ensures Clearing(s, e) <==> s.workers[w].phase == Cleared(e) || ClearingBut(s, w, e)
    ensures Clearing(s', e) <==> s'.workers[w].phase == Cleared(e) || ClearingBut(s, w, e)
  {
    HoldersUpdate(s.workers, w, s'.workers[w], e);
    HoldersCover(s.workers, w, e);
    OthersCover(s, w, e);
    hide Holders, HoldCount;
    forall v | 0 <= v < |s.workers| && v != w
      ensures s'.workers[v] == s.workers[v]
    {
    }
  }

  lemma OthersCover(s: Sys, w: nat, e: nat)
    requires w < |s.workers|
    ensures ClearingBut(s, w, e) ==> Holders(s.workers, e) >= HoldCount(s.workers[w], e) + 1
  {
    hide Holders;
    if ClearingBut(s, w, e) {
      var v :| 0 <= v < |s.workers| && v != w && s.workers[v].phase == Cleared(e);
      var free := Worker([], Idle);
      HoldersUpdate(s.workers, w, free, e);
      HoldersCover(s.workers[w := free], v, e);
    }
  }

  // ----- the cost of an entry -----

  /** The holders of e beyond the first. */
  ghost function Extra(s: Sys, e: nat): int {
    Max(0, Holders(s.workers, e) - 1)
  }

  /** The handlings of e that may still end: those of its holders and, while it is pending, the
      attempts it has left. */
  ghost function Cost(s: Sys, e: nat): int {
    if e !in s.bus.pending then Holders(s.workers, e)
    else Extra(s, e) + if Clearing(s, e) then 1 else Max(1, MAX_ATTEMPTS - Attempts(s.bus, e))
  }

  /** How far a step upsets the accounts of e: its counter expires; a failure is not counted or the
      count not answered; an ack is lost; a worker dies between clearing the counter and the ack; or
      a reclaim hands e to further workers while it is held. */
  ghost function Disrupted(s: Sys, step: Step, e: nat): nat {
    var At := (w: nat, p: Phase) => w < |s.workers| && s.workers[w].phase == p;
    var hit := match step
      case Expire => e in s.bus.pending
      case Note(w, counted, answered) => !(counted && answered) && At(w, Failed(e))
      case Ack(w, ok) => !ok && At(w, Cleared(e))
      case AckDead(w, ok) => !ok && At(w, Written(e))
      case Crash(w) => At(w, Cleared(e))
      case _ => false;
    if step.Reclaim? then Handed(s, step, e) else if hit then 1 else 0
  }

  /** The further holders that a step gives e. */
  ghost function Handed(s: Sys, step: Step, e: nat): nat {
    Max(0, Extra(Next(s, step), e) - Extra(s, e))
  }

  /** What is known of entries that were never delivered. */
  ghost predicate Fresh(s: Sys, e: nat) {
    e >= s.bus.delivered ==> e !in s.bus.pending && Holders(s.workers, e) == 0
  }

  /** What the step of a worker leaves of an entry that it does not have in hand. */
  ghost predicate Touches(s: Sys, s': Sys, w: nat, e: nat)
    requires w < |s.workers| && w < |s'.workers|
  {
    var (p, q) := (s.workers[w], s'.workers[w]);
    && HoldCount(q, e) <= HoldCount(p, e) && p.phase != Cleared(e) && q.phase != Cleared(e)
    && (e in s'.bus.pending <==> e in s.bus.pending) && Attempts(s'.bus, e) == Attempts(s.bus, e)
    && FinishedOf(s', e) == FinishedOf(s, e) && FailsOf(s', e) == FailsOf(s, e)
  }

  lemma WorkerTouches(s: Sys, step: Step, w: nat, e: nat)
    requires w < |s.workers| && (s.workers[w].phase.Idle? || s.workers[w].phase.e != e)
    ensures |WorkerNext(s, step, w).workers| == |s.workers| && Touches(s, WorkerNext(s, step, w), w, e)
  {
    hide WorkerNext;
    if s.workers[w].phase.Idle? {
      IdleNext(s, step, w);
      BeginTouches(s, w, e);
    } else {
      OtherHolds(s, step, w, e);
      OtherCounts(s, step, w, e);
      OtherHistory(s, step, w, e);
    }
  }

  lemma IdleNext(s: Sys, step: Step, w: nat)
    requires w < |s.workers| && s.workers[w].phase.Idle?
    ensures WorkerNext(s, step, w) == if step.Begin? && s.workers[w].todo != [] then Begun(s, w) else s
  {
    hide Begun, SidOf, SetPhase, Acked, Counted, Buried, Forgotten;
  }

  lemma BeginTouches(s: Sys, w: nat, e: nat)
    requires w < |s.workers| && s.workers[w].phase.Idle?
    ensures Touches(s, s, w, e)
    ensures s.workers[w].todo != [] ==> |Begun(s, w).workers| == |s.workers| && Touches(s, Begun(s, w), w, e)
  {
    hide Attempts;
    var todo := s.workers[w].todo;
    if todo != [] { assert todo == [todo[0]] + todo[1..]; }
  }

  /** A handling goes on with its entry or ends; only its end takes the entry out of the pending list. */
  lemma HandlingGoes(s: Sys, step: Step, w: nat)
    requires w < |s.workers| && !s.workers[w].phase.Idle?
    ensures |WorkerNext(s, step, w).workers| == |s.workers|
    ensures var (b, b', p, q) := (s.bus, WorkerNext(s, step, w).bus, s.workers[w], WorkerNext(s, step, w).workers[w]);
            && q.todo == p.todo && (q.phase.Idle? || q.phase.e == p.phase.e)
            && (b'.pending == b.pending || (q.phase.Idle? && b'.pending == b.pending - {p.phase.e}))
  {
    hide Attempts, SidOf;
  }

  lemma OtherHolds(s: Sys, step: Step, w: nat, e: nat)
    requires w < |s.workers| && !s.workers[w].phase.Idle? && s.workers[w].phase.e != e
    ensures var s' := WorkerNext(s, step, w);
            && |s'.workers| == |s.workers| && s'.workers[w].phase != Cleared(e)
            && HoldCount(s'.workers[w], e) == HoldCount(s.workers[w], e)
  {
    hide WorkerNext;
    WorkerKeeps(s, step, w);
    HandlingGoes(s, step, w);
  }

  lemma OtherCounts(s: Sys, step: Step, w: nat, e: nat)
    requires w < |s.workers| && !s.workers[w].phase.Idle? && s.workers[w].phase.e != e
    ensures var s' := WorkerNext(s, step, w);
            (e in s'.bus.pending <==> e in s.bus.pending) && Attempts(s'.bus, e) == Attempts(s.bus, e)
  {
    hide SidOf, OneMore, FailsOf;
  }

  lemma OtherHistory(s: Sys, step: Step, w: nat, e: nat)
    requires w < |s.workers| && !s.workers[w].phase.Idle? && s.workers[w].phase.e != e
    ensures var s' := WorkerNext(s, step, w); FinishedOf(s', e) == FinishedOf(s, e) && FailsOf(s', e) == FailsOf(s, e)
  {
    hide SidOf, Attempts, Counted, Forgotten, Acked, Buried;
  }

  lemma WorkerKeeps(s: Sys, step: Step, w: nat)
    requires w < |s.workers|
    ensures var s' := WorkerNext(s, step, w);
            && |s'.workers| == |s.workers| && s'.workers == s.workers[w := s'.workers[w]]
            && s'.bus.delivered == s.bus.delivered
  {
    hide SidOf, Attempts, HoldCount;
  }

  predicate NamesWorker(step: Step) {
    !step.Enqueue? && !step.Expire? && !step.Poll? && !step.Reclaim? && !step.Crash?
  }

  /** What the step of a worker does to the entry it has in hand. */
  lemma WorkerSpends(s: Sys, step: Step, w: nat)
    requires w < |s.workers| && !s.workers[w].phase.Idle? && NamesWorker(step) && step.w == w
    ensures var (s', e) := (WorkerNext(s, step, w), s.workers[w].phase.e);
            && Holders(s'.workers, e) <= Holders(s.workers, e) && (e in s'.bus.pending ==> e in s.bus.pending)
            && Cost(s', e) + FinishedOf(s', e) - FinishedOf(s, e)
               <= Cost(s, e) + MAX_ATTEMPTS * Disrupted(s, step, e)
  {
    hide WorkerNext, Cost, Holders, Disrupted, Noting;
    var (s', p) := (WorkerNext(s, step, w), s.workers[w].phase);
    if step.Note? && p.Failed? {
      assert s' == Noting(s, w, p.e, step.counted, step.answered) by { NoteIs(s, step, w); }
      NoteSpends(s, step, w, p.e);
    } else if (step.Ack? && p.Cleared?) || (step.AckDead? && p.Written?) {
      EndSpends(s, step, w);
    } else {
      MoveSpends(s, step, w);
    }
  }

  lemma NoteIs(s: Sys, step: Step, w: nat)
    requires w < |s.workers| && s.workers[w].phase.Failed? && step.Note?
    ensures WorkerNext(s, step, w) == Noting(s, w, s.workers[w].phase.e, step.counted, step.answered)
  {
    hide Noting;
  }

  /** The ack, of an entry that was handled or buried. */
  lemma EndSpends(s: Sys, step: Step, w: nat)
    requires w < |s.workers|
    requires (step.Ack? || step.AckDead?) && step.w == w
    requires (step.Ack? && s.workers[w].phase.Cleared?) || (step.AckDead? && s.workers[w].phase.Written?)
    ensures var (s', e) := (WorkerNext(s, step, w), s.workers[w].phase.e);
            && Holders(s'.workers, e) <= Holders(s.workers, e) && (e in s'.bus.pending ==> e in s.bus.pending)
            && Cost(s', e) + FinishedOf(s', e) - FinishedOf(s, e)
               <= Cost(s, e) + MAX_ATTEMPTS * Disrupted(s, step, e)
  {
    hide Clearing, ClearingBut, Holders, Handed, Attempts;
    var (s', e) := (WorkerNext(s, step, w), s.workers[w].phase.e);
    OneMoves(s, s', w, e);
    assert s'.bus.attempts == s.bus.attempts;
    SameAttempts(s.bus, s'.bus, e);
  }

  lemma SameAttempts(b: Bus, b': Bus, e: nat)
    requires b'.attempts == b.attempts
    ensures Attempts(b', e) == Attempts(b, e)
  {
  }

  /** The steps in between leave the cost as it is, or, where the counter is cleared, lower it. */
  lemma MoveSpends(s: Sys, step: Step, w: nat)
    requires w < |s.workers| && !s.workers[w].phase.Idle?
    requires !(step.Note? && s.workers[w].phase.Failed?) && !(step.Ack? && s.workers[w].phase.Cleared?)
    requires !(step.AckDead? && s.workers[w].phase.Written?)
    ensures var (s', e) := (WorkerNext(s, step, w), s.workers[w].phase.e);
            && Holders(s'.workers, e) <= Holders(s.workers, e) && (e in s'.bus.pending ==> e in s.bus.pending)
            && Cost(s', e) <= Cost(s, e) && FinishedOf(s', e) == FinishedOf(s, e)
  {
    hide Clearing, ClearingBut, Holders, Attempts, WorkerNext;
    var (s', e) := (WorkerNext(s, step, w), s.workers[w].phase.e);
    WorkerKeeps(s, step, w);
    OneMoves(s, s', w, e);
    MoveKeeps(s, step, w);
    if s'.bus.attempts == s.bus.attempts { SameAttempts(s.bus, s'.bus, e); }
  }

  lemma MoveKeeps(s: Sys, step: Step, w: nat)
    requires w < |s.workers| && !s.workers[w].phase.Idle?
    requires !(step.Note? && s.workers[w].phase.Failed?) && !(step.Ack? && s.workers[w].phase.Cleared?)
    requires !(step.AckDead? && s.workers[w].phase.Written?)
    ensures var (s', p, q) := (WorkerNext(s, step, w), s.workers[w], WorkerNext(s, step, w).workers[w]);
            && s'.bus.pending == s.bus.pending && s'.finished == s.finished && q.todo == p.todo
            && !q.phase.Idle? && q.phase.e == p.phase.e
            && (q.phase == Cleared(p.phase.e) || (s'.bus.attempts == s.bus.attempts && !p.phase.Cleared?))
  {
    hide SidOf, Attempts, OneMore, Noting;
  }

  lemma NoteSpends(s: Sys, step: Step, w: nat, e: nat)
    requires w < |s.workers| && s.workers[w].phase == Failed(e) && step.Note? && step.w == w
    ensures var s' := Noting(s, w, e, step.counted, step.answered);
            && Holders(s'.workers, e) <= Holders(s.workers, e) && (e in s'.bus.pending <==> e in s.bus.pending)
            && Cost(s', e) + FinishedOf(s', e) - FinishedOf(s, e)
               <= Cost(s, e) + MAX_ATTEMPTS * Disrupted(s, step, e)
  {
    hide Clearing, ClearingBut, Holders;
    var s' := Noting(s, w, e, step.counted, step.answered);
    OneMoves(s, s', w, e);
  }

  /** Everything a step spends on e, or adds to what e may cost. */
  ghost predicate Spends(s: Sys, step: Step, e: nat) {
    var s' := Next(s, step);
    && Fresh(s', e)
    && Cost(s', e) + FinishedOf(s', e) - FinishedOf(s, e)
       <= Cost(s, e) + MAX_ATTEMPTS * (Deliveries(s', e) - Deliveries(s, e) + Disrupted(s, step, e))
  }

  function Deliveries(s: Sys, e: nat): nat {
    if e < s.bus.delivered then 1 else 0
  }

  lemma TouchedCost(s: Sys, s': Sys, w: nat, e: nat)
    requires w < |s.workers| && |s'.workers| == |s.workers| && s'.workers == s.workers[w := s'.workers[w]]
    requires Touches(s, s', w, e)
    ensures Cost(s', e) <= Cost(s, e) && Holders(s'.workers, e) <= Holders(s.workers, e)
    ensures (e in s'.bus.pending ==> e in s.bus.pending) && FinishedOf(s', e) == FinishedOf(s, e)
  {
    hide Clearing, ClearingBut, Holders, HoldCount, Attempts, FinishedOf, FailsOf;
    OneMoves(s, s', w, e);
  }

  lemma NamedIs(s: Sys, step: Step)
    requires NamesWorker(step)
    ensures Next(s, step) == if step.w < |s.workers| then WorkerNext(s, step, step.w) else s
  {
    hide WorkerNext;
  }

  lemma NamedSpends(s: Sys, step: Step, e: nat)
    requires Fresh(s, e) && NamesWorker(step)
    ensures Spends(s, step, e)
  {
    hide Holders, WorkerNext, Cost, Disrupted, Next, Touches;
    NamedIs(s, step);
    if step.w < |s.workers| {
      var (s', w, p) := (Next(s, step), step.w, s.workers[step.w].phase);
      WorkerKeeps(s, step, w);
      if !p.Idle? && p.e == e {
        WorkerSpends(s, step, w);
      } else {
        WorkerTouches(s, step, w, e);
        TouchedCost(s, s', w, e);
      }
    }
  }

  lemma {:induction false} ReadableCount(b: Bus, es: seq<nat>, e: nat)
    ensures multiset(Readable(b, es))[e] <= multiset(es)[e]
  {
    if es != [] {
      ReadableCount(b, es[..|es| - 1], e);
      assert es == es[..|es| - 1] + [es[|es| - 1]];
    }
  }

  lemma {:induction false} SpanCount(lo: nat, hi: nat, e: nat)
    requires lo <= hi
    ensures multiset(Span(lo, hi))[e] == if lo <= e < hi then 1 else 0
    decreases hi - lo
  {
    if lo < hi {
      SpanCount(lo, hi - 1, e);
      assert Span(lo, hi) == Span(lo, hi - 1) + [hi - 1];
    } else {
      assert Span(lo, hi) == [];
    }
  }

  lemma PolledIs(b: Bus, k: nat, e: nat)
    ensures e in Polled(b, k).pending <==> e in b.pending || b.delivered <= e < b.delivered + k
    ensures Polled(b, k) == b.(delivered := b.delivered + k, pending := Polled(b, k).pending)
  {
    PolledPending(b, k, e);
  }

  lemma PollSpends(s: Sys, step: Step, e: nat)
    requires Fresh(s, e) && step.Poll?
    ensures Spends(s, step, e)
  {
    hide Clearing, ClearingBut, Holders, Readable, Span, Polled;
    var s' := Next(s, step);
    if s' != s {
      var (lo, b) := (s.bus.delivered, Polled(s.bus, step.k));
      PolledIs(s.bus, step.k, e);
      SpanCount(lo, lo + step.k, e);
      ReadableCount(b, Span(lo, lo + step.k), e);
      OneMoves(s, s', step.w, e);
    }
  }

  lemma ReclaimSpends(s: Sys, step: Step, e: nat)
    requires Fresh(s, e) && step.Reclaim?
    ensures Spends(s, step, e)
  {
    hide Clearing, ClearingBut, Holders, Readable, Span, Polled;
    var s' := Next(s, step);
    if s' != s {
      ReadableCount(s.bus, step.es, e);
      assert multiset(step.es)[e] > 0 ==> e in ElementsOf(step.es);
      OneMoves(s, s', step.w, e);
    }
  }

  /** Every step: the end of a handling lowers the cost of its entry by one, unless the step disrupts
      the entry; no step raises the cost of an entry but its delivery and disruptions, each by at most
      the attempts an entry is allowed. */
  lemma StepSpends(s: Sys, step: Step, e: nat)
    requires Fresh(s, e)
    ensures var s' := Next(s, step);
            && Fresh(s', e)
            && Cost(s', e) + FinishedOf(s', e) - FinishedOf(s, e)
               <= Cost(s, e) + MAX_ATTEMPTS * (Deliveries(s', e) - Deliveries(s, e) + Disrupted(s, step, e))
  {
    hide Clearing, ClearingBut, Holders, WorkerNext, Readable, Span, Polled, ElementsOf, HoldCount;
    assert Spends(s, step, e) by {
      if step.Poll? {
        PollSpends(s, step, e);
      } else if step.Reclaim? {
        ReclaimSpends(s, step, e);
      } else if NamesWorker(step) {
        NamedSpends(s, step, e);
      } else if step.Crash? {
        CrashSpends(s, step, e);
      } else {
        assert Clearing(Next(s, step), e) == Clearing(s, e) by { SameClearing(s, Next(s, step), e); }
      }
    }
  }

  lemma SameClearing(s: Sys, s': Sys, e: nat)
    requires s'.workers == s.workers
    ensures Clearing(s', e) == Clearing(s, e)
  {
  }

  lemma CrashSpends(s: Sys, step: Step, e: nat)
    requires Fresh(s, e) && step.Crash?
    ensures Spends(s, step, e)
  {
    hide Clearing, ClearingBut, Holders;
    if step.w < |s.workers| { OneMoves(s, Next(s, step), step.w, e); }
  }

  /** How far the steps of a run disrupt e. */
  ghost function Disruptions(workers: nat, steps: seq<Step>, e: nat): nat {
    if steps == [] then 0
    else
      var front := steps[..|steps| - 1];
      Disruptions(workers, front, e) + Disrupted(Run(Start(workers), front), steps[|steps| - 1], e)
  }

  /** Over every run, whatever fails and whoever reclaims: the handlings of an entry that have ended
      and those that may still end are at most MAX_ATTEMPTS for its delivery and for each of its
      disruptions. An entry without disruptions is handled at most MAX_ATTEMPTS times, whatever
      happens to the others. */
  lemma {:induction false} RetriesAreBounded(workers: nat, steps: seq<Step>, e: nat)
    ensures var s := Run(Start(workers), steps);
            && 0 <= Cost(s, e)
            && FinishedOf(s, e) + Cost(s, e)
               <= MAX_ATTEMPTS * (Deliveries(s, e) + Disruptions(workers, steps, e))
    ensures Fresh(Run(Start(workers), steps), e)
  {
    hide Next, Start, Fresh, Cost, Disrupted;
    CostIsNatural(Run(Start(workers), steps), e);
    if steps == [] {
      StartCosts(workers, e);
    } else {
      var front := steps[..|steps| - 1];
      RetriesAreBounded(workers, front, e);
      StepSpends(Run(Start(workers), front), steps[|steps| - 1], e);
    }
  }

  lemma CostIsNatural(s: Sys, e: nat)
    ensures Cost(s, e) >= 0
  {
  }

  lemma StartCosts(workers: nat, e: nat)
    ensures var s := Start(workers); Fresh(s, e) && Cost(s, e) == 0 && FinishedOf(s, e) == 0
    decreases workers
  {
    NobodyHolds(Start(workers).workers, e);
  }

  lemma {:induction false} NobodyHolds(ws: seq<Worker>, e: nat)
    requires forall i :: 0 <= i < |ws| ==> ws[i] == Worker([], Idle)
    ensures Holders(ws, e) == 0
  {
    if ws != [] { NobodyHolds(ws[..|ws| - 1], e); }
  }

  // ----- what the counters say -----

  /** The step makes the counter of e say less than the failures of e, for good: the counter expires,
      a failure is not counted, or e stays pending after its counter was cleared. */
  ghost predicate Miscounts(s: Sys, step: Step, e: nat) {
    match step
    case Expire => e in s.bus.pending
    case Note(w, counted, _) => !counted && w < |s.workers| && s.workers[w].phase == Failed(e)
    case Ack(w, ok) => !ok && w < |s.workers| && s.workers[w].phase == Cleared(e)
    case Crash(w) => w < |s.workers| && s.workers[w].phase == Cleared(e)
    case _ => false
  }

  /** A pending entry that is not just being cleared has been attempted as often as it has failed. */
  ghost predicate Tallies(s: Sys, e: nat) {
    && (e in s.bus.pending ==> Clearing(s, e) || Attempts(s.bus, e) == FailsOf(s, e))
    && (e >= s.bus.delivered ==> Attempts(s.bus, e) == 0 && FailsOf(s, e) == 0)
  }

  lemma WorkerTallies(s: Sys, step: Step, w: nat, e: nat)
    requires Fresh(s, e) && Tallies(s, e) && w < |s.workers| && NamesWorker(step) && step.w == w
    requires !Miscounts(s, step, e)
    ensures Tallies(WorkerNext(s, step, w), e)
  {
    hide SidOf, Clearing, ClearingBut, Holders;
    var (s', p) := (WorkerNext(s, step, w), s.workers[w].phase);
    WorkerKeeps(s, step, w);
    OneMoves(s, s', w, e);
    if p.Idle? || p.e != e { WorkerTouches(s, step, w, e); }
  }

  lemma StepTallies(s: Sys, step: Step, e: nat)
    requires Fresh(s, e) && Tallies(s, e) && !Miscounts(s, step, e)
    ensures Tallies(Next(s, step), e)
  {
    hide Clearing, ClearingBut, Holders, WorkerNext, HoldCount, Readable, Span, Polled, ElementsOf;
    var s' := Next(s, step);
    if NamesWorker(step) {
      if step.w < |s.workers| { WorkerTallies(s, step, step.w, e); }
    } else if step.Enqueue? || step.Expire? {
      SameClearing(s, s', e);
    } else if s' != s {
      if step.Poll? { PolledIs(s.bus, step.k, e); }
      OneMoves(s, s', step.w, e);
    }
  }

  ghost predicate NeverMiscounts(workers: nat, steps: seq<Step>, e: nat) {
    forall i :: 0 <= i < |steps| ==> !Miscounts(Run(Start(workers), steps[..i]), steps[i], e)
  }

  /** Over every run that does not miscount e: while e is pending and not just being cleared, its
      counter is the number of its failed handlings. */
  lemma {:induction false} AttemptsAreFailures(workers: nat, steps: seq<Step>, e: nat)
    requires NeverMiscounts(workers, steps, e)
    ensures var s := Run(Start(workers), steps);
            e in s.bus.pending ==> Clearing(s, e) || Attempts(s.bus, e) == FailsOf(s, e)
    ensures Tallies(Run(Start(workers), steps), e)
  {
    hide Next, Attempts, FailsOf, Miscounts, Fresh;
    if steps != [] {
      var front := steps[..|steps| - 1];
      assert forall i :: 0 <= i < |front| ==> front[..i] == steps[..i];
      AttemptsAreFailures(workers, front, e);
      RetriesAreBounded(workers, front, e);
      StepTallies(Run(Start(workers), front), steps[|steps| - 1], e);
    } else {
      StartTallies(workers, e);
    }
  }

  lemma StartTallies(workers: nat, e: nat)
    ensures Tallies(Start(workers), e)
  {
  }
}
