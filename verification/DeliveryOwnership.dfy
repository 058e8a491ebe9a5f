/** Who holds which entry, and how high its counter goes when an entry has one owner at a time, a
    counted failure is answered, and a burial once begun is acked. */
module DeliveryOwnership {
  import opened Collections
  import opened Delivery
  import opened DeliveryRetries

  predicate Holds(w: Worker, e: nat) {
    e in w.todo || (!w.phase.Idle? && w.phase.e == e)
  }

  predicate IsDying(p: Phase, e: nat) {
    (p.Poison? || p.Written?) && p.e == e
  }

  /** Some worker is moving e to the dead-letter stream. */
  ghost predicate Dying(s: Sys, e: nat) {
    exists w :: 0 <= w < |s.workers| && IsDying(s.workers[w].phase, e)
  }

  ghost predicate Unheld(s: Sys, e: nat) {
    forall w :: 0 <= w < |s.workers| ==> !Holds(s.workers[w], e)
  }

  /** Only entries that nobody holds are reclaimed. */
  ghost predicate KeepsOwners(s: Sys, step: Step) {
    step.Reclaim? ==> Distinct(step.es) && forall e <- step.es :: Unheld(s, e)
  }

  ghost predicate Disciplined(s: Sys, step: Step) {
    KeepsOwners(s, step) &&
    match step
    case Note(_, counted, answered) => counted ==> answered
    case AckDead(_, ok) => ok
    case Crash(w) => w < |s.workers| ==> forall e :: !IsDying(s.workers[w].phase, e)
    case _ => true
  }

  // ----- ownership -----

  ghost predicate WorkerOk(b: Bus, w: Worker) {
    && Distinct(w.todo) && (!w.phase.Idle? ==> w.phase.e !in w.todo)
    && forall e :: Holds(w, e) ==> e in b.pending
  }

  ghost predicate Owned(s: Sys) {
    && (forall e <- s.bus.pending :: e < s.bus.delivered)
    && (forall w :: 0 <= w < |s.workers| ==> WorkerOk(s.bus, s.workers[w]))
    && (forall v, w, e :: 0 <= v < w < |s.workers| && Holds(s.workers[v], e) ==> !Holds(s.workers[w], e))
  }

  lemma {:induction false} ReadableIsDistinct(b: Bus, es: seq<nat>)
    requires Distinct(es)
    ensures Distinct(Readable(b, es)) && forall e <- Readable(b, es) :: e in es
  {
    if es != [] {
      ReadableIsDistinct(b, es[..|es| - 1]);
      assert es[|es| - 1] !in es[..|es| - 1];
      assert forall e <- es[..|es| - 1] :: e in es;
    }
  }

  lemma SpanIsDistinct(lo: nat, hi: nat)
    requires lo <= hi
    ensures Distinct(Span(lo, hi)) && forall e <- Span(lo, hi) :: lo <= e < hi
  {
  }

  /** A worker that gets a fresh batch nobody holds. */
  lemma FreshBatch(s: Sys, s': Sys, w: nat, es: seq<nat>, todo: seq<nat>)
    requires Owned(s) && IsFree(s, w) && |s'.workers| == |s.workers|
    requires s'.workers == s.workers[w := Worker(todo, Idle)]
    requires Distinct(todo) && (forall e <- todo :: e in es) && forall e <- es :: Unheld(s, e) && e in s'.bus.pending
    requires (forall e <- s'.bus.pending :: e < s'.bus.delivered) && s.bus.pending <= s'.bus.pending
    ensures Owned(s')
  {
    forall v, u, e | 0 <= v < u < |s.workers| && Holds(s'.workers[v], e)
      ensures !Holds(s'.workers[u], e)
    {
    }
  }

  /** A worker that holds no more than before, and lets go of whatever leaves the pending list. */
  lemma Shrunk(s: Sys, s': Sys, w: nat, wk: Worker, gone: set<nat>)
    requires Owned(s) && w < |s.workers| && s'.workers == s.workers[w := wk]
    requires s'.bus.delivered == s.bus.delivered && s'.bus.pending == s.bus.pending - gone
    requires forall e :: Holds(wk, e) ==> Holds(s.workers[w], e) && e !in gone
    requires forall e <- gone :: Holds(s.workers[w], e)
    requires Distinct(wk.todo) && (!wk.phase.Idle? ==> wk.phase.e !in wk.todo)
    ensures Owned(s')
  {
    hide Distinct, Holds;
    forall v | 0 <= v < |s.workers|
      ensures WorkerOk(s'.bus, s'.workers[v])
    {
      assert WorkerOk(s.bus, s.workers[v]);
    }
  }

  lemma PollOwned(s: Sys, step: Step)
    requires Owned(s) && step.Poll?
    ensures Owned(Next(s, step))
  {
    hide Readable, Span, Polled, Distinct;
    var s' := Next(s, step);
    if s' != s {
      var es := Span(s.bus.delivered, s.bus.delivered + step.k);
      var b := Polled(s.bus, step.k);
      forall e: nat {
        PolledIs(s.bus, step.k, e);
      }
      SpanIsDistinct(s.bus.delivered, s.bus.delivered + step.k);
      ReadableIsDistinct(b, es);
      forall e | e in es
        ensures Unheld(s, e) && e in s'.bus.pending
      {
        forall v | 0 <= v < |s.workers|
          ensures !Holds(s.workers[v], e)
        {
          assert WorkerOk(s.bus, s.workers[v]);
        }
      }
      assert b.delivered == s.bus.delivered + step.k by { DeliveredOf(s.bus, step.k); }
      EmptyIsDistinct([]);
      FreshBatch(s, s', step.w, es, if step.answered then Readable(b, es) else []);
    }
  }

  lemma DeliveredOf(b: Bus, k: nat)
    ensures Polled(b, k).delivered == b.delivered + k
  {
  }

  lemma EmptyIsDistinct(es: seq<nat>)
    requires es == []
    ensures Distinct(es)
  {
  }

  lemma ReclaimOwned(s: Sys, step: Step)
    requires Owned(s) && step.Reclaim? && KeepsOwners(s, step)
    ensures Owned(Next(s, step))
  {
    hide Readable, Span, Polled, Distinct;
    var s' := Next(s, step);
    if s' != s {
      ReadableIsDistinct(s.bus, step.es);
      EmptyIsDistinct([]);
      forall e | e in step.es
        ensures e in s.bus.pending
      {
        assert e in ElementsOf(step.es);
      }
      FreshBatch(s, s', step.w, step.es, if step.answered then Readable(s.bus, step.es) else []);
    }
  }

  /** A worker's step keeps its entry or lets it go with the ack; a batch only shrinks. */
  lemma WorkerOwned(s: Sys, step: Step, w: nat)
    requires Owned(s) && w < |s.workers|
    ensures Owned(WorkerNext(s, step, w))
  {
    hide WorkerNext;
    var (s', wk) := (WorkerNext(s, step, w), s.workers[w]);
    assert WorkerOk(s.bus, wk);
    WorkerKeeps(s, step, w);
    if wk.phase.Idle? {
      IdleNext(s, step, w);
      assert s.bus.pending - {} == s.bus.pending;
      Shrunk(s, s', w, s'.workers[w], {});
    } else {
      HandlingGoes(s, step, w);
      var gone := if s'.bus.pending == s.bus.pending then {} else {wk.phase.e};
      Shrunk(s, s', w, s'.workers[w], gone);
    }
  }

  /** As long as only unheld entries are reclaimed, no entry is held twice and held entries are pending. */
  lemma OwnedStep(s: Sys, step: Step)
    requires Owned(s) && KeepsOwners(s, step)
    ensures Owned(Next(s, step))
  {
    hide Readable, Span, Polled, WorkerNext, ElementsOf;
    if step.Poll? {
      PollOwned(s, step);
    } else if step.Reclaim? {
      ReclaimOwned(s, step);
    } else if step.Crash? && step.w < |s.workers| {
      EmptyIsDistinct([]);
      assert s.bus.pending - {} == s.bus.pending;
      Shrunk(s, Next(s, step), step.w, Worker([], Idle), {});
    } else if NamesWorker(step) && step.w < |s.workers| {
      WorkerOwned(s, step, step.w);
    }
  }

  // ----- how high the counters go -----

  /** A pending entry has been attempted less often than allowed, or exactly that often and its holder
      is moving it to the dead-letter stream; whatever is moved there has been attempted that often. */
  ghost predicate Caps(s: Sys, e: nat) {
    && (e in s.bus.pending ==>
          Attempts(s.bus, e) < MAX_ATTEMPTS || (Attempts(s.bus, e) == MAX_ATTEMPTS && Dying(s, e)))
    && (e >= s.bus.delivered ==> Attempts(s.bus, e) == 0)
  }

  ghost predicate BuriesAtCap(s: Sys) {
    && (forall w :: 0 <= w < |s.workers| && s.workers[w].phase.Poison? ==> s.workers[w].phase.n == MAX_ATTEMPTS)
    && forall d <- s.bus.dlq :: d.attempts == MAX_ATTEMPTS
  }

  ghost predicate Capped(s: Sys) {
    BuriesAtCap(s) && forall e: nat :: Caps(s, e)
  }

  /** Nobody but the holder of an entry buries it. */
  lemma OnlyOwner(s: Sys, w: nat, e: nat)
    requires Owned(s) && w < |s.workers| && Holds(s.workers[w], e)
    ensures Dying(s, e) <==> IsDying(s.workers[w].phase, e)
    ensures e in s.bus.pending
  {
    assert WorkerOk(s.bus, s.workers[w]);
    hide WorkerOk;
    forall v | 0 <= v < |s.workers| && v != w
      ensures !Holds(s.workers[v], e)
    {
    }
  }

  /** A worker's move that does not change whether it buries e. */
  lemma Frame(s: Sys, s': Sys, w: nat, e: nat)
    requires w < |s.workers| && |s'.workers| == |s.workers| && s'.workers == s.workers[w := s'.workers[w]]
    requires IsDying(s.workers[w].phase, e) ==> IsDying(s'.workers[w].phase, e)
    ensures Dying(s, e) ==> Dying(s', e)
  {
    hide IsDying;
    if Dying(s, e) {
      var v :| 0 <= v < |s.workers| && IsDying(s.workers[v].phase, e);
      assert IsDying(s'.workers[v].phase, e);
    }
  }

  /** The worker's own entry, after its step. */
  lemma OwnCaps(s: Sys, step: Step, w: nat)
    requires Owned(s) && w < |s.workers| && !s.workers[w].phase.Idle? && Caps(s, s.workers[w].phase.e)
    requires Disciplined(s, step) && NamesWorker(step) && step.w == w
    ensures Caps(WorkerNext(s, step, w), s.workers[w].phase.e)
    ensures var q := WorkerNext(s, step, w).workers[w].phase;
            q != s.workers[w].phase && q.Poison? ==> q.n == MAX_ATTEMPTS
  {
    hide SidOf, Dying;
    var (s', p) := (WorkerNext(s, step, w), s.workers[w].phase);
    assert WorkerOk(s.bus, s.workers[w]) && Holds(s.workers[w], p.e);
    assert p.e < s.bus.delivered;
    OnlyOwner(s, w, p.e);
    WorkerKeeps(s, step, w);
    hide Owned, WorkerOk;
    if IsDying(s'.workers[w].phase, p.e) { NowDying(s', w, p.e); }
  }

  lemma NowDying(s: Sys, w: nat, e: nat)
    requires w < |s.workers| && IsDying(s.workers[w].phase, e)
    ensures Dying(s, e)
  {
  }

  lemma NamedCaps(s: Sys, step: Step, e: nat)
    requires Owned(s) && Caps(s, e) && Disciplined(s, step) && NamesWorker(step)
    ensures Caps(Next(s, step), e)
  {
    hide WorkerNext, Owned, Dying, Attempts, Holds, Disciplined, Caps;
    NamedIs(s, step);
    if step.w < |s.workers| {
      var (w, p) := (step.w, s.workers[step.w].phase);
      if !p.Idle? && p.e == e {
        OwnCaps(s, step, w);
      } else {
        OtherCaps(s, step, w, e);
      }
    }
  }

  lemma OtherCaps(s: Sys, step: Step, w: nat, e: nat)
    requires w < |s.workers| && Caps(s, e) && (s.workers[w].phase.Idle? || s.workers[w].phase.e != e)
    ensures Caps(WorkerNext(s, step, w), e)
  {
    hide WorkerNext, Dying, Attempts, HoldCount, FinishedOf, FailsOf;
    WorkerTouches(s, step, w, e);
    WorkerKeeps(s, step, w);
    Frame(s, WorkerNext(s, step, w), w, e);
  }

  lemma SameDying(s: Sys, s': Sys, e: nat)
    requires s'.workers == s.workers
    ensures Dying(s', e) == Dying(s, e)
  {
  }

  lemma StepCaps(s: Sys, step: Step, e: nat)
    requires Owned(s) && Caps(s, e) && Disciplined(s, step)
    ensures Caps(Next(s, step), e)
  {
    hide WorkerNext, Owned, Dying, Holds, Readable, Span, Polled, ElementsOf;
    var s' := Next(s, step);
    if NamesWorker(step) {
      NamedCaps(s, step, e);
    } else if step.Enqueue? || step.Expire? {
      SameDying(s, s', e);
    } else if s' != s {
      if step.Poll? { PolledIs(s.bus, step.k, e); }
      Frame(s, s', step.w, e);
    }
  }

  lemma StepBuriesAtCap(s: Sys, step: Step)
    requires Owned(s) && Capped(s) && Disciplined(s, step)
    ensures BuriesAtCap(Next(s, step))
  {
    hide WorkerNext, Owned, Caps, Holds, Readable, Span, ElementsOf, Disciplined;
    if NamesWorker(step) {
      NamedIs(s, step);
      if step.w < |s.workers| {
        WorkerKeeps(s, step, step.w);
        WorkerBuries(s, step, step.w);
        var p := s.workers[step.w].phase;
        if p.Idle? { IdleNext(s, step, step.w); } else { OwnCaps(s, step, step.w); }
      }
    }
  }

  lemma WorkerBuries(s: Sys, step: Step, w: nat)
    requires w < |s.workers| && BuriesAtCap(s)
    ensures forall d <- WorkerNext(s, step, w).bus.dlq :: d.attempts == MAX_ATTEMPTS
  {
    hide Attempts, SidOf;
  }

  ghost predicate AllDisciplined(workers: nat, steps: seq<Step>) {
    forall i :: 0 <= i < |steps| ==> Disciplined(Run(Start(workers), steps[..i]), steps[i])
  }

  lemma StartIsCapped(workers: nat)
    ensures Owned(Start(workers)) && Capped(Start(workers))
  {
    EmptyIsDistinct([]);
  }

  /** Over every disciplined run the counter of a pending entry never passes MAX_ATTEMPTS, reaches it
      only while the holder moves the entry to the dead-letter stream, and every dead letter records
      exactly that many attempts. */
  lemma {:induction false} AttemptsAreCapped(workers: nat, steps: seq<Step>)
    requires AllDisciplined(workers, steps)
    ensures Owned(Run(Start(workers), steps)) && Capped(Run(Start(workers), steps))
  {
    hide Next, Start, Owned, Caps, BuriesAtCap, KeepsOwners;
    if steps == [] {
      StartIsCapped(workers);
    } else {
      var (front, step) := (steps[..|steps| - 1], steps[|steps| - 1]);
      assert forall i :: 0 <= i < |front| ==> front[..i] == steps[..i];
      AttemptsAreCapped(workers, front);
      var s := Run(Start(workers), front);
      OwnedStep(s, step);
      StepBuriesAtCap(s, step);
      forall e: nat
        ensures Caps(Next(s, step), e)
      {
        StepCaps(s, step, e);
      }
    }
  }
}
