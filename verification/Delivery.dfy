/** At-least-once delivery of sessions to the analysis workers: the consumer group, the attempt
    counters, the dead-letter stream, the idempotent insert and the publication of findings. */
module Delivery {
  import opened Collections
  import opened Wrappers

  const MAX_ATTEMPTS := 5
  const POLL_BATCH := 8
  const RECLAIM_BATCH := 16

  /** A stream entry. Undecodable: the bus gives the worker nothing for it. Garbled: its inner JSON
      does not parse, which raises outside the retry accounting. Keyed and keyless sessions are those
      with and without a non-empty identity key. */
  datatype Payload = Undecodable | Garbled | Session(key: Option<string>)

  /** The id of a row: the digest of the key, taken to be injective, or a fresh uuid. */
  datatype Sid = Det(key: string) | Uuid(n: nat)

  datatype Dead = Dead(entry: nat, attempts: nat)

  /** The stream with its group: entries are numbered as added; those from `delivered` on are new to
      the group; those before it are pending or acked. */
  datatype Bus = Bus(entries: seq<Payload>, delivered: nat, pending: set<nat>, attempts: map<nat, nat>, dlq: seq<Dead>)

  // ----- the bus -----

  function Attempts(b: Bus, e: nat): nat {
    if e in b.attempts then b.attempts[e] else 0
  }

  function Counted(b: Bus, e: nat): Bus {
    b.(attempts := b.attempts[e := Attempts(b, e) + 1])
  }

  function Forgotten(b: Bus, e: nat): Bus {
    b.(attempts := b.attempts - {e})
  }

  function Acked(b: Bus, e: nat): Bus {
    b.(pending := b.pending - {e})
  }

  function Buried(b: Bus, e: nat, n: nat): Bus {
    b.(dlq := b.dlq + [Dead(e, n)])
  }

  /** The numbers from lo up to hi, in order. */
  function Span(lo: nat, hi: nat): (r: seq<nat>)
    requires lo <= hi
    ensures |r| == hi - lo && forall i :: 0 <= i < |r| ==> r[i] == lo + i
  {
    seq(hi - lo, i requires 0 <= i => lo + i)
  }

  /** The entries that decode. */
  function Readable(b: Bus, es: seq<nat>): seq<nat> {
    if es == [] then []
    else
      var front, e := Readable(b, es[..|es| - 1]), es[|es| - 1];
      if e < |b.entries| && b.entries[e] != Undecodable then front + [e] else front
  }

  function Polled(b: Bus, k: nat): Bus {
    b.(delivered := b.delivered + k, pending := b.pending + ElementsOf(Span(b.delivered, b.delivered + k)))
  }

  /** The group as the consumers and the retry helpers use it. A Redis call can fail; a failed call
      may still have taken effect. */
  class StreamConsumer {
    var entries: seq<Payload>
    var delivered: nat
    var pending: set<nat>
    var attempts: map<nat, nat>
    var dlq: seq<Dead>

    function State(): Bus
      reads this
    {
      Bus(entries, delivered, pending, attempts, dlq)
    }

    constructor (entries: seq<Payload>)
      ensures State() == Bus(entries, 0, {}, map[], [])
    {
      this.entries := entries;
      delivered, pending, attempts, dlq := 0, {}, map[], [];
    }

    method Decode(es: seq<nat>) returns (out: seq<nat>)
      ensures out == Readable(State(), es)
    {
      out := [];
      for i := 0 to |es|
        invariant out == Readable(State(), es[..i])
      {
        assert es[..i + 1][..i] == es[..i];
        if es[i] < |entries| && entries[es[i]] != Undecodable { out := out + [es[i]]; }
      }
      assert es[..|es|] == es;
    }

    /** Read without acking: the group hands out its next k entries, and when the answer is lost they
        are pending all the same. */
    method PollRaw(k: nat, answered: bool) returns (out: seq<nat>)
      requires delivered + k <= |entries|
      modifies this
      ensures State() == Polled(old(State()), k)
      ensures out == if answered then Readable(State(), Span(old(delivered), delivered)) else []
    {
      var es := Span(delivered, delivered + k);
      delivered, pending := delivered + k, pending + ElementsOf(es);
      out := [];
      if answered { out := Decode(es); }
    }

    /** Take over pending entries; whose they were makes no difference to the group. */
    method Reclaim(es: seq<nat>, answered: bool) returns (out: seq<nat>)
      requires ElementsOf(es) <= pending
      ensures out == if answered then Readable(State(), es) else []
    {
      out := [];
      if answered { out := Decode(es); }
    }

    method NoteAttempt(e: nat, counted: bool, answered: bool) returns (n: nat)
      modifies `attempts
      ensures State() == if counted then Counted(old(State()), e) else old(State())
      ensures n == if counted && answered then Attempts(State(), e) else 1
    {
      if !counted { return 1; }
      attempts := attempts[e := (if e in attempts then attempts[e] else 0) + 1];
      n := if answered then attempts[e] else 1;
    }

    method ClearAttempts(e: nat, ok: bool)
      modifies `attempts
      ensures State() == if ok then Forgotten(old(State()), e) else old(State())
    {
      if ok { attempts := attempts - {e}; }
    }

    method Ack(e: nat, ok: bool)
      modifies `pending
      ensures State() == if ok then Acked(old(State()), e) else old(State())
    {
      if ok { pending := pending - {e}; }
    }

    /** Acks even when the write to the dead-letter stream failed. */
    method DeadLetter(e: nat, n: nat, written: bool, ok: bool)
      modifies `dlq, `pending
      ensures var b := if written then Buried(old(State()), e, n) else old(State());
              State() == if ok then Acked(b, e) else b
    {
      if written { dlq := dlq + [Dead(e, n)]; }
      if ok { pending := pending - {e}; }
    }
  }

  // ----- the system -----

  /** Where a worker is in handling an entry. */
  datatype Phase =
    | Idle
    | Busy(e: nat)
    | Checked(e: nat, sid: Sid)
    | Inserted(e: nat, sid: Sid)
    | Done(e: nat)
    | Cleared(e: nat)
    | Failed(e: nat)
    | Poison(e: nat, n: nat)
    | Written(e: nat)

  datatype Worker = Worker(todo: seq<nat>, phase: Phase)

  /** The system, with its history: failed handlings by entry, entries whose dead-letter write failed,
      and by entry the handlings that ran to their end. */
  datatype Sys = Sys(
    bus: Bus,
    rows: map<Sid, nat>,
    uuids: nat,
    published: seq<Sid>,
    workers: seq<Worker>,
    fails: map<nat, nat>,
    lost: set<nat>,
    finished: map<nat, nat>)

  datatype CommitOutcome = Committed | RolledBack | AnswerLost

  datatype Step =
    | Enqueue(p: Payload)
    | Poll(w: nat, k: nat, answered: bool)
    | Reclaim(w: nat, es: seq<nat>, answered: bool)
    | Begin(w: nat)
    | Fail(w: nat)
    | Check(w: nat)
    | Commit(w: nat, outcome: CommitOutcome)
    | Publish(w: nat, ok: bool)
    | Clear(w: nat, ok: bool)
    | Ack(w: nat, ok: bool)
    | Note(w: nat, counted: bool, answered: bool)
    | Bury(w: nat, written: bool)
    | AckDead(w: nat, ok: bool)
    | Crash(w: nat)
    | Expire

  function Start(workers: nat): Sys {
    Sys(Bus([], 0, {}, map[], []), map[], 0, [], seq(workers, i => Worker([], Idle)), map[], {}, map[])
  }

  function FailsOf(s: Sys, e: nat): nat {
    if e in s.fails then s.fails[e] else 0
  }

  function FinishedOf(s: Sys, e: nat): nat {
    if e in s.finished then s.finished[e] else 0
  }

  /** A handling of e has ended. */
  function OneMore(s: Sys, e: nat): map<nat, nat> {
    s.finished[e := FinishedOf(s, e) + 1]
  }

  /** deterministic_session_id. */
  function SidOf(s: Sys, e: nat): Sid {
    if e < |s.bus.entries| && s.bus.entries[e].Session? && s.bus.entries[e].key.Some?
    then Det(s.bus.entries[e].key.value)
    else Uuid(s.uuids)
  }

  function SetPhase(s: Sys, w: nat, p: Phase): Sys
    requires w < |s.workers|
  {
    s.(workers := s.workers[w := s.workers[w].(phase := p)])
  }

  function SetTodo(s: Sys, w: nat, todo: seq<nat>): Sys
    requires w < |s.workers|
  {
    s.(workers := s.workers[w := Worker(todo, Idle)])
  }

  predicate IsFree(s: Sys, w: nat) {
    w < |s.workers| && s.workers[w] == Worker([], Idle)
  }

  /** The worker takes up the next entry of its batch; one that is garbled it gives up at once. */
  function Begun(s: Sys, w: nat): (r: Sys)
    requires w < |s.workers| && s.workers[w].phase.Idle? && s.workers[w].todo != []
    ensures r == s.(workers := r.workers)
  {
    var e, rest := s.workers[w].todo[0], s.workers[w].todo[1..];
    s.(workers := s.workers[w := Worker(rest,
                       if e < |s.bus.entries| && s.bus.entries[e].Session? then Busy(e) else Idle)])
  }

  function Inserting(s: Sys, w: nat, e: nat, sid: Sid, outcome: CommitOutcome): (r: Sys)
    requires w < |s.workers|
    ensures r.published == s.published
  {
    if sid in s.rows || outcome == RolledBack then SetPhase(s, w, Failed(e))
    else
      SetPhase(s, w, if outcome == Committed then Inserted(e, sid) else Failed(e)).(rows := s.rows[sid := e])
  }

  function Noting(s: Sys, w: nat, e: nat, counted: bool, answered: bool): (r: Sys)
    requires w < |s.workers|
    ensures r.published == s.published && r.rows == s.rows
  {
    var b := if counted then Counted(s.bus, e) else s.bus;
    var n := if counted && answered then Attempts(b, e) else 1;
    var s1 := s.(bus := b, fails := s.fails[e := FailsOf(s, e) + 1]);
    if n >= MAX_ATTEMPTS then SetPhase(s1, w, Poison(e, n)) else SetPhase(s1, w, Idle).(finished := OneMore(s, e))
  }

  /** One step of one worker on the entry it is handling; a step that is not the worker's next one
      changes nothing. */
  function WorkerNext(s: Sys, step: Step, w: nat): Sys
    requires w < |s.workers|
  {
    match (step, s.workers[w].phase)
    case (Begin(_), Idle) => if s.workers[w].todo == [] then s else Begun(s, w)
    case (Fail(_), Busy(e)) => SetPhase(s, w, Failed(e))
    case (Check(_), Busy(e)) =>
      var sid := SidOf(s, e);
      if sid in s.rows then SetPhase(s, w, Done(e))
      else SetPhase(s, w, Checked(e, sid)).(uuids := if sid.Uuid? then s.uuids + 1 else s.uuids)
    case (Commit(_, outcome), Checked(e, sid)) => Inserting(s, w, e, sid, outcome)
    case (Publish(_, ok), Inserted(e, sid)) =>
      SetPhase(s, w, Done(e)).(published := if ok then s.published + [sid] else s.published)
    case (Clear(_, ok), Done(e)) => SetPhase(s, w, Cleared(e)).(bus := if ok then Forgotten(s.bus, e) else s.bus)
    case (Ack(_, ok), Cleared(e)) =>
      SetPhase(s, w, Idle).(bus := if ok then Acked(s.bus, e) else s.bus, finished := OneMore(s, e))
    case (Note(_, counted, answered), Failed(e)) => Noting(s, w, e, counted, answered)
    case (Bury(_, written), Poison(e, n)) =>
      SetPhase(s, w, Written(e)).(bus := if written then Buried(s.bus, e, n) else s.bus,
                                  lost := if written then s.lost else s.lost + {e})
    case (AckDead(_, ok), Written(e)) =>
      SetPhase(s, w, Idle).(bus := if ok then Acked(s.bus, e) else s.bus, finished := OneMore(s, e))
    case _ => s
  }

  function Next(s: Sys, step: Step): Sys {
    match step
    case Enqueue(p) => s.(bus := s.bus.(entries := s.bus.entries + [p]))
    case Expire => s.(bus := s.bus.(attempts := map[]))
    case Poll(w, k, answered) =>
      if !IsFree(s, w) || k > POLL_BATCH || s.bus.delivered + k > |s.bus.entries| then s
      else
        var b := Polled(s.bus, k);
        SetTodo(s, w, if answered then Readable(b, Span(s.bus.delivered, b.delivered)) else []).(bus := b)
    case Reclaim(w, es, answered) =>
      if !IsFree(s, w) || |es| > RECLAIM_BATCH || !(ElementsOf(es) <= s.bus.pending) then s
      else SetTodo(s, w, if answered then Readable(s.bus, es) else [])
    case Crash(w) => if w < |s.workers| then SetTodo(s, w, []) else s
    case _ => if step.w < |s.workers| then WorkerNext(s, step, step.w) else s
  }

  function Run(s: Sys, steps: seq<Step>): Sys {
    if steps == [] then s else Next(Run(s, steps[..|steps| - 1]), steps[|steps| - 1])
  }

  // ----- safety -----

  ghost predicate IsSession(s: Sys, e: nat) {
    e < |s.bus.entries| && s.bus.entries[e].Session?
  }

  /** The entry's session is stored: under its key, or, keyless, under some uuid. */
  ghost predicate HasRow(s: Sys, e: nat) {
    IsSession(s, e) &&
    match s.bus.entries[e].key
    case Some(key) => Det(key) in s.rows
    case None => exists sid <- s.rows :: sid.Uuid? && s.rows[sid] == e
  }

  ghost predicate InDlq(s: Sys, e: nat) {
    exists d <- s.bus.dlq :: d.entry == e
  }

  /** sid is an id that a handling of e may use. */
  ghost predicate Fitting(s: Sys, e: nat, sid: Sid) {
    IsSession(s, e) && match s.bus.entries[e].key
    case Some(key) => sid == Det(key)
    case None => sid.Uuid? && sid.n < s.uuids
  }

  ghost predicate PhaseOk(s: Sys, p: Phase) {
    match p
    case Idle => true
    case Busy(e) => IsSession(s, e)
    case Failed(e) => IsSession(s, e)
    case Poison(e, _) => IsSession(s, e)
    case Checked(e, sid) => Fitting(s, e, sid)
    case Inserted(e, sid) => HasRow(s, e) && sid in s.rows && sid !in s.published
    case Done(e) => HasRow(s, e)
    case Cleared(e) => HasRow(s, e)
    case Written(e) => IsSession(s, e) && (InDlq(s, e) || e in s.lost)
  }

  /** No entry leaves the group unless it is stored, dead-lettered, or its dead-letter write failed. */
  ghost predicate NothingVanishes(s: Sys) {
    && s.bus.delivered <= |s.bus.entries|
    && forall e: nat :: e < s.bus.delivered && e !in s.bus.pending ==> HasRow(s, e) || InDlq(s, e) || e in s.lost
  }

  /** Rows carry ids that fit the entry they came from. */
  ghost predicate RowsFit(s: Sys) {
    forall sid <- s.rows :: Fitting(s, s.rows[sid], sid)
  }

  /** A finding is published at most once, and only for a stored session. */
  ghost predicate PublishedOnce(s: Sys) {
    && (forall sid <- s.published :: sid in s.rows)
    && (forall i, j :: 0 <= i < j < |s.published| ==> s.published[i] != s.published[j])
  }

  /** Between insert and publication a row belongs to one worker. */
  ghost predicate OneInserter(s: Sys) {
    forall v, w :: 0 <= v < w < |s.workers| && s.workers[v].phase.Inserted? && s.workers[w].phase.Inserted? ==>
      s.workers[v].phase.sid != s.workers[w].phase.sid
  }

  ghost predicate PhasesOk(s: Sys) {
    forall w :: 0 <= w < |s.workers| ==> PhaseOk(s, s.workers[w].phase)
  }

  ghost predicate Safe(s: Sys) {
    NothingVanishes(s) && RowsFit(s) && PublishedOnce(s) && OneInserter(s) && PhasesOk(s)
  }

  /** What a step never undoes. */
  ghost predicate Grows(s: Sys, s': Sys) {
    && s.bus.entries <= s'.bus.entries && s.uuids <= s'.uuids && s.lost <= s'.lost && s.bus.dlq <= s'.bus.dlq
    && (forall sid <- s.rows :: sid in s'.rows && s'.rows[sid] == s.rows[sid])
    && s.published <= s'.published
  }

  lemma WorkerGrows(s: Sys, step: Step, w: nat)
    requires w < |s.workers|
    ensures Grows(s, WorkerNext(s, step, w)) && |WorkerNext(s, step, w).workers| == |s.workers|
  {
    hide Attempts, SidOf;
  }

  /** Rows are never changed or removed, and nothing that was published or dead-lettered is undone. */
  lemma StepGrows(s: Sys, step: Step)
    ensures Grows(s, Next(s, step)) && |Next(s, step).workers| == |s.workers|
  {
    hide WorkerNext, Readable, Span, ElementsOf;
    if !step.Enqueue? && !step.Expire? && step.w < |s.workers| { WorkerGrows(s, step, step.w); }
  }

  lemma HasRowGrows(s: Sys, s': Sys, e: nat)
    requires Grows(s, s')
    ensures HasRow(s, e) ==> HasRow(s', e)
    ensures InDlq(s, e) ==> InDlq(s', e)
    ensures IsSession(s, e) ==> IsSession(s', e) && s'.bus.entries[e] == s.bus.entries[e]
  {
    if InDlq(s, e) {
      var i :| 0 <= i < |s.bus.dlq| && s.bus.dlq[i].entry == e;
      assert s'.bus.dlq[i] == s.bus.dlq[i];
    }
    if IsSession(s, e) && s.bus.entries[e].key.None? && HasRow(s, e) {
      var sid :| sid in s.rows && sid.Uuid? && s.rows[sid] == e;
      assert sid in s'.rows;
    }
  }

  lemma PhaseOkGrows(s: Sys, s': Sys, p: Phase)
    requires Grows(s, s') && PhaseOk(s, p)
    requires p.Inserted? ==> p.sid !in s'.published
    ensures PhaseOk(s', p)
  {
    hide HasRow, InDlq;
    if !p.Idle? { HasRowGrows(s, s', p.e); }
  }

  /** Only the worker that inserted a row publishes it. */
  lemma StaysUnpublished(s: Sys, step: Step, v: nat)
    requires PublishedOnce(s) && OneInserter(s) && v < |s.workers| && s.workers[v].phase.Inserted?
    requires s.workers[v].phase.sid !in s.published && Next(s, step).workers[v].phase == s.workers[v].phase
    ensures s.workers[v].phase.sid !in Next(s, step).published
  {
    hide Readable, Span, ElementsOf, Begun, Inserting, Noting;
  }

  lemma InsertedOk(s: Sys, w: nat, e: nat, sid: Sid, outcome: CommitOutcome)
    requires Safe(s) && w < |s.workers| && Fitting(s, e, sid)
    ensures var s' := Inserting(s, w, e, sid, outcome);
            PhaseOk(s', s'.workers[w].phase) && RowsFit(s') && (s'.rows == s.rows || sid !in s.rows)
    ensures sid !in s.rows ==> sid !in s.published
  {
    var s' := Inserting(s, w, e, sid, outcome);
    if s'.rows != s.rows { assert sid in s'.rows && s'.rows[sid] == e; }
  }

  lemma CheckedOk(s: Sys, e: nat)
    requires IsSession(s, e)
    ensures var sid := SidOf(s, e);
            && (sid.Uuid? ==> sid.n == s.uuids && s.bus.entries[e].key.None?)
            && (sid.Det? ==> s.bus.entries[e].key == Some(sid.key))
    ensures RowsFit(s) && SidOf(s, e) in s.rows ==> HasRow(s, e)
  {
  }

  lemma BuriedOk(s: Sys, e: nat, n: nat)
    requires s.bus.dlq != [] && s.bus.dlq[|s.bus.dlq| - 1] == Dead(e, n)
    ensures InDlq(s, e)
  {
    assert Dead(e, n) in s.bus.dlq;
  }

  /** The phase a worker's step leads to. */
  lemma WorkerPhaseOk(s: Sys, step: Step, w: nat)
    requires Safe(s) && w < |s.workers|
    ensures var s' := WorkerNext(s, step, w);
            Grows(s, s') && |s'.workers| == |s.workers| && PhaseOk(s', s'.workers[w].phase)
  {
    hide HasRow, InDlq, NothingVanishes, RowsFit, PublishedOnce, OneInserter, Attempts;
    var s', p := WorkerNext(s, step, w), s.workers[w].phase;
    assert PhaseOk(s, p);
    WorkerGrows(s, step, w);
    hide Grows;
    if p.Idle? {
    } else {
      HasRowGrows(s, s', p.e);
      if step.Commit? && p.Checked? { InsertedOk(s, w, p.e, p.sid, step.outcome); }
      if step.Check? && p.Busy? { CheckedOk(s, p.e); }
      if step.Bury? && p.Poison? && step.written { BuriedOk(s', p.e, p.n); }
    }
  }

  lemma MovedPhaseOk(s: Sys, step: Step, s': Sys, w: nat)
    requires Safe(s) && s' == Next(s, step) && |s'.workers| == |s.workers|
    requires w < |s.workers| && s'.workers[w].phase != s.workers[w].phase
    ensures PhaseOk(s', s'.workers[w].phase)
  {
    hide WorkerNext, Readable, Span, ElementsOf, NothingVanishes, RowsFit;
    hide PublishedOnce, OneInserter, PhasesOk, Grows, HasRow, InDlq, Fitting;
    if step.Enqueue? || step.Expire? || step.w != w { OthersStay(s, step, w); }
    WorkerPhaseOk(s, step, w);
  }

  lemma PhasesStayOk(s: Sys, step: Step)
    requires Safe(s)
    ensures PhasesOk(Next(s, step))
  {
    hide Next, PhaseOk, NothingVanishes, RowsFit, PublishedOnce, OneInserter, Grows;
    var s' := Next(s, step);
    StepGrows(s, step);
    forall v | 0 <= v < |s'.workers|
      ensures PhaseOk(s', s'.workers[v].phase)
    {
      var p := s.workers[v].phase;
      if s'.workers[v].phase == p {
        if p.Inserted? {
          assert p.sid !in s.published by { InsertedMeans(s, p); }
          StaysUnpublished(s, step, v);
        }
        PhaseOkGrows(s, s', p);
      } else {
        MovedPhaseOk(s, step, s', v);
      }
    }
  }

  lemma InsertedMeans(s: Sys, p: Phase)
    requires PhaseOk(s, p) && p.Inserted?
    ensures p.sid in s.rows && p.sid !in s.published
  {
  }

  /** An entry leaves the pending list only by the ack of a worker that holds it, handled or buried. */
  lemma AckedIsHeld(s: Sys, step: Step, e: nat)
    requires Safe(s) && e < Next(s, step).bus.delivered && e !in Next(s, step).bus.pending
    ensures (e < s.bus.delivered && e !in s.bus.pending) || HasRow(s, e) || InDlq(s, e) || e in s.lost
  {
    hide Readable, ElementsOf, HasRow, InDlq, NothingVanishes;
    hide RowsFit, PublishedOnce, OneInserter, Inserting, Noting, Begun;
    if step.Poll? {
      PolledPending(s.bus, step.k, e);
    } else if step.Ack? || step.AckDead? {
      if step.w < |s.workers| { assert PhaseOk(s, s.workers[step.w].phase); }
    } else {
      BusKept(s, step);
    }
  }

  lemma PolledPending(b: Bus, k: nat, e: nat)
    ensures e in Polled(b, k).pending <==> e in b.pending || b.delivered <= e < b.delivered + k
  {
    var es := Span(b.delivered, b.delivered + k);
    if b.delivered <= e < b.delivered + k { assert es[e - b.delivered] == e; }
  }

  lemma BusKept(s: Sys, step: Step)
    requires !step.Poll? && !step.Ack? && !step.AckDead?
    ensures Next(s, step).bus.pending == s.bus.pending && Next(s, step).bus.delivered == s.bus.delivered
  {
    hide Readable, ElementsOf;
  }

  lemma NothingVanishesStep(s: Sys, step: Step)
    requires Safe(s)
    ensures NothingVanishes(Next(s, step))
  {
    hide Next, HasRow, InDlq, RowsFit, PublishedOnce, OneInserter, PhasesOk;
    var s' := Next(s, step);
    StepGrows(s, step);
    DeliveredInRange(s, step);
    forall e: nat | e < s'.bus.delivered && e !in s'.bus.pending
      ensures HasRow(s', e) || InDlq(s', e) || e in s'.lost
    {
      AckedIsHeld(s, step, e);
      HasRowGrows(s, s', e);
    }
  }

  lemma DeliveredInRange(s: Sys, step: Step)
    requires s.bus.delivered <= |s.bus.entries|
    ensures Next(s, step).bus.delivered <= |Next(s, step).bus.entries|
  {
    hide Readable, ElementsOf, Span, Begun;
  }

  lemma WorkerStore(s: Sys, step: Step, w: nat)
    requires Safe(s) && w < |s.workers|
    ensures RowsFit(WorkerNext(s, step, w)) && PublishedOnce(WorkerNext(s, step, w))
  {
    hide HasRow, InDlq, NothingVanishes, OneInserter, Fitting, Attempts, Begun;
    var s', p := WorkerNext(s, step, w), s.workers[w].phase;
    assert PhaseOk(s, p);
    WorkerGrows(s, step, w);
    if s'.rows == s.rows { RowsStillFit(s, s'); }
    if step.Commit? && p.Checked? { InsertedOk(s, w, p.e, p.sid, step.outcome); }
  }

  /** Rows only come from the insert of a checked entry, publications only from its inserter. */
  lemma StoreStep(s: Sys, step: Step)
    requires Safe(s)
    ensures RowsFit(Next(s, step)) && PublishedOnce(Next(s, step))
  {
    hide WorkerNext, Readable, ElementsOf, Span, NothingVanishes, OneInserter, PhasesOk, RowsFit, Polled;
    var s' := Next(s, step);
    StepGrows(s, step);
    if s'.rows == s.rows { RowsStillFit(s, s'); }
    if !step.Enqueue? && !step.Expire? && step.w < |s.workers| { WorkerStore(s, step, step.w); }
  }

  lemma RowsStillFit(s: Sys, s': Sys)
    requires RowsFit(s) && Grows(s, s') && s'.rows == s.rows
    ensures RowsFit(s')
  {
  }

  /** A step moves only the worker it names. */
  lemma OthersStay(s: Sys, step: Step, v: nat)
    requires v < |s.workers| && (step.Enqueue? || step.Expire? || step.w != v)
    ensures Next(s, step).workers[v] == s.workers[v]
  {
    hide Readable, ElementsOf, Span, Polled, Attempts;
  }

  lemma InsertedWhen(s: Sys, step: Step, v: nat)
    requires v < |s.workers| && Next(s, step).workers[v].phase.Inserted?
    ensures var p := Next(s, step).workers[v].phase; p == s.workers[v].phase || p.sid !in s.rows
  {
    hide Readable, ElementsOf, Span, Polled, WorkerNext;
    if step.Enqueue? || step.Expire? || step.w != v { OthersStay(s, step, v); } else { WorkerInserts(s, step, v); }
  }

  lemma WorkerInserts(s: Sys, step: Step, w: nat)
    requires w < |s.workers|
    ensures |WorkerNext(s, step, w).workers| == |s.workers|
    ensures var p := WorkerNext(s, step, w).workers[w].phase;
            p.Inserted? ==> p == s.workers[w].phase || p.sid !in s.rows
  {
    hide Attempts, SidOf;
  }

  lemma OneInserterStep(s: Sys, step: Step)
    requires Safe(s)
    ensures OneInserter(Next(s, step))
  {
    hide Next, PhaseOk, NothingVanishes, RowsFit, PublishedOnce;
    var s' := Next(s, step);
    StepGrows(s, step);
    forall v, w | 0 <= v < w < |s.workers| && s'.workers[v].phase.Inserted? && s'.workers[w].phase.Inserted?
      ensures s'.workers[v].phase.sid != s'.workers[w].phase.sid
    {
      if step.Enqueue? || step.Expire? || step.w != v { OthersStay(s, step, v); }
      if step.Enqueue? || step.Expire? || step.w != w { OthersStay(s, step, w); }
      InsertedWhen(s, step, v);
      InsertedWhen(s, step, w);
      if s.workers[v].phase.Inserted? { InsertedMeans(s, s.workers[v].phase); }
      if s.workers[w].phase.Inserted? { InsertedMeans(s, s.workers[w].phase); }
    }
  }

  /** Every step keeps the system safe. */
  lemma StepIsSafe(s: Sys, step: Step)
    requires Safe(s)
    ensures Safe(Next(s, step))
  {
    hide NothingVanishes, RowsFit, PublishedOnce, OneInserter, PhasesOk, Next;
    NothingVanishesStep(s, step);
    StoreStep(s, step);
    OneInserterStep(s, step);
    PhasesStayOk(s, step);
  }

  lemma StartIsSafe(workers: nat)
    ensures Safe(Start(workers))
  {
  }

  lemma {:induction false} RunsAreSafe(workers: nat, steps: seq<Step>)
    ensures Safe(Run(Start(workers), steps))
  {
    hide Next, Safe, Start;
    if steps == [] {
      StartIsSafe(workers);
    } else {
      RunsAreSafe(workers, steps[..|steps| - 1]);
      StepIsSafe(Run(Start(workers), steps[..|steps| - 1]), steps[|steps| - 1]);
    }
  }

  /** Over every interleaving of any number of workers with failures, crashes and redeliveries: an
      entry that the group no longer holds is stored or dead-lettered, or its dead-letter write
      failed; a keyed entry has at most one row, under its key; findings are published at most once,
      for stored sessions only. */
  lemma DeliveryIsAtLeastOnce(workers: nat, steps: seq<Step>, e: nat)
    ensures var s := Run(Start(workers), steps);
            && (e < s.bus.delivered && e !in s.bus.pending ==> HasRow(s, e) || InDlq(s, e) || e in s.lost)
            && (forall sid <- s.rows :: s.rows[sid] == e ==>
                  IsSession(s, e) && (s.bus.entries[e].key.Some? ==> sid == Det(s.bus.entries[e].key.value)))
            && PublishedOnce(s)
  {
    hide Run, Start, HasRow, InDlq, PublishedOnce, OneInserter, PhasesOk;
    RunsAreSafe(workers, steps);
  }

  /** Entries that do not decode, or whose inner JSON does not parse, are never acked. */
  ghost predicate StuckPending(s: Sys) {
    forall e: nat :: e < s.bus.delivered && !IsSession(s, e) ==> e in s.bus.pending
  }

  lemma StuckStep(s: Sys, step: Step)
    requires Safe(s) && StuckPending(s)
    ensures StuckPending(Next(s, step))
  {
    hide Next, HasRow, InDlq, RowsFit, PublishedOnce, OneInserter, PhasesOk;
    var s' := Next(s, step);
    StepGrows(s, step);
    forall e: nat | e < s'.bus.delivered && !IsSession(s', e)
      ensures e in s'.bus.pending
    {
      HasRowGrows(s, s', e);
      StaysPending(s, step, e);
    }
  }

  lemma StaysPending(s: Sys, step: Step, e: nat)
    requires Safe(s) && e < Next(s, step).bus.delivered && !IsSession(s, e)
    requires e < s.bus.delivered ==> e in s.bus.pending
    ensures e in Next(s, step).bus.pending
  {
    hide Readable, ElementsOf, InDlq, NothingVanishes, RowsFit, PublishedOnce, OneInserter, Inserting, Noting, Begun;
    if step.Poll? {
      PolledPending(s.bus, step.k, e);
    } else if step.Ack? || step.AckDead? {
      if step.w < |s.workers| { assert PhaseOk(s, s.workers[step.w].phase); }
    } else {
      BusKept(s, step);
    }
  }

  /** Over every run an entry that cannot be handled stays in the pending list, however often it is
      reclaimed. */
  lemma {:induction false} UndecodableIsStuck(workers: nat, steps: seq<Step>)
    ensures StuckPending(Run(Start(workers), steps))
  {
    hide Next, Safe, StuckPending, Start;
    if steps == [] {
      NothingIsStuck(workers);
    } else {
      UndecodableIsStuck(workers, steps[..|steps| - 1]);
      RunsAreSafe(workers, steps[..|steps| - 1]);
      StuckStep(Run(Start(workers), steps[..|steps| - 1]), steps[|steps| - 1]);
    }
  }

  lemma NothingIsStuck(workers: nat)
    ensures StuckPending(Start(workers))
  {
  }

  lemma {:induction false} RunAppends(s: Sys, a: seq<Step>, b: seq<Step>)
    ensures Run(s, a + b) == Run(Run(s, a), b)
    decreases |b|
  {
    hide Next;
    if b == [] {
      assert a + b == a;
    } else {
      RunAppends(s, a, b[..|b| - 1]);
      assert (a + b)[..|a| + |b| - 1] == a + b[..|b| - 1];
    }
  }

  // ----- a publication that is lost stays lost -----

  /** Stored, not published, and no worker is about to publish it. */
  ghost predicate Orphan(s: Sys, sid: Sid) {
    && sid in s.rows && sid !in s.published
    && forall w :: 0 <= w < |s.workers| ==> s.workers[w].phase.Inserted? ==> s.workers[w].phase.sid != sid
  }

  lemma OrphanStep(s: Sys, step: Step, sid: Sid)
    requires Orphan(s, sid)
    ensures Orphan(Next(s, step), sid)
  {
    hide Readable, Span, ElementsOf;
    StepGrows(s, step);
    forall w | 0 <= w < |s.workers| && Next(s, step).workers[w].phase.Inserted?
      ensures Next(s, step).workers[w].phase.sid != sid
    {
      InsertedWhen(s, step, w);
    }
    if !step.Enqueue? && !step.Expire? && step.w < |s.workers| { PublishesOwn(s, step, step.w, sid); }
  }

  lemma PublishesOwn(s: Sys, step: Step, w: nat, sid: Sid)
    requires w < |s.workers| && sid !in s.published
    requires s.workers[w].phase.Inserted? ==> s.workers[w].phase.sid != sid
    ensures sid !in WorkerNext(s, step, w).published
  {
    hide Attempts;
  }

  /** Such a finding is not published in any continuation, redeliveries included. */
  lemma {:induction false} LostFindingStaysLost(s: Sys, steps: seq<Step>, sid: Sid)
    requires Orphan(s, sid)
    ensures Orphan(Run(s, steps), sid)
  {
    hide Orphan, Next;
    if steps != [] {
      LostFindingStaysLost(s, steps[..|steps| - 1], sid);
      OrphanStep(Run(s, steps[..|steps| - 1]), steps[|steps| - 1], sid);
    }
  }

  /** The three steps that lose the finding of sid: its inserter crashes, the publish call of its
      inserter fails, which the worker swallows, or the answer to the commit that stores it is lost. */
  ghost predicate Orphans(s: Sys, step: Step, sid: Sid) {
    match step
    case Crash(w) => w < |s.workers| && s.workers[w].phase.Inserted? && s.workers[w].phase.sid == sid
    case Publish(w, ok) => !ok && w < |s.workers| && s.workers[w].phase.Inserted? && s.workers[w].phase.sid == sid
    case Commit(w, outcome) =>
      outcome == AnswerLost && sid !in s.rows
      && w < |s.workers| && s.workers[w].phase.Checked? && s.workers[w].phase.sid == sid
    case _ => false
  }

  lemma LosingStepOrphans(s: Sys, step: Step, sid: Sid)
    requires Safe(s) && Orphans(s, step, sid)
    ensures Orphan(Next(s, step), sid)
  {
    hide NothingVanishes, RowsFit, HasRow, InDlq, Fitting;
    forall v | 0 <= v < |s.workers|
      ensures PhaseOk(s, s.workers[v].phase)
    {
    }
  }

  /** What a worker's step has to do for a finding to be lost. */
  lemma WorkerLoses(s: Sys, step: Step, w: nat, sid: Sid)
    requires w < |s.workers| && step != Crash(w) && !step.Enqueue? && !step.Expire? && step.w == w
    requires var s' := WorkerNext(s, step, w);
             (sid in s.rows && s.workers[w].phase.Inserted? && s.workers[w].phase.sid == sid
              && sid !in s'.published && !(s'.workers[w].phase.Inserted? && s'.workers[w].phase.sid == sid))
             || (sid !in s.rows && sid in s'.rows && !(s'.workers[w].phase.Inserted? && s'.workers[w].phase.sid == sid))
    ensures Orphans(s, step, sid)
  {
    hide SidOf, Attempts, Counted;
  }

  lemma OnlyLosingStepsOrphan(s: Sys, step: Step, sid: Sid)
    requires Safe(s) && !Orphan(s, sid) && Orphan(Next(s, step), sid)
    ensures Orphans(s, step, sid)
  {
    hide WorkerNext, Safe, Readable, Span, ElementsOf, Polled;
    var s' := Next(s, step);
    StepGrows(s, step);
    hide Grows;
    GrowsPublished(s, s', sid);
    if sid in s.rows {
      var v :| 0 <= v < |s.workers| && s.workers[v].phase.Inserted? && s.workers[v].phase.sid == sid;
      if step.Enqueue? || step.Expire? || step.w != v {
        OthersStay(s, step, v);
      } else if !step.Crash? && !step.Poll? && !step.Reclaim? {
        WorkerLoses(s, step, v, sid);
      }
    } else if !step.Enqueue? && !step.Expire? && !step.Crash? && !step.Poll? && !step.Reclaim? && step.w < |s.workers| {
      WorkerLoses(s, step, step.w, sid);
    }
  }

  lemma GrowsPublished(s: Sys, s': Sys, sid: Sid)
    requires Grows(s, s')
    ensures sid !in s'.published ==> sid !in s.published
  {
  }

  /** A step loses a finding if and only if it is one of the three. */
  lemma StepOrphansIff(s: Sys, step: Step, sid: Sid)
    requires Safe(s) && !Orphan(s, sid)
    ensures Orphan(Next(s, step), sid) <==> Orphans(s, step, sid)
  {
    hide Safe, Orphan, Orphans, Next;
    if Orphans(s, step, sid) { LosingStepOrphans(s, step, sid); }
    if Orphan(Next(s, step), sid) { OnlyLosingStepsOrphan(s, step, sid); }
  }

  /** Some step of the run loses the finding of sid. */
  ghost predicate Loses(workers: nat, steps: seq<Step>, sid: Sid) {
    exists k :: 0 <= k < |steps| && Orphans(Run(Start(workers), steps[..k]), steps[k], sid)
  }

  lemma LosesMore(workers: nat, front: seq<Step>, step: Step, sid: Sid)
    ensures Loses(workers, front + [step], sid) <==>
              Loses(workers, front, sid) || Orphans(Run(Start(workers), front), step, sid)
  {
    hide Run, Orphans, Start;
    var steps := front + [step];
    assert forall k :: 0 <= k <= |front| ==> steps[..k] == front[..k];
    assert front[..|front|] == front;
    if Orphans(Run(Start(workers), front), step, sid) {
      assert Orphans(Run(Start(workers), steps[..|front|]), steps[|front|], sid);
    }
    if Loses(workers, front, sid) {
      var k :| 0 <= k < |front| && Orphans(Run(Start(workers), front[..k]), front[k], sid);
      assert Orphans(Run(Start(workers), steps[..k]), steps[k], sid);
    }
  }

  /** Over every run a stored finding ends up neither published nor about to be, for good, if and only
      if some step of the run was one of the three. */
  lemma {:induction false} FindingIsLostIff(workers: nat, steps: seq<Step>, sid: Sid)
    ensures Orphan(Run(Start(workers), steps), sid) <==> Loses(workers, steps, sid)
  {
    hide Next, Orphan, Orphans, Loses, Safe, Start;
    if steps == [] {
      NothingIsLost(workers, sid);
    } else {
      var front, step := steps[..|steps| - 1], steps[|steps| - 1];
      var s := Run(Start(workers), front);
      FindingIsLostIff(workers, front, sid);
      RunsAreSafe(workers, front);
      assert steps == front + [step];
      LosesMore(workers, front, step, sid);
      if Orphan(s, sid) { OrphanStep(s, step, sid); } else { StepOrphansIff(s, step, sid); }
    }
  }

  lemma NothingIsLost(workers: nat, sid: Sid)
    ensures !Orphan(Start(workers), sid) && !Loses(workers, [], sid)
  {
  }

  // ----- where the guarantee ends -----

  const KEYLESS_TWICE: seq<Step> :=
    [Enqueue(Session(None)), Poll(0, 1, true), Begin(0), Check(0), Commit(0, Committed), Crash(0),
     Reclaim(0, [0], true), Begin(0), Check(0), Commit(0, Committed)]

  function OneWorker(b: Bus, rows: map<Sid, nat>, uuids: nat, w: Worker): Sys {
    Sys(b, rows, uuids, [], [w], map[], {}, map[])
  }

  lemma ReadableOne(b: Bus)
    requires |b.entries| == 1 && b.entries[0].Session?
    ensures Readable(b, [0]) == [0] && Span(0, 1) == [0] && ElementsOf<nat>([0]) == {0}
  {
    assert [0][..0] == [];
  }

  lemma RunNext(s: Sys, steps: seq<Step>, k: nat)
    requires k < |steps|
    ensures Run(s, steps[..k + 1]) == Next(Run(s, steps[..k]), steps[k])
  {
    assert steps[..k + 1][..k] == steps[..k];
  }

  lemma BeginOne(b: Bus, rows: map<Sid, nat>, uuids: nat)
    requires |b.entries| == 1 && b.entries[0].Session?
    ensures Next(OneWorker(b, rows, uuids, Worker([0], Idle)), Begin(0))
         == OneWorker(b, rows, uuids, Worker([], Busy(0)))
  {
    var todo: seq<nat> := [0];
    assert todo[1..] == [];
  }

  lemma EnqueueOne(p: Payload)
    ensures Next(Start(1), Enqueue(p)) == OneWorker(Bus([p], 0, {}, map[], []), map[], 0, Worker([], Idle))
  {
    assert Start(1).workers == [Worker([], Idle)];
  }

  lemma PollOne(p: Payload)
    requires p.Session?
    ensures Next(OneWorker(Bus([p], 0, {}, map[], []), map[], 0, Worker([], Idle)), Poll(0, 1, true))
         == OneWorker(Bus([p], 1, {0}, map[], []), map[], 0, Worker([0], Idle))
  {
    ReadableOne(Bus([p], 1, {0}, map[], []));
    assert Polled(Bus([p], 0, {}, map[], []), 1) == Bus([p], 1, {0}, map[], []);
  }

  lemma CrashOne(b: Bus, rows: map<Sid, nat>, uuids: nat, w: Worker)
    ensures Next(OneWorker(b, rows, uuids, w), Crash(0)) == OneWorker(b, rows, uuids, Worker([], Idle))
  {
  }

  lemma ReclaimOne(b: Bus, rows: map<Sid, nat>, uuids: nat)
    requires |b.entries| == 1 && b.entries[0].Session? && b.pending == {0}
    ensures Next(OneWorker(b, rows, uuids, Worker([], Idle)), Reclaim(0, [0], true))
         == OneWorker(b, rows, uuids, Worker([0], Idle))
  {
    hide WorkerNext, Readable, ElementsOf, Span, Polled;
    ReadableOne(b);
  }

  lemma InsertKeyless(b: Bus, rows: map<Sid, nat>, uuids: nat)
    requires b.entries == [Session(None)] && Uuid(uuids) !in rows
    ensures Next(Next(OneWorker(b, rows, uuids, Worker([], Busy(0))), Check(0)), Commit(0, Committed))
         == OneWorker(b, rows[Uuid(uuids) := 0], uuids + 1, Worker([], Inserted(0, Uuid(uuids))))
  {
    assert Next(OneWorker(b, rows, uuids, Worker([], Busy(0))), Check(0))
        == OneWorker(b, rows, uuids + 1, Worker([], Checked(0, Uuid(uuids))));
  }

  /** Without an identity key a crash between commit and ack makes a second row. */
  lemma KeylessEntryCanBeStoredTwice()
    ensures Run(Start(1), KEYLESS_TWICE).rows == map[Uuid(0) := 0, Uuid(1) := 0]
  {
    hide Next, Run, Start;
    var (p, r) := (Session(None), KEYLESS_TWICE);
    var (b, rows) := (Bus([p], 1, {0}, map[], []), map[Uuid(0) := 0]);
    EnqueueOne(p);
    PollOne(p);
    BeginOne(b, map[], 0);
    InsertKeyless(b, map[], 0);
    CrashOne(b, rows, 1, Worker([], Inserted(0, Uuid(0))));
    ReclaimOne(b, rows, 1);
    BeginOne(b, rows, 1);
    InsertKeyless(b, rows, 1);
    TenSteps(Start(1), r);
    assert map[][Uuid(0) := 0] == rows && rows[Uuid(1) := 0] == map[Uuid(0) := 0, Uuid(1) := 0];
  }

  lemma EmptyRun(s: Sys, r: seq<Step>)
    ensures Run(s, r[..0]) == s
  {
  }

  lemma FiveMore(s: Sys, r: seq<Step>, k: nat)
    requires k + 5 <= |r|
    ensures Run(s, r[..k + 5])
         == Next(Next(Next(Next(Next(Run(s, r[..k]), r[k]), r[k + 1]), r[k + 2]), r[k + 3]), r[k + 4])
  {
    hide Next, Run;
    RunNext(s, r, k);
    RunNext(s, r, k + 1);
    RunNext(s, r, k + 2);
    RunNext(s, r, k + 3);
    RunNext(s, r, k + 4);
  }

  lemma TenSteps(s: Sys, r: seq<Step>)
    requires |r| == 10
    ensures var half := Next(Next(Next(Next(Next(s, r[0]), r[1]), r[2]), r[3]), r[4]);
            Run(s, r) == Next(Next(Next(Next(Next(half, r[5]), r[6]), r[7]), r[8]), r[9])
  {
    hide Next, Run;
    EmptyRun(s, r);
    FiveMore(s, r, 0);
    FiveMore(s, r, 5);
    assert r[..10] == r;
  }

  /** A burial whose write fails loses the entry: acked, not stored, not dead-lettered. */
  lemma FailedBurialLoses(s: Sys, w: nat)
    requires Safe(s) && w < |s.workers| && s.workers[w].phase.Poison?
    ensures var e := s.workers[w].phase.e;
            var s' := Next(Next(s, Bury(w, false)), AckDead(w, true));
            && e !in s'.bus.pending && e in s'.lost
            && (HasRow(s', e) <==> HasRow(s, e)) && (InDlq(s', e) <==> InDlq(s, e))
  {
    var s1 := Next(s, Bury(w, false));
    var s' := Next(s1, AckDead(w, true));
    assert s'.rows == s.rows && s'.bus.dlq == s.bus.dlq && s'.bus.entries == s.bus.entries;
  }
}
