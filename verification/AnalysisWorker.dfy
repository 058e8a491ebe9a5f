/** One worker's handling of one entry, as straight-line code, against the steps of the system. */
module AnalysisWorker {
  import opened Collections
  import opened Wrappers
  import opened Delivery

  /** How the calls of one handling turn out. */
  datatype Env = Env(
    fails: bool,
    commit: CommitOutcome,
    published: bool,
    counted: bool,
    answered: bool,
    cleared: bool,
    acked: bool,
    written: bool,
    deadAcked: bool)

  /** The step the worker takes next. */
  function StepAt(p: Phase, w: nat, env: Env): Step {
    match p
    case Idle => Begin(w)
    case Busy(_) => if env.fails then Fail(w) else Check(w)
    case Checked(_, _) => Commit(w, env.commit)
    case Inserted(_, _) => Publish(w, env.published)
    case Done(_) => Clear(w, env.cleared)
    case Cleared(_) => Ack(w, env.acked)
    case Failed(_) => Note(w, env.counted, env.answered)
    case Poison(_, _) => Bury(w, env.written)
    case Written(_) => AckDead(w, env.deadAcked)
  }

  function Rank(p: Phase): nat {
    match p
    case Idle => 0
    case Cleared(_) => 1
    case Done(_) => 2
    case Written(_) => 3
    case Poison(_, _) => 4
    case Failed(_) => 5
    case Inserted(_, _) => 6
    case Checked(_, _) => 7
    case Busy(_) => 8
  }

  function After(s: Sys, w: nat, env: Env): Sys
    requires w < |s.workers|
  {
    WorkerNext(s, StepAt(s.workers[w].phase, w, env), w)
  }

  predicate IsEarly(p: Phase) {
    p.Busy? || p.Checked? || p.Inserted?
  }

  lemma RankFallsEarly(s: Sys, w: nat, env: Env)
    requires w < |s.workers| && IsEarly(s.workers[w].phase)
    ensures var r := After(s, w, env);
            |r.workers| == |s.workers| && Rank(r.workers[w].phase) < Rank(s.workers[w].phase)
  {
    hide SidOf, Noting, Acked, Counted, Forgotten, Buried, OneMore;
  }

  lemma RankFallsAtFailed(s: Sys, w: nat, env: Env)
    requires w < |s.workers| && s.workers[w].phase.Failed?
    ensures var r := After(s, w, env);
            |r.workers| == |s.workers| && Rank(r.workers[w].phase) < Rank(s.workers[w].phase)
  {
    hide Attempts, Counted;
  }

  lemma RankFallsLate(s: Sys, w: nat, env: Env)
    requires w < |s.workers| && (s.workers[w].phase.Done? || s.workers[w].phase.Cleared?)
    ensures var r := After(s, w, env);
            |r.workers| == |s.workers| && Rank(r.workers[w].phase) < Rank(s.workers[w].phase)
  {
    hide Forgotten, Acked, OneMore;
  }

  lemma RankFallsInBurial(s: Sys, w: nat, env: Env)
    requires w < |s.workers| && (s.workers[w].phase.Poison? || s.workers[w].phase.Written?)
    ensures var r := After(s, w, env);
            |r.workers| == |s.workers| && Rank(r.workers[w].phase) < Rank(s.workers[w].phase)
  {
    hide Buried, Acked, OneMore;
  }

  lemma RankFalls(s: Sys, w: nat, env: Env)
    requires w < |s.workers| && !s.workers[w].phase.Idle?
    ensures var r := After(s, w, env);
            |r.workers| == |s.workers| && Rank(r.workers[w].phase) < Rank(s.workers[w].phase)
  {
    hide After, Rank;
    if IsEarly(s.workers[w].phase) {
      RankFallsEarly(s, w, env);
    } else if s.workers[w].phase.Failed? {
      RankFallsAtFailed(s, w, env);
    } else if s.workers[w].phase.Poison? || s.workers[w].phase.Written? {
      RankFallsInBurial(s, w, env);
    } else {
      RankFallsLate(s, w, env);
    }
  }

  /** The whole handling: the worker's steps, one after the other, until it is idle. */
  function Course(s: Sys, w: nat, env: Env): (r: Sys)
    requires w < |s.workers|
    ensures |r.workers| == |s.workers| && r.workers[w].phase.Idle?
    decreases Rank(s.workers[w].phase)
  {
    if s.workers[w].phase.Idle? then s else RankFalls(s, w, env); Course(After(s, w, env), w, env)
  }

  lemma AfterIsNext(s: Sys, w: nat, env: Env)
    requires w < |s.workers| && !s.workers[w].phase.Idle?
    ensures After(s, w, env) == Next(s, StepAt(s.workers[w].phase, w, env))
  {
    hide WorkerNext, Polled, Readable, Span, ElementsOf;
  }

  /** So what holds over every run holds of the code. */
  lemma {:induction false} CourseIsARun(s: Sys, w: nat, env: Env) returns (steps: seq<Step>)
    requires w < |s.workers|
    ensures Run(s, steps) == Course(s, w, env)
    decreases Rank(s.workers[w].phase)
  {
    hide Next, After;
    if s.workers[w].phase.Idle? {
      steps := [];
    } else {
      AfterIsNext(s, w, env);
      RankFalls(s, w, env);
      var step := StepAt(s.workers[w].phase, w, env);
      var rest := CourseIsARun(After(s, w, env), w, env);
      steps := [step] + rest;
      RunAppends(s, [step], rest);
      assert [step][..0] == [];
    }
  }

  // ----- the steps of a course, one by one -----

  ghost predicate Same(s: Sys, t: Sys, w: nat, env: Env) {
    w < |s.workers| && |t.workers| == |s.workers| && Course(t, w, env) == Course(s, w, env)
  }

  lemma Advance(s: Sys, w: nat, env: Env)
    requires w < |s.workers| && !s.workers[w].phase.Idle?
    ensures Same(s, WorkerNext(s, StepAt(s.workers[w].phase, w, env), w), w, env)
  {
    RankFalls(s, w, env);
    hide WorkerNext;
  }

  lemma BusyGoes(s: Sys, w: nat, env: Env, e: nat) returns (t: Sys)
    requires w < |s.workers| && s.workers[w].phase == Busy(e)
    ensures Same(s, t, w, env)
    ensures env.fails ==> t == SetPhase(s, w, Failed(e))
    ensures !env.fails && SidOf(s, e) in s.rows ==> t == SetPhase(s, w, Done(e))
    ensures !env.fails && SidOf(s, e) !in s.rows ==>
              t == SetPhase(s, w, Checked(e, SidOf(s, e))).(uuids := if SidOf(s, e).Uuid? then s.uuids + 1 else s.uuids)
  {
    hide Course, SidOf;
    Advance(s, w, env);
    t := WorkerNext(s, StepAt(s.workers[w].phase, w, env), w);
  }

  lemma CheckedGoes(s: Sys, w: nat, env: Env, e: nat, sid: Sid) returns (t: Sys)
    requires w < |s.workers| && s.workers[w].phase == Checked(e, sid)
    ensures Same(s, t, w, env) && t == Inserting(s, w, e, sid, env.commit)
  {
    hide Course, Inserting;
    Advance(s, w, env);
    t := Inserting(s, w, e, sid, env.commit);
  }

  lemma InsertedGoes(s: Sys, w: nat, env: Env, e: nat, sid: Sid) returns (t: Sys)
    requires w < |s.workers| && s.workers[w].phase == Inserted(e, sid)
    ensures Same(s, t, w, env)
    ensures t == SetPhase(s, w, Done(e)).(published := if env.published then s.published + [sid] else s.published)
  {
    hide Course;
    Advance(s, w, env);
    t := WorkerNext(s, StepAt(s.workers[w].phase, w, env), w);
  }

  /** Clear and ack. */
  lemma DoneGoes(s: Sys, w: nat, env: Env, e: nat) returns (t: Sys)
    requires w < |s.workers| && s.workers[w].phase == Done(e)
    ensures var b := if env.cleared then Forgotten(s.bus, e) else s.bus;
            t.bus == (if env.acked then Acked(b, e) else b)
    ensures t == SetPhase(s, w, Idle).(bus := t.bus, finished := OneMore(s, e)) && t == Course(s, w, env)
  {
    hide Course, Acked, Forgotten;
    Advance(s, w, env);
    var u := WorkerNext(s, StepAt(s.workers[w].phase, w, env), w);
    assert u.workers[w].phase == Cleared(e);
    Advance(u, w, env);
    t := WorkerNext(u, StepAt(u.workers[w].phase, w, env), w);
    CourseEnds(t, w, env);
  }

  lemma FailedGoes(s: Sys, w: nat, env: Env, e: nat) returns (t: Sys)
    requires w < |s.workers| && s.workers[w].phase == Failed(e)
    ensures Same(s, t, w, env) && t == Noting(s, w, e, env.counted, env.answered)
  {
    hide Course, Noting;
    Advance(s, w, env);
    t := Noting(s, w, e, env.counted, env.answered);
  }

  /** The dead-letter write and its ack. */
  lemma PoisonGoes(s: Sys, w: nat, env: Env, e: nat, n: nat) returns (t: Sys)
    requires w < |s.workers| && s.workers[w].phase == Poison(e, n)
    ensures var b := if env.written then Buried(s.bus, e, n) else s.bus;
            t.bus == (if env.deadAcked then Acked(b, e) else b)
    ensures t.rows == s.rows && t.uuids == s.uuids && t.published == s.published && t == Course(s, w, env)
  {
    hide Course, Acked, Buried;
    Advance(s, w, env);
    var u := WorkerNext(s, StepAt(s.workers[w].phase, w, env), w);
    assert u.workers[w].phase == Written(e);
    Advance(u, w, env);
    t := WorkerNext(u, StepAt(u.workers[w].phase, w, env), w);
    CourseEnds(t, w, env);
  }

  lemma CourseEnds(s: Sys, w: nat, env: Env)
    requires w < |s.workers| && s.workers[w].phase.Idle?
    ensures Course(s, w, env) == s
  {
  }

  /** The session table and the findings stream. */
  class Store {
    var rows: map<Sid, nat>
    var uuids: nat
    var published: seq<Sid>

    constructor ()
      ensures rows == map[] && uuids == 0 && published == []
    {
      rows, uuids, published := map[], 0, [];
    }
  }

  ghost predicate Shows(s: Sys, b: Bus, rows: map<Sid, nat>, uuids: nat, published: seq<Sid>) {
    s.bus == b && s.rows == rows && s.uuids == uuids && s.published == published
  }

  class Worker {
    const consumer: StreamConsumer
    const store: Store

    constructor (consumer: StreamConsumer, store: Store)
      ensures this.consumer == consumer && this.store == store
    {
      this.consumer, this.store := consumer, store;
    }

    /** Whether `s` is a state of the whole system that agrees with the objects. */
    ghost predicate Agrees(s: Sys)
      reads consumer, store
    {
      Shows(s, consumer.State(), store.rows, store.uuids, store.published)
    }

    /** The id and the insert; `ok` is false when it raised. */
    method Process(e: nat, env: Env, ghost s: Sys, ghost w: nat) returns (ok: bool, ghost t: Sys)
      requires Agrees(s) && w < |s.workers| && s.workers[w].phase == Busy(e) && e < |consumer.entries|
      requires consumer.entries[e].Session?
      modifies store
      ensures Agrees(t) && Same(s, t, w, env)
      ensures t.workers[w].phase == if ok then Done(e) else Failed(e)
    {
      hide Course, WorkerNext;
      t := BusyGoes(s, w, env, e);
      if env.fails { return false, t; }
      var sid := Uuid(store.uuids);
      if consumer.entries[e].key.Some? { sid := Det(consumer.entries[e].key.value); }
      assert sid == SidOf(s, e);
      if sid in store.rows { return true, t; }
      if sid.Uuid? { store.uuids := store.uuids + 1; }
      ok, t := Insert(e, sid, env, t, w);
    }

    /** The insert, which does not find the id taken, and the publication. */
    method Insert(e: nat, sid: Sid, env: Env, ghost s: Sys, ghost w: nat) returns (ok: bool, ghost t: Sys)
      requires Agrees(s) && w < |s.workers| && s.workers[w].phase == Checked(e, sid) && sid !in store.rows
      modifies store
      ensures Agrees(t) && Same(s, t, w, env)
      ensures t.workers[w].phase == if ok then Done(e) else Failed(e)
    {
      hide Course, WorkerNext;
      t := CheckedGoes(s, w, env, e, sid);
      if env.commit == RolledBack { return false, t; }
      store.rows := store.rows[sid := e];
      if env.commit == AnswerLost { return false, t; }
      t := InsertedGoes(t, w, env, e, sid);
      if env.published { store.published := store.published + [sid]; }
      ok := true;
    }

    /** Handling one entry: on failure count it, and bury it after the last attempt; otherwise clear the
        count and ack. The objects end as the worker's steps leave the system. An entry whose inner
        JSON does not parse raises first and changes nothing. */
    method HandleEntry(e: nat, env: Env, ghost s: Sys, ghost w: nat) returns (raised: bool)
      requires Agrees(s) && w < |s.workers| && e < |consumer.entries|
      requires s.workers[w].phase == if consumer.entries[e].Session? then Busy(e) else Idle
      modifies consumer, store
      ensures raised == !old(consumer.entries)[e].Session?
      ensures Agrees(Course(s, w, env))
    {
      hide Course, WorkerNext;
      if !consumer.entries[e].Session? {
        CourseEnds(s, w, env);
        return true;
      }
      raised := false;
      var ok;
      ghost var t;
      ok, t := Process(e, env, s, w);
      if ok {
        t := DoneGoes(t, w, env, e);
        consumer.ClearAttempts(e, env.cleared);
        consumer.Ack(e, env.acked);
      } else {
        t := FailedGoes(t, w, env, e);
        var n := consumer.NoteAttempt(e, env.counted, env.answered);
        if n >= MAX_ATTEMPTS {
          t := PoisonGoes(t, w, env, e, n);
          consumer.DeadLetter(e, n, env.written, env.deadAcked);
        } else {
          CourseEnds(t, w, env);
        }
      }
    }
  }
}
