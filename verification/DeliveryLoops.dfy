/** Each kind of disruption, alone, is enough for one entry to be handled any number of times: what the
    bound on retries counts cannot be left out of it. */
module DeliveryLoops {
  import opened Collections
  import opened Wrappers
  import opened Delivery
  import opened DeliveryRetries

  datatype Kind = Expired | Uncounted | Unanswered | LostAck | LostBurialAck | Died | HandedOn

  function KindOf(step: Step): Option<Kind> {
    match step
    case Expire => Some(Expired)
    case Note(_, counted, answered) =>
      if !counted then Some(Uncounted) else if !answered then Some(Unanswered) else None
    case Ack(_, ok) => if ok then None else Some(LostAck)
    case AckDead(_, ok) => if ok then None else Some(LostBurialAck)
    case Crash(_) => Some(Died)
    case Reclaim(_, _, _) => Some(HandedOn)
    case _ => None
  }

  /** The only steps of the run that disrupt entry 0 are of the given kind. */
  ghost predicate OnlyKind(s: Sys, steps: seq<Step>, kind: Kind) {
    forall k :: 0 <= k < |steps| && Disrupted(Run(s, steps[..k]), steps[k], 0) > 0 ==> KindOf(steps[k]) == Some(kind)
  }

  // ----- one worker, one entry -----

  const P := Session(Some("k"))
  const FREE := Worker([], Idle)

  const PICK: seq<Step> := [Reclaim(0, [0], true), Begin(0)]

  /** The steps that put the entry on the stream, deliver it, and store it though its handling fails. */
  const OPENING: seq<Step> :=
    [Enqueue(P), Poll(0, 1, true), Begin(0), Check(0), Commit(0, AnswerLost), Note(0, true, true)]

  /** The rest of a handling that the worker has picked up, with a disruption of the given kind. */
  function Ending(kind: Kind): seq<Step> {
    match kind
    case Expired => [Fail(0), Note(0, true, true), Expire, Begin(0)]
    case Uncounted => [Fail(0), Note(0, false, true), Begin(0), Begin(0)]
    case Unanswered => [Fail(0), Note(0, true, false), Begin(0), Begin(0)]
    case LostAck => [Check(0), Clear(0, true), Ack(0, false), Begin(0)]
    case LostBurialAck => [Fail(0), Note(0, true, true), Bury(0, true), AckDead(0, false)]
    case Died => [Check(0), Clear(0, true), Crash(0), Begin(0)]
    case HandedOn => FAILS
  }

  /** A failure with no disruption. */
  const FAILS: seq<Step> := [Fail(0), Note(0, true, true), Begin(0), Begin(0)]

  /** A worker that dies leaves its handling unfinished, so a failure comes before. */
  function Round(kind: Kind): seq<Step> {
    (if kind.Died? then PICK + FAILS else []) + (PICK + Ending(kind))
  }

  function Rounds(kind: Kind, n: nat): seq<Step> {
    if n == 0 then OPENING else Rounds(kind, n - 1) + Round(kind)
  }

  /** The entry is pending, stored, and held by nobody. */
  ghost predicate Ready(s: Sys, kind: Kind) {
    && s.bus.entries == [P] && s.bus.delivered == 1 && s.bus.pending == {0} && Det("k") in s.rows
    && s.workers == [FREE] && (kind.Expired? || kind.Died? ==> Attempts(s.bus, 0) <= 1)
  }

  lemma FourSteps(s: Sys, r: seq<Step>)
    requires |r| == 4
    ensures Run(s, r) == Next(Next(Next(Next(s, r[0]), r[1]), r[2]), r[3])
  {
    hide Next, Run;
    EmptyRun(s, r);
    RunNext(s, r, 0);
    RunNext(s, r, 1);
    RunNext(s, r, 2);
    RunNext(s, r, 3);
    assert r[..4] == r;
  }

  function Busied(s: Sys): Sys {
    s.(workers := [Worker([], Busy(0))])
  }

  lemma PickOne(s: Sys, kind: Kind)
    requires Ready(s, kind)
    ensures Run(s, PICK) == Busied(s)
  {
    hide WorkerNext, Readable, ElementsOf, Span, Polled;
    ReadableOne(s.bus);
    var todo: seq<nat> := [0];
    assert Next(s, PICK[0]) == s.(workers := [Worker(todo, Idle)]);
    assert todo[1..] == [];
    IdleNext(s.(workers := [Worker(todo, Idle)]), Begin(0), 0);
    EmptyRun(s, PICK);
    RunNext(s, PICK, 0);
    RunNext(s, PICK, 1);
    assert PICK[..2] == PICK;
  }

  lemma IdleOne(s: Sys, step: Step)
    requires NamesWorker(step) && step.w < |s.workers| && s.workers[step.w] == FREE
    ensures Next(s, step) == s
  {
    hide WorkerNext;
    IdleNext(s, step, step.w);
  }

  lemma FailOne(s: Sys, w: nat, counted: bool, answered: bool)
    requires w < |s.workers| && s.workers[w] == Worker([], Busy(0))
    ensures Next(Next(s, Fail(w)), Note(w, counted, answered)) == Noting(s, w, 0, counted, answered)
  {
    hide Attempts, Counted;
    assert Next(s, Fail(w)) == SetPhase(s, w, Failed(0));
  }

  /** What a round has to achieve. */
  ghost predicate Advances(s: Sys, s': Sys, kind: Kind) {
    Ready(s', kind) && FinishedOf(s', 0) == FinishedOf(s, 0) + 1
  }

  lemma FailingEnd(s: Sys, kind: Kind)
    requires Ready(s, kind) && (kind.Expired? || kind.Uncounted? || kind.Unanswered?)
    ensures Advances(s, Run(Busied(s), Ending(kind)), kind)
  {
    hide Run, Next;
    FourSteps(Busied(s), Ending(kind));
    FailOne(Busied(s), 0, !kind.Uncounted?, !kind.Unanswered?);
    var u := Noting(Busied(s), 0, 0, !kind.Uncounted?, !kind.Unanswered?);
    assert u.workers == [FREE];
    if kind.Expired? {
      assert Next(u, Expire) == u.(bus := u.bus.(attempts := map[])) by { ExpireIs(u); }
      IdleOne(Next(u, Expire), Begin(0));
    } else {
      IdleOne(u, Begin(0));
    }
  }

  lemma ExpireIs(s: Sys)
    ensures Next(s, Expire) == s.(bus := s.bus.(attempts := map[]))
  {
  }

  lemma BurialEnd(s: Sys)
    requires Ready(s, LostBurialAck)
    ensures Advances(s, Run(Busied(s), Ending(LostBurialAck)), LostBurialAck)
    ensures Attempts(Run(Busied(s), Ending(LostBurialAck)).bus, 0) == Attempts(s.bus, 0) + 1
  {
    hide Run, Next;
    var kind := LostBurialAck;
    FourSteps(Busied(s), Ending(kind));
    FailOne(Busied(s), 0, true, true);
    var u := Noting(Busied(s), 0, 0, true, true);
    if u.workers[0].phase.Idle? {
      assert u.workers == [FREE];
      IdleOne(u, Bury(0, true));
      IdleOne(u, AckDead(0, false));
    } else {
      BuryOne(u, 0, u.workers[0].phase.n, false);
    }
  }

  lemma BuryOne(s: Sys, w: nat, n: nat, ok: bool)
    requires w < |s.workers| && s.workers[w] == Worker([], Poison(0, n))
    ensures Next(Next(s, Bury(w, true)), AckDead(w, ok))
         == SetPhase(s, w, Idle).(finished := OneMore(s, 0),
                                  bus := if ok then Acked(Buried(s.bus, 0, n), 0) else Buried(s.bus, 0, n))
  {
    var t := Next(s, Bury(w, true));
    assert t == SetPhase(s, w, Written(0)).(bus := Buried(s.bus, 0, n));
  }

  lemma CheckOne(s: Sys)
    requires s.workers == [Worker([], Busy(0))] && s.bus.entries == [P] && Det("k") in s.rows
    ensures Next(Next(s, Check(0)), Clear(0, true))
         == s.(workers := [Worker([], Cleared(0))], bus := Forgotten(s.bus, 0))
  {
    assert Next(s, Check(0)) == SetPhase(s, 0, Done(0));
  }

  lemma AckOne(s: Sys)
    requires s.workers == [Worker([], Cleared(0))]
    ensures Next(s, Ack(0, false)) == s.(workers := [FREE], finished := OneMore(s, 0))
    ensures Next(s, Crash(0)) == s.(workers := [FREE])
  {
  }

  lemma ClearedEnd(s: Sys, kind: Kind)
    requires Ready(s, LostAck) && (kind.LostAck? || kind.Died?)
    ensures var s' := Run(Busied(s), Ending(kind));
            Ready(s', kind) && FinishedOf(s', 0) == FinishedOf(s, 0) + if kind.LostAck? then 1 else 0
  {
    hide Run, Next;
    FourSteps(Busied(s), Ending(kind));
    CheckOne(Busied(s));
    var u := Busied(s).(workers := [Worker([], Cleared(0))], bus := Forgotten(s.bus, 0));
    AckOne(u);
    IdleOne(u.(workers := [FREE], finished := OneMore(u, 0)), Begin(0));
    IdleOne(u.(workers := [FREE]), Begin(0));
  }

  lemma FailsEnd(s: Sys)
    requires Ready(s, Died)
    ensures Advances(s, Run(Busied(s), FAILS), LostAck)
  {
    hide Run, Next;
    FourSteps(Busied(s), FAILS);
    FailOne(Busied(s), 0, true, true);
    IdleOne(Noting(Busied(s), 0, 0, true, true), Begin(0));
  }

  lemma OneRound(s: Sys, kind: Kind)
    requires Ready(s, kind) && !kind.HandedOn?
    ensures Advances(s, Run(s, Round(kind)), kind)
  {
    hide Run, Next, PICK, FAILS;
    assert Ready(s, LostAck);
    PickOne(s, kind);
    RunAppends(s, PICK, Ending(kind));
    if kind.Died? {
      var t := Run(Busied(s), FAILS);
      RunAppends(s, PICK, FAILS);
      FailsEnd(s);
      PickOne(t, LostAck);
      RunAppends(t, PICK, Ending(kind));
      RunAppends(s, PICK + FAILS, PICK + Ending(kind));
      ClearedEnd(t, kind);
    } else {
      assert Round(kind) == PICK + Ending(kind);
      if kind.LostAck? {
        ClearedEnd(s, kind);
      } else if kind.LostBurialAck? {
        BurialEnd(s);
      } else {
        FailingEnd(s, kind);
      }
    }
  }

  lemma Opens(kind: Kind)
    ensures var s := Run(Start(1), OPENING); Ready(s, kind) && Attempts(s.bus, 0) == 1
  {
    hide Run, Next;
    var (b, w) := (Bus([P], 1, {0}, map[], []), Worker([], Busy(0)));
    EmptyRun(Start(1), OPENING);
    FiveMore(Start(1), OPENING, 0);
    RunNext(Start(1), OPENING, 5);
    assert OPENING[..6] == OPENING;
    EnqueueOne(P);
    PollOne(P);
    BeginOne(b, map[], 0);
    StoreOne(b);
  }

  lemma StoreOne(b: Bus)
    requires b == Bus([P], 1, {0}, map[], [])
    ensures var s := OneWorker(b, map[], 0, Worker([], Busy(0)));
            var s' := Next(Next(Next(s, Check(0)), Commit(0, AnswerLost)), Note(0, true, true));
            s'.bus == Counted(b, 0) && s'.workers == [FREE] && s'.rows == map[Det("k") := 0]
  {
    var s := OneWorker(b, map[], 0, Worker([], Busy(0)));
    var t := Next(s, Check(0));
    assert t == SetPhase(s, 0, Checked(0, Det("k")));
    var u := Next(t, Commit(0, AnswerLost));
    assert u == SetPhase(t, 0, Failed(0)).(rows := map[Det("k") := 0]);
    assert Next(u, Note(0, true, true)) == Noting(u, 0, 0, true, true);
  }

  lemma {:induction false} RoundsGoOn(kind: Kind, n: nat)
    requires !kind.HandedOn?
    ensures var s := Run(Start(1), Rounds(kind, n)); Ready(s, kind) && FinishedOf(s, 0) >= n
  {
    hide Run, Start, Ready, Round;
    if n == 0 {
      Opens(kind);
    } else {
      RoundsGoOn(kind, n - 1);
      RunAppends(Start(1), Rounds(kind, n - 1), Round(kind));
      OneRound(Run(Start(1), Rounds(kind, n - 1)), kind);
    }
  }

  /** When the ack of a burial is lost, the next failure counts past MAX_ATTEMPTS, and so on for ever. */
  lemma {:induction false} LostBurialsPassTheCap(n: nat)
    ensures var s := Run(Start(1), Rounds(LostBurialAck, n)); Ready(s, LostBurialAck) && Attempts(s.bus, 0) == n + 1
  {
    hide Run, Start, Ready, PICK, Ending, Attempts, Next;
    if n == 0 {
      Opens(LostBurialAck);
    } else {
      LostBurialsPassTheCap(n - 1);
      var s := Run(Start(1), Rounds(LostBurialAck, n - 1));
      assert Round(LostBurialAck) == PICK + Ending(LostBurialAck);
      RunAppends(Start(1), Rounds(LostBurialAck, n - 1), Round(LostBurialAck));
      RunAppends(s, PICK, Ending(LostBurialAck));
      PickOne(s, LostBurialAck);
      BurialEnd(s);
    }
  }

  // ----- which steps disrupt -----

  /** A step of the kind, or one that does not disrupt when there is one worker. */
  ghost predicate Plain(step: Step, kind: Kind) {
    step == PICK[0] || KindOf(step).None? || KindOf(step) == Some(kind)
  }

  lemma {:induction false} RoundsArePlain(kind: Kind, n: nat)
    requires !kind.HandedOn?
    ensures forall step <- Rounds(kind, n) :: Plain(step, kind)
  {
    if n > 0 { RoundsArePlain(kind, n - 1); }
  }

  lemma PlainDisrupts(s: Sys, step: Step, kind: Kind)
    requires |s.workers| == 1 && Plain(step, kind) && Disrupted(s, step, 0) > 0
    ensures KindOf(step) == Some(kind)
  {
    if step == PICK[0] {
      SoloReclaim(s);
    }
  }

  /** The only worker, when free, is the first holder of what it reclaims. */
  lemma SoloReclaim(s: Sys)
    requires |s.workers| == 1
    ensures Handed(s, Reclaim(0, [0], true), 0) == 0
  {
    hide WorkerNext, ElementsOf, Polled;
    var s' := Next(s, Reclaim(0, [0], true));
    if s' != s {
      ReadableCount(s.bus, [0], 0);
      assert Holders(s'.workers, 0) == HoldCount(s'.workers[0], 0) by { assert s'.workers[..0] == []; }
    }
  }

  lemma {:induction false} WorkersStay(workers: nat, steps: seq<Step>)
    ensures |Run(Start(workers), steps).workers| == workers
  {
    hide Next, Start;
    if steps != [] {
      WorkersStay(workers, steps[..|steps| - 1]);
      StepGrows(Run(Start(workers), steps[..|steps| - 1]), steps[|steps| - 1]);
    } else {
      StartWorkers(workers);
    }
  }

  lemma StartWorkers(workers: nat)
    ensures |Start(workers).workers| == workers
  {
  }

  // ----- an entry handed on -----

  ghost predicate Taken(s: Sys, k: nat) {
    && s.bus.entries == [P] && s.bus.delivered == 1 && s.bus.pending == {0}
    && forall w :: 0 <= w < |s.workers| ==> s.workers[w] == if w < k then Worker([0], Idle) else FREE
  }

  /** Each of the first k workers is given the entry, before any of them handles it. */
  function Takes(k: nat): seq<Step> {
    if k == 0 then []
    else if k == 1 then [Enqueue(P), Poll(0, 1, true)]
    else Takes(k - 1) + [Reclaim(k - 1, [0], true)]
  }

  function Handling(w: nat): seq<Step> {
    [Begin(w), Fail(w), Note(w, true, true), Bury(w, true), AckDead(w, true)]
  }

  function Handlings(n: nat, k: nat): seq<Step> {
    if k == 0 then Takes(n) else Handlings(n, k - 1) + Handling(k - 1)
  }

  /** The workers from k on still have to handle it; the others have. */
  ghost predicate Left(s: Sys, k: nat) {
    && s.bus.entries == [P] && s.bus.delivered == 1 && FinishedOf(s, 0) >= k
    && forall w :: k <= w < |s.workers| ==> s.workers[w] == Worker([0], Idle)
  }

  lemma OneTakes(s: Sys, k: nat)
    requires 0 < k < |s.workers| && Taken(s, k)
    ensures Taken(Next(s, Reclaim(k, [0], true)), k + 1)
  {
    hide WorkerNext, Readable, ElementsOf, Polled;
    ReadableOne(s.bus);
  }

  lemma FirstTakes(n: nat)
    requires n > 0
    ensures Taken(Run(Start(n), Takes(1)), 1)
  {
    hide WorkerNext, Readable, ElementsOf, Polled, Run;
    var r := Takes(1);
    EmptyRun(Start(n), r);
    RunNext(Start(n), r, 0);
    RunNext(Start(n), r, 1);
    assert r[..2] == r;
    assert Next(Start(n), r[0]) == Start(n).(bus := Bus([P], 0, {}, map[], []));
    PolledFirst();
    ReadableOne(Bus([P], 1, {0}, map[], []));
  }

  lemma PolledFirst()
    ensures Polled(Bus([P], 0, {}, map[], []), 1) == Bus([P], 1, {0}, map[], [])
  {
    ReadableOne(Bus([P], 1, {0}, map[], []));
  }

  lemma {:induction false} TakesAll(n: nat, k: nat)
    requires 0 < k <= n
    ensures Taken(Run(Start(n), Takes(k)), k)
  {
    hide Run, Start, Taken, Next;
    if k == 1 {
      FirstTakes(n);
    } else {
      TakesAll(n, k - 1);
      WorkersStay(n, Takes(k - 1));
      OneTakes(Run(Start(n), Takes(k - 1)), k - 1);
      RunMore(Start(n), Takes(k - 1), Reclaim(k - 1, [0], true));
    }
  }

  lemma RunMore(s: Sys, steps: seq<Step>, step: Step)
    ensures Run(s, steps + [step]) == Next(Run(s, steps), step)
  {
    assert (steps + [step])[..|steps|] == steps;
  }

  lemma BeginTaken(s: Sys, k: nat)
    requires k < |s.workers| && s.workers[k] == Worker([0], Idle) && s.bus.entries == [P]
    ensures Next(s, Begin(k)) == s.(workers := s.workers[k := Worker([], Busy(0))])
  {
    hide WorkerNext;
    var todo: seq<nat> := [0];
    assert todo[1..] == [];
    IdleNext(s, Begin(k), k);
  }

  /** After its failure was counted a worker is through with the entry, or buries it. */
  lemma NotingLeft(s: Sys, k: nat)
    requires k < |s.workers| && Left(s, k)
    ensures var u := Noting(s.(workers := s.workers[k := Worker([], Busy(0))]), k, 0, true, true);
            && |u.workers| == |s.workers| && u.workers == s.workers[k := u.workers[k]] && u.workers[k].todo == []
            && u.bus.entries == [P] && u.bus.delivered == 1
            && if u.workers[k].phase.Idle? then FinishedOf(u, 0) > k
               else FinishedOf(u, 0) >= k && u.workers[k].phase.Poison? && u.workers[k].phase.e == 0
  {
    hide Attempts;
  }

  lemma OneHandles(s: Sys, k: nat)
    requires k < |s.workers| && Left(s, k)
    ensures Left(Run(s, Handling(k)), k + 1)
  {
    hide Run, Next, Noting, FailsOf, Attempts;
    var r := Handling(k);
    EmptyRun(s, r);
    FiveMore(s, r, 0);
    assert r[..5] == r;
    BeginTaken(s, k);
    var t := s.(workers := s.workers[k := Worker([], Busy(0))]);
    FailOne(t, k, true, true);
    var u := Noting(t, k, 0, true, true);
    NotingLeft(s, k);
    if u.workers[k].phase.Idle? {
      IdleOne(u, Bury(k, true));
      IdleOne(u, AckDead(k, true));
    } else {
      BuryOne(u, k, u.workers[k].phase.n, true);
    }
  }

  lemma {:induction false} HandlingsGoOn(n: nat, k: nat)
    requires 0 < n && k <= n
    ensures Left(Run(Start(n), Handlings(n, k)), k)
  {
    hide Run, Start, Left, Handling;
    if k == 0 {
      TakesAll(n, n);
      WorkersStay(n, Takes(n));
      TakenIsLeft(Run(Start(n), Takes(n)), n);
    } else {
      HandlingsGoOn(n, k - 1);
      WorkersStay(n, Handlings(n, k - 1));
      OneHandles(Run(Start(n), Handlings(n, k - 1)), k - 1);
      RunAppends(Start(n), Handlings(n, k - 1), Handling(k - 1));
    }
  }

  lemma TakenIsLeft(s: Sys, n: nat)
    requires Taken(s, n) && |s.workers| == n
    ensures Left(s, 0)
  {
  }

  lemma {:induction false} HandlingsHandOn(n: nat, k: nat)
    ensures forall step <- Handlings(n, k) :: KindOf(step).None? || KindOf(step) == Some(HandedOn)
    decreases n + k
  {
    if k > 0 {
      HandlingsHandOn(n, k - 1);
    } else if n > 1 {
      HandlingsHandOn(n - 1, 0);
    }
  }

  lemma DisruptsAsKind(s: Sys, step: Step)
    requires Disrupted(s, step, 0) > 0
    ensures KindOf(step).Some?
  {
    hide Handed;
  }

  /** For each kind there are runs with one delivered entry, disrupted by steps of that kind only, in
      which its handling ends any number of times. */
  lemma EachKindAloneIsUnbounded(kind: Kind, n: nat) returns (workers: nat, steps: seq<Step>)
    ensures OnlyKind(Start(workers), steps, kind)
    ensures var s := Run(Start(workers), steps); s.bus.delivered == 1 && FinishedOf(s, 0) >= n
  {
    hide Run, Start, Disrupted, KindOf;
    if kind.HandedOn? {
      workers, steps := n + 1, Handlings(n + 1, n + 1);
      HandlingsGoOn(n + 1, n + 1);
      HandlingsHandOn(n + 1, n + 1);
      forall k | 0 <= k < |steps| && Disrupted(Run(Start(workers), steps[..k]), steps[k], 0) > 0
        ensures KindOf(steps[k]) == Some(kind)
      {
        DisruptsAsKind(Run(Start(workers), steps[..k]), steps[k]);
      }
    } else {
      workers, steps := 1, Rounds(kind, n);
      RoundsGoOn(kind, n);
      RoundsArePlain(kind, n);
      forall k | 0 <= k < |steps| && Disrupted(Run(Start(workers), steps[..k]), steps[k], 0) > 0
        ensures KindOf(steps[k]) == Some(kind)
      {
        WorkersStay(1, steps[..k]);
        PlainDisrupts(Run(Start(workers), steps[..k]), steps[k], kind);
      }
    }
  }
}
