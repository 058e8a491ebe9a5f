/** Alert budgets: a sliding-window rate limit and a deduplication map, shared through Redis and kept
    in memory while Redis is away. Times are in ticks of any fixed length; `minute` is 60 seconds. */
module AlertState {
  import opened Collections
  import opened Wrappers
  import opened Oldest

  // ----- the rate limit -----

  /** A member of the sorted set: the time of the call and the calling instance. */
  datatype Member = Member(time: int, id: int)

  /** [t for t in times if t > after]. */
  function Recent(times: seq<int>, after: int): seq<int> {
    if times == [] then []
    else
      var front, last := Recent(times[..|times| - 1], after), times[|times| - 1];
      if last > after then front + [last] else front
  }

  /** The memory path: the times kept, and the verdict. */
  function MemRate(kept: seq<int>, now: int, rate: int, minute: int): (seq<int>, bool) {
    var recent := Recent(kept, now - minute);
    if |recent| >= rate then (recent, false) else (recent + [now], true)
  }

  /** zadd, then zremrangebyscore 0..now-minute. */
  function ZWindow(z: map<Member, int>, m: Member, minute: int): map<Member, int> {
    var added := z[m := m.time];
    map x | x in added && !(0 <= added[x] <= m.time - minute) :: added[x]
  }

  // ----- deduplication -----

  const DEDUP_CAP := 5000
  const DEDUP_EVICT := 1000

  /** The memory map and its insertion order. */
  datatype Dedup = Dedup(stamps: map<string, int>, order: seq<string>)

  function Filtered(order: seq<string>, stamps: map<string, int>): (r: seq<string>)
    ensures forall k :: k in r <==> k in order && k in stamps
  {
    if order == [] then []
    else if order[0] in stamps then [order[0]] + Filtered(order[1..], stamps)
    else Filtered(order[1..], stamps)
  }

  ghost predicate Consistent(d: Dedup) {
    && (forall k :: k in d.order <==> k in d.stamps)
    && (forall i, j :: 0 <= i < j < |d.order| ==> d.order[i] != d.order[j])
  }

  function Prefix(ks: seq<string>, n: nat): seq<string> {
    if n <= |ks| then ks[..n] else ks
  }

  /** Above the cap the oldest thousand keys go. */
  function Trimmed(d: Dedup): Dedup
    requires forall k <- d.order :: k in d.stamps
  {
    if |d.stamps| <= DEDUP_CAP then d
    else
      var victims := Prefix(SortByStamp(d.stamps, d.order), DEDUP_EVICT);
      var stamps := map k | k in d.stamps && k !in victims :: d.stamps[k];
      Dedup(stamps, Filtered(d.order, stamps))
  }

  function Noted(d: Dedup, key: string, now: int): Dedup {
    Dedup(d.stamps[key := now], if key in d.stamps then d.order else d.order + [key])
  }

  predicate IsFresh(d: Dedup, key: string, now: int, window: int) {
    now - (if key in d.stamps then d.stamps[key] else 0) >= window
  }

  function MemDedup(d: Dedup, key: string, now: int, window: int): (Dedup, bool)
    requires forall k <- d.order :: k in d.stamps
  {
    if IsFresh(d, key, now, window) then (Trimmed(Noted(d, key, now)), true) else (d, false)
  }

  /** SET with NX and EX: it is done, and says so, unless the key is there and has not expired. */
  function SetNx(expiry: map<string, int>, key: string, now: int, window: int): (map<string, int>, bool) {
    if key in expiry && now < expiry[key] then (expiry, false) else (expiry[key := now + window], true)
  }

  // ----- the objects -----

  /** How a call to Redis goes: it answers; it fails; or it takes effect and the answer is lost. */
  datatype Reply = Answered | Failed | AnswerLost

  /** What the instances share while Redis is up: the sorted set, and the dedup keys with the time
      at which each expires. */
  class Redis {
    var rate: map<Member, int>
    var dedup: map<string, int>

    constructor ()
      ensures rate == map[] && dedup == map[]
    {
      rate, dedup := map[], map[];
    }
  }

  class RedisAlertState {
    const id: int
    const redis: Redis
    const dedupWindow: int
    const ratePerMinute: int
    const minute: int
    var memRate: seq<int>
    var memDedup: Dedup

    constructor (id: int, redis: Redis, dedupWindow: int, ratePerMinute: int, minute: int)
      ensures this.id == id && this.redis == redis && this.dedupWindow == dedupWindow
      ensures this.ratePerMinute == ratePerMinute && this.minute == minute
      ensures memRate == [] && memDedup == Dedup(map[], []) && Consistent(memDedup)
    {
      this.id, this.redis, this.dedupWindow := id, redis, dedupWindow;
      this.ratePerMinute, this.minute := ratePerMinute, minute;
      memRate, memDedup := [], Dedup(map[], []);
    }

    /** Redis, when it answers, decides; when it does not, the memory does, whether or not the call took
        effect. */
    method CheckRate(now: int, reply: Reply) returns (admitted: bool)
      modifies this`memRate, redis`rate
      ensures redis.rate == if reply.Failed? then old(redis.rate) else ZWindow(old(redis.rate), Member(now, id), minute)
      ensures reply.Answered? ==> memRate == old(memRate) && admitted == (|redis.rate| <= ratePerMinute)
      ensures !reply.Answered? ==> (memRate, admitted) == MemRate(old(memRate), now, ratePerMinute, minute)
    {
      if !reply.Failed? { redis.rate := ZWindow(redis.rate, Member(now, id), minute); }
      if reply.Answered? { return |redis.rate| <= ratePerMinute; }
      var kept: seq<int> := [];
      for i := 0 to |memRate|
        invariant memRate == old(memRate)
        invariant kept == Recent(memRate[..i], now - minute)
      {
        assert memRate[..i + 1][..i] == memRate[..i];
        if memRate[i] > now - minute { kept := kept + [memRate[i]]; }
      }
      assert memRate[..|memRate|] == memRate;
      memRate := kept;
      if |memRate| >= ratePerMinute { return false; }
      memRate := memRate + [now];
      admitted := true;
    }

    method CheckAndSetDedup(key: string, now: int, reply: Reply) returns (unseen: bool)
      requires Consistent(memDedup)
      modifies this`memDedup, redis`dedup
      ensures redis.dedup
           == if reply.Failed? then old(redis.dedup) else SetNx(old(redis.dedup), key, now, dedupWindow).0
      ensures reply.Answered? ==> memDedup == old(memDedup)
      ensures reply.Answered? ==> unseen == SetNx(old(redis.dedup), key, now, dedupWindow).1
      ensures !reply.Answered? ==> (memDedup, unseen) == MemDedup(old(memDedup), key, now, dedupWindow)
    {
      var ok := !(key in redis.dedup && now < redis.dedup[key]);
      if !reply.Failed? && ok { redis.dedup := redis.dedup[key := now + dedupWindow]; }
      if reply.Answered? { return ok; }
      var last := if key in memDedup.stamps then memDedup.stamps[key] else 0;
      if now - last < dedupWindow { return false; }
      memDedup := Trimmed(Noted(memDedup, key, now));
      unseen := true;
    }
  }

  // ----- the memory path keeps the budget -----

  ghost predicate Ascending(ts: seq<int>) {
    forall i, j :: 0 <= i < j < |ts| ==> ts[i] <= ts[j]
  }

  /** The memory path over a sequence of calls: what it keeps, and the times it admitted. */
  datatype MemLog = MemLog(kept: seq<int>, admitted: seq<int>)

  function MemRun(calls: seq<int>, rate: int, minute: int): MemLog {
    if calls == [] then MemLog([], [])
    else
      var before, now := MemRun(calls[..|calls| - 1], rate, minute), calls[|calls| - 1];
      var (kept, ok) := MemRate(before.kept, now, rate, minute);
      MemLog(kept, if ok then before.admitted + [now] else before.admitted)
  }

  /** r is the part of ts after a time, and starts at place n. */
  ghost predicate SuffixAfter(ts: seq<int>, n: nat, r: seq<int>, after: int) {
    n + |r| == |ts| && r == ts[n..] && forall i :: 0 <= i < |ts| ==> (ts[i] > after <==> n <= i)
  }

  lemma SuffixMore(front: seq<int>, last: int, n: nat, r: seq<int>, after: int)
    requires SuffixAfter(front, n, r, after) && forall t <- front :: t <= last
    ensures last > after ==> SuffixAfter(front + [last], n, r + [last], after)
    ensures last <= after ==> r == [] && SuffixAfter(front + [last], n + 1, [], after)
  {
    if r != [] { assert front[n] in front && front[n] > after; }
  }

  lemma SuffixIs(ts: seq<int>, n: nat, r: seq<int>, after: int)
    requires SuffixAfter(ts, n, r, after)
    ensures |r| <= |ts| && n == |ts| - |r| && r == ts[|ts| - |r|..]
    ensures forall i :: 0 <= i < |ts| ==> (ts[i] > after <==> |ts| - |r| <= i)
  {
  }

  lemma {:induction false} RecentAt(ts: seq<int>, after: int) returns (n: nat)
    requires Ascending(ts)
    ensures SuffixAfter(ts, n, Recent(ts, after), after)
  {
    hide SuffixAfter;
    if ts == [] {
      n := 0;
      assert SuffixAfter([], 0, [], after) by { EmptySuffix(after); }
    } else {
      var front, last := ts[..|ts| - 1], ts[|ts| - 1];
      n := RecentAt(front, after);
      SuffixMore(front, last, n, Recent(front, after), after);
      assert ts == front + [last];
      if last <= after { n := n + 1; }
    }
  }

  lemma EmptySuffix(after: int)
    ensures SuffixAfter([], 0, [], after)
  {
  }

  lemma RecentIsSuffix(ts: seq<int>, after: int)
    requires Ascending(ts)
    ensures |Recent(ts, after)| <= |ts| && Recent(ts, after) == ts[|ts| - |Recent(ts, after)|..]
    ensures forall i :: 0 <= i < |ts| ==> (ts[i] > after <==> |ts| - |Recent(ts, after)| <= i)
  {
    hide Recent;
    var n := RecentAt(ts, after);
    SuffixIs(ts, n, Recent(ts, after), after);
  }

  /** At most `rate` times lie within less than a minute of each other. */
  ghost predicate WithinBudget(admitted: seq<int>, rate: int, minute: int) {
    forall i, j :: 0 <= i <= j < |admitted| && admitted[j] - admitted[i] < minute ==> j - i + 1 <= rate
  }

  /** The kept times are the admitted ones of the last minute before `now`, and maybe older. */
  ghost predicate KeepsRecent(l: MemLog, now: int, minute: int) {
    && Ascending(l.admitted) && (forall t <- l.admitted :: t <= now)
    && |l.kept| <= |l.admitted| && l.kept == l.admitted[|l.admitted| - |l.kept|..]
    && forall i :: 0 <= i < |l.admitted| - |l.kept| ==> l.admitted[i] <= now - minute
  }

  /** Filtering what is kept leaves exactly the admitted times of the last minute, from number m on. */
  lemma KeptAfterFilter(l: MemLog, prev: int, now: int, minute: int) returns (m: nat)
    requires KeepsRecent(l, prev, minute) && prev <= now
    ensures m <= |l.admitted| && Recent(l.kept, now - minute) == l.admitted[m..]
    ensures forall i :: 0 <= i < |l.admitted| ==> (l.admitted[i] > now - minute <==> m <= i)
  {
    hide Recent;
    var k := |l.admitted| - |l.kept|;
    assert forall i :: 0 <= i < |l.kept| ==> l.kept[i] == l.admitted[k + i];
    RecentIsSuffix(l.kept, now - minute);
    m := |l.admitted| - |Recent(l.kept, now - minute)|;
    forall i | 0 <= i < |l.admitted|
      ensures l.admitted[i] > now - minute <==> m <= i
    {
      if i >= k { assert l.admitted[i] == l.kept[i - k]; }
    }
  }

  lemma AscendingMore(ts: seq<int>, now: int)
    requires Ascending(ts) && forall t <- ts :: t <= now
    ensures Ascending(ts + [now]) && forall t <- ts + [now] :: t <= now
  {
    forall i | 0 <= i < |ts|
      ensures ts[i] <= now
    {
      assert ts[i] in ts;
    }
  }

  lemma AdmitKeepsBudget(admitted: seq<int>, m: nat, now: int, rate: int, minute: int)
    requires WithinBudget(admitted, rate, minute) && m <= |admitted| && |admitted| - m < rate
    requires forall i :: 0 <= i < |admitted| ==> (admitted[i] > now - minute <==> m <= i)
    ensures WithinBudget(admitted + [now], rate, minute)
  {
  }

  lemma MemStep(l: MemLog, prev: int, now: int, rate: int, minute: int)
    requires KeepsRecent(l, prev, minute) && WithinBudget(l.admitted, rate, minute) && prev <= now
    ensures var (kept, ok) := MemRate(l.kept, now, rate, minute);
            var l' := MemLog(kept, if ok then l.admitted + [now] else l.admitted);
            KeepsRecent(l', now, minute) && WithinBudget(l'.admitted, rate, minute)
  {
    hide Recent, WithinBudget;
    var m := KeptAfterFilter(l, prev, now, minute);
    var recent := Recent(l.kept, now - minute);
    assert m == |l.admitted| - |recent|;
    if |recent| < rate {
      AscendingMore(l.admitted, now);
      AdmitKeepsBudget(l.admitted, m, now, rate, minute);
      assert (l.admitted + [now])[m..] == recent + [now];
    }
  }

  /** The memory path admits at most `rate` alerts in any minute. */
  lemma {:induction false} MemoryKeepsTheBudget(calls: seq<int>, rate: int, minute: int)
    requires Ascending(calls)
    ensures WithinBudget(MemRun(calls, rate, minute).admitted, rate, minute)
    ensures KeepsRecent(MemRun(calls, rate, minute), if calls == [] then 0 else calls[|calls| - 1], minute)
  {
    hide MemRate, KeepsRecent, WithinBudget;
    if calls == [] {
      EmptyLog(0, rate, minute);
    } else {
      var front := calls[..|calls| - 1];
      MemoryKeepsTheBudget(front, rate, minute);
      if front == [] { EmptyLog(calls[0], rate, minute); }
      MemStep(MemRun(front, rate, minute),
        if front == [] then calls[0] else front[|front| - 1], calls[|calls| - 1], rate, minute);
    }
  }

  lemma LogAdmitsIff(l: MemLog, prev: int, now: int, rate: int, minute: int)
    requires KeepsRecent(l, prev, minute) && prev <= now
    ensures MemRate(l.kept, now, rate, minute).1 <==> |Recent(l.admitted, now - minute)| < rate
  {
    hide Recent;
    var m := KeptAfterFilter(l, prev, now, minute);
    RecentIsSuffix(l.admitted, now - minute);
    var n := |l.admitted| - |Recent(l.admitted, now - minute)|;
    SuffixStart(l.admitted, now - minute, m, n);
    SuffixStart(l.admitted, now - minute, n, m);
  }

  /** It admits a call exactly when it has admitted fewer than `rate` in the minute before. */
  lemma MemoryAdmitsIff(calls: seq<int>, now: int, rate: int, minute: int)
    requires Ascending(calls + [now])
    ensures var l := MemRun(calls, rate, minute);
            MemRate(l.kept, now, rate, minute).1 <==> |Recent(l.admitted, now - minute)| < rate
  {
    hide Recent, MemRate, KeepsRecent, WithinBudget;
    var all := calls + [now];
    assert forall i :: 0 <= i < |calls| ==> all[i] == calls[i];
    assert all[|calls|] == now;
    MemoryKeepsTheBudget(calls, rate, minute);
    EmptyLog(now, rate, minute);
    LogAdmitsIff(MemRun(calls, rate, minute), if calls == [] then now else calls[|calls| - 1], now, rate, minute);
  }

  lemma SuffixStart(ts: seq<int>, after: int, m: nat, n: nat)
    requires m <= |ts| && n <= |ts|
    requires forall i :: 0 <= i < |ts| ==> (ts[i] > after <==> m <= i)
    requires forall i :: 0 <= i < |ts| ==> (ts[i] > after <==> n <= i)
    ensures m <= n
  {
    if n < |ts| { assert ts[n] > after; }
  }

  lemma EmptyLog(now: int, rate: int, minute: int)
    ensures KeepsRecent(MemLog([], []), now, minute) && WithinBudget([], rate, minute)
  {
  }

  // ----- the shared path keeps the budget -----

  /** The sorted set after a sequence of calls by any instances, and the verdict of the last one. */
  function ZRun(ms: seq<Member>, minute: int): map<Member, int> {
    if ms == [] then map[] else ZWindow(ZRun(ms[..|ms| - 1], minute), ms[|ms| - 1], minute)
  }

  predicate ZAdmits(ms: seq<Member>, rate: int, minute: int) {
    |ZRun(ms, minute)| <= rate
  }

  ghost predicate InTime(ms: seq<Member>) {
    (forall m <- ms :: 0 <= m.time) && forall i, j :: 0 <= i < j < |ms| ==> ms[i].time <= ms[j].time
  }

  ghost function LastMinute(ms: seq<Member>, minute: int): set<Member>
    requires ms != []
  {
    set m | m in ms && m.time > ms[|ms| - 1].time - minute
  }

  lemma ZStep(z: map<Member, int>, all: set<Member>, m: Member, prev: int, minute: int)
    requires prev <= m.time && (forall x <- all :: 0 <= x.time) && 0 <= m.time
    requires forall x :: x in z <==> x in all && x.time > prev - minute
    requires forall x <- z :: z[x] == x.time
    ensures var z' := ZWindow(z, m, minute);
            && (forall x :: x in z' <==> (x in all || x == m) && x.time > m.time - minute)
            && (forall x <- z' :: z'[x] == x.time)
  {
  }

  /** The set holds exactly the calls of the last minute, rejected ones too. */
  lemma {:induction false} ZHoldsTheLastMinute(ms: seq<Member>, minute: int)
    requires InTime(ms) && ms != []
    ensures forall m :: m in ZRun(ms, minute) <==> m in LastMinute(ms, minute)
    ensures forall m <- ZRun(ms, minute) :: ZRun(ms, minute)[m] == m.time
  {
    hide ZWindow;
    var front, last := ms[..|ms| - 1], ms[|ms| - 1];
    var all := ElementsOf(front);
    assert forall m :: m in ms <==> m in all || m == last;
    if front != [] {
      ZHoldsTheLastMinute(front, minute);
      ZStep(ZRun(front, minute), all, last, front[|front| - 1].time, minute);
    } else {
      ZStep(map[], {}, last, last.time, minute);
    }
  }

  /** A call is admitted exactly when the last minute, the call included, holds at most `rate` calls. */
  lemma SharedAdmitsIff(ms: seq<Member>, rate: int, minute: int)
    requires InTime(ms) && ms != []
    ensures ZAdmits(ms, rate, minute) <==> |LastMinute(ms, minute)| <= rate
  {
    hide ZRun, LastMinute;
    ZHoldsTheLastMinute(ms, minute);
    assert ZRun(ms, minute).Keys == LastMinute(ms, minute);
  }

  /** Calls i to j, told apart by time and instance, all within a minute of call j. */
  lemma GroupIsRecent(ms: seq<Member>, i: nat, j: nat, minute: int)
    requires InTime(ms) && i <= j < |ms| && ms[j].time - ms[i].time < minute
    requires forall k, l :: i <= k < l <= j ==> ms[k] != ms[l]
    ensures var group := ElementsOf(ms[i..j + 1]);
            group <= LastMinute(ms[..j + 1], minute) && |group| == j - i + 1
  {
    var upto, group := ms[..j + 1], ms[i..j + 1];
    forall k, l | 0 <= k < l < |group|
      ensures group[k] != group[l]
    {
      assert group[k] == ms[i + k] && group[l] == ms[i + l];
    }
    DistinctSize(group, ElementsOf(group));
    forall m | m in group
      ensures m in LastMinute(upto, minute)
    {
      var k :| 0 <= k < |group| && group[k] == m;
      assert m == ms[i + k] == upto[i + k];
    }
  }

  /** The shared path: whenever a call is admitted, the calls of the minute up to it, by all instances
      and rejected ones included, are at most `rate`; this needs those calls to be told apart by time
      and instance. */
  lemma SharedKeepsTheBudget(ms: seq<Member>, i: nat, j: nat, rate: int, minute: int)
    requires InTime(ms) && i <= j < |ms| && ms[j].time - ms[i].time < minute
    requires forall k, l :: i <= k < l <= j ==> ms[k] != ms[l]
    requires ZAdmits(ms[..j + 1], rate, minute)
    ensures j - i + 1 <= rate
  {
    hide ZRun, LastMinute;
    GroupIsRecent(ms, i, j, minute);
    InTimePrefix(ms, j + 1);
    ZHoldsTheLastMinute(ms[..j + 1], minute);
    SubsetSize(ElementsOf(ms[i..j + 1]), ZRun(ms[..j + 1], minute).Keys);
  }

  lemma InTimePrefix(ms: seq<Member>, n: nat)
    requires InTime(ms) && n <= |ms|
    ensures InTime(ms[..n])
  {
    assert forall m <- ms[..n] :: m in ms;
  }

  /** The calls after a time, in order and with repetitions. */
  function Since(ms: seq<Member>, after: int): (r: seq<Member>)
    ensures forall m :: m in r <==> m in ms && m.time > after
  {
    if ms == [] then []
    else
      var front, last := Since(ms[..|ms| - 1], after), ms[|ms| - 1];
      assert ms == ms[..|ms| - 1] + [last];
      if last.time > after then front + [last] else front
  }

  /** Admission bounds the number of calls of the last minute, whatever the budget, if and only if
      those calls are pairwise told apart by time and instance: calls of one instance at the same time
      are one member of the set and count once. */
  lemma SharedBudgetIff(ms: seq<Member>, minute: int)
    requires InTime(ms) && ms != []
    ensures var recent := Since(ms, ms[|ms| - 1].time - minute);
            (forall rate :: ZAdmits(ms, rate, minute) ==> |recent| <= rate) <==> Distinct(recent)
  {
    hide ZAdmits, Since, Distinct;
    var recent := Since(ms, ms[|ms| - 1].time - minute);
    assert LastMinute(ms, minute) == ElementsOf(recent);
    ElementsSize(recent);
    var n := |LastMinute(ms, minute)|;
    forall rate
      ensures ZAdmits(ms, rate, minute) <==> n <= rate
    {
      SharedAdmitsIff(ms, rate, minute);
    }
    assert ZAdmits(ms, n, minute);
  }

  /** Such as two calls against a budget of one. */
  lemma EqualTimesOverrun(m: Member, minute: int)
    requires 0 < minute && 0 <= m.time
    ensures ZAdmits([m], 1, minute) && ZAdmits([m, m], 1, minute)
  {
    assert [m][..0] == [] && [m, m][..1] == [m];
    assert ZRun([m], minute) == map[m := m.time];
    assert ZRun([m, m], minute) == map[m := m.time];
  }

  // ----- the shared path is the stricter one -----

  /** The calls of one instance as members of the sorted set. */
  function MembersOf(calls: seq<int>, id: int): (ms: seq<Member>)
    ensures |ms| == |calls| && forall i :: 0 <= i < |ms| ==> ms[i] == Member(calls[i], id)
  {
    seq(|calls|, i requires 0 <= i < |calls| => Member(calls[i], id))
  }

  ghost predicate StrictlyAscending(ts: seq<int>) {
    forall i, j :: 0 <= i < j < |ts| ==> ts[i] < ts[j]
  }

  lemma {:induction false} AdmittedAreCalls(calls: seq<int>, rate: int, minute: int)
    requires StrictlyAscending(calls)
    ensures var a := MemRun(calls, rate, minute).admitted;
            StrictlyAscending(a) && forall t <- a :: t in calls
  {
    hide MemRate;
    if calls != [] {
      var front, now := calls[..|calls| - 1], calls[|calls| - 1];
      AdmittedAreCalls(front, rate, minute);
      var a := MemRun(front, rate, minute).admitted;
      forall i | 0 <= i < |a|
        ensures a[i] < now && a[i] in calls
      {
        assert a[i] in a;
        var k :| 0 <= k < |front| && front[k] == a[i];
        assert calls[k] == a[i];
      }
    }
  }

  /** What the memory path still counts is no more than the other calls of the last minute. */
  lemma RecentAreCalls(calls: seq<int>, id: int, now: int, rate: int, minute: int)
    requires StrictlyAscending(calls + [now]) && forall t <- calls + [now] :: 0 <= t
    requires 0 < minute
    ensures |Recent(MemRun(calls, rate, minute).kept, now - minute)| + 1
        <= |LastMinute(MembersOf(calls + [now], id), minute)|
  {
    hide MemRun, Recent, LastMinute;
    StrictIsAscending(calls, now);
    MemoryKeepsTheBudget(calls, rate, minute);
    AdmittedAreCalls(calls, rate, minute);
    var l := MemRun(calls, rate, minute);
    assert now in calls + [now];
    var m := KeptAfterFilter(l, if calls == [] then 0 else calls[|calls| - 1], now, minute);
    var group := MembersOf(l.admitted[m..] + [now], id);
    var all := MembersOf(calls + [now], id);
    GroupInLastMinute(l.admitted, m, calls, id, now, minute);
    DistinctSize(group, ElementsOf(group));
    SubsetSize(ElementsOf(group), LastMinute(all, minute));
  }

  lemma StrictIsAscending(calls: seq<int>, now: int)
    requires StrictlyAscending(calls + [now])
    ensures Ascending(calls) && StrictlyAscending(calls) && forall i :: 0 <= i < |calls| ==> calls[i] < now
  {
    var all := calls + [now];
    assert forall i :: 0 <= i < |calls| ==> all[i] == calls[i];
    assert all[|calls|] == now;
  }

  lemma GroupInLastMinute(admitted: seq<int>, m: nat, calls: seq<int>, id: int, now: int, minute: int)
    requires StrictlyAscending(admitted) && (forall t <- admitted :: t in calls && t < now) && m <= |admitted|
    requires 0 < minute
    requires forall i :: m <= i < |admitted| ==> admitted[i] > now - minute
    ensures var group := MembersOf(admitted[m..] + [now], id);
            && (forall i, j :: 0 <= i < j < |group| ==> group[i] != group[j])
            && ElementsOf(group) <= LastMinute(MembersOf(calls + [now], id), minute)
  {
    var recent := admitted[m..] + [now];
    var group, all := MembersOf(recent, id), MembersOf(calls + [now], id);
    forall i | 0 <= i < |admitted| - m
      ensures recent[i] in calls && now - minute < recent[i] < now
    {
      assert recent[i] == admitted[m + i] && admitted[m + i] in admitted;
    }
    assert recent[|recent| - 1] == now;
    forall i | 0 <= i < |group|
      ensures group[i] in LastMinute(all, minute)
    {
      assert recent[i] in calls + [now];
      var k :| 0 <= k < |calls + [now]| && (calls + [now])[k] == recent[i];
      assert all[k] == group[i];
    }
  }

  /** Every alert the shared path admits is also admitted by the memory path on the same calls. */
  lemma SharedIsStricter(calls: seq<int>, id: int, now: int, rate: int, minute: int)
    requires StrictlyAscending(calls + [now]) && (forall t <- calls + [now] :: 0 <= t) && 0 < minute
    requires ZAdmits(MembersOf(calls + [now], id), rate, minute)
    ensures MemRate(MemRun(calls, rate, minute).kept, now, rate, minute).1
  {
    hide ZRun, LastMinute, MemRun, Recent;
    var ms := MembersOf(calls + [now], id);
    MembersInTime(calls + [now], id);
    ZHoldsTheLastMinute(ms, minute);
    assert ZRun(ms, minute).Keys == LastMinute(ms, minute);
    RecentAreCalls(calls, id, now, rate, minute);
  }

  lemma MembersInTime(calls: seq<int>, id: int)
    requires StrictlyAscending(calls) && forall t <- calls :: 0 <= t
    ensures InTime(MembersOf(calls, id))
  {
    forall i | 0 <= i < |calls|
      ensures 0 <= calls[i]
    {
      assert calls[i] in calls;
    }
  }

  lemma SharedRejectsThird(id: int)
    ensures !ZAdmits(MembersOf([100, 130, 165], id), 1, 60)
  {
    hide ZRun;
    var ms := MembersOf([100, 130, 165], id);
    ZHoldsTheLastMinute(ms, 60);
    assert {ms[1], ms[2]} <= LastMinute(ms, 60);
    assert ZRun(ms, 60).Keys == LastMinute(ms, 60);
    SubsetSize({ms[1], ms[2]}, ZRun(ms, 60).Keys);
  }

  /** The converse fails: a rejected call counts on the shared path only. */
  lemma SharedIsStrictlyStricter(id: int)
    ensures !ZAdmits(MembersOf([100, 130, 165], id), 1, 60)
    ensures MemRate(MemRun([100, 130], 1, 60).kept, 165, 1, 60).1
  {
    SharedRejectsThird(id);
    hide ZAdmits;
    assert [100, 130][..1] == [100] && [100][..0] == [];
    assert MemRun([100], 1, 60).kept == [100];
    assert MemRun([100, 130], 1, 60).kept == [100];
  }

  // ----- spacing of equal alerts on the memory path -----

  /** One call that was told its key is fresh. */
  datatype Verdict = Verdict(key: string, now: int)

  /** The map, and the fresh verdicts so far. */
  datatype DedupLog = DedupLog(d: Dedup, passed: seq<Verdict>)

  const NO_DEDUP := Dedup(map[], [])

  function DedupStep(l: DedupLog, key: string, now: int, window: int): DedupLog
    requires Consistent(l.d)
  {
    var (d, ok) := MemDedup(l.d, key, now, window);
    DedupLog(d, if ok then l.passed + [Verdict(key, now)] else l.passed)
  }

  lemma {:induction false} FilteredIsDistinct(order: seq<string>, stamps: map<string, int>)
    requires forall i, j :: 0 <= i < j < |order| ==> order[i] != order[j]
    ensures var r := Filtered(order, stamps); forall i, j :: 0 <= i < j < |r| ==> r[i] != r[j]
  {
    if order != [] {
      FilteredIsDistinct(order[1..], stamps);
      assert order[0] !in order[1..];
      assert order[0] !in Filtered(order[1..], stamps);
    }
  }

  lemma VictimsAreOldest(d: Dedup) returns (gone: set<string>)
    requires Consistent(d) && |d.stamps| == DEDUP_CAP + 1
    ensures AreOldest(d.stamps, gone) && |d.stamps.Keys - gone| == DEDUP_CAP + 1 - DEDUP_EVICT
    ensures gone == ElementsOf(Prefix(SortByStamp(d.stamps, d.order), DEDUP_EVICT))
  {
    hide SortByStamp, Sorted;
    AllByStamp(d.stamps, d.order);
    var sorted := SortByStamp(d.stamps, d.order);
    PrefixIsOldest(d.stamps, sorted, DEDUP_EVICT);
    gone := set k | k in sorted[..DEDUP_EVICT];
  }

  lemma TrimRemoves(d: Dedup, gone: set<string>)
    requires Consistent(d) && |d.stamps| == DEDUP_CAP + 1
    requires gone == ElementsOf(Prefix(SortByStamp(d.stamps, d.order), DEDUP_EVICT))
    ensures var t := Trimmed(d);
            && t.stamps.Keys == d.stamps.Keys - gone && Consistent(t)
            && forall k <- t.stamps :: t.stamps[k] == d.stamps[k]
  {
    hide SortByStamp, Prefix, Filtered;
    var t := Trimmed(d);
    FilteredIsDistinct(d.order, t.stamps);
    assert t.order == Filtered(d.order, t.stamps);
    assert forall k :: k in t.order <==> k in d.order && k in t.stamps;
  }

  /** Trimming leaves at most the cap; the keys it drops are no newer than any it keeps, of which
      there are then 4001. */
  lemma TrimDropsTheOldest(d: Dedup)
    requires Consistent(d) && |d.stamps| <= DEDUP_CAP + 1
    ensures var t := Trimmed(d);
            && Consistent(t) && |t.stamps| <= DEDUP_CAP
            && (forall k <- t.stamps :: k in d.stamps && t.stamps[k] == d.stamps[k])
            && forall v :: v in d.stamps && v !in t.stamps ==>
                 |t.stamps| >= DEDUP_CAP + 1 - DEDUP_EVICT && forall k <- t.stamps :: d.stamps[v] <= t.stamps[k]
  {
    hide Consistent;
    if |d.stamps| > DEDUP_CAP {
      var gone := VictimsAreOldest(d);
      TrimRemoves(d, gone);
      hide Trimmed;
    }
  }

  lemma NotedIsConsistent(d: Dedup, key: string, now: int)
    requires Consistent(d) && |d.stamps| <= DEDUP_CAP
    ensures Consistent(Noted(d, key, now)) && |Noted(d, key, now).stamps| <= DEDUP_CAP + 1
  {
    assert d.stamps[key := now].Keys == d.stamps.Keys + {key};
  }

  /** The time of the latest fresh verdict for k. */
  function LastPassed(passed: seq<Verdict>, k: string): Option<int> {
    if passed == [] then None
    else if passed[|passed| - 1].key == k then Some(passed[|passed| - 1].now)
    else LastPassed(passed[..|passed| - 1], k)
  }

  ghost predicate PassedSince(passed: seq<Verdict>, k: string, t: int) {
    exists v <- passed :: v.key == k && v.now >= t
  }

  /** At least 4001 other keys have had a fresh verdict at time t or later. */
  ghost predicate Crowded(passed: seq<Verdict>, k: string, t: int) {
    exists others: set<string> :: Crowd(passed, others, k, t)
  }

  ghost predicate Crowd(passed: seq<Verdict>, others: set<string>, k: string, t: int) {
    |others| >= DEDUP_CAP + 1 - DEDUP_EVICT && k !in others && forall o <- others :: PassedSince(passed, o, t)
  }

  /** The map holds the latest fresh verdict of its keys; any other key that ever had one has been
      crowded out since. */
  ghost predicate DedupInv(l: DedupLog, now: int) {
    && Consistent(l.d) && |l.d.stamps| <= DEDUP_CAP
    && (forall v <- l.passed :: v.now <= now)
    && (forall k <- l.d.stamps :: LastPassed(l.passed, k) == Some(l.d.stamps[k]))
    && forall k :: k !in l.d.stamps && LastPassed(l.passed, k).Some? ==>
         Crowded(l.passed, k, LastPassed(l.passed, k).value)
  }

  lemma LastPassedIsIn(passed: seq<Verdict>, k: string)
    ensures LastPassed(passed, k).Some? ==> Verdict(k, LastPassed(passed, k).value) in passed
  {
    if passed != [] && passed[|passed| - 1].key != k { LastPassedIsIn(passed[..|passed| - 1], k); }
  }

  lemma CrowdedGrows(passed: seq<Verdict>, v: Verdict, k: string, t: int, earlier: int)
    requires Crowded(passed, k, t) && earlier <= t
    ensures Crowded(passed + [v], k, earlier) && Crowded(passed, k, earlier)
  {
    var others :| Crowd(passed, others, k, t);
    forall o | o in others
      ensures PassedSince(passed + [v], o, earlier) && PassedSince(passed, o, earlier)
    {
      assert PassedSince(passed, o, t);
      var x :| x in passed && x.key == o && x.now >= t;
      assert x in passed + [v];
    }
    assert Crowd(passed + [v], others, k, earlier) && Crowd(passed, others, k, earlier);
  }

  lemma MoreLastPassed(passed: seq<Verdict>, v: Verdict, k: string)
    ensures LastPassed(passed + [v], k) == if v.key == k then Some(v.now) else LastPassed(passed, k)
  {
    assert (passed + [v])[..|passed|] == passed;
  }

  /** A key that trimming drops is crowded out. */
  lemma DroppedIsCrowded(d: Dedup, passed: seq<Verdict>, v: string)
    requires Consistent(d) && |d.stamps| <= DEDUP_CAP + 1 && v in d.stamps && v !in Trimmed(d).stamps
    requires forall k <- d.stamps :: LastPassed(passed, k) == Some(d.stamps[k])
    ensures Crowded(passed, v, d.stamps[v])
  {
    hide Trimmed;
    TrimDropsTheOldest(d);
    var others := Trimmed(d).stamps.Keys;
    forall o | o in others
      ensures PassedSince(passed, o, d.stamps[v])
    {
      LastPassedIsIn(passed, o);
    }
    assert Crowd(passed, others, v, d.stamps[v]);
  }

  /** Only the noted key changes; every key that is gone is crowded out. */
  lemma NotedKeepsCrowds(l: DedupLog, prev: int, key: string, now: int)
    requires DedupInv(l, prev) && prev <= now
    ensures var passed, noted := l.passed + [Verdict(key, now)], Noted(l.d, key, now);
            && (forall k <- noted.stamps :: LastPassed(passed, k) == Some(noted.stamps[k]))
            && forall k :: k !in noted.stamps && LastPassed(passed, k).Some? ==>
                 Crowded(passed, k, LastPassed(passed, k).value)
  {
    hide Crowded, LastPassed, Consistent;
    var v := Verdict(key, now);
    var passed, noted := l.passed + [v], Noted(l.d, key, now);
    forall k
      ensures LastPassed(passed, k) == if key == k then Some(now) else LastPassed(l.passed, k)
    {
      MoreLastPassed(l.passed, v, k);
    }
    forall k | k !in noted.stamps && LastPassed(passed, k).Some?
      ensures Crowded(passed, k, LastPassed(passed, k).value)
    {
      var t := LastPassed(l.passed, k).value;
      CrowdedGrows(l.passed, v, k, t, t);
    }
  }

  lemma DedupStepKeepsInv(l: DedupLog, prev: int, key: string, now: int, window: int)
    requires DedupInv(l, prev) && prev <= now
    ensures DedupInv(DedupStep(l, key, now, window), now)
  {
    hide Trimmed, Crowded, LastPassed, Consistent, Noted;
    if IsFresh(l.d, key, now, window) {
      var passed, noted := l.passed + [Verdict(key, now)], Noted(l.d, key, now);
      NotedIsConsistent(l.d, key, now);
      NotedKeepsCrowds(l, prev, key, now);
      TrimDropsTheOldest(noted);
      forall k | k in noted.stamps && k !in Trimmed(noted).stamps
        ensures Crowded(passed, k, noted.stamps[k])
      {
        DroppedIsCrowded(noted, passed, k);
      }
    }
  }

  /** A run of calls on the memory path. */
  datatype Call = Call(key: string, now: int)

  function DedupRun(calls: seq<Call>, window: int): (l: DedupLog)
    requires forall i, j :: 0 <= i < j < |calls| ==> calls[i].now <= calls[j].now
    ensures DedupInv(l, if calls == [] then 0 else calls[|calls| - 1].now)
  {
    if calls == [] then DedupLog(NO_DEDUP, [])
    else
      var front, last := calls[..|calls| - 1], calls[|calls| - 1];
      var l := DedupRun(front, window);
      DedupStepKeepsInv(l, if front == [] then last.now else front[|front| - 1].now, last.key, last.now, window);
      DedupStep(l, last.key, last.now, window)
  }

  lemma {:induction false} LatestIsLast(passed: seq<Verdict>, i: nat)
    requires i < |passed| && InOrder(passed)
    ensures LastPassed(passed, passed[i].key).Some? && LastPassed(passed, passed[i].key).value >= passed[i].now
  {
    if i < |passed| - 1 { LatestIsLast(passed[..|passed| - 1], i); }
  }

  /** Two fresh verdicts for one key are a window apart, or the key was crowded out in between. */
  ghost predicate Spaced(passed: seq<Verdict>, window: int) {
    forall i, j :: 0 <= i < j < |passed| && passed[i].key == passed[j].key ==>
      passed[j].now - passed[i].now >= window || Crowded(passed[..j], passed[i].key, passed[i].now)
  }

  ghost predicate InOrder(passed: seq<Verdict>) {
    forall k, l :: 0 <= k < l < |passed| ==> passed[k].now <= passed[l].now
  }

  lemma SpacedStep(l: DedupLog, prev: int, key: string, now: int, window: int)
    requires DedupInv(l, prev) && prev <= now && Spaced(l.passed, window) && InOrder(l.passed)
    ensures var l' := DedupStep(l, key, now, window); Spaced(l'.passed, window) && InOrder(l'.passed)
  {
    hide MemDedup, LastPassed, Crowded, Consistent;
    var l' := DedupStep(l, key, now, window);
    if l'.passed != l.passed {
      var passed := l.passed;
      assert l'.passed == passed + [Verdict(key, now)] && l'.passed[..|passed|] == passed;
      FreshOnlyIf(l, key, now, window);
      forall i | 0 <= i < |passed|
        ensures passed[i].now <= now
        ensures passed[i].key == key ==> now - passed[i].now >= window || Crowded(passed, key, passed[i].now)
      {
        assert passed[i] in passed;
        LatestIsLast(passed, i);
        if passed[i].key == key && key !in l.d.stamps {
          CrowdedGrows(passed, Verdict(key, now), key, LastPassed(passed, key).value, passed[i].now);
        }
      }
      forall j | 0 <= j <= |passed|
        ensures l'.passed[..j] == passed[..j]
      {
      }
    }
  }

  lemma FreshOnlyIf(l: DedupLog, key: string, now: int, window: int)
    requires Consistent(l.d) && DedupStep(l, key, now, window).passed != l.passed
    ensures IsFresh(l.d, key, now, window)
  {
  }

  /** Over every run: the map never holds more than 5000 keys, and two fresh verdicts for one key
      closer than the window have 4001 fresh verdicts for other keys no older than the first. */
  lemma {:induction false} FreshVerdictsAreSpaced(calls: seq<Call>, window: int)
    requires forall i, j :: 0 <= i < j < |calls| ==> calls[i].now <= calls[j].now
    ensures var l := DedupRun(calls, window);
            Spaced(l.passed, window) && InOrder(l.passed) && |l.d.stamps| <= DEDUP_CAP
  {
    hide DedupStep, Spaced, InOrder;
    if calls == [] {
      assert Spaced([], window) && InOrder([]) by { NothingIsSpaced(window); }
    } else {
      var front, last := calls[..|calls| - 1], calls[|calls| - 1];
      FreshVerdictsAreSpaced(front, window);
      SpacedStep(DedupRun(front, window),
           if front == [] then last.now else front[|front| - 1].now, last.key, last.now, window);
    }
  }

  lemma NothingIsSpaced(window: int)
    ensures Spaced([], window) && InOrder([])
  {
  }

  /** A call is turned down only for a fresh verdict on its key less than a window ago, or within the
      first window of the clock. */
  lemma OnlyDuplicatesAreTurnedDown(calls: seq<Call>, call: Call, window: int)
    requires forall i, j :: 0 <= i < j < |calls| ==> calls[i].now <= calls[j].now
    requires window <= call.now
    ensures var l := DedupRun(calls, window);
            !IsFresh(l.d, call.key, call.now, window) ==>
              exists v <- l.passed :: v.key == call.key && call.now - v.now < window
  {
    hide DedupRun, Crowded, LastPassed, Consistent;
    var l := DedupRun(calls, window);
    LastPassedIsIn(l.passed, call.key);
  }
}
