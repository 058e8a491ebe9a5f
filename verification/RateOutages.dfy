/** The rate budget of one instance while Redis comes and goes. */
module RateOutages {
  import opened Collections
  import opened Oldest
  import opened AlertState

  /** A call by some instance, and how Redis answered it. */
  datatype RateCall = RateCall(m: Member, reply: Reply)

  /** The shared set, the times the instance keeps, and the calls of the instance that were admitted. */
  datatype Rating = Rating(z: map<Member, int>, kept: seq<int>, admitted: seq<RateCall>)

  /** One call, as check_rate treats it; the memory of the other instances is their own. */
  function Rated(s: Rating, c: RateCall, id: int, rate: int, minute: int): Rating {
    var z := if c.reply.Failed? then s.z else ZWindow(s.z, c.m, minute);
    if c.m.id != id then s.(z := z)
    else if c.reply.Answered? then Rating(z, s.kept, if |z| <= rate then s.admitted + [c] else s.admitted)
    else
      var (kept, ok) := MemRate(s.kept, c.m.time, rate, minute);
      Rating(z, kept, if ok then s.admitted + [c] else s.admitted)
  }

  function RatedRun(calls: seq<RateCall>, id: int, rate: int, minute: int): Rating {
    if calls == [] then Rating(map[], [], [])
    else Rated(RatedRun(calls[..|calls| - 1], id, rate, minute), calls[|calls| - 1], id, rate, minute)
  }

  // ----- the two paths within a run -----

  /** The members of the calls that reached Redis. */
  function Reached(cs: seq<RateCall>): seq<Member> {
    if cs == [] then []
    else
      var front, last := Reached(cs[..|cs| - 1]), cs[|cs| - 1];
      if last.reply.Failed? then front else front + [last.m]
  }

  /** The members of the calls that Redis answered. */
  function Ups(cs: seq<RateCall>): seq<Member> {
    if cs == [] then []
    else
      var front, last := Ups(cs[..|cs| - 1]), cs[|cs| - 1];
      if last.reply.Answered? then front + [last.m] else front
  }

  /** The times of the instance's own calls that Redis did not answer. */
  function Downs(cs: seq<RateCall>, id: int): seq<int> {
    if cs == [] then []
    else
      var front, last := Downs(cs[..|cs| - 1], id), cs[|cs| - 1];
      if !last.reply.Answered? && last.m.id == id then front + [last.m.time] else front
  }

  lemma DownsMore(cs: seq<RateCall>, c: RateCall, id: int)
    ensures Downs(cs + [c], id)
         == if !c.reply.Answered? && c.m.id == id then Downs(cs, id) + [c.m.time] else Downs(cs, id)
  {
    assert (cs + [c])[..|cs|] == cs;
  }

  lemma {:induction false} DownsOfBoth(a: seq<RateCall>, b: seq<RateCall>, id: int)
    ensures Downs(a + b, id) == Downs(a, id) + Downs(b, id)
    decreases |b|
  {
    if b == [] {
      assert a + b == a;
    } else {
      assert (a + b)[..|a| + |b| - 1] == a + b[..|b| - 1];
      DownsOfBoth(a, b[..|b| - 1], id);
    }
  }

  /** Every call of the instance is on exactly one of the paths. */
  lemma {:induction false} UpsAndDowns(cs: seq<RateCall>, id: int)
    requires forall c <- cs :: c.m.id == id
    ensures |cs| == |Ups(cs)| + |Downs(cs, id)|
    ensures forall t <- Downs(cs, id) :: exists c <- cs :: c.m.time == t
  {
    if cs != [] {
      var front, last := cs[..|cs| - 1], cs[|cs| - 1];
      assert (forall c <- front :: c in cs) && last in cs;
      UpsAndDowns(front, id);
    }
  }

  /** The times of the calls ascend. */
  ghost predicate InOrder(cs: seq<RateCall>) {
    (forall c <- cs :: 0 <= c.m.time) && forall i, j :: 0 <= i < j < |cs| ==> cs[i].m.time <= cs[j].m.time
  }

  lemma InOrderFront(cs: seq<RateCall>)
    requires InOrder(cs) && cs != []
    ensures InOrder(cs[..|cs| - 1])
    ensures forall c <- cs[..|cs| - 1] :: c.m.time <= cs[|cs| - 1].m.time
    ensures 0 <= cs[|cs| - 1].m.time
  {
    assert cs[|cs| - 1] in cs;
    assert forall c <- cs[..|cs| - 1] :: c in cs;
  }

  lemma InTimeMore(ms: seq<Member>, m: Member)
    requires InTime(ms) && 0 <= m.time && forall x <- ms :: x.time <= m.time
    ensures InTime(ms + [m])
  {
    assert forall i :: 0 <= i < |ms| ==> ms[i] in ms;
  }

  lemma NothingInTime(id: int)
    ensures InTime(Reached([])) && Ascending(Downs([], id)) && Reached([]) == [] && Downs([], id) == []
  {
  }

  lemma {:induction false} PathsInOrder(cs: seq<RateCall>, id: int)
    requires InOrder(cs)
    ensures InTime(Reached(cs)) && Ascending(Downs(cs, id))
    ensures forall m <- Reached(cs) :: cs != [] && m.time <= cs[|cs| - 1].m.time
    ensures forall t <- Downs(cs, id) :: cs != [] && t <= cs[|cs| - 1].m.time
  {
    hide InOrder, InTime, Ascending, Reached, Downs;
    if cs == [] {
      NothingInTime(id);
    } else {
      var front, last := cs[..|cs| - 1], cs[|cs| - 1];
      InOrderFront(cs);
      PathsInOrder(front, id);
      assert cs == front + [last];
      DownsMore(front, last, id);
      ReachedMore(front, last);
      assert front != [] ==> front[|front| - 1] in front;
      InTimeMore(Reached(front), last.m);
      AscendingMore(Downs(front, id), last.m.time);
    }
  }

  /** The state after calls of which these reached Redis and these went to the memory. */
  ghost predicate Separate(s: Rating, ups: seq<Member>, downs: seq<int>, id: int, rate: int, minute: int) {
    && s.z == ZRun(ups, minute) && s.kept == MemRun(downs, rate, minute).kept
    && Downs(s.admitted, id) == MemRun(downs, rate, minute).admitted
    && forall c <- s.admitted :: c.m.id == id
  }

  lemma SeparateStep(s: Rating, ups: seq<Member>, downs: seq<int>, c: RateCall, id: int, rate: int, minute: int)
    requires Separate(s, ups, downs, id, rate, minute)
    ensures Separate(Rated(s, c, id, rate, minute),
                     if c.reply.Failed? then ups else ups + [c.m],
                     if !c.reply.Answered? && c.m.id == id then downs + [c.m.time] else downs, id, rate, minute)
  {
    hide ZWindow, MemRate, Downs;
    DownsMore(s.admitted, c, id);
    assert (ups + [c.m])[..|ups|] == ups;
    assert (downs + [c.m.time])[..|downs|] == downs;
  }

  /** The run on either path is the run of that path alone. */
  lemma {:induction false} PathsAreSeparate(calls: seq<RateCall>, id: int, rate: int, minute: int)
    ensures Separate(RatedRun(calls, id, rate, minute), Reached(calls), Downs(calls, id), id, rate, minute)
  {
    hide Rated, Reached, Downs, Separate;
    if calls != [] {
      var front, c := calls[..|calls| - 1], calls[|calls| - 1];
      PathsAreSeparate(front, id, rate, minute);
      SeparateStep(RatedRun(front, id, rate, minute), Reached(front), Downs(front, id), c, id, rate, minute);
      assert calls == front + [c];
      DownsMore(front, c, id);
      ReachedMore(front, c);
    } else {
      NoPaths(id, rate, minute);
    }
  }

  lemma NoPaths(id: int, rate: int, minute: int)
    ensures Separate(RatedRun([], id, rate, minute), Reached([]), Downs([], id), id, rate, minute)
  {
  }

  lemma ReachedMore(cs: seq<RateCall>, c: RateCall)
    ensures Reached(cs + [c]) == if c.reply.Failed? then Reached(cs) else Reached(cs) + [c.m]
  {
    assert (cs + [c])[..|cs|] == cs;
  }

  // ----- the calls admitted by the shared path -----

  /** The admitted calls are calls of the run, in their order. */
  ghost predicate Selected(admitted: seq<RateCall>, calls: seq<RateCall>) {
    (forall c <- admitted :: c in calls) && InOrder(admitted)
  }

  lemma SelectMore(admitted: seq<RateCall>, calls: seq<RateCall>)
    requires InOrder(calls) && calls != [] && Selected(admitted, calls[..|calls| - 1])
    ensures Selected(admitted, calls) && Selected(admitted + [calls[|calls| - 1]], calls)
  {
    var front, last := calls[..|calls| - 1], calls[|calls| - 1];
    InOrderFront(calls);
    assert (forall c <- front :: c in calls) && last in calls;
    assert forall i :: 0 <= i < |admitted| ==> admitted[i] in admitted;
  }

  lemma {:induction false} AdmittedAreSelected(calls: seq<RateCall>, id: int, rate: int, minute: int)
    requires InOrder(calls)
    ensures Selected(RatedRun(calls, id, rate, minute).admitted, calls)
  {
    hide ZWindow, MemRate, InOrder, Selected;
    if calls == [] {
      assert Selected([], []) by { NoneSelected(); }
    } else {
      var front := calls[..|calls| - 1];
      assert InOrder(front) by { InOrderFront(calls); }
      AdmittedAreSelected(front, id, rate, minute);
      SelectMore(RatedRun(front, id, rate, minute).admitted, calls);
    }
  }

  lemma NoneSelected()
    ensures Selected([], [])
  {
  }

  /** Whenever the last admitted call of a minute was answered by Redis, no more than `rate` different
      ones of the minute's admitted calls were. */
  ghost predicate UpsWithin(admitted: seq<RateCall>, rate: int, minute: int) {
    forall i, j :: 0 <= i <= j < |admitted| ==>
      admitted[j].reply.Answered? && admitted[j].m.time - admitted[i].m.time < minute ==>
        |ElementsOf(Ups(admitted[i..j + 1]))| <= rate
  }

  /** The shared set holds all admitted calls of the minute, so they are no more than its size. */
  lemma NewUpWithin(calls: seq<RateCall>, seg: seq<RateCall>, rate: int, minute: int)
    requires InOrder(calls) && calls != [] && calls[|calls| - 1].reply.Answered?
    requires |ZRun(Reached(calls), minute)| <= rate
    requires Selected(seg, calls) && forall c <- seg :: calls[|calls| - 1].m.time - c.m.time < minute
    ensures |ElementsOf(Ups(seg))| <= rate
  {
    hide ZRun, InOrder, InTime, LastMinute;
    var ms := Reached(calls);
    PathsInOrder(calls, 0);
    LastReached(calls);
    ZHoldsTheLastMinute(ms, minute);
    forall m | m in Ups(seg)
      ensures m in ZRun(ms, minute)
    {
      UpInMinute(calls, seg, m, minute);
    }
    SubsetSize(ElementsOf(Ups(seg)), ZRun(ms, minute).Keys);
  }

  lemma LastReached(cs: seq<RateCall>)
    requires cs != [] && cs[|cs| - 1].reply.Answered?
    ensures Reached(cs) != [] && Reached(cs)[|Reached(cs)| - 1] == cs[|cs| - 1].m
  {
  }

  lemma UpInMinute(calls: seq<RateCall>, seg: seq<RateCall>, m: Member, minute: int)
    requires calls != [] && calls[|calls| - 1].reply.Answered? && m in Ups(seg) && forall c <- seg :: c in calls
    requires forall c <- seg :: calls[|calls| - 1].m.time - c.m.time < minute
    ensures Reached(calls) != [] && m in LastMinute(Reached(calls), minute)
  {
    LastReached(calls);
    UpIsCalled(seg, m);
    var c :| c in seg && c.reply.Answered? && c.m == m;
    CallIsReached(calls, c);
  }

  lemma {:induction false} UpIsCalled(cs: seq<RateCall>, m: Member)
    requires m in Ups(cs)
    ensures exists c <- cs :: c.reply.Answered? && c.m == m
  {
    var front, last := cs[..|cs| - 1], cs[|cs| - 1];
    if m in Ups(front) {
      UpIsCalled(front, m);
      assert forall c <- front :: c in cs;
    } else {
      assert last in cs;
    }
  }

  lemma {:induction false} CallIsReached(cs: seq<RateCall>, c: RateCall)
    requires c in cs && c.reply.Answered?
    ensures c.m in Reached(cs)
  {
    var front, last := cs[..|cs| - 1], cs[|cs| - 1];
    assert cs == front + [last];
    if c != last { CallIsReached(front, c); }
  }

  lemma SuffixSelected(admitted: seq<RateCall>, calls: seq<RateCall>, i: nat)
    requires Selected(admitted, calls) && i < |admitted|
    ensures Selected(admitted[i..], calls)
    ensures forall c <- admitted[i..] :: admitted[i].m.time <= c.m.time
  {
    var seg := admitted[i..];
    assert forall c <- seg :: c in admitted;
    assert forall k :: 0 <= k < |seg| ==> seg[k] == admitted[i + k];
  }

  lemma OneMoreWithin(admitted: seq<RateCall>, calls: seq<RateCall>, rate: int, minute: int)
    requires UpsWithin(admitted, rate, minute) && InOrder(calls) && calls != []
    requires var c := calls[|calls| - 1];
             Selected(admitted + [c], calls) && (c.reply.Answered? ==> |ZRun(Reached(calls), minute)| <= rate)
    ensures UpsWithin(admitted + [calls[|calls| - 1]], rate, minute)
  {
    hide ZRun, Ups, InOrder, Selected;
    var more := admitted + [calls[|calls| - 1]];
    forall i, j | 0 <= i <= j < |more| && more[j].reply.Answered? && more[j].m.time - more[i].m.time < minute
      ensures |ElementsOf(Ups(more[i..j + 1]))| <= rate
    {
      if j < |admitted| {
        assert more[i..j + 1] == admitted[i..j + 1];
      } else {
        assert more[i..j + 1] == more[i..];
        SuffixSelected(more, calls, i);
        NewUpWithin(calls, more[i..], rate, minute);
      }
    }
  }

  lemma {:induction false} SharedWithin(calls: seq<RateCall>, id: int, rate: int, minute: int)
    requires InOrder(calls)
    ensures UpsWithin(RatedRun(calls, id, rate, minute).admitted, rate, minute)
  {
    hide ZWindow, MemRate, UpsWithin, ZRun, Selected;
    if calls == [] {
      assert UpsWithin([], rate, minute) by { NoneWithin(rate, minute); }
    } else {
      var front, c := calls[..|calls| - 1], calls[|calls| - 1];
      InOrderFront(calls);
      SharedWithin(front, id, rate, minute);
      AdmittedAreSelected(calls, id, rate, minute);
      PathsAreSeparate(calls, id, rate, minute);
      var (s, s') := (RatedRun(front, id, rate, minute), RatedRun(calls, id, rate, minute));
      if s'.admitted != s.admitted { OneMoreWithin(s.admitted, calls, rate, minute); }
    }
  }

  lemma NoneWithin(rate: int, minute: int)
    ensures UpsWithin([], rate, minute)
  {
  }

  // ----- both together -----

  /** The last of the calls i to j that Redis answered decides for all of them. */
  lemma {:induction false} UpsOfMinute(admitted: seq<RateCall>, i: nat, j: nat, rate: int, minute: int)
    requires UpsWithin(admitted, rate, minute) && InOrder(admitted)
    requires i <= j < |admitted| && admitted[j].m.time - admitted[i].m.time < minute
    ensures Ups(admitted[i..j + 1]) == [] || |ElementsOf(Ups(admitted[i..j + 1]))| <= rate
    decreases j
  {
    var seg := admitted[i..j + 1];
    if !admitted[j].reply.Answered? {
      assert seg[..|seg| - 1] == admitted[i..j];
      if i < j { UpsOfMinute(admitted, i, j - 1, rate, minute); }
    }
  }

  lemma DownsSlice(admitted: seq<RateCall>, i: nat, j: nat, id: int)
    requires i <= j < |admitted|
    ensures var (n, mid, all) := (|Downs(admitted[..i], id)|, Downs(admitted[i..j + 1], id), Downs(admitted, id));
            n + |mid| <= |all| && mid == all[n..n + |mid|]
  {
    hide Downs;
    var seg := admitted[i..j + 1];
    assert admitted == admitted[..i] + seg + admitted[j + 1..];
    DownsOfBoth(admitted[..i] + seg, admitted[j + 1..], id);
    DownsOfBoth(admitted[..i], seg, id);
  }

  lemma SegmentTimes(admitted: seq<RateCall>, i: nat, j: nat)
    requires InOrder(admitted) && i <= j < |admitted|
    ensures forall c <- admitted[i..j + 1] :: c in admitted && admitted[i].m.time <= c.m.time <= admitted[j].m.time
  {
    var seg := admitted[i..j + 1];
    assert forall k :: 0 <= k < |seg| ==> seg[k] == admitted[i + k];
  }

  lemma DownsOfMinute(admitted: seq<RateCall>, i: nat, j: nat, id: int, rate: int, minute: int)
    requires InOrder(admitted) && WithinBudget(Downs(admitted, id), rate, minute)
    requires forall c <- admitted :: c.m.id == id
    requires i <= j < |admitted| && admitted[j].m.time - admitted[i].m.time < minute
    ensures Downs(admitted[i..j + 1], id) == [] || |Downs(admitted[i..j + 1], id)| <= rate
  {
    hide Downs, Ups, InOrder;
    var seg := admitted[i..j + 1];
    var (n, mid, all) := (|Downs(admitted[..i], id)|, Downs(seg, id), Downs(admitted, id));
    DownsSlice(admitted, i, j, id);
    SegmentTimes(admitted, i, j);
    UpsAndDowns(seg, id);
    if mid != [] {
      assert mid[0] in mid && mid[|mid| - 1] in mid;
      assert all[n] == mid[0] && all[n + |mid| - 1] == mid[|mid| - 1];
    }
  }

  /** Whatever calls Redis answers: of the calls one instance admits within a minute, at most `rate` were
      admitted by its memory and at most `rate` different ones by Redis. So they are at most twice the
      budget, provided those that Redis answered came at different times. */
  lemma OutagesDoubleTheBudget(calls: seq<RateCall>, id: int, rate: nat, minute: int, i: nat, j: nat)
    requires InOrder(calls)
    requires var a := RatedRun(calls, id, rate, minute).admitted;
             i <= j < |a| && a[j].m.time - a[i].m.time < minute
    ensures var seg := RatedRun(calls, id, rate, minute).admitted[i..j + 1];
            && |Downs(seg, id)| <= rate && |ElementsOf(Ups(seg))| <= rate && (forall m <- Ups(seg) :: m.id == id)
            && (Distinct(Ups(seg)) ==> |seg| <= 2 * rate)
  {
    hide RatedRun, InOrder, UpsWithin, WithinBudget, Distinct, Ups, Downs;
    var a := RatedRun(calls, id, rate, minute).admitted;
    AdmittedAreSelected(calls, id, rate, minute);
    SharedWithin(calls, id, rate, minute);
    PathsAreSeparate(calls, id, rate, minute);
    PathsInOrder(calls, id);
    MemoryKeepsTheBudget(Downs(calls, id), rate, minute);
    UpsOfMinute(a, i, j, rate, minute);
    DownsOfMinute(a, i, j, id, rate, minute);
    var seg := a[i..j + 1];
    assert forall c <- seg :: c in a;
    UpsAndDowns(seg, id);
    ElementsSize(Ups(seg));
    forall m | m in Ups(seg)
      ensures m.id == id
    {
      UpIsCalled(seg, m);
    }
  }

  /** The bound is reached: with a budget of one, a call that Redis answers and one that it does not are
      both admitted. */
  lemma OutagesCanDouble(id: int)
    ensures var calls := [RateCall(Member(100, id), Answered), RateCall(Member(101, id), Failed)];
            RatedRun(calls, id, 1, 60).admitted == calls
  {
    var (c, d) := (RateCall(Member(100, id), Answered), RateCall(Member(101, id), Failed));
    assert [c, d][..1] == [c] && [c][..0] == [];
    assert ZWindow(map[], c.m, 60) == map[c.m := 100];
    assert RatedRun([c], id, 1, 60) == Rating(map[c.m := 100], [], [c]);
  }

  /** n calls of one instance at one time, all answered. */
  function Same(m: Member, n: nat): seq<RateCall> {
    if n == 0 then [] else Same(m, n - 1) + [RateCall(m, Answered)]
  }

  /** Without different times there is no bound: any number of answered calls at one time is admitted
      with a budget of one. */
  lemma {:induction false} EqualTimesAreAllAdmitted(m: Member, minute: int, n: nat)
    requires 0 < minute && 0 <= m.time
    ensures RatedRun(Same(m, n), m.id, 1, minute)
         == Rating(if n == 0 then map[] else map[m := m.time], [], Same(m, n))
    ensures |Same(m, n)| == n
  {
    hide Rated;
    if n > 0 {
      EqualTimesAreAllAdmitted(m, minute, n - 1);
      assert Same(m, n)[..n - 1] == Same(m, n - 1);
      SameStays(Same(m, n - 1), m, minute);
    }
  }

  lemma SameStays(admitted: seq<RateCall>, m: Member, minute: int)
    requires 0 < minute && 0 <= m.time
    ensures var r := Rating(map[m := m.time], [], admitted + [RateCall(m, Answered)]);
            forall z :: z == map[] || z == map[m := m.time] ==>
              Rated(Rating(z, [], admitted), RateCall(m, Answered), m.id, 1, minute) == r
  {
    assert ZWindow(map[], m, minute) == map[m := m.time] && ZWindow(map[m := m.time], m, minute) == map[m := m.time];
  }
}
