/** Per-flow aggregation of the stored sessions, and the regression verdict against the best state
    seen so far. */
module Flows {
  import opened Wrappers
  import opened Strings

  // ----- version names -----

  /** Characters that str.strip removes. */
  predicate IsSpace(c: char) {
    var n := c as int;
    9 <= n <= 13 || 28 <= n <= 32 || n == 0x85 || n == 0xA0 || n == 0x1680 || 0x2000 <= n <= 0x200A
    || n == 0x2028 || n == 0x2029 || n == 0x202F || n == 0x205F || n == 0x3000
  }

  function Strip(s: string): string
    decreases |s|
  {
    if s == [] then s
    else if IsSpace(s[0]) then Strip(s[1..])
    else if IsSpace(s[|s| - 1]) then Strip(s[..|s| - 1])
    else s
  }

  const VERSION_RANK: map<string, int> :=
    map["SSLv3" := 0, "TLS 1.0" := 1, "TLS 1.1" := 2, "TLS 1.2" := 3, "TLS 1.3" := 4]

  function VersionRank(v: Option<string>): int {
    if v.Some? && Strip(v.value) in VERSION_RANK then VERSION_RANK[Strip(v.value)] else -1
  }

  /** The name that the analysis gives a negotiated version. */
  function VersionName(v: Word): string {
    match v
    case 0x0300 => "SSLv3.0"
    case 0x0301 => "TLS1.0"
    case 0x0302 => "TLS1.1"
    case 0x0303 => "TLS1.2"
    case 0x0304 => "TLS1.3"
    case _ => "0x" + Hex4(v)
  }

  // ----- the flow row -----

  /** One analysed session as update_flow sees it. */
  datatype Seen = Seen(
    flow: string,
    version: Option<string>,
    cipher: Option<string>,
    encrypted: bool,
    at: int,
    prints: seq<string>)

  datatype Flow = Flow(
    total: nat,
    encrypted: nat,
    plaintext: nat,
    versions: map<string, nat>,
    ciphers: map<string, nat>,
    best: Option<string>,
    first: int,
    last: int,
    prints: map<string, nat>)

  datatype Regression = PlaintextAfter(sessions: nat) | Downgraded(best: string, to: string)

  predicate Given(s: Option<string>) {
    s.Some? && s.value != ""
  }

  function Bump(m: map<string, nat>, k: string): map<string, nat> {
    m[k := (if k in m then m[k] else 0) + 1]
  }

  function BumpAll(m: map<string, nat>, ks: seq<string>): map<string, nat> {
    if ks == [] then m
    else
      var front, k := BumpAll(m, ks[..|ks| - 1]), ks[|ks| - 1];
      if k == "" then front else Bump(front, k)
  }

  /** The fingerprints of ks that were not known before. */
  function Unseen(m: map<string, nat>, ks: seq<string>): seq<string> {
    if ks == [] then []
    else
      var front, k := ks[..|ks| - 1], ks[|ks| - 1];
      if k == "" || k in BumpAll(m, front) then Unseen(m, front) else Unseen(m, front) + [k]
  }

  function NewFlow(o: Seen): Flow {
    Flow(0, 0, 0, map[], map[], o.version, o.at, o.at, map[])
  }

  function Updated(f: Flow, o: Seen): Flow {
    Flow(
      f.total + 1,
      f.encrypted + (if o.encrypted then 1 else 0),
      f.plaintext + (if o.encrypted then 0 else 1),
      if Given(o.version) then Bump(f.versions, o.version.value) else f.versions,
      if Given(o.cipher) then Bump(f.ciphers, o.cipher.value) else f.ciphers,
      if Given(o.version) && VersionRank(o.version) > VersionRank(f.best) then o.version else f.best,
      if o.at < f.first then o.at else f.first,
      o.at,
      BumpAll(f.prints, o.prints))
  }

  function Detect(f: Flow, o: Seen): Option<Regression> {
    if f.total < 3 then None
    else if !o.encrypted && f.plaintext == 0 then Some(PlaintextAfter(f.total))
    else if Given(o.version) && Given(f.best) && VersionRank(o.version) < VersionRank(f.best) then
      Some(Downgraded(f.best.value, o.version.value))
    else None
  }

  class MailFlow {
    var total: nat
    var encrypted: nat
    var plaintext: nat
    var versions: map<string, nat>
    var ciphers: map<string, nat>
    var best: Option<string>
    var first: int
    var last: int
    var prints: map<string, nat>

    function State(): Flow
      reads this
    {
      Flow(total, encrypted, plaintext, versions, ciphers, best, first, last, prints)
    }

    constructor (o: Seen)
      ensures State() == NewFlow(o)
    {
      total, encrypted, plaintext, versions, ciphers := 0, 0, 0, map[], map[];
      best, first, last, prints := o.version, o.at, o.at, map[];
    }

    /** Counts the fingerprints; those new to an established flow are returned. */
    method SeePrints(ks: seq<string>) returns (newPrints: seq<string>)
      modifies `prints
      ensures prints == BumpAll(old(prints), ks)
      ensures newPrints == if total > 3 then Unseen(old(prints), ks) else []
    {
      newPrints := [];
      for i := 0 to |ks|
        invariant prints == BumpAll(old(prints), ks[..i])
        invariant newPrints == if total > 3 then Unseen(old(prints), ks[..i]) else []
      {
        assert ks[..i + 1][..i] == ks[..i];
        if ks[i] != "" {
          if ks[i] !in prints && total > 3 { newPrints := newPrints + [ks[i]]; }
          prints := Bump(prints, ks[i]);
        }
      }
      assert ks[..|ks|] == ks;
    }

    method CountVersion(v: Option<string>)
      modifies `versions, `best
      ensures versions == if Given(v) then Bump(old(versions), v.value) else old(versions)
      ensures best == if Given(v) && VersionRank(v) > VersionRank(old(best)) then v else old(best)
    {
      hide VersionRank, Bump;
      if Given(v) {
        versions := Bump(versions, v.value);
        if VersionRank(v) > VersionRank(best) { best := v; }
      }
    }

    /** The part of update_flow after the row is at hand. */
    method Record(o: Seen) returns (newPrints: seq<string>)
      modifies this
      ensures State() == Updated(old(State()), o)
      ensures newPrints == if old(total) >= 3 then Unseen(old(prints), o.prints) else []
    {
      hide VersionRank, Bump, BumpAll, Unseen;
      total := total + 1;
      if o.encrypted { encrypted := encrypted + 1; } else { plaintext := plaintext + 1; }
      CountVersion(o.version);
      if Given(o.cipher) { ciphers := Bump(ciphers, o.cipher.value); }
      if o.at < first { first := o.at; }
      last := o.at;
      newPrints := SeePrints(o.prints);
    }
  }

  /** `row` is the flow's row, or null when it has none yet. */
  method UpdateFlow(row: MailFlow?, o: Seen)
    returns (flow: MailFlow, regression: Option<Regression>, newPrints: seq<string>)
    modifies row
    ensures row != null ==> flow == row
    ensures flow.State() == Updated(if row == null then NewFlow(o) else old(row.State()), o)
    ensures regression == if row == null then None else Detect(old(row.State()), o)
    ensures newPrints == if row != null && old(row.total) >= 3 then Unseen(old(row.prints), o.prints) else []
  {
    hide VersionRank;
    regression := None;
    if row == null {
      flow := new MailFlow(o);
    } else {
      flow := row;
      regression := Detect(row.State(), o);
    }
    newPrints := flow.Record(o);
  }

  // ----- a row describes the history of its flow -----

  datatype Trait = Encrypted | Plaintext | Version(name: string) | Cipher(name: string)

  predicate Has(o: Seen, t: Trait) {
    match t
    case Encrypted => o.encrypted
    case Plaintext => !o.encrypted
    case Version(name) => name != "" && o.version == Some(name)
    case Cipher(name) => name != "" && o.cipher == Some(name)
  }

  function Count(h: seq<Seen>, t: Trait): nat {
    if h == [] then 0 else Count(h[..|h| - 1], t) + (if Has(h[|h| - 1], t) then 1 else 0)
  }

  function Occurrences(ks: seq<string>, k: string): nat {
    if ks == [] then 0 else Occurrences(ks[..|ks| - 1], k) + (if ks[|ks| - 1] == k && k != "" then 1 else 0)
  }

  function PrintCount(h: seq<Seen>, fp: string): nat {
    if h == [] then 0 else PrintCount(h[..|h| - 1], fp) + Occurrences(h[|h| - 1].prints, fp)
  }

  function At(m: map<string, nat>, k: string): nat {
    if k in m then m[k] else 0
  }

  /** A map of positive counters. */
  ghost predicate Counts(m: map<string, nat>, count: string -> nat) {
    (forall k :: At(m, k) == count(k)) && forall k <- m :: m[k] > 0
  }

  /** v is among the versions of h, and none of them ranks higher. */
  ghost predicate IsBest(h: seq<Seen>, v: Option<string>) {
    (exists o <- h :: o.version == v) && forall o <- h :: VersionRank(o.version) <= VersionRank(v)
  }

  ghost predicate Spans(h: seq<Seen>, first: int, last: int)
    requires h != []
  {
    (exists o <- h :: o.at == first) && (forall o <- h :: first <= o.at) && last == h[|h| - 1].at
  }

  /** The row holds exactly the totals of the stored sessions h of its flow. */
  ghost predicate Describes(f: Flow, h: seq<Seen>) {
    && h != [] && f.total == |h|
    && f.encrypted == Count(h, Encrypted) && f.plaintext == Count(h, Plaintext)
    && Counts(f.versions, name => Count(h, Version(name)))
    && Counts(f.ciphers, name => Count(h, Cipher(name)))
    && Counts(f.prints, fp => PrintCount(h, fp))
    && IsBest(h, f.best) && Spans(h, f.first, f.last)
  }

  lemma CountMore(h: seq<Seen>, o: Seen, t: Trait)
    ensures Count(h + [o], t) == Count(h, t) + (if Has(o, t) then 1 else 0)
  {
    assert (h + [o])[..|h|] == h;
  }

  lemma {:induction false} EncryptedOrPlaintext(h: seq<Seen>)
    ensures Count(h, Encrypted) + Count(h, Plaintext) == |h|
    ensures Count(h, Plaintext) == 0 <==> forall o <- h :: o.encrypted
  {
    if h != [] {
      var front, last := h[..|h| - 1], h[|h| - 1];
      EncryptedOrPlaintext(front);
      assert h == front + [last];
    }
  }

  lemma {:induction false} BumpAllCounts(m: map<string, nat>, ks: seq<string>, k: string)
    ensures At(BumpAll(m, ks), k) == At(m, k) + Occurrences(ks, k)
    ensures (forall x <- m :: m[x] > 0) ==> forall x <- BumpAll(m, ks) :: BumpAll(m, ks)[x] > 0
  {
    if ks != [] { BumpAllCounts(m, ks[..|ks| - 1], k); }
  }

  lemma UpdateCounts(f: Flow, h: seq<Seen>, o: Seen)
    requires Counts(f.versions, name => Count(h, Version(name)))
    requires Counts(f.ciphers, name => Count(h, Cipher(name)))
    ensures Counts(Updated(f, o).versions, name => Count(h + [o], Version(name)))
    ensures Counts(Updated(f, o).ciphers, name => Count(h + [o], Cipher(name)))
  {
    hide VersionRank, BumpAll;
    var f' := Updated(f, o);
    forall name
      ensures At(f'.versions, name) == Count(h + [o], Version(name))
      ensures At(f'.ciphers, name) == Count(h + [o], Cipher(name))
    {
      CountMore(h, o, Version(name));
      CountMore(h, o, Cipher(name));
      assert At(f.versions, name) == Count(h, Version(name)) && At(f.ciphers, name) == Count(h, Cipher(name));
    }
  }

  lemma UpdatePrints(f: Flow, h: seq<Seen>, o: Seen)
    requires Counts(f.prints, fp => PrintCount(h, fp))
    ensures Counts(Updated(f, o).prints, fp => PrintCount(h + [o], fp))
  {
    hide VersionRank, BumpAll;
    var f' := Updated(f, o);
    assert (h + [o])[..|h|] == h;
    forall fp
      ensures At(f'.prints, fp) == PrintCount(h + [o], fp)
    {
      BumpAllCounts(f.prints, o.prints, fp);
      assert At(f.prints, fp) == PrintCount(h, fp);
    }
    BumpAllCounts(f.prints, o.prints, "");
  }

  lemma UpdateBest(h: seq<Seen>, best: Option<string>, o: Seen)
    requires IsBest(h, best)
    ensures IsBest(h + [o], if Given(o.version) && VersionRank(o.version) > VersionRank(best) then o.version else best)
  {
    assert VersionRank(None) == -1;
    if !Given(o.version) { assert VersionRank(o.version) == -1 by { EmptyRanksLowest(); } }
    var x :| x in h && x.version == best;
    assert x in h + [o] && o in h + [o];
  }

  lemma EmptyRanksLowest()
    ensures VersionRank(Some("")) == -1
  {
    assert Strip("") == "";
  }

  lemma UpdateSpans(h: seq<Seen>, first: int, last: int, o: Seen)
    requires h != [] && Spans(h, first, last)
    ensures Spans(h + [o], if o.at < first then o.at else first, o.at)
  {
    var x :| x in h && x.at == first;
    assert x in h + [o] && o in h + [o];
  }

  /** One more session keeps the row equal to the history. */
  lemma UpdateDescribes(f: Flow, h: seq<Seen>, o: Seen)
    requires Describes(f, h)
    ensures Describes(Updated(f, o), h + [o])
  {
    hide Counts, IsBest, Spans, VersionRank, Bump, BumpAll, Count;
    CountMore(h, o, Encrypted);
    CountMore(h, o, Plaintext);
    UpdateCounts(f, h, o);
    UpdatePrints(f, h, o);
    UpdateBest(h, f.best, o);
    UpdateSpans(h, f.first, f.last, o);
  }

  lemma FirstDescribes(o: Seen)
    ensures Describes(Updated(NewFlow(o), o), [o])
  {
    hide VersionRank, BumpAll, PrintCount, Count;
    var f := NewFlow(o);
    assert [] + [o] == [o];
    EmptyCounts();
    UpdateCounts(f, [], o);
    UpdatePrints(f, [], o);
    CountMore([], o, Encrypted);
    CountMore([], o, Plaintext);
    assert o in [o];
  }

  lemma EmptyCounts()
    ensures Count([], Encrypted) == 0 && Count([], Plaintext) == 0
    ensures Counts(map[], name => Count([], Version(name))) && Counts(map[], name => Count([], Cipher(name)))
    ensures Counts(map[], fp => PrintCount([], fp))
  {
  }

  // ----- the verdict -----

  /** What the verdict on o must be, given the earlier sessions of the flow. */
  ghost predicate IsVerdict(h: seq<Seen>, o: Seen, r: Option<Regression>) {
    var allEncrypted := forall p <- h :: p.encrypted;
    var lower := exists p <- h :: VersionRank(p.version) > VersionRank(o.version);
    match r
    case Some(PlaintextAfter(n)) => |h| >= 3 && !o.encrypted && allEncrypted && n == |h|
    case Some(Downgraded(best, to)) =>
      |h| >= 3 && (o.encrypted || !allEncrypted) && Given(o.version) && lower
      && o.version == Some(to) && IsBest(h, Some(best))
    case None => |h| < 3 || ((o.encrypted || !allEncrypted) && !(Given(o.version) && lower))
  }

  /** The verdict taken from the row is the one recomputed from the whole history. */
  lemma DetectIsVerdict(f: Flow, h: seq<Seen>, o: Seen)
    requires Describes(f, h)
    ensures IsVerdict(h, o, Detect(f, o))
  {
    hide Counts, Spans, Count, Strip;
    EncryptedOrPlaintext(h);
    EmptyRanksLowest();
    var x :| x in h && x.version == f.best;
    if exists p <- h :: VersionRank(p.version) > VersionRank(o.version) {
      var p :| p in h && VersionRank(p.version) > VersionRank(o.version);
      assert VersionRank(f.best) >= VersionRank(p.version) > -1;
    }
  }

  // ----- the store -----

  /** A stored session with the verdict that went into its findings. */
  datatype Stored = Stored(id: string, seen: Seen, regression: Option<Regression>)

  datatype Db = Db(sessions: map<string, Seen>, flows: map<string, Flow>, log: seq<Stored>)

  /** One delivery of a session; without a commit the transaction is rolled back. */
  datatype Delivery = Delivery(id: string, seen: Seen, commits: bool)

  function Persist(db: Db, d: Delivery): Db {
    if d.id in db.sessions || !d.commits then db
    else
      var o := d.seen;
      var known := o.flow in db.flows;
      var row := if known then db.flows[o.flow] else NewFlow(o);
      var regression := if known then Detect(row, o) else None;
      Db(db.sessions[d.id := o], db.flows[o.flow := Updated(row, o)], db.log + [Stored(d.id, o, regression)])
  }

  function Run(ds: seq<Delivery>): Db {
    if ds == [] then Db(map[], map[], []) else Persist(Run(ds[..|ds| - 1]), ds[|ds| - 1])
  }

  /** The stored sessions of one flow, oldest first. */
  function HistoryOf(log: seq<Stored>, flow: string): seq<Seen> {
    if log == [] then []
    else
      var front, last := HistoryOf(log[..|log| - 1], flow), log[|log| - 1];
      if last.seen.flow == flow then front + [last.seen] else front
  }

  /** Each id is stored once. */
  ghost predicate StoredOnce(db: Db) {
    && (forall id :: id in db.sessions <==> exists s <- db.log :: s.id == id)
    && (forall i, j :: 0 <= i < j < |db.log| ==> db.log[i].id != db.log[j].id)
  }

  /** Each flow row describes the stored sessions of that flow. */
  ghost predicate RowsMatch(db: Db) {
    && (forall flow :: flow in db.flows <==> HistoryOf(db.log, flow) != [])
    && (forall flow <- db.flows :: Describes(db.flows[flow], HistoryOf(db.log, flow)))
  }

  /** Each verdict is the one that follows from the sessions stored before. */
  ghost predicate VerdictsMatch(log: seq<Stored>) {
    forall i :: 0 <= i < |log| ==> IsVerdict(HistoryOf(log[..i], log[i].seen.flow), log[i].seen, log[i].regression)
  }

  ghost predicate MatchesHistory(db: Db) {
    StoredOnce(db) && RowsMatch(db) && VerdictsMatch(db.log)
  }

  lemma HistoryMore(log: seq<Stored>, s: Stored, flow: string)
    ensures HistoryOf(log + [s], flow)
         == if s.seen.flow == flow then HistoryOf(log, flow) + [s.seen] else HistoryOf(log, flow)
  {
    assert (log + [s])[..|log|] == log;
  }

  /** The row and the verdict that a new session leaves behind. */
  lemma RowAndVerdict(db: Db, o: Seen)
    requires MatchesHistory(db)
    ensures var h, known := HistoryOf(db.log, o.flow), o.flow in db.flows;
            var row := if known then db.flows[o.flow] else NewFlow(o);
            Describes(Updated(row, o), h + [o]) && IsVerdict(h, o, if known then Detect(row, o) else None)
  {
    hide Describes, IsVerdict, Updated, NewFlow, Detect, HistoryOf;
    var h := HistoryOf(db.log, o.flow);
    if o.flow in db.flows {
      UpdateDescribes(db.flows[o.flow], h, o);
      DetectIsVerdict(db.flows[o.flow], h, o);
    } else {
      assert [] + [o] == [o];
      FirstDescribes(o);
      NoHistoryNoVerdict(o);
    }
  }

  lemma RowsGrow(db: Db, db': Db, s: Stored, row: Flow)
    requires RowsMatch(db) && db'.log == db.log + [s] && db'.flows == db.flows[s.seen.flow := row]
    requires Describes(row, HistoryOf(db.log, s.seen.flow) + [s.seen])
    ensures RowsMatch(db')
  {
    hide Describes, HistoryOf;
    forall flow
      ensures HistoryOf(db'.log, flow)
           == if s.seen.flow == flow then HistoryOf(db.log, flow) + [s.seen] else HistoryOf(db.log, flow)
    {
      HistoryMore(db.log, s, flow);
    }
  }

  lemma VerdictsGrow(log: seq<Stored>, s: Stored)
    requires VerdictsMatch(log) && IsVerdict(HistoryOf(log, s.seen.flow), s.seen, s.regression)
    ensures VerdictsMatch(log + [s])
  {
    hide IsVerdict, HistoryOf;
    var more := log + [s];
    forall i | 0 <= i < |more|
      ensures IsVerdict(HistoryOf(more[..i], more[i].seen.flow), more[i].seen, more[i].regression)
    {
      assert more[..i] == log[..i];
      assert log[..|log|] == log;
    }
  }

  lemma PersistMatches(db: Db, d: Delivery)
    requires MatchesHistory(db)
    ensures MatchesHistory(Persist(db, d))
  {
    hide Describes, IsVerdict, Updated, NewFlow, Detect, HistoryOf, RowsMatch, VerdictsMatch;
    if d.id !in db.sessions && d.commits {
      var db', o := Persist(db, d), d.seen;
      var s := db'.log[|db.log|];
      RowAndVerdict(db, o);
      IdsGrow(db, db', s);
      RowsGrow(db, db', s, db'.flows[o.flow]);
      VerdictsGrow(db.log, s);
    }
  }

  lemma NoHistoryNoVerdict(o: Seen)
    ensures IsVerdict([], o, None)
  {
  }

  lemma IdsGrow(db: Db, db': Db, s: Stored)
    requires StoredOnce(db)
    requires s.id !in db.sessions && db'.log == db.log + [s] && db'.sessions == db.sessions[s.id := s.seen]
    ensures StoredOnce(db')
  {
    forall i | 0 <= i < |db.log|
      ensures db.log[i].id != s.id
    {
      assert db.log[i] in db.log;
    }
    forall id
      ensures id in db'.sessions <==> exists x <- db'.log :: x.id == id
    {
      if id == s.id { assert s in db'.log; }
      if id in db.sessions {
        var x :| x in db.log && x.id == id;
        assert x in db'.log;
      }
    }
  }

  /** Over every run of deliveries, redeliveries and rollbacks by one worker the flow rows equal the
      stored history. */
  lemma {:induction false} FlowsMatchHistory(ds: seq<Delivery>)
    ensures MatchesHistory(Run(ds))
  {
    hide MatchesHistory, Persist;
    if ds == [] {
      EmptyMatches();
    } else {
      FlowsMatchHistory(ds[..|ds| - 1]);
      PersistMatches(Run(ds[..|ds| - 1]), ds[|ds| - 1]);
    }
  }

  lemma EmptyMatches()
    ensures MatchesHistory(Db(map[], map[], []))
  {
  }

  /** The totals of a flow are the number of its stored sessions. */
  lemma TotalsBalance(ds: seq<Delivery>, flow: string)
    requires flow in Run(ds).flows
    ensures var f := Run(ds).flows[flow]; f.total == f.encrypted + f.plaintext == |HistoryOf(Run(ds).log, flow)|
  {
    hide Run, HistoryOf, Counts, IsBest, Spans, VerdictsMatch;
    FlowsMatchHistory(ds);
    EncryptedOrPlaintext(HistoryOf(Run(ds).log, flow));
  }

  // ----- the names that the analysis uses -----

  lemma HexIsUnranked(v: Word)
    ensures VersionRank(Some("0x" + Hex4(v))) == -1
  {
    hide Digit;
    var name := "0x" + Hex4(v);
    assert name[0] == '0' && name[5] == Hex4(v)[3] == Digit(v % 256 % 16);
    assert Strip(name) == name;
    assert forall known <- VERSION_RANK :: known[0] != '0';
  }

  /** No name that the analysis gives a version has a rank. */
  lemma AnalysisNamesHaveNoRank(v: Word)
    ensures VersionRank(Some(VersionName(v))) == -1
  {
    hide Hex4;
    if v < 0x0300 || v > 0x0304 {
      HexIsUnranked(v);
    } else {
      assert Strip(VersionName(v)) == VersionName(v);
    }
  }

  /** The session as the persist step reports it: encrypted when a version was negotiated. */
  ghost predicate FromAnalysis(o: Seen) {
    o.encrypted == o.version.Some? && (o.version.Some? ==> exists v: Word :: o.version.value == VersionName(v))
  }

  lemma {:induction false} LoggedFromAnalysis(ds: seq<Delivery>)
    requires forall d <- ds :: FromAnalysis(d.seen)
    ensures forall s <- Run(ds).log :: FromAnalysis(s.seen)
  {
    hide FromAnalysis, Detect, Updated;
    if ds != [] {
      LoggedFromAnalysis(ds[..|ds| - 1]);
      assert ds[|ds| - 1] in ds;
    }
  }

  lemma {:induction false} HistoryIsLogged(log: seq<Stored>, flow: string)
    ensures forall o <- HistoryOf(log, flow) :: exists s <- log :: s.seen == o
  {
    if log != [] {
      HistoryIsLogged(log[..|log| - 1], flow);
      assert log[|log| - 1] in log;
      assert forall s <- log[..|log| - 1] :: s in log;
    }
  }

  lemma NoRanksNoDowngrade(h: seq<Seen>, o: Seen, r: Option<Regression>)
    requires IsVerdict(h, o, r) && FromAnalysis(o) && forall p <- h :: FromAnalysis(p)
    ensures r.Some? ==> r.value.PlaintextAfter?
  {
    hide Strip, VersionName;
    if r.Some? && r.value.Downgraded? {
      var p :| p in h && VersionRank(p.version) > VersionRank(o.version);
      var v: Word :| p.version.value == VersionName(v);
      var w: Word :| o.version.value == VersionName(w);
      AnalysisNamesHaveNoRank(v);
      AnalysisNamesHaveNoRank(w);
    }
  }

  /** So with the names the analysis produces the downgrade verdict is never given, whatever versions
      the sessions of a flow negotiate. */
  lemma DowngradeIsNeverReported(ds: seq<Delivery>)
    requires forall d <- ds :: FromAnalysis(d.seen)
    ensures forall s <- Run(ds).log :: s.regression.Some? ==> s.regression.value.PlaintextAfter?
  {
    hide Run, IsVerdict, FromAnalysis;
    FlowsMatchHistory(ds);
    LoggedFromAnalysis(ds);
    var log := Run(ds).log;
    forall i | 0 <= i < |log|
      ensures log[i].regression.Some? ==> log[i].regression.value.PlaintextAfter?
    {
      HistoryIsLogged(log[..i], log[i].seen.flow);
      assert log[i] in log;
      assert forall s <- log[..i] :: s in log;
      NoRanksNoDowngrade(HistoryOf(log[..i], log[i].seen.flow), log[i].seen, log[i].regression);
    }
  }
}
