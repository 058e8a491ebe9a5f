/** The JA4 client fingerprint. The hash is a parameter `h`, so what is proved holds of any hash. */
module Ja4 {
  import opened Collections
  import opened Wrappers
  import opened Bytes
  import opened Strings
  import opened Handshake

  // ----- sorting and joining -----

  function Insert(x: string, xs: seq<string>): (r: seq<string>)
    ensures multiset(r) == multiset(xs) + multiset{x}
  {
    if xs == [] || StrLe(x, xs[0]) then [x] + xs
    else
      assert xs == [xs[0]] + xs[1..];
      [xs[0]] + Insert(x, xs[1..])
  }

  /** sorted(xs). */
  function Sorted(xs: seq<string>): (r: seq<string>)
    ensures multiset(r) == multiset(xs)
  {
    if xs == [] then []
    else
      assert xs == [xs[0]] + xs[1..];
      Insert(xs[0], Sorted(xs[1..]))
  }

  ghost predicate Ordered(xs: seq<string>) {
    forall i, j :: 0 <= i < j < |xs| ==> StrLe(xs[i], xs[j])
  }

  lemma {:induction false} InsertIsOrdered(x: string, xs: seq<string>)
    requires Ordered(xs)
    ensures Ordered(Insert(x, xs)) && forall y <- Insert(x, xs) :: y == x || y in xs
  {
    if xs != [] {
      if StrLe(x, xs[0]) {
        forall i | 0 <= i < |xs|
          ensures StrLe(x, xs[i])
        {
          if i > 0 { StrLeIsTransitive(x, xs[0], xs[i]); }
        }
      } else {
        StrLeIsTotal(x, xs[0]);
        InsertIsOrdered(x, xs[1..]);
        forall y | y in Insert(x, xs[1..])
          ensures StrLe(xs[0], y)
        {
        }
      }
    }
  }

  lemma {:induction false} SortedIsOrdered(xs: seq<string>)
    ensures Ordered(Sorted(xs))
  {
    hide Ordered;
    if xs != [] {
      SortedIsOrdered(xs[1..]);
      InsertIsOrdered(xs[0], Sorted(xs[1..]));
    } else {
      assert Ordered([]) by { EmptyIsOrdered(); }
    }
  }

  lemma EmptyIsOrdered()
    ensures Ordered([])
  {
  }

  lemma HeadIsLeast(xs: seq<string>, y: string)
    requires Ordered(xs) && y in multiset(xs)
    ensures xs != [] && StrLe(xs[0], y)
  {
    StrLeIsTotal(xs[0], xs[0]);
    var i :| 0 <= i < |xs| && xs[i] == y;
  }

  lemma TailIsOrdered(xs: seq<string>)
    requires Ordered(xs) && xs != []
    ensures Ordered(xs[1..]) && multiset(xs[1..]) == multiset(xs) - multiset{xs[0]}
  {
    assert xs == [xs[0]] + xs[1..];
  }

  /** Two orders of the same strings, both sorted, are the same sequence. */
  lemma {:induction false} OrderedIsUnique(xs: seq<string>, ys: seq<string>)
    requires Ordered(xs) && Ordered(ys) && multiset(xs) == multiset(ys)
    ensures xs == ys
  {
    hide StrLe, Ordered;
    assert |xs| == |multiset(xs)| == |ys|;
    if xs != [] {
      assert xs[0] in multiset(xs) && ys[0] in multiset(ys);
      HeadIsLeast(xs, ys[0]);
      HeadIsLeast(ys, xs[0]);
      StrLeIsTotal(xs[0], ys[0]);
      TailIsOrdered(xs);
      TailIsOrdered(ys);
      OrderedIsUnique(xs[1..], ys[1..]);
      assert xs == [xs[0]] + xs[1..] && ys == [ys[0]] + ys[1..];
    }
  }

  lemma SortIsCanonical(a: seq<string>, b: seq<string>)
    ensures Sorted(a) == Sorted(b) <==> multiset(a) == multiset(b)
  {
    hide Sorted, Ordered;
    if multiset(a) == multiset(b) {
      SortedIsOrdered(a);
      SortedIsOrdered(b);
      OrderedIsUnique(Sorted(a), Sorted(b));
    }
  }

  ghost predicate AreHex(parts: seq<string>) {
    forall p <- parts :: |p| == 4 && '_' !in p
  }

  lemma {:induction false} JoinSize(parts: seq<string>)
    requires AreHex(parts)
    ensures |Join(',', parts)| == if parts == [] then 0 else 5 * |parts| - 1
    ensures '_' !in Join(',', parts)
  {
    if parts != [] {
      assert parts[0] in parts;
      JoinSize(parts[1..]);
    }
  }

  lemma {:induction false} JoinIsInjective(xs: seq<string>, ys: seq<string>)
    requires AreHex(xs) && AreHex(ys) && Join(',', xs) == Join(',', ys)
    ensures xs == ys
  {
    JoinSize(xs);
    JoinSize(ys);
    if xs != [] {
      assert xs[0] in xs && ys[0] in ys;
      assert xs[0] == Join(',', xs)[..4] && ys[0] == Join(',', ys)[..4];
      if |xs| > 1 {
        assert Join(',', xs[1..]) == Join(',', xs)[5..] && Join(',', ys[1..]) == Join(',', ys)[5..];
        JoinIsInjective(xs[1..], ys[1..]);
      }
      assert xs == [xs[0]] + xs[1..] && ys == [ys[0]] + ys[1..];
    }
  }

  lemma HasUnderscore(a: string, b: string)
    ensures '_' in a + "_" + b
  {
    assert (a + "_" + b)[|a|] == '_';
  }

  // ----- the fingerprint -----

  /** What ja4 reads of a ClientHello; ALPN names are their Latin-1 bytes. */
  datatype Offer = Offer(
    legacy: int,
    suites: seq<int>,
    extIds: seq<int>,
    versions: seq<int>,
    sni: bool,
    alpn: seq<ByteString>,
    sigAlgs: seq<int>)

  function Hexed(vs: seq<int>): (r: seq<string>)
    ensures |r| == |vs| && forall i :: 0 <= i < |vs| ==> r[i] == Hex4(vs[i] % 0x1_0000)
  {
    seq(|vs|, i requires 0 <= i < |vs| => Hex4(vs[i] % 0x1_0000))
  }

  function Largest(vs: seq<int>): (m: int)
    requires vs != []
    ensures m in vs && forall v <- vs :: v <= m
  {
    if |vs| == 1 then vs[0]
    else
      assert vs == [vs[0]] + vs[1..];
      var m := Largest(vs[1..]);
      if vs[0] >= m then vs[0] else m
  }

  function VersionCode(v: int): string {
    match v
    case 0x0304 => "13"
    case 0x0303 => "12"
    case 0x0302 => "11"
    case 0x0301 => "10"
    case 0x0300 => "s3"
    case 0x0002 => "s2"
    case 0xFEFF => "d1"
    case 0xFEFD => "d2"
    case 0xFEFC => "d3"
    case _ => "00"
  }

  function TopVersion(o: Offer): int {
    var cands := StripGrease(o.versions);
    if cands != [] then Largest(cands) else o.legacy
  }

  predicate IsAlnum(b: Byte) {
    0x30 <= b <= 0x39 || 0x41 <= b <= 0x5A || 0x61 <= b <= 0x7A
  }

  function Edge(b: Byte, isFirst: bool): string {
    if IsAlnum(b) then [b as char] else if isFirst then Hex2(b as int)[..1] else Hex2(b as int)[1..]
  }

  function Alpn2(alpn: seq<ByteString>): string {
    if alpn == [] || alpn[0] == [] then "00"
    else
      var first := alpn[0];
      if |first| > 1 then Edge(first[0], true) + Edge(first[|first| - 1], false)
      else
        var c := Edge(first[0], true);
        if c == [first[0] as char] && !IsAlnum(first[0]) then Hex2(first[0] as int) else c + c
  }

  /** f"{min(n, 99):02d}". */
  function TwoDigits(n: nat): string {
    var m := if n < 99 then n else 99;
    [Digit(m / 10), Digit(m % 10)]
  }

  function Digest(h: string -> string, input: Option<string>): string {
    if input.None? then "000000000000" else if |h(input.value)| < 12 then h(input.value) else h(input.value)[..12]
  }

  function Unnamed(vs: seq<int>): seq<int> {
    if vs == [] then [] else (if vs[0] == 0 || vs[0] == 16 then [] else [vs[0]]) + Unnamed(vs[1..])
  }

  function ListInput(parts: seq<string>): Option<string> {
    if parts == [] then None else Some(Join(',', parts))
  }

  /** What is hashed for the cipher suites; None is the empty list, which is not hashed. */
  function CipherInput(o: Offer): Option<string> {
    ListInput(Sorted(Hexed(StripGrease(o.suites))))
  }

  function ExtensionInput(o: Offer): Option<string> {
    var ids := Sorted(Hexed(Unnamed(StripGrease(o.extIds))));
    if o.sigAlgs != [] then Some(Join(',', ids) + "_" + Join(',', Hexed(o.sigAlgs))) else ListInput(ids)
  }

  function Fingerprint(h: string -> string, o: Offer, quic: bool): string {
    (if quic then "q" else "t") + VersionCode(TopVersion(o)) + (if o.sni then "d" else "i")
    + TwoDigits(|StripGrease(o.suites)|) + TwoDigits(|StripGrease(o.extIds)|) + Alpn2(o.alpn)
    + "_" + Digest(h, CipherInput(o)) + "_" + Digest(h, ExtensionInput(o))
  }

  // ----- multisets of values -----

  lemma {:induction false} StripMultiset(vs: seq<int>, x: int)
    ensures multiset(StripGrease(vs))[x] == if IsGrease(x) then 0 else multiset(vs)[x]
  {
    if vs != [] {
      StripMultiset(vs[1..], x);
      assert vs == [vs[0]] + vs[1..];
    }
  }

  lemma {:induction false} UnnamedMultiset(vs: seq<int>, x: int)
    ensures multiset(Unnamed(vs))[x] == if x == 0 || x == 16 then 0 else multiset(vs)[x]
  {
    if vs != [] {
      UnnamedMultiset(vs[1..], x);
      assert vs == [vs[0]] + vs[1..];
    }
  }

  lemma StripRespectsMultiset(a: seq<int>, b: seq<int>)
    requires multiset(a) == multiset(b)
    ensures multiset(StripGrease(a)) == multiset(StripGrease(b))
  {
    forall x
      ensures multiset(StripGrease(a))[x] == multiset(StripGrease(b))[x]
    {
      StripMultiset(a, x);
      StripMultiset(b, x);
    }
  }

  lemma UnnamedRespectsMultiset(a: seq<int>, b: seq<int>)
    requires multiset(a) == multiset(b)
    ensures multiset(Unnamed(a)) == multiset(Unnamed(b))
  {
    forall x
      ensures multiset(Unnamed(a))[x] == multiset(Unnamed(b))[x]
    {
      UnnamedMultiset(a, x);
      UnnamedMultiset(b, x);
    }
  }

  lemma HexedSplits(a: seq<int>, x: int, b: seq<int>)
    ensures multiset(Hexed(a + [x] + b)) == multiset(Hexed(a + b)) + multiset{Hex4(x % 0x1_0000)}
  {
    hide Hex4;
    assert Hexed(a + [x] + b) == Hexed(a) + [Hex4(x % 0x1_0000)] + Hexed(b);
    assert Hexed(a + b) == Hexed(a) + Hexed(b);
  }

  /** Taking one value out takes its hexadecimal form out. */
  lemma TakeOut(vs: seq<int>, x: int) returns (rest: seq<int>)
    requires x in vs
    ensures |rest| == |vs| - 1 && (forall v <- rest :: v in vs)
    ensures multiset(vs) == multiset(rest) + multiset{x}
    ensures multiset(Hexed(vs)) == multiset(Hexed(rest)) + multiset{Hex4(x % 0x1_0000)}
  {
    hide Hexed;
    var i :| 0 <= i < |vs| && vs[i] == x;
    rest := vs[..i] + vs[i + 1..];
    assert vs == vs[..i] + [x] + vs[i + 1..];
    HexedSplits(vs[..i], x, vs[i + 1..]);
  }

  lemma {:induction false} HexedRespectsMultiset(a: seq<int>, b: seq<int>)
    requires multiset(a) == multiset(b)
    ensures multiset(Hexed(a)) == multiset(Hexed(b))
    decreases |a|
  {
    hide Hexed;
    assert |a| == |multiset(a)| == |b|;
    if a == [] {
    } else {
      assert a[0] in multiset(a);
      var c := TakeOut(a, a[0]);
      var d := TakeOut(b, a[0]);
      assert multiset(c) == multiset(a) - multiset{a[0]} == multiset(d);
      HexedRespectsMultiset(c, d);
    }
  }

  ghost predicate AreWords(vs: seq<int>) {
    forall v <- vs :: 0 <= v < 0x1_0000
  }

  lemma HexedMembers(vs: seq<int>, x: int)
    requires AreWords(vs) && 0 <= x < 0x1_0000
    ensures Hex4(x) in Hexed(vs) <==> x in vs
  {
    hide Hex4;
    forall i | 0 <= i < |vs|
      ensures Hexed(vs)[i] == Hex4(x) <==> vs[i] == x
    {
      assert vs[i] in vs;
      HexOrderIsNumeric(vs[i], x);
    }
    if x in vs {
      var i :| 0 <= i < |vs| && vs[i] == x;
      assert Hexed(vs)[i] == Hex4(x);
    }
  }

  /** Sorting the hexadecimal forms loses nothing: the multiset of the values can be read back. */
  lemma {:induction false} HexedMultisetIsFaithful(a: seq<int>, b: seq<int>)
    requires AreWords(a) && AreWords(b) && multiset(Hexed(a)) == multiset(Hexed(b))
    ensures multiset(a) == multiset(b)
    decreases |a|
  {
    hide Hexed, Hex4;
    assert |Hexed(a)| == |multiset(Hexed(a))| == |Hexed(b)|;
    if a != [] {
      var x := a[0];
      assert x in a;
      HexedMembers(a, x);
      assert Hex4(x) in multiset(Hexed(b));
      HexedMembers(b, x);
      var c := TakeOut(a, x);
      var d := TakeOut(b, x);
      SameLess(multiset(Hexed(a)), multiset(Hexed(c)), multiset(Hexed(d)), Hex4(x));
      HexedMultisetIsFaithful(c, d);
    }
  }

  lemma SameLess(all: multiset<string>, a: multiset<string>, b: multiset<string>, x: string)
    requires all == a + multiset{x} && all == b + multiset{x}
    ensures a == b
  {
    assert a == all - multiset{x} == b;
  }

  /** The sorted hexadecimal list is the hexadecimal list of the sorted values. */
  lemma SortingHexIsSortingNumbers(vs: seq<int>, sorted: seq<int>)
    requires AreWords(vs) && multiset(sorted) == multiset(vs)
    requires forall i, j :: 0 <= i < j < |sorted| ==> sorted[i] <= sorted[j]
    ensures Sorted(Hexed(vs)) == Hexed(sorted)
  {
    hide Sorted, Hex4;
    forall i | 0 <= i < |sorted|
      ensures 0 <= sorted[i] < 0x1_0000
    {
      assert sorted[i] in multiset(vs);
      assert sorted[i] in vs;
    }
    forall i, j | 0 <= i < j < |sorted|
      ensures StrLe(Hexed(sorted)[i], Hexed(sorted)[j])
    {
      HexOrderIsNumeric(sorted[i], sorted[j]);
    }
    HexedRespectsMultiset(vs, sorted);
    SortedIsOrdered(Hexed(vs));
    OrderedIsUnique(Sorted(Hexed(vs)), Hexed(sorted));
  }

  // ----- what the fingerprint depends on -----

  /** The parts of two offers that the fingerprint may see are the same: suites and extensions without
      GREASE up to order, offered versions without GREASE as a set. */
  ghost predicate LooksLike(o: Offer, p: Offer) {
    && multiset(StripGrease(o.suites)) == multiset(StripGrease(p.suites))
    && multiset(StripGrease(o.extIds)) == multiset(StripGrease(p.extIds))
    && (forall v :: v in StripGrease(o.versions) <==> v in StripGrease(p.versions))
    && o.legacy == p.legacy && o.sni == p.sni && o.alpn == p.alpn && o.sigAlgs == p.sigAlgs
  }

  lemma InputsRespectLooks(o: Offer, p: Offer)
    requires LooksLike(o, p)
    ensures CipherInput(o) == CipherInput(p) && ExtensionInput(o) == ExtensionInput(p)
  {
    hide StripGrease, Sorted, Hexed, Unnamed, Join;
    var (a, b) := (StripGrease(o.suites), StripGrease(p.suites));
    var (c, d) := (StripGrease(o.extIds), StripGrease(p.extIds));
    HexedRespectsMultiset(a, b);
    SortIsCanonical(Hexed(a), Hexed(b));
    UnnamedRespectsMultiset(c, d);
    HexedRespectsMultiset(Unnamed(c), Unnamed(d));
    SortIsCanonical(Hexed(Unnamed(c)), Hexed(Unnamed(d)));
  }

  lemma TopRespectsLooks(o: Offer, p: Offer)
    requires LooksLike(o, p)
    ensures TopVersion(o) == TopVersion(p)
  {
    hide Largest;
    var (a, b) := (StripGrease(o.versions), StripGrease(p.versions));
    if a != [] { assert a[0] in a; }
    if b != [] { assert b[0] in b; }
  }

  /** The fingerprint depends on nothing else, whatever the hash. */
  lemma FingerprintIsCanonical(h: string -> string, o: Offer, p: Offer, quic: bool)
    requires LooksLike(o, p)
    ensures Fingerprint(h, o, quic) == Fingerprint(h, p, quic)
  {
    InputsRespectLooks(o, p);
    TopRespectsLooks(o, p);
    hide StripGrease, CipherInput, ExtensionInput, TopVersion, Alpn2, TwoDigits, Digest, VersionCode;
    assert |StripGrease(o.suites)| == |multiset(StripGrease(o.suites))| == |StripGrease(p.suites)|;
    assert |StripGrease(o.extIds)| == |multiset(StripGrease(o.extIds))| == |StripGrease(p.extIds)|;
  }

  /** Any reordering of suites, extensions or versions leaves the fingerprint unchanged. */
  lemma OrderIsInvisible(h: string -> string, o: Offer, p: Offer, quic: bool)
    requires multiset(o.suites) == multiset(p.suites) && multiset(o.extIds) == multiset(p.extIds)
    requires multiset(o.versions) == multiset(p.versions)
    requires o == p.(suites := o.suites, extIds := o.extIds, versions := o.versions)
    ensures Fingerprint(h, o, quic) == Fingerprint(h, p, quic)
  {
    hide StripGrease, Fingerprint;
    StripRespectsMultiset(o.suites, p.suites);
    StripRespectsMultiset(o.extIds, p.extIds);
    StripRespectsMultiset(o.versions, p.versions);
    var (a, b) := (StripGrease(o.versions), StripGrease(p.versions));
    forall v
      ensures v in a <==> v in b
    {
      assert v in multiset(a) <==> v in multiset(b);
    }
    FingerprintIsCanonical(h, o, p, quic);
  }

  function Inserted(vs: seq<int>, i: nat, g: int): seq<int>
    requires i <= |vs|
  {
    vs[..i] + [g] + vs[i..]
  }

  lemma {:induction false} StripSkipsGrease(vs: seq<int>, i: nat, g: int)
    requires i <= |vs| && IsGrease(g)
    ensures StripGrease(Inserted(vs, i, g)) == StripGrease(vs)
  {
    if i == 0 {
      assert Inserted(vs, i, g) == [g] + vs;
    } else {
      StripSkipsGrease(vs[1..], i - 1, g);
      assert Inserted(vs, i, g)[1..] == Inserted(vs[1..], i - 1, g);
    }
  }

  /** Inserting any GREASE value of RFC 8701, section 2 anywhere into the suites, the extensions and
      the offered versions leaves the fingerprint unchanged. */
  lemma GreaseIsInvisible(h: string -> string, o: Offer, i: nat, j: nat, k: nat, g: int, quic: bool)
    requires IsReservedGrease(g) && i <= |o.suites| && j <= |o.extIds| && k <= |o.versions|
    ensures Fingerprint(h, o.(suites := Inserted(o.suites, i, g)), quic) == Fingerprint(h, o, quic)
    ensures Fingerprint(h, o.(extIds := Inserted(o.extIds, j, g)), quic) == Fingerprint(h, o, quic)
    ensures Fingerprint(h, o.(versions := Inserted(o.versions, k, g)), quic) == Fingerprint(h, o, quic)
  {
    hide Fingerprint, StripGrease, IsReservedGrease, Inserted;
    GreaseTestIsWider(g);
    StripSkipsGrease(o.suites, i, g);
    StripSkipsGrease(o.extIds, j, g);
    StripSkipsGrease(o.versions, k, g);
    FingerprintIsCanonical(h, o.(suites := Inserted(o.suites, i, g)), o, quic);
    FingerprintIsCanonical(h, o.(extIds := Inserted(o.extIds, j, g)), o, quic);
    FingerprintIsCanonical(h, o.(versions := Inserted(o.versions, k, g)), o, quic);
  }

  // ----- what the hash inputs tell apart -----

  lemma HexHasNoUnderscore(v: Word)
    ensures '_' !in Hex4(v)
  {
    forall i | 0 <= i < 4
      ensures Hex4(v)[i] != '_'
    {
    }
  }

  lemma HexedAreHex(vs: seq<int>)
    ensures AreHex(Hexed(vs)) && AreHex(Sorted(Hexed(vs)))
  {
    hide Hex4, Sorted;
    forall i | 0 <= i < |vs|
      ensures '_' !in Hexed(vs)[i]
    {
      HexHasNoUnderscore(vs[i] % 0x1_0000);
    }
    forall p | p in Sorted(Hexed(vs))
      ensures p in Hexed(vs)
    {
      assert p in multiset(Sorted(Hexed(vs)));
    }
  }

  lemma ListInputIsInjective(xs: seq<string>, ys: seq<string>)
    requires AreHex(xs) && AreHex(ys) && ListInput(xs) == ListInput(ys)
    ensures xs == ys
  {
    hide Join, AreHex;
    if xs != [] { JoinIsInjective(xs, ys); }
  }

  lemma SortedHexIsFaithful(a: seq<int>, b: seq<int>)
    requires AreWords(a) && AreWords(b) && Sorted(Hexed(a)) == Sorted(Hexed(b))
    ensures multiset(a) == multiset(b)
  {
    hide Sorted, Hexed;
    SortIsCanonical(Hexed(a), Hexed(b));
    HexedMultisetIsFaithful(a, b);
  }

  lemma {:induction false} StripIn(vs: seq<int>)
    ensures forall v <- StripGrease(vs) :: v in vs
    ensures forall v <- Unnamed(StripGrease(vs)) :: v in vs
  {
    if vs != [] { StripIn(vs[1..]); }
  }

  ghost predicate WordsOnly(o: Offer) {
    AreWords(o.suites) && AreWords(o.extIds) && AreWords(o.sigAlgs)
  }

  /** Two offers hash the same cipher input exactly when their suites without GREASE are equal up to
      order. */
  lemma CipherInputSeparates(o: Offer, p: Offer)
    requires WordsOnly(o) && WordsOnly(p)
    ensures CipherInput(o) == CipherInput(p) <==> multiset(StripGrease(o.suites)) == multiset(StripGrease(p.suites))
  {
    hide StripGrease, Sorted, Hexed, ListInput, AreHex;
    var (a, b) := (StripGrease(o.suites), StripGrease(p.suites));
    StripIn(o.suites);
    StripIn(p.suites);
    HexedAreHex(a);
    HexedAreHex(b);
    if CipherInput(o) == CipherInput(p) {
      ListInputIsInjective(Sorted(Hexed(a)), Sorted(Hexed(b)));
      SortedHexIsFaithful(a, b);
    }
    if multiset(a) == multiset(b) {
      HexedRespectsMultiset(a, b);
      SortIsCanonical(Hexed(a), Hexed(b));
    }
  }

  lemma {:induction false} HexedIsInjective(a: seq<int>, b: seq<int>)
    requires AreWords(a) && AreWords(b) && Hexed(a) == Hexed(b)
    ensures a == b
  {
    hide Hex4;
    forall i | 0 <= i < |a|
      ensures a[i] == b[i]
    {
      assert a[i] in a && b[i] in b;
      assert Hexed(a)[i] == Hexed(b)[i];
      HexOrderIsNumeric(a[i], b[i]);
    }
  }

  function ExtIds(o: Offer): seq<int> {
    Unnamed(StripGrease(o.extIds))
  }

  lemma ExtensionPartsDiffer(ids: seq<string>, sigs: seq<int>, ids': seq<string>, sigs': seq<int>)
    requires AreHex(ids) && AreHex(ids') && AreWords(sigs) && AreWords(sigs')
    requires (if sigs != [] then Some(Join(',', ids) + "_" + Join(',', Hexed(sigs))) else ListInput(ids))
          == (if sigs' != [] then Some(Join(',', ids') + "_" + Join(',', Hexed(sigs'))) else ListInput(ids'))
    ensures ids == ids' && sigs == sigs'
  {
    hide Join, Hexed, AreHex;
    JoinSize(ids);
    JoinSize(ids');
    HasUnderscore(Join(',', ids), Join(',', Hexed(sigs)));
    HasUnderscore(Join(',', ids'), Join(',', Hexed(sigs')));
    HexedAreHex(sigs);
    HexedAreHex(sigs');
    if sigs != [] && sigs' != [] {
      SplitsAt('_', Join(',', ids), Join(',', Hexed(sigs)), Join(',', ids'), Join(',', Hexed(sigs')));
      JoinIsInjective(ids, ids');
      JoinIsInjective(Hexed(sigs), Hexed(sigs'));
      HexedIsInjective(sigs, sigs');
    } else if sigs == [] && sigs' == [] {
      ListInputIsInjective(ids, ids');
    }
  }

  /** Two offers hash the same extension input exactly when their extensions, without GREASE, SNI and
      ALPN, are equal up to order and their signature algorithms are equal in order. */
  lemma ExtensionInputSeparates(o: Offer, p: Offer)
    requires WordsOnly(o) && WordsOnly(p)
    ensures ExtensionInput(o) == ExtensionInput(p)
            <==> multiset(ExtIds(o)) == multiset(ExtIds(p)) && o.sigAlgs == p.sigAlgs
  {
    hide StripGrease, Sorted, Hexed, Unnamed, Join, AreHex, ListInput;
    var (a, b) := (ExtIds(o), ExtIds(p));
    StripIn(o.extIds);
    StripIn(p.extIds);
    HexedAreHex(a);
    HexedAreHex(b);
    if ExtensionInput(o) == ExtensionInput(p) {
      ExtensionPartsDiffer(Sorted(Hexed(a)), o.sigAlgs, Sorted(Hexed(b)), p.sigAlgs);
      SortedHexIsFaithful(a, b);
    }
    if multiset(a) == multiset(b) {
      HexedRespectsMultiset(a, b);
      SortIsCanonical(Hexed(a), Hexed(b));
    }
  }

  /** GREASE among the signature algorithms is not stripped: it changes the hashed input. */
  lemma GreaseInSigAlgsShows(o: Offer, i: nat, g: int)
    requires WordsOnly(o) && i <= |o.sigAlgs| && IsReservedGrease(g)
    ensures ExtensionInput(o.(sigAlgs := Inserted(o.sigAlgs, i, g))) != ExtensionInput(o)
  {
    hide ExtensionInput;
    var p := o.(sigAlgs := Inserted(o.sigAlgs, i, g));
    assert forall v <- p.sigAlgs :: v in o.sigAlgs || v == g;
    ExtensionInputSeparates(o, p);
  }

  /** A one-byte protocol name that is not alphanumeric gives its first hexadecimal digit twice, not
      its two digits. */
  lemma OneByteAlpn(b: Byte)
    ensures Alpn2([[b]]) == Edge(b, true) + Edge(b, true)
    ensures !IsAlnum(b) ==> (Alpn2([[b]]) == Hex2(b as int) <==> b / 16 == b % 16)
  {
    var c := Edge(b, true);
    if !IsAlnum(b) {
      assert c[0] == Digit(b / 16);
      assert Hex2(b as int)[1] == Digit(b % 16);
      assert c != [b as char];
      assert Alpn2([[b]]) == c + c;
      assert (c + c)[0] == c[0] && (c + c)[1] == c[0];
    }
  }

  /** The layout, on the published example: TLS 1.3 over TCP with SNI, 15 suites, 16 extensions and h2. */
  lemma ExampleLayout(h: string -> string, o: Offer)
    requires TopVersion(o) == 0x0304 && o.sni && |StripGrease(o.suites)| == 15 && |StripGrease(o.extIds)| == 16
    requires o.alpn != [] && o.alpn[0] == [0x68, 0x32]
    ensures Fingerprint(h, o, false)
         == "t13d1516h2_" + Digest(h, CipherInput(o)) + "_" + Digest(h, ExtensionInput(o))
  {
    hide TopVersion, StripGrease, Digest, CipherInput, ExtensionInput;
    assert TwoDigits(15) == "15" && TwoDigits(16) == "16";
    assert Alpn2(o.alpn) == "h2";
    assert "t" + "13" + "d" + "15" + "16" + "h2" + "_" == "t13d1516h2_";
  }

  // ----- the layout -----

  /** int(s) on two decimal digits. */
  function Number(s: string): int
    requires |s| == 2
  {
    (s[0] as int - 48) * 10 + (s[1] as int - 48)
  }

  lemma TwoDigitsCount(n: nat)
    ensures |TwoDigits(n)| == 2 && Number(TwoDigits(n)) == if n < 99 then n else 99
  {
  }

  lemma EdgesAreOne(b: Byte, isFirst: bool)
    ensures |Edge(b, isFirst)| == 1
  {
  }

  lemma Alpn2IsTwo(alpn: seq<ByteString>)
    ensures |Alpn2(alpn)| == 2
  {
    hide Edge, Hex2;
    if alpn != [] && alpn[0] != [] {
      EdgesAreOne(alpn[0][0], true);
      EdgesAreOne(alpn[0][|alpn[0]| - 1], false);
    }
  }

  /** Seven pieces of fixed width, of which the last two are the digests. */
  lemma PiecesAt(p: string, v: string, d: string, n: string, m: string, a: string, x: string, y: string)
    requires |p| == |d| == 1 && |v| == |n| == |m| == |a| == 2
    ensures var r := p + v + d + n + m + a + "_" + x + "_" + y;
            && |r| == 12 + |x| + |y| && r[..1] == p && r[1..3] == v && r[3..4] == d && r[4..6] == n && r[6..8] == m
            && r[8..10] == a && r[10] == '_' && r[11..11 + |x|] == x && r[11 + |x|] == '_' && r[12 + |x|..] == y
  {
  }

  /** Every part of a fingerprint stands at its place: transport, version, SNI, the counts of suites and
      extensions up to 99, ALPN, and the two digests. */
  lemma LayoutIsFixed(h: string -> string, o: Offer, quic: bool)
    ensures var r := Fingerprint(h, o, quic);
            var (x, y) := (Digest(h, CipherInput(o)), Digest(h, ExtensionInput(o)));
            && |r| == 12 + |x| + |y| && r[0] == (if quic then 'q' else 't') && r[1..3] == VersionCode(TopVersion(o))
            && r[3] == (if o.sni then 'd' else 'i')
            && Number(r[4..6]) == Min(|StripGrease(o.suites)|, 99)
            && Number(r[6..8]) == Min(|StripGrease(o.extIds)|, 99)
            && r[8..10] == Alpn2(o.alpn) && r[10] == '_'
            && r[11..11 + |x|] == x && r[11 + |x|] == '_' && r[12 + |x|..] == y
  {
    hide TopVersion, StripGrease, Digest, CipherInput, ExtensionInput, Alpn2, TwoDigits, Number;
    var (n, m) := (|StripGrease(o.suites)|, |StripGrease(o.extIds)|);
    var (p, d) := (if quic then "q" else "t", if o.sni then "d" else "i");
    TwoDigitsCount(n);
    TwoDigitsCount(m);
    Alpn2IsTwo(o.alpn);
    PiecesAt(p, VersionCode(TopVersion(o)), d, TwoDigits(n), TwoDigits(m), Alpn2(o.alpn),
             Digest(h, CipherInput(o)), Digest(h, ExtensionInput(o)));
    var r := Fingerprint(h, o, quic);
    assert r[0] == r[..1][0] == p[0] && r[3] == r[3..4][0] == d[0];
  }
}
