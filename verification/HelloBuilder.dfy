/** The builders of test handshakes, and the proof that the parsers undo them: records, then
    messages, then fields. */
module HelloBuilder {
  import opened Collections
  import opened Wrappers
  import opened Bytes
  import opened TlsRecords
  import opened Handshake

  // ----- wire forms -----

  predicate AllU16(vs: seq<int>) {
    forall i :: 0 <= i < |vs| ==> 0 <= vs[i] < 0x1_0000
  }

  function U16Bytes(vs: seq<int>): (s: ByteString)
    requires AllU16(vs)
    ensures |s| == 2 * |vs|
  {
    if vs == [] then [] else To16(vs[0]) + U16Bytes(vs[1..])
  }

  function AlpnBytes(names: seq<ByteString>): ByteString
    requires forall n <- names :: |n| < 256
  {
    if names == [] then [] else [|names[0]| as Byte] + names[0] + AlpnBytes(names[1..])
  }

  function ExtensionBytes(e: Extension): (s: ByteString)
    requires 0 <= e.etype < 0x1_0000 && |e.data| < 0x1_0000
    ensures |s| == 4 + |e.data|
  {
    To16(e.etype) + To16(|e.data|) + e.data
  }

  predicate Fits(es: seq<Extension>) {
    forall e <- es :: 0 <= e.etype < 0x1_0000 && |e.data| < 0x1_0000
  }

  function ExtensionsBytes(es: seq<Extension>): ByteString
    requires Fits(es)
  {
    if es == [] then [] else ExtensionBytes(es[0]) + ExtensionsBytes(es[1..])
  }

  function MessageBytes(m: Message): (s: ByteString)
    requires |m.body| < 0x100_0000
    ensures |s| == 4 + |m.body|
  {
    [m.mtype] + To24(|m.body|) + m.body
  }

  function MessagesBytes(ms: seq<Message>): ByteString
    requires forall m <- ms :: |m.body| < 0x100_0000
  {
    if ms == [] then [] else MessageBytes(ms[0]) + MessagesBytes(ms[1..])
  }

  // ----- the inner parsers undo the wire forms -----

  lemma {:induction false} U16sUndoes(vs: seq<int>)
    requires AllU16(vs)
    ensures U16s(U16Bytes(vs)) == vs
  {
    if vs != [] {
      U16sUndoes(vs[1..]);
      var s := U16Bytes(vs);
      assert s[0] == To16(vs[0])[0] && s[1] == To16(vs[0])[1] && s[2..] == U16Bytes(vs[1..]);
      assert vs == [vs[0]] + vs[1..];
    }
  }

  lemma AlpnReads(data: ByteString, pos: nat, n: ByteString, rest: ByteString)
    requires |n| < 256 && pos <= |data| && data[pos..] == [|n| as Byte] + n + rest
    ensures var next := pos + 1 + |n|;
            next <= |data| && data[pos] == |n| && data[pos + 1..next] == n && data[next..] == rest
  {
    var tail := data[pos..];
    assert data[pos] == tail[0];
    assert tail[1..1 + |n|] == n && tail[1 + |n|..] == rest;
    assert data[pos + 1..pos + 1 + |n|] == tail[1..1 + |n|];
    assert data[pos + 1 + |n|..] == tail[1 + |n|..];
  }

  /** The names lie in the data one after the other, from pos to its end. */
  ghost predicate NamesLie(data: ByteString, pos: nat, names: seq<ByteString>)
    decreases |names|
  {
    if names == [] then pos == |data|
    else
      var next := pos + 1 + |names[0]|;
      next <= |data| && data[pos] == |names[0]| && data[pos + 1..next] == names[0] && NamesLie(data, next, names[1..])
  }

  lemma {:induction false} WireNamesLie(data: ByteString, pos: nat, names: seq<ByteString>)
    requires forall n <- names :: |n| < 256
    requires pos <= |data| && data[pos..] == AlpnBytes(names)
    ensures NamesLie(data, pos, names)
    decreases |names|
  {
    if names != [] {
      AlpnReads(data, pos, names[0], AlpnBytes(names[1..]));
      WireNamesLie(data, pos + 1 + |names[0]|, names[1..]);
    }
  }

  lemma {:induction false} NamesUndo(data: ByteString, pos: nat, names: seq<ByteString>)
    requires NamesLie(data, pos, names)
    ensures AlpnFrom(data, pos, |data|) == names
    decreases |names|
  {
    if names != [] {
      NamesUndo(data, pos + 1 + |names[0]|, names[1..]);
      assert names == [names[0]] + names[1..];
    }
  }

  lemma ExtensionReads(data: ByteString, pos: nat, e: Extension, rest: ByteString)
    requires 0 <= e.etype < 0x1_0000 && |e.data| < 0x1_0000
    requires pos <= |data| && data[pos..] == ExtensionBytes(e) + rest
    ensures var end := pos + 4 + |e.data|;
            && end <= |data| && data[end..] == rest && data[pos + 4..end] == e.data
            && U16(data[pos], data[pos + 1]) == e.etype && U16(data[pos + 2], data[pos + 3]) == |e.data|
  {
    var tail, wire := data[pos..], ExtensionBytes(e);
    assert tail[0] == wire[0] && tail[1] == wire[1] && tail[2] == wire[2] && tail[3] == wire[3];
    assert wire[4..] == e.data && tail[4..|wire|] == wire[4..];
    assert data[pos + 4..pos + |wire|] == tail[4..|wire|];
    assert data[pos + |wire|..] == tail[|wire|..];
  }

  /** The extensions es lie in the data one after the other, from pos to its end. */
  ghost predicate ExtensionsLie(data: ByteString, pos: nat, es: seq<Extension>)
    decreases |es|
  {
    if es == [] then pos == |data|
    else
      var end := pos + 4 + |es[0].data|;
      && end <= |data| && data[pos + 4..end] == es[0].data
      && U16(data[pos], data[pos + 1]) == es[0].etype && U16(data[pos + 2], data[pos + 3]) == |es[0].data|
      && ExtensionsLie(data, end, es[1..])
  }

  lemma {:induction false} WireExtensionsLie(data: ByteString, pos: nat, es: seq<Extension>)
    requires Fits(es) && pos <= |data| && data[pos..] == ExtensionsBytes(es)
    ensures ExtensionsLie(data, pos, es)
    decreases |es|
  {
    hide ExtensionBytes;
    if es != [] {
      ExtensionReads(data, pos, es[0], ExtensionsBytes(es[1..]));
      WireExtensionsLie(data, pos + 4 + |es[0].data|, es[1..]);
    }
  }

  lemma {:induction false} ExtensionsUndo(data: ByteString, pos: nat, es: seq<Extension>, left: int)
    requires ExtensionsLie(data, pos, es) && |es| <= left
    ensures ExtensionsFrom(data, pos, left) == es
    decreases |es|
  {
    if es != [] {
      assert es == [es[0]] + es[1..];
      if left > 1 {
        ExtensionsUndo(data, pos + 4 + |es[0].data|, es[1..], left - 1);
      } else {
        assert es == [es[0]];
      }
    }
  }

  lemma MessageReads(data: ByteString, pos: nat, m: Message, rest: ByteString)
    requires |m.body| < 0x100_0000
    requires pos <= |data| && data[pos..] == MessageBytes(m) + rest
    ensures var end := pos + 4 + |m.body|;
            && end <= |data| && data[end..] == rest && data[pos + 4..end] == m.body
            && data[pos] == m.mtype && MessageLength(data, pos) == |m.body|
  {
    var tail, wire := data[pos..], MessageBytes(m);
    assert tail[0] == wire[0] && tail[1] == wire[1] && tail[2] == wire[2] && tail[3] == wire[3];
    assert wire[4..] == m.body && tail[4..|wire|] == wire[4..];
    assert data[pos + 4..pos + |wire|] == tail[4..|wire|];
    assert data[pos + |wire|..] == tail[|wire|..];
  }

  function KeepAll(out: Messages, ms: seq<Message>): Messages
    decreases |ms|
  {
    if ms == [] then out else KeepAll(Keep(out, ms[0]), ms[1..])
  }

  lemma {:induction false} CollectUndoes(out: Messages, data: ByteString, pos: nat, ms: seq<Message>)
    requires forall m <- ms :: |m.body| < 0x100_0000
    requires pos <= |data| && data[pos..] == MessagesBytes(ms)
    ensures Collect(out, data, pos) == KeepAll(out, ms)
    decreases |ms|
  {
    hide MessageBytes, Keep;
    if ms != [] {
      MessageReads(data, pos, ms[0], MessagesBytes(ms[1..]));
      CollectUndoes(Keep(out, ms[0]), data, pos + 4 + |ms[0].body|, ms[1..]);
    }
  }

  /** What the parser keeps of a flight: per type the first non-empty body, or the empty body when
      there is no other. */
  ghost predicate KeepsFirst(out: Messages, ms: seq<Message>) {
    forall t: Byte ::
      && (t in out <==> exists m <- ms :: m.mtype == t)
      && (t in out ==> out[t] == FirstBody(ms, t))
  }

  function FirstBody(ms: seq<Message>, t: Byte): ByteString {
    if ms == [] then []
    else if ms[0].mtype == t && ms[0].body != [] then ms[0].body
    else FirstBody(ms[1..], t)
  }

  lemma {:induction false} KeepAllKeepsFirst(out: Messages, ms: seq<Message>, t: Byte)
    ensures t in KeepAll(out, ms) <==> t in out || exists m <- ms :: m.mtype == t
    ensures t in KeepAll(out, ms) ==>
              KeepAll(out, ms)[t] == if t in out && out[t] != [] then out[t] else FirstBody(ms, t)
    decreases |ms|
  {
    if ms != [] {
      KeepAllKeepsFirst(Keep(out, ms[0]), ms[1..], t);
      assert (exists m <- ms :: m.mtype == t) <==> ms[0].mtype == t || exists m <- ms[1..] :: m.mtype == t;
    }
  }

  function Flatten(flights: seq<seq<Message>>): seq<Message> {
    if flights == [] then [] else Flatten(flights[..|flights| - 1]) + flights[|flights| - 1]
  }

  lemma {:induction false} KeepAllAppends(out: Messages, xs: seq<Message>, ys: seq<Message>)
    ensures KeepAll(out, xs + ys) == KeepAll(KeepAll(out, xs), ys)
    decreases |xs|
  {
    hide Keep;
    if xs == [] {
      assert xs + ys == ys;
    } else {
      assert (xs + ys)[1..] == xs[1..] + ys;
      KeepAllAppends(Keep(out, xs[0]), xs[1..], ys);
    }
  }

  /** Handshake records that each hold whole messages. */
  ghost predicate Carry(records: seq<TlsRecord>, flights: seq<seq<Message>>) {
    && |records| == |flights|
    && forall i :: 0 <= i < |records| ==>
         && records[i].contentType == 22 && IsRecord(records[i])
         && (forall m <- flights[i] :: |m.body| < 0x100_0000)
         && records[i].payload == MessagesBytes(flights[i])
  }

  lemma {:induction false} CollectsFlights(records: seq<TlsRecord>, flights: seq<seq<Message>>)
    requires Carry(records, flights)
    ensures CollectAll(map[], records) == KeepAll(map[], Flatten(flights))
    decreases |records|
  {
    hide MessagesBytes, Collect, KeepAll;
    if records == [] {
      KeepNothing();
    } else {
      var n := |records| - 1;
      CollectsFlights(records[..n], flights[..n]);
      var front := CollectAll(map[], records[..n]);
      assert records[n].payload[0..] == MessagesBytes(flights[n]);
      CollectUndoes(front, records[n].payload, 0, flights[n]);
      KeepAllAppends(map[], Flatten(flights[..n]), flights[n]);
    }
  }

  lemma KeepNothing()
    ensures KeepAll(map[], []) == map[]
  {
  }

  /** Any flight of whole messages, spread over up to 4096 handshake records: the record parser
      returns the records, and collecting them keeps the first non-empty body of each type. */
  lemma FlightIsRecovered(records: seq<TlsRecord>, flights: seq<seq<Message>>)
    requires Carry(records, flights) && |records| <= MAX_RECORDS
    ensures forall r <- records :: IsRecord(r)
    ensures ParseFrom(WireAll(records), 0, MAX_RECORDS) == Ok(records)
    ensures KeepsFirst(CollectAll(map[], records), Flatten(flights))
  {
    ParseUndoesEncode(records);
    CollectsFlights(records, flights);
    forall t: Byte
      ensures var out := KeepAll(map[], Flatten(flights));
              && (t in out <==> exists m <- Flatten(flights) :: m.mtype == t)
              && (t in out ==> out[t] == FirstBody(Flatten(flights), t))
    {
      KeepAllKeepsFirst(map[], Flatten(flights), t);
    }
  }

  /** One message in one record. */
  lemma SingleMessage(m: Message, version: int, data: ByteString)
    requires 0 <= version < 0x1_0000 && 4 + |m.body| < 0x1_0000
    requires Encode(MessageBytes(m), 22, version) == Some(data)
    ensures var rs := [TlsRecord(22, version, MessageBytes(m))];
            && ParseFrom(data, 0, MAX_RECORDS) == Ok(rs)
            && CollectAll(map[], rs) == map[m.mtype := m.body]
  {
    var r := TlsRecord(22, version, MessageBytes(m));
    assert MessagesBytes([m]) == MessageBytes(m);
    assert IsRecord(r);
    assert WireAll([r]) == Wire(r) + WireAll([]) == data;
    ParseUndoesEncode([r]);
    CollectUndoes(map[], r.payload, 0, [m]);
    assert r.payload[0..] == r.payload;
    assert [r][..0] == [] && [m][1..] == [];
  }

  // ----- the ClientHello builder -----

  function Counting(from: int, to: int): (s: ByteString)
    requires 0 <= from <= to <= 256
    ensures |s| == to - from
  {
    seq<Byte>(to - from, i requires 0 <= i < to - from => from + i)
  }

  const SIG_ALGS := [0x0403, 0x0401, 0x0203, 0x0201]

  function SniExtension(sni: ByteString): (e: Extension)
    requires 5 + |sni| < 0x1_0000
    ensures e.etype == 0 && |e.data| == 5 + |sni|
  {
    Extension(0, To16(3 + |sni|) + [0] + To16(|sni|) + sni)
  }

  /** An extension whose data is a list behind its own two-byte length. */
  function ListExtension(etype: int, list: ByteString): (e: Extension)
    requires |list| + 2 < 0x1_0000
    ensures e.etype == etype && |e.data| == |list| + 2
  {
    Extension(etype, To16(|list|) + list)
  }

  function AlpnSize(alpn: seq<ByteString>): nat {
    if alpn == [] then 0 else 1 + |alpn[0]| + AlpnSize(alpn[1..])
  }

  /** Size of the ClientHello message with its header. */
  function ClientHelloSize(suites: seq<int>, sni: ByteString, groups: seq<int>, alpn: seq<ByteString>): nat {
    4 + 2 + 32 + 1 + 2 + 2 * |suites| + 2 + 2
    + (9 + |sni|)
    + (if groups == [] then 0 else 6 + 2 * |groups|)
    + (if alpn == [] then 0 else 6 + AlpnSize(alpn))
    + 14
  }

  predicate ShortNames(names: seq<ByteString>) {
    forall n <- names :: |n| < 256
  }

  lemma {:induction false} AlpnBytesSize(alpn: seq<ByteString>)
    requires ShortNames(alpn)
    ensures |AlpnBytes(alpn)| == AlpnSize(alpn)
  {
    if alpn != [] { AlpnBytesSize(alpn[1..]); }
  }

  function ClientExtensions(sni: ByteString, groups: seq<int>, alpn: seq<ByteString>): (es: seq<Extension>)
    requires AllU16(groups) && ShortNames(alpn) && ClientHelloSize([], sni, groups, alpn) < 0x1_0000
    ensures Fits(es) && |es| <= 4
  {
    AlpnBytesSize(alpn);
    [SniExtension(sni)]
    + (if groups == [] then [] else [ListExtension(10, U16Bytes(groups))])
    + (if alpn == [] then [] else [ListExtension(16, AlpnBytes(alpn))])
    + [ListExtension(13, U16Bytes(SIG_ALGS))]
  }

  /** The fixed part in front of the suites: version, random, empty session id. */
  function HelloFront(version: int, random: ByteString): (s: ByteString)
    requires 0 <= version < 0x1_0000 && |random| == 32
    ensures |s| == 35
  {
    To16(version) + random + [0]
  }

  function ClientHelloBody(version: int, suites: ByteString, exts: ByteString): (s: ByteString)
    requires 0 <= version < 0x1_0000 && |suites| < 0x1_0000 && |exts| < 0x1_0000
    ensures |s| == 41 + |suites| + |exts|
  {
    HelloFront(version, Counting(0, 32)) + To16(|suites|) + suites + [1, 0] + To16(|exts|) + exts
  }

  function RecordVersion(version: int): int {
    if version > 0x0300 then version else 0x0301
  }

  lemma {:induction false} ExtensionsSize(es: seq<Extension>, fs: seq<Extension>)
    requires Fits(es) && Fits(fs)
    ensures Fits(es + fs) && |ExtensionsBytes(es + fs)| == |ExtensionsBytes(es)| + |ExtensionsBytes(fs)|
    decreases |es|
  {
    if es == [] {
      assert es + fs == fs;
    } else {
      assert (es + fs)[1..] == es[1..] + fs;
      ExtensionsSize(es[1..], fs);
    }
  }

  lemma ClientExtensionsSize(sni: ByteString, groups: seq<int>, alpn: seq<ByteString>)
    requires AllU16(groups) && ShortNames(alpn) && ClientHelloSize([], sni, groups, alpn) < 0x1_0000
    ensures 45 + |ExtensionsBytes(ClientExtensions(sni, groups, alpn))| == ClientHelloSize([], sni, groups, alpn)
  {
    hide ExtensionsBytes, SniExtension, ListExtension, U16Bytes, AlpnBytes, AlpnSize;
    AlpnBytesSize(alpn);
    var a, d := SniExtension(sni), ListExtension(13, U16Bytes(SIG_ALGS));
    var b := if groups == [] then [] else [ListExtension(10, U16Bytes(groups))];
    var c := if alpn == [] then [] else [ListExtension(16, AlpnBytes(alpn))];
    ExtensionsSize([a] + b + c, [d]);
    ExtensionsSize([a] + b, c);
    ExtensionsSize([a], b);
    SingletonSize(a);
    SingletonSize(d);
    if groups == [] { EmptySize(); } else { SingletonSize(b[0]); }
    if alpn == [] { EmptySize(); } else { SingletonSize(c[0]); }
  }

  lemma SingletonSize(e: Extension)
    requires Fits([e])
    ensures |ExtensionsBytes([e])| == 4 + |e.data|
  {
    assert e in [e];
    assert [e][1..] == [];
  }

  lemma EmptySize()
    ensures ExtensionsBytes([]) == []
  {
  }

  /** build_client_hello: `suites` is the order in which set(cipher_suites) happens to be iterated.
      None where a to_bytes or bytes([..]) raises because something does not fit. */
  function BuildClientHello(version: int, suites: seq<int>, sni: ByteString,
    groups: seq<int>, alpn: seq<ByteString>): Option<ByteString>
    requires 0 <= version < 0x1_0000 && AllU16(suites) && AllU16(groups)
  {
    if !ShortNames(alpn) || ClientHelloSize(suites, sni, groups, alpn) >= 0x1_0000 then None
    else
      var exts := ExtensionsBytes(ClientExtensions(sni, groups, alpn));
      ClientExtensionsSize(sni, groups, alpn);
      Encode(MessageBytes(Message(1, ClientHelloBody(version, U16Bytes(suites), exts))), 22, RecordVersion(version))
  }

  lemma U16sListed(etype: int, vs: seq<int>)
    requires AllU16(vs) && 2 * |vs| + 2 < 0x1_0000
    ensures var d := ListExtension(etype, U16Bytes(vs)).data; |d| >= 2 && U16s(Listed16(d)) == vs
  {
    hide U16s, U16Bytes;
    var d, list := ListExtension(etype, U16Bytes(vs)).data, U16Bytes(vs);
    assert d[0] == To16(|list|)[0] && d[1] == To16(|list|)[1];
    assert Listed16(d) == list;
    U16sUndoes(vs);
  }

  lemma AlpnListed(alpn: seq<ByteString>)
    requires ShortNames(alpn) && |AlpnBytes(alpn)| + 2 < 0x1_0000
    ensures var d := ListExtension(16, AlpnBytes(alpn)).data;
            |d| >= 2 && AlpnFrom(d, 2, Min(2 + U16(d[0], d[1]), |d|)) == alpn
  {
    hide AlpnFrom, AlpnBytes;
    var d, list := ListExtension(16, AlpnBytes(alpn)).data, AlpnBytes(alpn);
    assert d[0] == To16(|list|)[0] && d[1] == To16(|list|)[1];
    assert d[2..] == list;
    WireNamesLie(d, 2, alpn);
    NamesUndo(d, 2, alpn);
  }

  lemma SniListed(sni: ByteString, before: Option<ByteString>)
    requires 5 + |sni| < 0x1_0000
    ensures SniOf(SniExtension(sni).data, before) == Some(sni)
  {
    var d := SniExtension(sni).data;
    assert d[0] == To16(3 + |sni|)[0] && d[1] == To16(3 + |sni|)[1] && d[2] == 0;
    assert d[3] == To16(|sni|)[0] && d[4] == To16(|sni|)[1];
    assert d[5..5 + |sni|] == sni;
  }

  lemma OfferOneMore(es: seq<Extension>, e: Extension)
    ensures AllOffered(es + [e]) == Offered(AllOffered(es), e)
    ensures TypesOf(es + [e]) == TypesOf(es) + [e.etype]
  {
    hide Offered;
    assert (es + [e])[..|es|] == es;
  }

  lemma OfferNothing()
    ensures AllOffered([]) == NO_OFFERS && TypesOf([]) == []
  {
  }

  lemma OfferGroups(es: seq<Extension>, groups: seq<int>)
    requires AllU16(groups) && 2 * |groups| + 2 < 0x1_0000 && groups != []
    ensures var more := es + [ListExtension(10, U16Bytes(groups))];
            TypesOf(more) == TypesOf(es) + [10] && AllOffered(more) == AllOffered(es).(groups := groups)
  {
    hide AllOffered, TypesOf, U16s, AlpnFrom, U16Bytes, SniOf, Listed16, KeySharesFrom;
    U16sListed(10, groups);
    OfferOneMore(es, ListExtension(10, U16Bytes(groups)));
  }

  lemma OfferNames(es: seq<Extension>, alpn: seq<ByteString>)
    requires ShortNames(alpn) && |AlpnBytes(alpn)| + 2 < 0x1_0000
    ensures var more := es + [ListExtension(16, AlpnBytes(alpn))];
            TypesOf(more) == TypesOf(es) + [16]
            && AllOffered(more) == AllOffered(es).(alpn := AllOffered(es).alpn + alpn)
  {
    hide AllOffered, TypesOf, U16s, AlpnFrom, AlpnBytes, SniOf, Listed16, KeySharesFrom;
    AlpnListed(alpn);
    OfferOneMore(es, ListExtension(16, AlpnBytes(alpn)));
  }

  lemma OfferSigAlgs(es: seq<Extension>)
    ensures var more := es + [ListExtension(13, U16Bytes(SIG_ALGS))];
            TypesOf(more) == TypesOf(es) + [13] && AllOffered(more) == AllOffered(es).(sigAlgs := SIG_ALGS)
  {
    hide AllOffered, TypesOf, U16s, AlpnFrom, U16Bytes, SniOf, Listed16, KeySharesFrom;
    U16sListed(13, SIG_ALGS);
    OfferOneMore(es, ListExtension(13, U16Bytes(SIG_ALGS)));
  }

  lemma OfferSni(sni: ByteString)
    requires 5 + |sni| < 0x1_0000
    ensures var es := [SniExtension(sni)];
            TypesOf(es) == [0] && AllOffered(es) == NO_OFFERS.(sni := Some(sni))
  {
    hide AllOffered, TypesOf, U16s, AlpnFrom, SniOf, Listed16, KeySharesFrom;
    SniListed(sni, None);
    OfferNothing();
    OfferOneMore([], SniExtension(sni));
    assert [] + [SniExtension(sni)] == [SniExtension(sni)];
  }

  /** The builder's own extensions offer exactly what the builder was given. */
  lemma ClientOffersRecovered(sni: ByteString, groups: seq<int>, alpn: seq<ByteString>)
    requires AllU16(groups) && ShortNames(alpn) && ClientHelloSize([], sni, groups, alpn) < 0x1_0000
    ensures var es := ClientExtensions(sni, groups, alpn);
            && TypesOf(es) == [0] + (if groups == [] then [] else [10]) + (if alpn == [] then [] else [16]) + [13]
            && AllOffered(es) == Offers(Some(sni), groups, alpn, false, [], SIG_ALGS, [], [], false, false, [])
  {
    hide AllOffered, TypesOf, U16Bytes, AlpnBytes, SniExtension, ListExtension;
    AlpnBytesSize(alpn);
    var es := [SniExtension(sni)];
    OfferSni(sni);
    var es1 := if groups == [] then es else es + [ListExtension(10, U16Bytes(groups))];
    if groups != [] { OfferGroups(es, groups); }
    var es2 := if alpn == [] then es1 else es1 + [ListExtension(16, AlpnBytes(alpn))];
    if alpn != [] {
      OfferNames(es1, alpn);
      assert [] + alpn == alpn;
    }
    OfferSigAlgs(es2);
    assert ClientExtensions(sni, groups, alpn) == es2 + [ListExtension(13, U16Bytes(SIG_ALGS))];
  }

  /** Every field of a ClientHello body can be read back at its place. */
  lemma ClientHelloReads(version: int, suites: ByteString, exts: ByteString)
    requires 0 <= version < 0x1_0000 && |suites| < 0x1_0000 && |exts| < 0x1_0000
    ensures var b := ClientHelloBody(version, suites, exts);
            var p := 37 + |suites|;
            && U16(b[0], b[1]) == version && b[34] == 0 && Big(b[35..37]) == |suites|
            && b[37..p] == suites && b[p] == 1 && b[p + 1] == 0
            && U16(b[p + 2], b[p + 3]) == |exts| && b[p + 4..p + 4 + |exts|] == exts
  {
    var front := HelloFront(version, Counting(0, 32));
    var b := ClientHelloBody(version, suites, exts);
    assert b[0] == front[0] == To16(version)[0] && b[1] == front[1] == To16(version)[1] && b[34] == front[34];
    assert b[35] == To16(|suites|)[0] && b[36] == To16(|suites|)[1];
    var p := 37 + |suites|;
    assert b[p + 2] == To16(|exts|)[0] && b[p + 3] == To16(|exts|)[1];
  }

  /** Parsing a ClientHello body gives back its version, its suites and its extension list. */
  lemma ClientHelloBodyUndoes(version: int, suites: seq<int>, es: seq<Extension>, exts: ByteString)
    requires 0 <= version < 0x1_0000 && AllU16(suites) && 2 * |suites| < 0x1_0000
    requires Fits(es) && |es| <= MAX_EXTENSIONS && exts == ExtensionsBytes(es) && |exts| < 0x1_0000
    ensures var o := AllOffered(es);
            HelloOf(ClientHelloBody(version, U16Bytes(suites), exts))
            == Ok(ClientHello(version, suites, [0], TypesOf(es), o,
                              GreaseIn(suites + o.groups + o.versions + o.keyShares)))
  {
    hide AllOffered, TypesOf, ExtensionsFrom, GreaseIn, U16s;
    hide U16Bytes, ExtensionsBytes, ClientHelloBody, U16, Big, HelloFrom;
    var s := U16Bytes(suites);
    var b := ClientHelloBody(version, s, exts);
    ClientHelloReads(version, s, exts);
    U16sUndoes(suites);
    ExtensionBlockUndoes(exts, es);
    HelloFromReads(b, version, s, exts);
  }

  lemma ExtensionBlockUndoes(exts: ByteString, es: seq<Extension>)
    requires Fits(es) && |es| <= MAX_EXTENSIONS && exts == ExtensionsBytes(es)
    ensures ExtensionsFrom(exts, 0, MAX_EXTENSIONS) == es
  {
    hide ExtensionsFrom, ExtensionsBytes;
    assert exts[0..] == exts;
    WireExtensionsLie(exts, 0, es);
    ExtensionsUndo(exts, 0, es, MAX_EXTENSIONS);
  }

  /** The parser behind the session id, on a body whose fields are where the builder puts them. */
  lemma HelloFromReads(b: ByteString, version: int, s: ByteString, exts: ByteString)
    requires |b| == 41 + |s| + |exts| && Big(b[35..37]) == |s| && b[37..37 + |s|] == s
    requires b[37 + |s|] == 1 && b[38 + |s|] == 0
    requires U16(b[39 + |s|], b[40 + |s|]) == |exts| && b[41 + |s|..41 + |s| + |exts|] == exts
    ensures var es := ExtensionsFrom(exts, 0, MAX_EXTENSIONS);
            var o := AllOffered(es);
            HelloFrom(b, version, 35)
            == Ok(ClientHello(version, U16s(s), [0], TypesOf(es), o,
                              GreaseIn(U16s(s) + o.groups + o.versions + o.keyShares)))
  {
    hide AllOffered, TypesOf, ExtensionsFrom, GreaseIn, U16s, U16, Big;
    assert Cut(b, 35, 37) == b[35..37];
    assert Cut(b, 37, 37 + |s|) == s;
    assert b[38 + |s|..39 + |s|] == [0];
  }

  /** The whole pipeline on a built ClientHello: one handshake record, one message of type 1, and
      from it the version, the suites in the order they were written, SNI, groups and ALPN. */
  lemma ClientHelloRoundTrip(version: int, suites: seq<int>, sni: ByteString, groups: seq<int>, alpn: seq<ByteString>)
    requires 0 <= version < 0x1_0000 && AllU16(suites) && AllU16(groups)
    ensures var built := BuildClientHello(version, suites, sni, groups, alpn);
            built.Some? ==>
            var rs := ParseFrom(built.value, 0, MAX_RECORDS);
            && rs.Ok? && |rs.value| == 1
            && var out := CollectAll(map[], rs.value);
            && out.Keys == {1}
            && var r := HelloOf(out[1]);
            && r.Ok? && r.value.legacyVersion == version && r.value.cipherSuites == suites
            && r.value.extensionIds
               == [0] + (if groups == [] then [] else [10]) + (if alpn == [] then [] else [16]) + [13]
            && r.value.offers == Offers(Some(sni), groups, alpn, false, [], SIG_ALGS, [], [], false, false, [])
            && r.value.greaseCount == GreaseIn(suites + groups)
  {
    hide ParseFrom, CollectAll, HelloOf, AllOffered, TypesOf, GreaseIn;
    hide U16Bytes, ExtensionsBytes, ClientHelloBody, ClientExtensions, MessageBytes, ClientHelloSize;
    var built := BuildClientHello(version, suites, sni, groups, alpn);
    if built.Some? {
      SizeGrows(suites, sni, groups, alpn);
      var es := ClientExtensions(sni, groups, alpn);
      var exts := ExtensionsBytes(es);
      ClientExtensionsSize(sni, groups, alpn);
      var body := ClientHelloBody(version, U16Bytes(suites), exts);
      SingleMessage(Message(1, body), RecordVersion(version), built.value);
      ClientOffersRecovered(sni, groups, alpn);
      ClientHelloBodyUndoes(version, suites, es, exts);
      assert suites + groups + [] + [] == suites + groups;
    }
  }

  lemma SizeGrows(suites: seq<int>, sni: ByteString, groups: seq<int>, alpn: seq<ByteString>)
    ensures ClientHelloSize(suites, sni, groups, alpn) == ClientHelloSize([], sni, groups, alpn) + 2 * |suites|
  {
  }

  // ----- the ServerHello builder -----

  /** The TLS 1.3 extension is built with a one-byte length of its own in front of the version. */
  function ServerHelloBody(version: int, cipher: int): ByteString
    requires 0 <= version < 0x1_0000 && 0 <= cipher < 0x1_0000
  {
    HelloFront(version, Counting(32, 64)) + To16(cipher) + [0]
    + if version >= 0x0304 then To16(7) + To16(43) + To16(3) + [2] + To16(version) else []
  }

  function BuildServerHello(version: int, cipher: int): (r: Option<ByteString>)
    requires 0 <= version < 0x1_0000 && 0 <= cipher < 0x1_0000
    ensures r.Some?
  {
    Encode(MessageBytes(Message(2, ServerHelloBody(version, cipher))), 22, RecordVersion(version))
  }

  lemma ServerHelloReads(version: int, cipher: int)
    requires 0 <= version < 0x1_0000 && 0 <= cipher < 0x1_0000
    ensures var b := ServerHelloBody(version, cipher);
            && |b| == (if version >= 0x0304 then 47 else 38)
            && U16(b[0], b[1]) == version && b[2..34] == Counting(32, 64) && b[34] == 0
            && U16(b[35], b[36]) == cipher
            && (version >= 0x0304 ==>
                  U16(b[38], b[39]) == 7 && b[40..47] == ExtensionBytes(Extension(43, [2] + To16(version))))
  {
    var front := HelloFront(version, Counting(32, 64));
    var b := ServerHelloBody(version, cipher);
    assert b[0] == front[0] == To16(version)[0] && b[1] == front[1] == To16(version)[1] && b[34] == front[34];
    assert b[2..34] == front[2..34] == Counting(32, 64);
    assert b[35] == To16(cipher)[0] && b[36] == To16(cipher)[1];
    if version >= 0x0304 {
      assert b[38] == To16(7)[0] && b[39] == To16(7)[1];
      assert b[40..47] == To16(43) + To16(3) + [2] + To16(version);
    }
  }

  /** The whole pipeline on a built ServerHello recovers version and cipher. The version of a TLS 1.3
      hello comes from the legacy field: the built supported_versions extension is three bytes long,
      and the parser only takes one of two. */
  lemma ServerHelloRoundTrip(version: int, cipher: int)
    requires 0 <= version < 0x1_0000 && 0 <= cipher < 0x1_0000
    ensures var rs := ParseFrom(BuildServerHello(version, cipher).value, 0, MAX_RECORDS);
            && rs.Ok? && |rs.value| == 1
            && var out := CollectAll(map[], rs.value);
            && out.Keys == {2}
            && var r := ServerHelloOf(out[2]);
            && r.Ok? && r.value.negotiatedVersion == version && r.value.cipherSuite == cipher
            && r.value.answers.version == None && !r.value.isHrr && r.value.sentinel == None
            && r.value.extensionIds == if version >= 0x0304 then [43] else []
  {
    hide ParseFrom, CollectAll, MessageBytes, ServerHelloBody, ServerHelloOf;
    SingleMessage(Message(2, ServerHelloBody(version, cipher)), RecordVersion(version),
                  BuildServerHello(version, cipher).value);
    ServerHelloBodyUndoes(version, cipher);
  }

  lemma ServerHelloBodyUndoes(version: int, cipher: int)
    requires 0 <= version < 0x1_0000 && 0 <= cipher < 0x1_0000
    ensures var r := ServerHelloOf(ServerHelloBody(version, cipher));
            && r.Ok? && r.value.negotiatedVersion == version && r.value.cipherSuite == cipher
            && r.value.answers.version == None && !r.value.isHrr && r.value.sentinel == None
            && r.value.extensionIds == if version >= 0x0304 then [43] else []
  {
    hide ExtensionsFrom, ServerHelloBody, AllAnswered, TypesOf, ExtensionBytes;
    ServerHelloReads(version, cipher);
    var b := ServerHelloBody(version, cipher);
    var random := Counting(32, 64);
    assert random[0] == 32 && random[24..][0] == random[24] == 56;
    AnswerNothing();
    if version >= 0x0304 {
      var e := Extension(43, [2] + To16(version));
      assert ExtensionsBytes([e]) == ExtensionBytes(e) + [] by { assert [e][1..] == []; }
      assert b[40..47][0..] == b[40..47];
      WireExtensionsLie(b[40..47], 0, [e]);
      ExtensionsUndo(b[40..47], 0, [e], MAX_EXTENSIONS);
      AnswerOne(e);
    }
  }

  lemma AnswerNothing()
    ensures AllAnswered([]) == NO_ANSWERS && TypesOf([]) == []
  {
  }

  lemma AnswerOne(e: Extension)
    ensures AllAnswered([e]) == Answered(NO_ANSWERS, e) && TypesOf([e]) == [e.etype]
  {
    assert [e][..0] == [];
  }

  // ----- the Certificate builder -----

  /** A chain entry: a certificate and, in TLS 1.3, its extension block. */
  datatype Entry = Entry(der: ByteString, exts: ByteString)

  predicate EntriesFit(es: seq<Entry>) {
    forall e <- es :: |e.der| < 0x100_0000 && |e.exts| < 0x1_0000
  }

  function EntryBytes(e: Entry, tls13: bool): ByteString
    requires |e.der| < 0x100_0000 && |e.exts| < 0x1_0000
  {
    To24(|e.der|) + e.der + if tls13 then To16(|e.exts|) + e.exts else []
  }

  function ChainBytes(es: seq<Entry>, tls13: bool): ByteString
    requires EntriesFit(es)
  {
    if es == [] then [] else EntryBytes(es[0], tls13) + ChainBytes(es[1..], tls13)
  }

  function Ders(es: seq<Entry>): seq<ByteString> {
    if es == [] then [] else [es[0].der] + Ders(es[1..])
  }

  /** Where an entry at pos ends. */
  function EndOf(pos: nat, e: Entry, tls13: bool): nat {
    pos + 3 + |e.der| + if tls13 then 2 + |e.exts| else 0
  }

  ghost predicate EntryLies(data: ByteString, pos: nat, e: Entry, tls13: bool) {
    var after := pos + 3 + |e.der|;
    && EndOf(pos, e, tls13) <= |data| && data[pos + 3..after] == e.der
    && U24(data[pos], data[pos + 1], data[pos + 2]) == |e.der|
    && (tls13 ==> U16(data[after], data[after + 1]) == |e.exts|)
  }

  /** The entries lie in the data one after the other, from pos to its end. */
  ghost predicate EntriesLie(data: ByteString, pos: nat, es: seq<Entry>, tls13: bool)
    decreases |es|
  {
    if es == [] then pos == |data|
    else EntryLies(data, pos, es[0], tls13) && EntriesLie(data, EndOf(pos, es[0], tls13), es[1..], tls13)
  }

  lemma TailSlice<T>(data: seq<T>, pos: nat, i: nat, j: nat)
    requires i <= j && pos + j <= |data|
    ensures data[pos..][i..j] == data[pos + i..pos + j] && data[pos..][j..] == data[pos + j..]
  {
  }

  lemma EntryParts(e: Entry, tls13: bool)
    requires |e.der| < 0x100_0000 && |e.exts| < 0x1_0000
    ensures var (wire, n) := (EntryBytes(e, tls13), 3 + |e.der|);
            && |wire| == EndOf(0, e, tls13) && wire[3..n] == e.der
            && U24(wire[0], wire[1], wire[2]) == |e.der|
            && (tls13 ==> U16(wire[n], wire[n + 1]) == |e.exts|)
  {
    hide U16, U24;
    var (wire, n) := (EntryBytes(e, tls13), 3 + |e.der|);
    var (size, more) := (To24(|e.der|), To16(|e.exts|));
    assert wire[0] == size[0] && wire[1] == size[1] && wire[2] == size[2];
    assert wire[3..n] == e.der;
    if tls13 { assert wire[n] == more[0] && wire[n + 1] == more[1]; }
  }

  lemma EntryReads(data: ByteString, pos: nat, e: Entry, tls13: bool, rest: ByteString)
    requires |e.der| < 0x100_0000 && |e.exts| < 0x1_0000
    requires pos <= |data| && data[pos..] == EntryBytes(e, tls13) + rest
    ensures EntryLies(data, pos, e, tls13) && data[EndOf(pos, e, tls13)..] == rest
  {
    hide EntryBytes, U16, U24;
    EntryParts(e, tls13);
    var (tail, wire, n) := (data[pos..], EntryBytes(e, tls13), 3 + |e.der|);
    assert tail[..|wire|] == wire && tail[|wire|..] == rest;
    assert forall i :: 0 <= i < |wire| ==> data[pos + i] == tail[i] == wire[i];
    TailSlice(data, pos, 3, n);
    TailSlice(data, pos, |wire|, |wire|);
    assert tail[3..n] == wire[3..n];
  }

  lemma {:induction false} WireEntriesLie(data: ByteString, pos: nat, es: seq<Entry>, tls13: bool)
    requires EntriesFit(es) && pos <= |data| && data[pos..] == ChainBytes(es, tls13)
    ensures EntriesLie(data, pos, es, tls13)
    decreases |es|
  {
    hide EntryBytes, EntryLies, EndOf;
    if es != [] {
      EntryReads(data, pos, es[0], tls13, ChainBytes(es[1..], tls13));
      assert EndOf(pos, es[0], tls13) <= |data| by { EntryEnds(data, pos, es[0], tls13); }
      WireEntriesLie(data, EndOf(pos, es[0], tls13), es[1..], tls13);
    }
  }

  lemma EntryEnds(data: ByteString, pos: nat, e: Entry, tls13: bool)
    requires EntryLies(data, pos, e, tls13)
    ensures EndOf(pos, e, tls13) <= |data|
  {
  }

  lemma OneEntryReads(data: ByteString, pos: nat, e: Entry, tls13: bool, left: int)
    requires EntryLies(data, pos, e, tls13)
    ensures CertsFrom(data, pos, |data|, tls13, left)
         == if left <= 1 then [e.der] else [e.der] + CertsFrom(data, EndOf(pos, e, tls13), |data|, tls13, left - 1)
  {
    hide U16, U24;
  }

  lemma TakeOneMore(es: seq<Entry>, left: int)
    requires es != [] && 1 <= left
    ensures Ders(es[..Min(left, |es|)]) == [es[0].der] + Ders(es[1..][..Min(left - 1, |es| - 1)])
    ensures left == 1 ==> Ders(es[..1]) == [es[0].der]
  {
    var some := es[..Min(left, |es|)];
    assert some[0] == es[0] && some[1..] == es[1..][..|some| - 1];
  }

  lemma NoEntriesRead(data: ByteString, pos: nat, tls13: bool, left: int)
    requires EntriesLie(data, pos, [], tls13)
    ensures CertsFrom(data, pos, |data|, tls13, left) == Ders([])
  {
  }

  lemma LieApart(data: ByteString, pos: nat, es: seq<Entry>, tls13: bool)
    requires EntriesLie(data, pos, es, tls13) && es != []
    ensures EntryLies(data, pos, es[0], tls13) && EntriesLie(data, EndOf(pos, es[0], tls13), es[1..], tls13)
  {
  }

  /** Reading entries gives back their certificates, as many as the limit allows. */
  lemma {:induction false} EntriesUndo(data: ByteString, pos: nat, es: seq<Entry>, tls13: bool, left: int)
    requires EntriesLie(data, pos, es, tls13) && 1 <= left
    ensures CertsFrom(data, pos, |data|, tls13, left) == Ders(es[..Min(left, |es|)])
    decreases |es|
  {
    hide CertsFrom, EntriesLie, EntryLies, EndOf, Ders;
    if es == [] {
      NoEntriesRead(data, pos, tls13, left);
    } else {
      LieApart(data, pos, es, tls13);
      OneEntryReads(data, pos, es[0], tls13, left);
      TakeOneMore(es, left);
      if left > 1 {
        EntriesUndo(data, EndOf(pos, es[0], tls13), es[1..], tls13, left - 1);
      }
    }
  }

  /** RFC 8446, section 4.4.2 with an empty request context, and the TLS 1.2 form without one. */
  function CertificateBody(es: seq<Entry>, tls13: bool): ByteString
    requires EntriesFit(es) && |ChainBytes(es, tls13)| < 0x100_0000
  {
    (if tls13 then [0] else []) + To24(|ChainBytes(es, tls13)|) + ChainBytes(es, tls13)
  }

  /** The builder's TLS 1.3 form: the length, counting one byte more, comes before a context byte. */
  function BuiltCertificateBody(ders: seq<ByteString>, tls13: bool): ByteString
    requires EntriesFit(Bare(ders)) && |ChainBytes(Bare(ders), tls13)| < 0xFF_FFFF
  {
    if tls13
    then To24(1 + |ChainBytes(Bare(ders), true)|) + [1] + ChainBytes(Bare(ders), true)
    else CertificateBody(Bare(ders), false)
  }

  function Bare(ders: seq<ByteString>): (es: seq<Entry>)
    ensures |es| == |ders|
  {
    if ders == [] then [] else [Entry(ders[0], [])] + Bare(ders[1..])
  }

  lemma {:induction false} BareDers(ders: seq<ByteString>, n: nat)
    requires n <= |ders|
    ensures Ders(Bare(ders)[..n]) == ders[..n]
  {
    if n > 0 {
      BareDers(ders[1..], n - 1);
      assert Bare(ders)[..n][1..] == Bare(ders[1..])[..n - 1];
      assert ders[..n] == [ders[0]] + ders[1..][..n - 1];
    }
  }

  ghost function FirstCerts(ders: seq<ByteString>): Certificates {
    if ders == [] then Err(NoCertificates) else Ok(ders[..Min(MAX_CERTS, |ders|)])
  }

  lemma {:induction false} DersOfPrefix(es: seq<Entry>, n: nat)
    requires n <= |es|
    ensures |Ders(es)| == |es| && Ders(es[..n]) == Ders(es)[..n]
  {
    if n > 0 {
      DersOfPrefix(es[1..], n - 1);
      assert es[..n][1..] == es[1..][..n - 1];
    } else if es != [] {
      DersOfPrefix(es[1..], 0);
    }
  }

  /** A body whose chain starts where the parser looks for it and reaches to the end gives back the
      first 32 certificates. */
  lemma ChainUndoes(body: ByteString, es: seq<Entry>, tls13: bool)
    requires EntriesFit(es)
    requires var p := if tls13 then 1 else 0;
             && |body| >= p + 3 && body[p + 3..] == ChainBytes(es, tls13)
             && U24(body[p], body[p + 1], body[p + 2]) >= |ChainBytes(es, tls13)|
    ensures CertificatesOf(body, tls13) == FirstCerts(Ders(es))
  {
    hide CertsFrom, ChainBytes, U24, Ders;
    var p: nat := if tls13 then 1 else 0;
    assert |body[p + 3..]| == |body| - (p + 3);
    WireEntriesLie(body, p + 3, es, tls13);
    EntriesUndo(body, p + 3, es, tls13, MAX_CERTS);
    DersOfPrefix(es, Min(MAX_CERTS, |es|));
  }

  /** The parser undoes the encodings of both RFCs, whatever extensions a TLS 1.3 entry carries. */
  lemma CertificateRoundTrip(es: seq<Entry>, tls13: bool)
    requires EntriesFit(es) && |ChainBytes(es, tls13)| < 0x100_0000
    ensures CertificatesOf(CertificateBody(es, tls13), tls13) == FirstCerts(Ders(es))
  {
    hide ChainBytes, CertificatesOf;
    var p := if tls13 then 1 else 0;
    var body, chain := CertificateBody(es, tls13), ChainBytes(es, tls13);
    assert body[p] == To24(|chain|)[0] && body[p + 1] == To24(|chain|)[1] && body[p + 2] == To24(|chain|)[2];
    assert body[p + 3..] == chain;
    ChainUndoes(body, es, tls13);
  }

  function BuildCertificateMessage(ders: seq<ByteString>, tls13: bool): Option<ByteString> {
    if EntriesFit(Bare(ders)) && |ChainBytes(Bare(ders), tls13)| + (if tls13 then 8 else 7) < 0x1_0000
    then Encode(MessageBytes(Message(11, BuiltCertificateBody(ders, tls13))), 22, 0x0303)
    else None
  }

  /** The whole pipeline on a built Certificate message recovers up to 32 certificates. In TLS 1.3 the
      builder's layout differs from the RFC, but it puts the chain where the parser looks for it, and
      the list length the parser then misreads is never too short. */
  lemma BuiltCertificateRoundTrip(ders: seq<ByteString>, tls13: bool)
    ensures var built := BuildCertificateMessage(ders, tls13);
            built.Some? ==>
            var rs := ParseFrom(built.value, 0, MAX_RECORDS);
            && rs.Ok? && |rs.value| == 1
            && var out := CollectAll(map[], rs.value);
            && out.Keys == {11}
            && CertificatesOf(out[11], tls13) == FirstCerts(ders)
  {
    hide ParseFrom, CollectAll, MessageBytes, BuiltCertificateBody, CertificatesOf;
    var built := BuildCertificateMessage(ders, tls13);
    if built.Some? {
      BuiltBodySize(ders, tls13);
      SingleMessage(Message(11, BuiltCertificateBody(ders, tls13)), 0x0303, built.value);
      BuiltCertificateUndoes(ders, tls13);
    }
  }

  lemma BuiltBodySize(ders: seq<ByteString>, tls13: bool)
    requires EntriesFit(Bare(ders)) && |ChainBytes(Bare(ders), tls13)| + (if tls13 then 8 else 7) < 0x1_0000
    ensures 4 + |BuiltCertificateBody(ders, tls13)| < 0x1_0000
  {
  }

  lemma BuiltCertificateUndoes(ders: seq<ByteString>, tls13: bool)
    requires EntriesFit(Bare(ders)) && |ChainBytes(Bare(ders), tls13)| + (if tls13 then 8 else 7) < 0x1_0000
    ensures CertificatesOf(BuiltCertificateBody(ders, tls13), tls13) == FirstCerts(ders)
  {
    hide ChainBytes, CertificatesOf, Bare, Ders;
    var es := Bare(ders);
    BareDers(ders, |ders|);
    assert es[..|ders|] == es && ders[..|ders|] == ders;
    if tls13 {
      var body, chain := BuiltCertificateBody(ders, true), ChainBytes(es, true);
      var n := 1 + |chain|;
      assert body[1] == To24(n)[1] && body[2] == To24(n)[2] && body[3] == 1;
      assert U24(body[1], body[2], body[3]) == n * 256 + 1;
      assert body[4..] == chain;
      ChainUndoes(body, es, true);
    } else {
      CertificateRoundTrip(es, false);
    }
  }
}
