/** TLS handshake parsing: messages out of records, and the ClientHello, ServerHello and Certificate
    messages. Every field is read from untrusted bytes. */
module Handshake {
  import opened Collections
  import opened Wrappers
  import opened Bytes
  import opened TlsRecords

  // ----- GREASE -----

  /** (value & 0x0F0F) == 0x0A0A and 0x0A0A <= value <= 0xFAFA. */
  predicate IsGrease(v: int) {
    0x0A0A <= v <= 0xFAFA && v % 16 == 10 && v / 256 % 16 == 10
  }

  /** RFC 8701, section 2: both bytes are equal and end in the digit A. */
  predicate IsReservedGrease(v: int) {
    exists d: int :: 0 <= d < 16 && v == d * 0x1010 + 0x0A0A
  }

  function StripGrease(vs: seq<int>): seq<int> {
    if vs == [] then []
    else if IsGrease(vs[0]) then StripGrease(vs[1..])
    else [vs[0]] + StripGrease(vs[1..])
  }

  /** The test is wider than the RFC: it accepts every reserved value, and of the values it accepts
      the reserved ones are those whose two bytes are equal. */
  lemma GreaseTestIsWider(v: int)
    ensures IsReservedGrease(v) ==> IsGrease(v)
    ensures IsGrease(v) ==> (IsReservedGrease(v) <==> v / 256 == v % 256)
  {
    if IsGrease(v) && v / 256 == v % 256 {
      var d := v / 256 / 16;
      assert v == d * 0x1010 + 0x0A0A;
    }
  }

  lemma GreaseTestAcceptsUnreserved()
    ensures IsGrease(0x0A1A) && !IsReservedGrease(0x0A1A)
  {
    GreaseTestIsWider(0x0A1A);
  }

  // ----- messages out of records -----

  datatype Message = Message(mtype: Byte, body: ByteString)

  type Messages = map<Byte, ByteString>

  /** The first non-empty body of a type wins. */
  function Keep(out: Messages, m: Message): Messages {
    if m.mtype !in out || out[m.mtype] == [] then out[m.mtype := m.body] else out
  }

  function MessageLength(buf: ByteString, pos: nat): (n: nat)
    requires pos + 4 <= |buf|
  {
    U24(buf[pos + 1], buf[pos + 2], buf[pos + 3])
  }

  /** The messages of one record payload from pos on; a message cut off by the record end is dropped. */
  function Collect(out: Messages, buf: ByteString, pos: nat): Messages
    decreases |buf| - pos
  {
    if pos + 4 > |buf| then out
    else
      var end := pos + 4 + MessageLength(buf, pos);
      if end > |buf| then out
      else Collect(Keep(out, Message(buf[pos], buf[pos + 4..end])), buf, end)
  }

  function CollectAll(out: Messages, records: seq<TlsRecord>): Messages {
    if records == [] then out
    else
      var last := records[|records| - 1];
      var front := CollectAll(out, records[..|records| - 1]);
      if last.contentType == 22 then Collect(front, last.payload, 0) else front
  }

  method HandshakeBody(records: seq<TlsRecord>) returns (out: Messages)
    ensures out == CollectAll(map[], records)
  {
    out := map[];
    for i := 0 to |records|
      invariant out == CollectAll(map[], records[..i])
    {
      assert records[..i + 1][..i] == records[..i];
      if records[i].contentType == 22 {
        var buf := records[i].payload;
        ghost var goal := Collect(out, buf, 0);
        var pos := 0;
        while pos + 4 <= |buf|
          invariant 0 <= pos <= |buf|
          invariant Collect(out, buf, pos) == goal
          decreases |buf| - pos
        {
          var mlen := U24(buf[pos + 1], buf[pos + 2], buf[pos + 3]);
          if pos + 4 + mlen > |buf| { break; }
          out := Keep(out, Message(buf[pos], buf[pos + 4..pos + 4 + mlen]));
          pos := pos + 4 + mlen;
        }
      }
    }
    assert records[..|records|] == records;
  }

  // ----- extensions -----

  datatype Extension = Extension(etype: int, data: ByteString)

  function ExtensionsFrom(exts: ByteString, pos: nat, left: int): seq<Extension>
    decreases |exts| - pos
  {
    if pos + 4 > |exts| then []
    else
      var end := pos + 4 + U16(exts[pos + 2], exts[pos + 3]);
      if end > |exts| then []
      else
        var e := Extension(U16(exts[pos], exts[pos + 1]), exts[pos + 4..end]);
        if left <= 1 then [e] else [e] + ExtensionsFrom(exts, end, left - 1)
  }

  const MAX_EXTENSIONS := 32

  method ParseExtensions(exts: ByteString, maxExt: int) returns (parsed: seq<Extension>)
    ensures parsed == ExtensionsFrom(exts, 0, maxExt)
  {
    parsed := [];
    var pos := 0;
    while pos + 4 <= |exts|
      invariant 0 <= pos <= |exts|
      invariant |parsed| == 0 || |parsed| < maxExt
      invariant ExtensionsFrom(exts, 0, maxExt) == parsed + ExtensionsFrom(exts, pos, maxExt - |parsed|)
      decreases |exts| - pos
    {
      var etype := U16(exts[pos], exts[pos + 1]);
      var end := pos + 4 + U16(exts[pos + 2], exts[pos + 3]);
      if end > |exts| { break; }
      Assoc(parsed, [Extension(etype, exts[pos + 4..end])], ExtensionsFrom(exts, end, maxExt - |parsed| - 1));
      parsed := parsed + [Extension(etype, exts[pos + 4..end])];
      pos := end;
      if |parsed| >= maxExt { return; }
    }
  }

  // ----- lists inside extensions -----

  /** A Python slice s[lo:hi], which never raises. */
  function Cut(s: ByteString, lo: nat, hi: nat): ByteString {
    if lo >= |s| || hi <= lo then [] else s[lo..Min(hi, |s|)]
  }

  /** Big-endian 16-bit integers; a last odd byte is ignored. */
  function U16s(s: ByteString): seq<int> {
    if |s| < 2 then [] else [U16(s[0], s[1])] + U16s(s[2..])
  }

  /** Length-prefixed names from pos up to end. */
  function AlpnFrom(data: ByteString, pos: nat, end: nat): seq<ByteString>
    requires end <= |data|
    decreases end - pos
  {
    if pos + 1 > end then []
    else [Cut(data, pos + 1, pos + 1 + data[pos])] + AlpnFrom(data, pos + 1 + data[pos], end)
  }

  method AlpnNames(data: ByteString) returns (names: seq<ByteString>)
    requires |data| >= 2
    ensures names == AlpnFrom(data, 2, Min(2 + U16(data[0], data[1]), |data|))
  {
    names := [];
    var pos := 2;
    var end := Min(2 + U16(data[0], data[1]), |data|);
    while pos + 1 <= end
      invariant 2 <= pos
      invariant AlpnFrom(data, 2, end) == names + AlpnFrom(data, pos, end)
      decreases end - pos
    {
      var name := Cut(data, pos + 1, pos + 1 + data[pos]);
      Assoc(names, [name], AlpnFrom(data, pos + 1 + data[pos], end));
      names := names + [name];
      pos := pos + 1 + data[pos];
    }
  }

  /** Groups of key-share entries from pos up to end; the group of a truncated entry still counts. */
  function KeySharesFrom(data: ByteString, pos: nat, end: nat): seq<int>
    requires end <= |data|
    decreases end - pos
  {
    if pos + 4 > end then []
    else [U16(data[pos], data[pos + 1])] + KeySharesFrom(data, pos + 4 + U16(data[pos + 2], data[pos + 3]), end)
  }

  method KeyShareGroups(data: ByteString) returns (groups: seq<int>)
    requires |data| >= 2
    ensures groups == KeySharesFrom(data, 2, Min(2 + U16(data[0], data[1]), |data|))
  {
    groups := [];
    var pos := 2;
    var end := Min(2 + U16(data[0], data[1]), |data|);
    while pos + 4 <= end
      invariant 2 <= pos
      invariant KeySharesFrom(data, 2, end) == groups + KeySharesFrom(data, pos, end)
      decreases end - pos
    {
      var next := pos + 4 + U16(data[pos + 2], data[pos + 3]);
      Assoc(groups, [U16(data[pos], data[pos + 1])], KeySharesFrom(data, next, end));
      groups := groups + [U16(data[pos], data[pos + 1])];
      pos := next;
      if pos > end { return; }
    }
  }

  // ----- ClientHello -----

  /** What a parser raises: its own error, or the bare IndexError of an unguarded read. */
  datatype HelloError = Truncated(part: string) | IndexError

  datatype ClientHello = ClientHello(
    legacyVersion: int,
    cipherSuites: seq<int>,
    compression: ByteString,
    extensionIds: seq<int>,
    offers: Offers,
    greaseCount: nat)

  /** What the extensions of a ClientHello carry. */
  datatype Offers = Offers(
    sni: Option<ByteString>,
    groups: seq<int>,
    alpn: seq<ByteString>,
    hasVersions: bool,
    versions: seq<int>,
    sigAlgs: seq<int>,
    keyShares: seq<int>,
    pskModes: ByteString,
    earlyData: bool,
    echOuter: bool,
    pointFormats: ByteString)

  const NO_OFFERS := Offers(None, [], [], false, [], [], [], [], false, false, [])

  function SniOf(data: ByteString, before: Option<ByteString>): Option<ByteString> {
    if |data| < 5 || 2 + U16(data[0], data[1]) > |data| then before
    else
      var nlen := U16(data[3], data[4]);
      if data[2] == 0 && 5 + nlen <= |data| then Some(data[5..5 + nlen]) else before
  }

  /** A list behind a two-byte length, or behind a one-byte length. */
  function Listed16(data: ByteString): ByteString
    requires |data| >= 2
  {
    Cut(data, 2, 2 + U16(data[0], data[1]))
  }

  function Listed8(data: ByteString): ByteString
    requires |data| >= 1
  {
    Cut(data, 1, 1 + data[0] as int)
  }

  function Offered(o: Offers, e: Extension): Offers {
    var d := e.data;
    if e.etype == 0 then o.(sni := SniOf(d, o.sni))
    else if e.etype == 10 then if |d| >= 2 then o.(groups := U16s(Listed16(d))) else o
    else if e.etype == 16 then
      if |d| >= 2 then o.(alpn := o.alpn + AlpnFrom(d, 2, Min(2 + U16(d[0], d[1]), |d|))) else o
    else if e.etype == 43 then
      if |d| >= 1 then o.(hasVersions := true, versions := U16s(Listed8(d))) else o.(hasVersions := true)
    else if e.etype == 13 then if |d| >= 2 then o.(sigAlgs := U16s(Listed16(d))) else o
    else if e.etype == 51 then
      if |d| >= 2 then o.(keyShares := o.keyShares + KeySharesFrom(d, 2, Min(2 + U16(d[0], d[1]), |d|))) else o
    else if e.etype == 45 then if |d| >= 1 then o.(pskModes := Listed8(d)) else o
    else if e.etype == 42 then o.(earlyData := true)
    else if e.etype == 0xFE0D then o.(echOuter := true)
    else if e.etype == 11 then if |d| >= 1 then o.(pointFormats := Listed8(d)) else o
    else o
  }

  function AllOffered(es: seq<Extension>): Offers {
    if es == [] then NO_OFFERS else Offered(AllOffered(es[..|es| - 1]), es[|es| - 1])
  }

  function TypesOf(es: seq<Extension>): seq<int> {
    if es == [] then [] else TypesOf(es[..|es| - 1]) + [es[|es| - 1].etype]
  }

  /** sum(1 for v in vs if is_grease(v)). */
  function GreaseIn(vs: seq<int>): nat {
    if vs == [] then 0 else GreaseIn(vs[1..]) + if IsGrease(vs[0]) then 1 else 0
  }

  type ParsedHello = Result<ClientHello, HelloError>

  /** The part of a ClientHello behind the session id, which starts at pos. */
  function HelloFrom(buf: ByteString, legacy: int, pos: nat): ParsedHello
    requires pos <= |buf|
  {
    var csLen := Big(Cut(buf, pos, pos + 2));
    var p1 := pos + 2;
    if p1 + csLen > |buf| then Err(Truncated("cipher suites"))
    else
      var suites := U16s(Cut(buf, p1, p1 + csLen));
      var p2 := p1 + csLen;
      if p2 >= |buf| then Ok(ClientHello(legacy, suites, [], [], NO_OFFERS, 0))
      else if p2 + 1 + buf[p2] > |buf| then Err(Truncated("compression"))
      else
        var compression := buf[p2 + 1..p2 + 1 + buf[p2]];
        var p3 := p2 + 1 + buf[p2];
        if p3 + 2 > |buf| then Ok(ClientHello(legacy, suites, compression, [], NO_OFFERS, 0))
        else
          var extsLen := U16(buf[p3], buf[p3 + 1]);
          if p3 + 2 + extsLen > |buf| then Err(Truncated("extensions"))
          else
            var es := ExtensionsFrom(buf[p3 + 2..p3 + 2 + extsLen], 0, MAX_EXTENSIONS);
            var o := AllOffered(es);
            Ok(ClientHello(legacy, suites, compression, TypesOf(es), o,
                           GreaseIn(suites + o.groups + o.versions + o.keyShares)))
  }

  /** int.from_bytes(s, "big") on at most two bytes. */
  function Big(s: ByteString): (n: nat) {
    if s == [] then 0 else if |s| == 1 then s[0] else U16(s[0], s[1])
  }

  function HelloOf(buf: ByteString): ParsedHello {
    if |buf| < 2 then Err(Truncated("legacy_version"))
    else if |buf| < 34 then Err(Truncated("random"))
    else if |buf| == 34 then Err(IndexError)
    else if 35 + buf[34] as int > |buf| then Err(Truncated("session id"))
    else HelloFrom(buf, U16(buf[0], buf[1]), 35 + buf[34] as int)
  }

  /** What the extensions of a ClientHello offer. */
  method ReadOffers(es: seq<Extension>) returns (ids: seq<int>, o: Offers)
    ensures ids == TypesOf(es) && o == AllOffered(es)
  {
    hide SniOf, U16s, AlpnFrom, KeySharesFrom;
    ids, o := [], NO_OFFERS;
    for i := 0 to |es|
      invariant ids == TypesOf(es[..i]) && o == AllOffered(es[..i])
    {
      assert es[..i + 1][..i] == es[..i];
      var e := es[i];
      ids := ids + [e.etype];
      if e.etype == 16 && |e.data| >= 2 {
        var names := AlpnNames(e.data);
        o := o.(alpn := o.alpn + names);
      } else if e.etype == 51 && |e.data| >= 2 {
        var groups := KeyShareGroups(e.data);
        o := o.(keyShares := o.keyShares + groups);
      } else {
        o := Offered(o, e);
      }
    }
    assert es[..|es|] == es;
  }

  method ParseClientHello(buf: ByteString) returns (r: ParsedHello)
    ensures r == HelloOf(buf)
  {
    hide HelloFrom;
    var pos := 0;
    if pos + 2 > |buf| { return Err(Truncated("legacy_version")); }
    var legacy := U16(buf[pos], buf[pos + 1]);
    pos := pos + 2;
    if pos + 32 > |buf| { return Err(Truncated("random")); }
    pos := pos + 32;
    if pos >= |buf| { return Err(IndexError); }
    var sidLen: int := buf[pos];
    pos := pos + 1;
    if pos + sidLen > |buf| { return Err(Truncated("session id")); }
    pos := pos + sidLen;
    r := ParseAfterSession(buf, legacy, pos);
  }

  method ParseAfterSession(buf: ByteString, legacy: int, start: nat) returns (r: ParsedHello)
    requires start <= |buf|
    ensures r == HelloFrom(buf, legacy, start)
  {
    hide AllOffered, TypesOf, ExtensionsFrom, GreaseIn, U16s;
    var pos := start;
    var csLen := Big(Cut(buf, pos, pos + 2));
    pos := pos + 2;
    if pos + csLen > |buf| { return Err(Truncated("cipher suites")); }
    var suites := U16s(Cut(buf, pos, pos + csLen));
    pos := pos + csLen;
    if pos >= |buf| { return Ok(ClientHello(legacy, suites, [], [], NO_OFFERS, 0)); }
    var compLen: int := buf[pos];
    pos := pos + 1;
    if pos + compLen > |buf| { return Err(Truncated("compression")); }
    var compression := buf[pos..pos + compLen];
    pos := pos + compLen;
    if pos + 2 > |buf| { return Ok(ClientHello(legacy, suites, compression, [], NO_OFFERS, 0)); }
    var extsLen := U16(buf[pos], buf[pos + 1]);
    pos := pos + 2;
    if pos + extsLen > |buf| { return Err(Truncated("extensions")); }
    var es := ParseExtensions(buf[pos..pos + extsLen], MAX_EXTENSIONS);
    var ids, o := ReadOffers(es);
    r := Ok(ClientHello(legacy, suites, compression, ids, o, GreaseIn(suites + o.groups + o.versions + o.keyShares)));
  }

  /** "Malformed handshakes raise TlsParseError" has exactly one exception: a body that ends right
      after the random, which is 34 bytes long, raises IndexError. */
  lemma IndexErrorIff(buf: ByteString)
    ensures HelloOf(buf) == Err(IndexError) <==> |buf| == 34
  {
    hide AllOffered, TypesOf, ExtensionsFrom, GreaseIn, U16s;
  }

  // ----- ServerHello -----

  datatype Sentinel = Tls12 | Tls11

  datatype ServerHello = ServerHello(
    negotiatedVersion: int,
    legacyVersion: int,
    cipherSuite: int,
    random: ByteString,
    isHrr: bool,
    sentinel: Option<Sentinel>,
    extensionIds: seq<int>,
    answers: Answers)

  datatype Answers = Answers(version: Option<int>, group: Option<int>, alpn: seq<ByteString>)

  const NO_ANSWERS := Answers(None, None, [])

  const HRR_RANDOM: ByteString :=
    [0xCF, 0x21, 0xAD, 0x74, 0xE5, 0x9A, 0x61, 0x11, 0xBE, 0x1D, 0x8C, 0x02, 0x1E, 0x65, 0xB8, 0x91,
     0xC2, 0xA2, 0x11, 0x16, 0x7A, 0xBB, 0x8C, 0x5E, 0x07, 0x9E, 0x09, 0xE2, 0xC8, 0xA8, 0x33, 0x9C]

  const SENTINEL_TLS12: ByteString := [0x44, 0x4F, 0x57, 0x4E, 0x47, 0x52, 0x44, 0x01]
  const SENTINEL_TLS11: ByteString := [0x44, 0x4F, 0x57, 0x4E, 0x47, 0x52, 0x44, 0x00]

  function SentinelOf(random: ByteString): Option<Sentinel>
    requires |random| == 32
  {
    if random == HRR_RANDOM then None
    else if random[24..] == SENTINEL_TLS12 then Some(Tls12)
    else if random[24..] == SENTINEL_TLS11 then Some(Tls11)
    else None
  }

  function Answered(a: Answers, e: Extension): Answers {
    var d := e.data;
    if e.etype == 43 && |d| == 2 then a.(version := Some(U16(d[0], d[1])))
    else if e.etype == 51 && |d| >= 2 then a.(group := Some(U16(d[0], d[1])))
    else if e.etype == 16 && |d| >= 4 then
      if U16(d[0], d[1]) >= 1 && 3 + d[2] as int <= |d| then a.(alpn := a.alpn + [d[3..3 + d[2] as int]]) else a
    else a
  }

  function AllAnswered(es: seq<Extension>): Answers {
    if es == [] then NO_ANSWERS else Answered(AllAnswered(es[..|es| - 1]), es[|es| - 1])
  }

  type ParsedServerHello = Result<ServerHello, HelloError>

  /** The extension block behind the cipher suite, which ends at pos; a missing or truncated block
      counts as none. */
  function ServerExtensions(buf: ByteString, pos: nat): seq<Extension> {
    if pos + 3 > |buf| then []
    else
      var end := pos + 3 + U16(buf[pos + 1], buf[pos + 2]);
      if end > |buf| then [] else ExtensionsFrom(buf[pos + 3..end], 0, MAX_EXTENSIONS)
  }

  function ServerHelloOf(buf: ByteString): ParsedServerHello {
    if |buf| < 2 then Err(Truncated("version"))
    else if |buf| < 34 then Err(Truncated("random"))
    else if |buf| < 35 then Err(Truncated("session id length"))
    else
      var p := 35 + buf[34] as int;
      if p > |buf| then Err(Truncated("session id"))
      else if p + 2 > |buf| then Err(Truncated("cipher"))
      else
        var es := ServerExtensions(buf, p + 2);
        var a := AllAnswered(es);
        var legacy := U16(buf[0], buf[1]);
        Ok(ServerHello(if a.version.Some? then a.version.value else legacy, legacy, U16(buf[p], buf[p + 1]), buf[2..34],
                       buf[2..34] == HRR_RANDOM, SentinelOf(buf[2..34]), TypesOf(es), a))
  }

  method ParseServerHello(buf: ByteString) returns (r: ParsedServerHello)
    ensures r == ServerHelloOf(buf)
  {
    hide ExtensionsFrom;
    var pos := 0;
    if pos + 2 > |buf| { return Err(Truncated("version")); }
    var legacy := U16(buf[pos], buf[pos + 1]);
    pos := pos + 2;
    if pos + 32 > |buf| { return Err(Truncated("random")); }
    var random := buf[pos..pos + 32];
    pos := pos + 32;
    var isHrr := random == HRR_RANDOM;
    var sentinel := SentinelOf(random);
    if pos + 1 > |buf| { return Err(Truncated("session id length")); }
    var sidLen: int := buf[pos];
    pos := pos + 1;
    if pos + sidLen > |buf| { return Err(Truncated("session id")); }
    pos := pos + sidLen;
    if pos + 2 > |buf| { return Err(Truncated("cipher")); }
    var cipher := U16(buf[pos], buf[pos + 1]);
    pos := pos + 2;
    var hello := ServerHello(legacy, legacy, cipher, random, isHrr, sentinel, [], NO_ANSWERS);
    if pos + 1 > |buf| { return Ok(hello); }
    pos := pos + 1;
    if pos + 2 > |buf| { return Ok(hello); }
    var extsLen := U16(buf[pos], buf[pos + 1]);
    pos := pos + 2;
    if pos + extsLen > |buf| { return Ok(hello); }
    var es := ParseExtensions(buf[pos..pos + extsLen], MAX_EXTENSIONS);
    var ids: seq<int>, answers := [], NO_ANSWERS;
    for i := 0 to |es|
      invariant ids == TypesOf(es[..i]) && answers == AllAnswered(es[..i])
    {
      assert es[..i + 1][..i] == es[..i];
      ids, answers := ids + [es[i].etype], Answered(answers, es[i]);
    }
    assert es[..|es|] == es;
    r := Ok(ServerHello(if answers.version.Some? then answers.version.value else legacy, legacy, cipher, random,
                        isHrr, sentinel, ids, answers));
  }

  // ----- Certificate -----

  datatype CertError = TruncatedList | NoCertificates

  type Certificates = Result<seq<ByteString>, CertError>

  const MAX_CERTS := 32

  /** The DER entries from pos up to end; in TLS 1.3 each is followed by its extensions. */
  function CertsFrom(buf: ByteString, pos: nat, end: nat, tls13: bool, left: int): seq<ByteString>
    decreases |buf| - pos
  {
    if pos >= end || pos + 3 > |buf| then []
    else
      var der := pos + 3;
      var after := der + U24(buf[pos], buf[pos + 1], buf[pos + 2]);
      if (if tls13 then after + 2 else after) > |buf| then []
      else
        var next := if tls13 then after + 2 + U16(buf[after], buf[after + 1]) else after;
        if left <= 1 then [buf[der..after]]
        else [buf[der..after]] + CertsFrom(buf, next, end, tls13, left - 1)
  }

  function CertificatesOf(buf: ByteString, tls13: bool): Certificates {
    var p: nat := if tls13 then 1 else 0;
    if p + 3 > |buf| then Err(TruncatedList)
    else
      var end := Min(p + 3 + U24(buf[p], buf[p + 1], buf[p + 2]), |buf|);
      var certs := CertsFrom(buf, p + 3, end, tls13, MAX_CERTS);
      if certs == [] then Err(NoCertificates) else Ok(certs)
  }

  method ReadCerts(buf: ByteString, start: nat, end: nat, isTls13: bool) returns (certs: seq<ByteString>)
    ensures certs == CertsFrom(buf, start, end, isTls13, MAX_CERTS)
  {
    certs := [];
    var pos := start;
    while pos < end
      invariant |certs| < MAX_CERTS
      invariant CertsFrom(buf, start, end, isTls13, MAX_CERTS)
             == certs + CertsFrom(buf, pos, end, isTls13, MAX_CERTS - |certs|)
      decreases |buf| - pos
    {
      if pos + 3 > |buf| { break; }
      var der := pos + 3;
      var after := der + U24(buf[pos], buf[pos + 1], buf[pos + 2]);
      if (if isTls13 then after + 2 else after) > |buf| { break; }
      var next := if isTls13 then after + 2 + U16(buf[after], buf[after + 1]) else after;
      Assoc(certs, [buf[der..after]], CertsFrom(buf, next, end, isTls13, MAX_CERTS - |certs| - 1));
      pos := next;
      certs := certs + [buf[der..after]];
      if |certs| >= MAX_CERTS { break; }
    }
  }

  method ParseCertificateMessage(buf: ByteString, isTls13: bool) returns (r: Certificates)
    ensures r == CertificatesOf(buf, isTls13)
  {
    hide CertsFrom;
    var pos := if isTls13 then 1 else 0;
    if pos + 3 > |buf| { return Err(TruncatedList); }
    var listLen := U24(buf[pos], buf[pos + 1], buf[pos + 2]);
    pos := pos + 3;
    var end := Min(pos + listLen, |buf|);
    var certs := ReadCerts(buf, pos, end, isTls13);
    r := if certs == [] then Err(NoCertificates) else Ok(certs);
  }
}
