/** Reassembled sessions: which protocol they speak and where their TLS part begins. */
module Sessions {
  import opened Wrappers
  import opened Bytes
  import opened TlsRecords

  datatype Protocol = SMTP | IMAP | POP3 | UNKNOWN

  const CRLF: ByteString := [13, 10]
  const STARTTLS: ByteString := Ascii("STARTTLS")
  const STLS: ByteString := Ascii("STLS")

  predicate IsImplicitTlsPort(port: int) {
    port == 465 || port == 993 || port == 995
  }

  function ProtocolOfPort(port: int): Protocol {
    if port == 25 || port == 465 || port == 587 then SMTP
    else if port == 110 || port == 995 then POP3
    else if port == 143 || port == 993 then IMAP
    else UNKNOWN
  }

  // ----- protocol detection -----

  function Take(s: ByteString, n: nat): ByteString {
    if |s| < n then s else s[..n]
  }

  /** The first marker of the list that occurs in the upper-cased probe decides. */
  function FirstMatch(probe: ByteString, markers: seq<(ByteString, Protocol)>): Protocol {
    if markers == [] then UNKNOWN
    else if Contains(probe, markers[0].0) then markers[0].1
    else FirstMatch(probe, markers[1..])
  }

  const BANNERS: seq<(ByteString, Protocol)> :=
    [(Ascii("ESMTP"), SMTP), (Ascii("Dovecot"), IMAP), (Ascii("IMAP4"), IMAP), (Ascii("+OK"), POP3)]

  const COMMANDS: seq<(ByteString, Protocol)> :=
    [(Ascii("EHLO"), SMTP), (Ascii("MAIL FROM"), SMTP), (Ascii("LOGIN"), IMAP), (Ascii("a001"), IMAP),
     (Ascii("USER"), POP3), (Ascii("PASS"), POP3)]

  /** Ports first, then banners of either side, then commands of the client. */
  function DetectProtocol(serverPort: int, client: ByteString, server: ByteString): Protocol {
    if ProtocolOfPort(serverPort) != UNKNOWN then ProtocolOfPort(serverPort)
    else
      var byBanner := FirstMatch(Upper(Take(server, 4096) + [0] + Take(client, 4096)), BANNERS);
      if byBanner != UNKNOWN then byBanner
      else FirstMatch(Upper(Take(client, 4096)), COMMANDS)
  }

  predicate HasLowerCase(marker: ByteString) {
    exists i :: 0 <= i < |marker| && 97 <= marker[i] <= 122
  }

  lemma LowerCaseMarkersNeverMatch(s: ByteString, marker: ByteString)
    requires HasLowerCase(marker)
    ensures !Contains(Upper(s), marker)
  {
    var i :| 0 <= i < |marker| && 97 <= marker[i] <= 122;
    forall p: nat | p + |marker| <= |s|
      ensures !OccursAt(Upper(s), marker, p)
    {
      assert Upper(s)[p..p + |marker|][i] == Upper(s)[p + i];
    }
  }

  /** A marker can be found in some probe if and only if it has no lower-case letter, because the probe
      is upper-cased. */
  lemma MarkerCanMatchIff(marker: ByteString)
    ensures (exists s :: Contains(Upper(s), marker)) <==> !HasLowerCase(marker)
  {
    if HasLowerCase(marker) {
      forall s
        ensures !Contains(Upper(s), marker)
      {
        LowerCaseMarkersNeverMatch(s, marker);
      }
    } else {
      assert Upper(marker) == marker;
      assert OccursAt(Upper(marker), marker, 0);
      assert Contains(Upper(marker), marker);
    }
  }

  /** So the Dovecot banner and the a001 tag decide nothing: without them the lists find the same. */
  lemma DeadMarkersDecideNothing(s: ByteString)
    ensures FirstMatch(Upper(s), BANNERS) == FirstMatch(Upper(s), [BANNERS[0]] + BANNERS[2..])
    ensures FirstMatch(Upper(s), COMMANDS) == FirstMatch(Upper(s), COMMANDS[..3] + COMMANDS[4..])
  {
    hide Contains, Upper;
    assert BANNERS[1].0[1] == 111 && COMMANDS[3].0[0] == 97;
    LowerCaseMarkersNeverMatch(s, BANNERS[1].0);
    LowerCaseMarkersNeverMatch(s, COMMANDS[3].0);
    SkipDead(Upper(s), BANNERS, 1);
    SkipDead(Upper(s), COMMANDS, 3);
    assert BANNERS[..1] == [BANNERS[0]];
  }

  lemma {:induction false} SkipDead(probe: ByteString, markers: seq<(ByteString, Protocol)>, i: nat)
    requires i < |markers| && !Contains(probe, markers[i].0)
    ensures FirstMatch(probe, markers) == FirstMatch(probe, markers[..i] + markers[i + 1..])
  {
    hide Contains;
    var rest := markers[..i] + markers[i + 1..];
    if i == 0 {
      assert rest == markers[1..];
    } else {
      SkipDead(probe, markers[1..], i - 1);
      assert rest[1..] == markers[1..][..i - 1] + markers[1..][i..];
    }
  }

  // ----- the split into plaintext and TLS -----

  datatype Split = Split(
    isStarttls: bool,
    offset: Option<nat>,
    plaintext: ByteString,
    plaintextServer: ByteString,
    tls: ByteString,
    tlsServer: ByteString)

  function StarttlsCommand(protocol: Protocol): Option<ByteString> {
    match protocol
    case SMTP => Some(STARTTLS)
    case IMAP => Some(STARTTLS)
    case POP3 => Some(STLS)
    case UNKNOWN => None
  }

  /** Just after the line of the first STARTTLS (or STLS) command. */
  function FindStarttlsOffset(client: ByteString, protocol: Protocol): (r: Option<nat>)
    ensures r.Some? ==> 2 <= r.value <= |client| && client[r.value - 2..r.value] == CRLF
    ensures r.Some? ==> StarttlsCommand(protocol).Some? && Contains(client[..r.value], StarttlsCommand(protocol).value)
  {
    var cmd := StarttlsCommand(protocol);
    if cmd.None? then None
    else
      var idx := Find(client, cmd.value, 0);
      if idx.None? then None
      else
        var eol := Find(client, CRLF, idx.value);
        if eol.None? then None
        else
          CommandBeforeLineEnd(client, cmd.value, idx.value, eol.value);
          Some(eol.value + 2)
  }

  /** A command without CR in it ends before the CRLF that follows its start. */
  lemma CommandBeforeLineEnd(s: ByteString, cmd: ByteString, idx: nat, eol: nat)
    requires OccursAt(s, cmd, idx) && OccursAt(s, CRLF, eol) && idx <= eol
    requires forall i :: 0 <= i < |cmd| ==> cmd[i] != 13
    ensures idx + |cmd| <= eol
    ensures Contains(s[..eol + 2], cmd)
  {
    assert s[eol] == s[eol..eol + 2][0] == 13;
    forall p | idx <= p < idx + |cmd|
      ensures s[p] != 13
    {
      assert s[p] == s[idx..idx + |cmd|][p - idx];
    }
    assert OccursAt(s[..eol + 2], cmd, idx) by { assert s[..eol + 2][idx..idx + |cmd|] == s[idx..idx + |cmd|]; }
  }

  /** A STARTTLS session: not on an implicit-TLS port, and a complete valid record starts right
      after the command line. */
  predicate IsStarttls(serverPort: int, protocol: Protocol, client: ByteString) {
    && !IsImplicitTlsPort(serverPort)
    && FindStarttlsOffset(client, protocol).Some?
    && ValidRecordAt(client, FindStarttlsOffset(client, protocol).value)
  }

  /** TLS from the first byte although neither the port nor a command announced it. */
  predicate IsTlsAnyway(client: ByteString) {
    var p := ParseFrom(client, 0, MAX_RECORDS);
    p.Ok? && p.value != []
  }

  function Transition(serverPort: int, protocol: Protocol, client: ByteString): (r: Option<nat>)
    ensures r.Some? ==> r.value <= |client|
  {
    if IsImplicitTlsPort(serverPort) then Some(0)
    else if IsStarttls(serverPort, protocol, client) then FindStarttlsOffset(client, protocol)
    else if IsTlsAnyway(client) then Some(0)
    else None
  }

  /** Cut the client stream at the transition, and the server stream at its first valid record. */
  function Cut(starttls: bool, transition: Option<nat>, client: ByteString, server: ByteString): Split
    requires transition.Some? ==> transition.value <= |client|
  {
    if transition.None? then Split(false, None, client, server, [], [])
    else
      var off := transition.value;
      var so := FirstValid(server, 0, ScanLimit(server, MAX_SCAN));
      if so.Some? then Split(starttls, transition, client[..off], server[..so.value], client[off..], server[so.value..])
      else Split(starttls, transition, client[..off], if starttls then server else [], client[off..], server)
  }

  function SplitOf(serverPort: int, protocol: Protocol, client: ByteString, server: ByteString): Split {
    Cut(IsStarttls(serverPort, protocol, client), Transition(serverPort, protocol, client), client, server)
  }

  /** The header of the first parsed record is the first three bytes, so it is found at once. */
  lemma HeaderIsAtTheStart(client: ByteString)
    requires IsTlsAnyway(client)
    ensures var first := ParseFrom(client, 0, MAX_RECORDS).value[0];
            0 <= first.version < 0x1_0000
            && Find(client, [first.contentType, first.version / 256, first.version % 256], 0) == Some(0)
  {
    U16Splits(client[1], client[2]);
    assert client[0..3] == [client[0], client[1], client[2]];
  }

  /** Where TLS begins in the client stream, and whether a STARTTLS command led there. */
  method FindTransition(serverPort: int, protocol: Protocol, client: ByteString)
    returns (offset: Option<nat>, isStarttls: bool)
    ensures offset == Transition(serverPort, protocol, client)
    ensures isStarttls == IsStarttls(serverPort, protocol, client)
  {
    var implicit := IsImplicitTlsPort(serverPort);
    offset, isStarttls := None, false;
    if !implicit {
      var off := FindStarttlsOffset(client, protocol);
      if off.Some? && off.value < |client| {
        ValidInSuffix(client, off.value);
        var at := FindTlsOffset(client[off.value..], MAX_SCAN);
        if at == Some(0) { offset, isStarttls := off, true; }
      }
    }
    if implicit { offset, isStarttls := Some(0), false; }
    if offset.None? {
      var parsed := ParseTlsRecords(client, MAX_RECORDS);
      var recs := if parsed.Ok? then parsed.value else [];
      if recs != [] {
        HeaderIsAtTheStart(client);
        var first := recs[0];
        var header := Find(client, [first.contentType, first.version / 256, first.version % 256], 0);
        var at: int := if header.Some? then header.value else 0;
        offset := Some(at);
        isStarttls := false;
      }
    }
  }

  method AssignTlsSegments(serverPort: int, protocol: Protocol, client: ByteString, server: ByteString)
    returns (s: Split)
    ensures s == SplitOf(serverPort, protocol, client, server)
  {
    var offset, isStarttls := FindTransition(serverPort, protocol, client);
    if offset.Some? {
      var plaintextServer := if isStarttls then server else [];
      var tlsServer := server;
      var so := FindTlsOffset(server, MAX_SCAN);
      if so.Some? && so.value < |server| {
        tlsServer, plaintextServer := server[so.value..], server[..so.value];
      }
      s := Split(isStarttls, offset, client[..offset.value], plaintextServer, client[offset.value..], tlsServer);
    } else {
      s := Split(false, None, client, server, [], []);
    }
  }

  // ----- laws of the split -----

  lemma CutPartitionsClient(starttls: bool, transition: Option<nat>, client: ByteString, server: ByteString)
    requires transition.Some? ==> transition.value <= |client|
    ensures var s := Cut(starttls, transition, client, server);
            && s.plaintext + s.tls == client && s.offset == transition
            && (s.offset.Some? ==> |s.plaintext| == s.offset.value)
            && (s.offset.None? ==> s.tls == [])
  {
  }

  /** The client stream is always cut in two, never changed, and TLS starts at the cut. */
  lemma ClientIsPartitioned(serverPort: int, protocol: Protocol, client: ByteString, server: ByteString)
    ensures var s := SplitOf(serverPort, protocol, client, server);
            && s.plaintext + s.tls == client
            && (s.offset.Some? ==> |s.plaintext| == s.offset.value)
            && (s.offset.None? ==> s.tls == [])
  {
    CutPartitionsClient(IsStarttls(serverPort, protocol, client), Transition(serverPort, protocol, client),
                        client, server);
  }

  /** A session is classified as STARTTLS exactly when its port is not an implicit-TLS port and,
      right after the first line end that follows the first upgrade command, a complete record of
      known type and version starts; that point is then the cut. */
  lemma StarttlsMeans(serverPort: int, protocol: Protocol, client: ByteString, server: ByteString)
    requires protocol != UNKNOWN
    ensures var s := SplitOf(serverPort, protocol, client, server);
            s.isStarttls <==>
              && !IsImplicitTlsPort(serverPort)
              && exists c: nat, e: nat ::
                 UpgradeLine(client, StarttlsCommand(protocol).value, c, e) && ValidRecordAt(client, e + 2)
                 && s.offset == Some(e + 2)
  {
    var (starttls, cut) := (IsStarttls(serverPort, protocol, client), Transition(serverPort, protocol, client));
    var off := FindStarttlsOffset(client, protocol);
    assert starttls ==> cut == off;
    if off.Some? { FoundLineIsUpgrade(client, protocol, off.value); }
    hide Cut, FindStarttlsOffset, UpgradeLine, ValidRecordAt, IsTlsAnyway;
    CutPartitionsServerIff(starttls, cut, client, server);
    CutPartitionsClient(starttls, cut, client, server);
    forall c: nat, e: nat | UpgradeLine(client, StarttlsCommand(protocol).value, c, e)
      ensures off == Some(e + 2)
    {
      UpgradeLineIsFound(client, protocol, c, e);
    }
  }

  lemma FoundLineIsUpgrade(client: ByteString, protocol: Protocol, v: nat)
    requires protocol != UNKNOWN && FindStarttlsOffset(client, protocol) == Some(v)
    ensures 2 <= v && exists c: nat, e: nat :: e == v - 2 && UpgradeLine(client, StarttlsCommand(protocol).value, c, e)
  {
    hide Find;
    var c := Find(client, StarttlsCommand(protocol).value, 0).value;
    assert UpgradeLine(client, StarttlsCommand(protocol).value, c, v - 2);
  }

  lemma UpgradeLineIsFound(client: ByteString, protocol: Protocol, c: nat, e: nat)
    requires protocol != UNKNOWN && UpgradeLine(client, StarttlsCommand(protocol).value, c, e)
    ensures FindStarttlsOffset(client, protocol) == Some(e + 2)
  {
    hide Find;
    assert Find(client, StarttlsCommand(protocol).value, 0) == Some(c);
    assert Find(client, CRLF, c) == Some(e);
  }

  /** The first command occurs at c, and the first CRLF from there on at e. */
  ghost predicate UpgradeLine(client: ByteString, cmd: ByteString, c: nat, e: nat) {
    && OccursAt(client, cmd, c) && (forall i :: 0 <= i < c ==> !OccursAt(client, cmd, i))
    && c <= e && OccursAt(client, CRLF, e) && (forall i :: c <= i < e ==> !OccursAt(client, CRLF, i))
  }

  lemma NothingValidIff(data: ByteString)
    ensures FirstValid(data, 0, ScanLimit(data, MAX_SCAN)).None?
            <==> forall q: nat :: q <= MAX_SCAN ==> !ValidRecordAt(data, q)
  {
    var so := FirstValid(data, 0, ScanLimit(data, MAX_SCAN));
    if so.Some? { assert ValidRecordAt(data, so.value); }
  }

  lemma CutPartitionsServerIff(starttls: bool, transition: Option<nat>, client: ByteString, server: ByteString)
    requires transition.Some? ==> transition.value <= |client|
    requires starttls ==> transition.Some?
    ensures var s := Cut(starttls, transition, client, server);
            && (s.plaintextServer + s.tlsServer == server
                <==> !(starttls && server != [] && FirstValid(server, 0, ScanLimit(server, MAX_SCAN)).None?))
            && s.isStarttls == starttls
  {
    hide FirstValid, ScanLimit;
    assert |server + server| == 2 * |server|;
  }

  /** On the server side the two parts make up the stream except in one case: a STARTTLS session
      without a valid record in the scanned part of the server stream keeps all of it in both. */
  lemma ServerIsPartitionedIff(serverPort: int, protocol: Protocol, client: ByteString, server: ByteString)
    ensures var s := SplitOf(serverPort, protocol, client, server);
            s.plaintextServer + s.tlsServer == server
            <==> !(s.isStarttls && server != [] && forall q: nat :: q <= MAX_SCAN ==> !ValidRecordAt(server, q))
  {
    assert IsStarttls(serverPort, protocol, client) ==> Transition(serverPort, protocol, client).Some?;
    hide Cut, IsStarttls, Transition, FirstValid, ScanLimit, ValidRecordAt;
    CutPartitionsServerIff(IsStarttls(serverPort, protocol, client), Transition(serverPort, protocol, client),
                           client, server);
    NothingValidIff(server);
  }

  /** TLS that no port and no command announced always starts at the first byte, and its first
      record is complete; a session with no cut has no complete first record at all. */
  lemma UnannouncedTlsStartsAtZero(serverPort: int, protocol: Protocol, client: ByteString, server: ByteString)
    requires !IsImplicitTlsPort(serverPort)
    ensures var s := SplitOf(serverPort, protocol, client, server);
            && (s.offset.Some? && !s.isStarttls ==>
                  s.offset == Some(0) && !IncompleteAt(client, 0) && IsContentType(client[0]))
            && (s.offset.None? ==> IncompleteAt(client, 0) || ParseFrom(client, 0, MAX_RECORDS).Err?)
  {
  }
}
