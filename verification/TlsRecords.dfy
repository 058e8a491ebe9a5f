/** TLS record framing: the parser, the record encoder it has to undo, and the scanners that look
    for the place where TLS begins. */
module TlsRecords {
  import opened Wrappers
  import opened Bytes

  datatype TlsRecord = TlsRecord(contentType: Byte, version: int, payload: ByteString)

  datatype TlsError = InvalidContentType(contentType: Byte, offset: int) | AbsurdLength(length: int, offset: int)

  type Parsed = Result<seq<TlsRecord>, TlsError>

  const MAX_RECORDS := 4096
  const MAX_SCAN := 8192
  const MAX_LENGTH := 65535 + 2048

  predicate IsContentType(b: Byte) {
    b == 20 || b == 21 || b == 22 || b == 23
  }

  // ----- the encoder -----

  /** tls_record: None where to_bytes raises because the payload does not fit. */
  function Encode(payload: ByteString, contentType: Byte, version: int): Option<ByteString>
    requires 0 <= version < 0x1_0000
  {
    if |payload| < 0x1_0000
    then Some([contentType, version / 256, version % 256] + To16(|payload|) + payload)
    else None
  }

  ghost predicate IsRecord(r: TlsRecord) {
    IsContentType(r.contentType) && 0 <= r.version < 0x1_0000 && |r.payload| < 0x1_0000
  }

  ghost function Wire(r: TlsRecord): (s: ByteString)
    requires IsRecord(r)
    ensures |s| == 5 + |r.payload|
  {
    Encode(r.payload, r.contentType, r.version).value
  }

  ghost function WireAll(rs: seq<TlsRecord>): ByteString
    requires forall r <- rs :: IsRecord(r)
  {
    if rs == [] then [] else Wire(rs[0]) + WireAll(rs[1..])
  }

  // ----- the parser -----

  /** The declared length of the record that starts at pos. */
  function LengthAt(data: ByteString, pos: nat): int
    requires pos + 5 <= |data|
  {
    U16(data[pos + 3], data[pos + 4])
  }

  /** Nothing complete starts at pos: less than a header, or less payload than declared. */
  predicate IncompleteAt(data: ByteString, pos: nat) {
    |data| - pos < 5 || |data| - pos - 5 < LengthAt(data, pos)
  }

  function RecordAt(data: ByteString, pos: nat): TlsRecord
    requires !IncompleteAt(data, pos)
  {
    TlsRecord(data[pos], U16(data[pos + 1], data[pos + 2]), data[pos + 5..pos + 5 + LengthAt(data, pos)])
  }

  function Prepend(r: TlsRecord, p: Parsed): Parsed {
    if p.Ok? then Ok([r] + p.value) else p
  }

  /** The records from pos on, stopping after `left` of them (the check follows the append, so a
      positive number). */
  function ParseFrom(data: ByteString, pos: nat, left: int): Parsed
    decreases |data| - pos
  {
    if |data| - pos < 5 then Ok([])
    else if !IsContentType(data[pos]) then Err(InvalidContentType(data[pos], pos))
    else if LengthAt(data, pos) > MAX_LENGTH then Err(AbsurdLength(LengthAt(data, pos), pos))
    else if |data| - pos - 5 < LengthAt(data, pos) then Ok([])
    else if left <= 1 then Ok([RecordAt(data, pos)])
    else Prepend(RecordAt(data, pos), ParseFrom(data, pos + 5 + LengthAt(data, pos), left - 1))
  }

  /** The outcome of a parse that has already collected `done`. */
  ghost function After(done: seq<TlsRecord>, p: Parsed): Parsed {
    if p.Ok? then Ok(done + p.value) else p
  }

  lemma AfterPrepend(done: seq<TlsRecord>, r: TlsRecord, p: Parsed)
    ensures After(done, Prepend(r, p)) == After(done + [r], p)
  {
    if p.Ok? { assert done + ([r] + p.value) == (done + [r]) + p.value; }
  }

  lemma AfterEmpty(done: seq<TlsRecord>, p: Parsed)
    ensures After(done, Ok([])) == Ok(done) && After([], p) == p
  {
    assert done + [] == done;
    if p.Ok? { assert [] + p.value == p.value; }
  }

  method ParseTlsRecords(data: ByteString, maxRecords: int) returns (r: Parsed)
    ensures r == ParseFrom(data, 0, maxRecords)
    ensures r.Err? ==> r.error.InvalidContentType?
  {
    var records: seq<TlsRecord> := [];
    var pos := 0;
    ghost var goal := ParseFrom(data, 0, maxRecords);
    AfterEmpty(records, goal);
    while pos < |data|
      invariant 0 <= pos <= |data|
      invariant |records| == 0 || |records| < maxRecords
      invariant goal == After(records, ParseFrom(data, pos, maxRecords - |records|))
    {
      if |data| - pos < 5 { break; }
      var length := U16(data[pos + 3], data[pos + 4]);
      if !IsContentType(data[pos]) { return Err(InvalidContentType(data[pos], pos)); }
      if length > 65535 + 2048 { return Err(AbsurdLength(length, pos)); }
      if |data| - pos - 5 < length { break; }
      var record := TlsRecord(data[pos], U16(data[pos + 1], data[pos + 2]), data[pos + 5..pos + 5 + length]);
      AfterPrepend(records, record, ParseFrom(data, pos + 5 + length, maxRecords - |records| - 1));
      records := records + [record];
      pos := pos + 5 + length;
      if |records| >= maxRecords { return Ok(records); }
    }
    AfterEmpty(records, goal);
    r := Ok(records);
  }

  // ----- framing laws -----

  /** The branch for over-long lengths is dead: a two-byte length cannot exceed its bound. */
  lemma {:induction false} LengthIsNeverAbsurd(data: ByteString, pos: nat, left: int)
    ensures ParseFrom(data, pos, left).Err? ==> ParseFrom(data, pos, left).error.InvalidContentType?
    decreases |data| - pos
  {
    if |data| - pos >= 5 && IsContentType(data[pos]) && !IncompleteAt(data, pos) {
      LengthIsNeverAbsurd(data, pos + 5 + LengthAt(data, pos), left - 1);
    }
  }

  /** What the parser leaves behind: nothing, or the beginning of a record that is still incomplete. */
  ghost predicate IsLeftover(tail: ByteString) {
    IncompleteAt(tail, 0) && (|tail| >= 5 ==> IsContentType(tail[0]))
  }

  lemma WireReads(data: ByteString, pos: nat, r: TlsRecord, rest: ByteString)
    requires IsRecord(r) && pos <= |data| && data[pos..] == Wire(r) + rest
    ensures !IncompleteAt(data, pos) && RecordAt(data, pos) == r && LengthAt(data, pos) == |r.payload|
    ensures data[pos + 5 + LengthAt(data, pos)..] == rest
  {
    var s, wire := data[pos..], Wire(r);
    assert s[0] == wire[0] && s[1] == wire[1] && s[2] == wire[2] && s[3] == wire[3] && s[4] == wire[4];
    assert s[5..|wire|] == wire[5..] == r.payload;
    assert data[pos + 5..pos + |wire|] == s[5..|wire|];
    assert data[pos + |wire|..] == s[|wire|..];
  }

  lemma LeftoverParses(data: ByteString, pos: nat, left: int)
    requires pos <= |data|
    ensures IsLeftover(data[pos..]) <==> (|data| - pos < 5 || (IncompleteAt(data, pos) && IsContentType(data[pos])))
  {
    var tail := data[pos..];
    if |tail| >= 5 {
      assert tail[0] == data[pos] && tail[3] == data[pos + 3] && tail[4] == data[pos + 4];
    }
  }

  /** The records rs lie in the data one after the other, from pos on. */
  ghost predicate Lies(data: ByteString, pos: nat, rs: seq<TlsRecord>)
    decreases |rs|
  {
    rs != [] ==>
      && !IncompleteAt(data, pos) && IsContentType(data[pos]) && RecordAt(data, pos) == rs[0]
      && Lies(data, pos + 5 + |rs[0].payload|, rs[1..])
  }

  ghost function EndOf(pos: nat, rs: seq<TlsRecord>): nat
    decreases |rs|
  {
    if rs == [] then pos else EndOf(pos + 5 + |rs[0].payload|, rs[1..])
  }

  /** One record in front of those that lie behind it. */
  lemma LiesOn(data: ByteString, pos: nat, rs: seq<TlsRecord>)
    requires rs != [] && !IncompleteAt(data, pos) && IsContentType(data[pos]) && RecordAt(data, pos) == rs[0]
    requires Lies(data, pos + 5 + |rs[0].payload|, rs[1..])
    ensures Lies(data, pos, rs) && EndOf(pos, rs) == EndOf(pos + 5 + |rs[0].payload|, rs[1..])
  {
    hide IncompleteAt, RecordAt;
  }

  lemma NothingLies(data: ByteString, pos: nat, tail: ByteString)
    requires pos <= |data| && data[pos..] == WireAll([]) + tail
    ensures Lies(data, pos, []) && EndOf(pos, []) == pos && data[pos..] == tail
  {
    assert WireAll([]) + tail == tail;
  }

  lemma WireAllSplits(rs: seq<TlsRecord>, tail: ByteString)
    requires rs != [] && forall r <- rs :: IsRecord(r)
    ensures (forall r <- rs[1..] :: IsRecord(r)) && IsRecord(rs[0])
    ensures WireAll(rs) + tail == Wire(rs[0]) + (WireAll(rs[1..]) + tail)
  {
    Assoc(Wire(rs[0]), WireAll(rs[1..]), tail);
  }

  lemma TypeOfRecord(data: ByteString, pos: nat, r: TlsRecord)
    requires IsRecord(r) && !IncompleteAt(data, pos) && RecordAt(data, pos) == r
    ensures IsContentType(data[pos])
  {
  }

  lemma {:induction false} WireLies(data: ByteString, pos: nat, rs: seq<TlsRecord>, tail: ByteString)
    requires forall r <- rs :: IsRecord(r)
    requires pos <= |data| && data[pos..] == WireAll(rs) + tail
    ensures Lies(data, pos, rs) && EndOf(pos, rs) <= |data| && data[EndOf(pos, rs)..] == tail
    decreases |rs|
  {
    hide Lies, EndOf, Wire, WireAll, IncompleteAt, RecordAt, LengthAt, IsRecord;
    if rs == [] {
      NothingLies(data, pos, tail);
    } else {
      WireAllSplits(rs, tail);
      WireReads(data, pos, rs[0], WireAll(rs[1..]) + tail);
      WireLies(data, pos + 5 + |rs[0].payload|, rs[1..], tail);
      assert IsContentType(data[pos]) by { TypeOfRecord(data, pos, rs[0]); }
      LiesOn(data, pos, rs);
    }
  }

  lemma {:induction false} ParseLies(data: ByteString, pos: nat, rs: seq<TlsRecord>, left: int)
    requires Lies(data, pos, rs) && 1 <= left && |rs| <= left
    requires EndOf(pos, rs) <= |data| && (|rs| < left ==> IsLeftover(data[EndOf(pos, rs)..]))
    ensures ParseFrom(data, pos, left) == Ok(rs)
    decreases |rs|
  {
    if rs == [] {
      LeftoverParses(data, pos, left);
    } else {
      assert rs == [rs[0]] + rs[1..];
      if left > 1 {
        ParseLies(data, pos + 5 + |rs[0].payload|, rs[1..], left - 1);
      } else {
        assert rs == [rs[0]];
      }
    }
  }

  /** Encoded records, followed by anything that is no complete record, parse back to themselves.
      At the limit it does not matter what follows. */
  lemma ParseWire(data: ByteString, rs: seq<TlsRecord>, tail: ByteString, left: int)
    requires forall r <- rs :: IsRecord(r)
    requires data == WireAll(rs) + tail
    requires 1 <= left && |rs| <= left && (|rs| < left ==> IsLeftover(tail))
    ensures ParseFrom(data, 0, left) == Ok(rs)
  {
    assert data[0..] == data;
    WireLies(data, 0, rs, tail);
    ParseLies(data, 0, rs, left);
  }

  /** Parsing undoes encoding, for up to as many records as the parser takes. */
  lemma ParseUndoesEncode(rs: seq<TlsRecord>)
    requires (forall r <- rs :: IsRecord(r)) && |rs| <= MAX_RECORDS
    ensures ParseFrom(WireAll(rs), 0, MAX_RECORDS) == Ok(rs)
  {
    assert WireAll(rs) == WireAll(rs) + [];
    ParseWire(WireAll(rs), rs, [], MAX_RECORDS);
  }

  /** Encoding undoes parsing: the records of any accepted input re-encode to a prefix of it, and
      what is left over is an incomplete record unless the limit was reached. */
  lemma {:induction false} EncodeUndoesParse(data: ByteString, pos: nat, left: int)
    requires pos <= |data| && 1 <= left
    requires ParseFrom(data, pos, left).Ok?
    ensures var rs := ParseFrom(data, pos, left).value;
            && |rs| <= left && (forall r <- rs :: IsRecord(r))
            && WireAll(rs) <= data[pos..]
            && (|rs| < left ==> IsLeftover(data[pos + |WireAll(rs)|..]))
    decreases |data| - pos
  {
    hide Wire, IsRecord, IsLeftover, RecordAt;
    if !IncompleteAt(data, pos) {
      var r, next := RecordAt(data, pos), pos + 5 + LengthAt(data, pos);
      ReadsWire(data, pos);
      if left > 1 {
        EncodeUndoesParse(data, next, left - 1);
        OneMoreWire(data, pos, next, r, ParseFrom(data, next, left - 1).value);
      } else {
        NothingMoreWire(r);
      }
    } else {
      LeftoverParses(data, pos, left);
    }
  }

  lemma NothingMoreWire(r: TlsRecord)
    requires IsRecord(r)
    ensures WireAll([r]) == Wire(r)
  {
    assert WireAll([r]) == Wire(r) + [];
  }

  lemma OneMoreWire(data: ByteString, pos: nat, next: nat, r: TlsRecord, rest: seq<TlsRecord>)
    requires IsRecord(r) && (forall x <- rest :: IsRecord(x)) && pos <= next <= |data|
    requires data[pos..] == Wire(r) + data[next..] && WireAll(rest) <= data[next..]
    ensures (forall x <- [r] + rest :: IsRecord(x)) && WireAll([r] + rest) <= data[pos..]
    ensures pos + |WireAll([r] + rest)| == next + |WireAll(rest)|
  {
    hide Wire, IsRecord;
    assert ([r] + rest)[1..] == rest;
    assert WireAll([r] + rest) == Wire(r) + WireAll(rest);
    assert |data[pos..]| == |Wire(r)| + |data[next..]|;
  }

  lemma ReadsWire(data: ByteString, pos: nat)
    requires !IncompleteAt(data, pos) && IsContentType(data[pos])
    ensures var r, next := RecordAt(data, pos), pos + 5 + LengthAt(data, pos);
            IsRecord(r) && data[pos..] == Wire(r) + data[next..]
  {
    var r, next := RecordAt(data, pos), pos + 5 + LengthAt(data, pos);
    assert data[pos..] == data[pos..next] + data[next..];
    U16Splits(data[pos + 1], data[pos + 2]);
    U16Splits(data[pos + 3], data[pos + 4]);
    assert data[pos..next] == [data[pos], data[pos + 1], data[pos + 2], data[pos + 3], data[pos + 4]] + r.payload;
  }

  /** A parser that has seen less agrees with one that has seen more: whenever the longer input is
      accepted so is the shorter, with a prefix of the records; and an error in the shorter input
      is the error of the longer. */
  lemma {:induction false} ParseIsMonotone(data: ByteString, more: ByteString, pos: nat, left: int)
    ensures var a, b := ParseFrom(data, pos, left), ParseFrom(data + more, pos, left);
            && (b.Ok? ==> a.Ok? && a.value <= b.value)
            && (a.Err? ==> b == a)
    decreases |data| - pos
  {
    if |data| - pos >= 5 {
      assert LengthAt(data + more, pos) == LengthAt(data, pos);
      if !IncompleteAt(data, pos) {
        var next := pos + 5 + LengthAt(data, pos);
        assert (data + more)[pos + 5..next] == data[pos + 5..next];
        ParseIsMonotone(data, more, next, left - 1);
      }
    }
  }

  // ----- where TLS begins -----

  /** A complete record of a known type and version starts at pos. */
  predicate ValidRecordAt(data: ByteString, pos: nat) {
    && !IncompleteAt(data, pos)
    && IsContentType(data[pos])
    && 0x0300 <= U16(data[pos + 1], data[pos + 2]) <= 0x0304
  }

  /** The least position from pos up to limit where a valid record starts. */
  function FirstValid(data: ByteString, pos: nat, limit: int): (r: Option<nat>)
    ensures r.Some? ==> pos <= r.value <= limit && ValidRecordAt(data, r.value)
    ensures r.Some? ==> forall q :: pos <= q < r.value ==> !ValidRecordAt(data, q)
    ensures r.None? ==> forall q :: pos <= q <= limit ==> !ValidRecordAt(data, q)
    decreases limit - pos
  {
    if pos > limit then None
    else if ValidRecordAt(data, pos) then Some(pos)
    else FirstValid(data, pos + 1, limit)
  }

  function ScanLimit(data: ByteString, maxScan: int): int {
    if |data| - 5 < maxScan then |data| - 5 else maxScan
  }

  method FindTlsOffset(data: ByteString, maxScan: int) returns (r: Option<nat>)
    ensures r == FirstValid(data, 0, ScanLimit(data, maxScan))
    ensures r.None? <==> forall q: nat :: q <= maxScan ==> !ValidRecordAt(data, q)
    ensures r.Some? ==> r.value <= maxScan && ValidRecordAt(data, r.value)
    ensures r.Some? ==> forall q :: 0 <= q < r.value ==> !ValidRecordAt(data, q)
  {
    if data == [] { return None; }
    var limit := if |data| - 5 < maxScan then |data| - 5 else maxScan;
    var pos := 0;
    while pos <= limit
      invariant 0 <= pos
      invariant forall q :: 0 <= q < pos ==> !ValidRecordAt(data, q)
      invariant FirstValid(data, 0, limit) == FirstValid(data, pos, limit)
      decreases limit - pos
    {
      if ValidRecordAt(data, pos) { return Some(pos); }
      pos := pos + 1;
    }
    r := None;
  }

  /** A record is valid in a suffix exactly where it is valid in the whole. */
  lemma ValidInSuffix(data: ByteString, off: nat)
    requires off <= |data|
    ensures ValidRecordAt(data[off..], 0) <==> ValidRecordAt(data, off)
    ensures FirstValid(data[off..], 0, ScanLimit(data[off..], MAX_SCAN)) == Some(0) <==> ValidRecordAt(data, off)
  {
    var s := data[off..];
    if |s| >= 5 {
      assert s[0] == data[off] && s[1] == data[off + 1] && s[2] == data[off + 2]
          && s[3] == data[off + 3] && s[4] == data[off + 4];
    }
  }
}
