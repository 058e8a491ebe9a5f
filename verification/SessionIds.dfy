/** The identity key from which a stable session id is derived. */
module SessionIds {
  import opened Strings
  import opened Wrappers
  import opened Delivery

  /** The fields of a payload that identify its session, as strings; the times are empty when missing. */
  datatype Identity = Identity(fiveTuple: string, startTs: string, endTs: string,
                               clientIp: string, serverIp: string, clientPort: string, serverPort: string)

  function FieldsOf(i: Identity): (fs: seq<string>) {
    [i.fiveTuple, i.startTs, i.endTs, i.clientIp, i.serverIp, i.clientPort, i.serverPort]
  }

  predicate OnlyBars(s: string) {
    forall c <- s :: c == '|'
  }

  /** The key, or None when key.strip("|") is empty and a random id is used instead. */
  function IdentityKey(fields: seq<string>): Option<string> {
    if OnlyBars(Join('|', fields)) then None else Some(Join('|', fields))
  }

  lemma BarsApart(a: string, b: string)
    ensures OnlyBars(a + "|" + b) <==> OnlyBars(a) && OnlyBars(b)
  {
    var s := a + "|" + b;
    assert (forall c <- a :: c in s) && forall c <- b :: c in s;
  }

  lemma {:induction false} JoinedBars(fields: seq<string>)
    ensures OnlyBars(Join('|', fields)) <==> forall f <- fields :: OnlyBars(f)
  {
    hide OnlyBars;
    if fields == [] {
      assert OnlyBars("") by { NoCharacters(); }
    } else if |fields| == 1 {
      assert fields == [fields[0]];
    } else {
      JoinedBars(fields[1..]);
      BarsApart(fields[0], Join('|', fields[1..]));
      assert fields == [fields[0]] + fields[1..];
    }
  }

  lemma NoCharacters()
    ensures OnlyBars("")
  {
  }

  /** The random id is used exactly when no field has a character other than the separator. */
  lemma KeylessIff(fields: seq<string>)
    ensures IdentityKey(fields).None? <==> forall f <- fields :: OnlyBars(f)
  {
    JoinedBars(fields);
  }

  /** As long as no field contains the separator, sessions with different fields have different keys. */
  lemma {:induction false} KeysIdentify(xs: seq<string>, ys: seq<string>)
    requires |xs| == |ys| && (forall x <- xs :: '|' !in x) && forall y <- ys :: '|' !in y
    requires IdentityKey(xs).Some? && IdentityKey(xs) == IdentityKey(ys)
    ensures xs == ys
  {
    JoinedIsInjective(xs, ys);
  }

  lemma {:induction false} JoinedIsInjective(xs: seq<string>, ys: seq<string>)
    requires |xs| == |ys| && (forall x <- xs :: '|' !in x) && (forall y <- ys :: '|' !in y)
    requires Join('|', xs) == Join('|', ys)
    ensures xs == ys
  {
    if |xs| == 1 {
      assert xs == [xs[0]] && ys == [ys[0]];
    } else if |xs| > 1 {
      assert xs[0] in xs && ys[0] in ys;
      SplitsAt('|', xs[0], Join('|', xs[1..]), ys[0], Join('|', ys[1..]));
      JoinedIsInjective(xs[1..], ys[1..]);
      assert xs == [xs[0]] + xs[1..] && ys == [ys[0]] + ys[1..];
    }
  }

  /** With the separator inside a field two different sessions can share a key: it does not matter on
      which side of a field boundary it stands. */
  lemma SeparatorsCollide(i: Identity)
    ensures var (j, k) := (i.(clientIp := i.clientIp + "|"), i.(serverIp := "|" + i.serverIp));
            j != k && IdentityKey(FieldsOf(j)) == IdentityKey(FieldsOf(k))
  {
    var (j, k) := (i.(clientIp := i.clientIp + "|"), i.(serverIp := "|" + i.serverIp));
    assert |j.clientIp| != |k.clientIp|;
    var tail := [i.clientPort, i.serverPort];
    JoinTwo(j.clientIp, j.serverIp, tail);
    JoinTwo(k.clientIp, k.serverIp, tail);
    assert i.clientIp + "|" + "|" + i.serverIp + "|" == i.clientIp + ("|" + "|") + i.serverIp + "|";
    assert Join('|', [j.clientIp, j.serverIp] + tail) == Join('|', [k.clientIp, k.serverIp] + tail);
    JoinThree(i, [j.clientIp, j.serverIp] + tail);
    JoinThree(i, [k.clientIp, k.serverIp] + tail);
    assert FieldsOf(j) == [i.fiveTuple, i.startTs, i.endTs] + ([j.clientIp, j.serverIp] + tail);
    assert FieldsOf(k) == [i.fiveTuple, i.startTs, i.endTs] + ([k.clientIp, k.serverIp] + tail);
  }

  lemma JoinTwo(a: string, b: string, rest: seq<string>)
    requires rest != []
    ensures Join('|', [a, b] + rest) == a + "|" + b + "|" + Join('|', rest)
  {
    assert ([a, b] + rest)[1..] == [b] + rest && ([b] + rest)[1..] == rest;
    assert Join('|', [b] + rest) == b + "|" + Join('|', rest);
  }

  lemma JoinThree(i: Identity, rest: seq<string>)
    requires rest != []
    ensures Join('|', [i.fiveTuple, i.startTs, i.endTs] + rest)
         == i.fiveTuple + "|" + i.startTs + "|" + (i.endTs + "|" + Join('|', rest))
  {
    assert [i.fiveTuple, i.startTs, i.endTs] + rest == [i.fiveTuple, i.startTs] + ([i.endTs] + rest);
    JoinTwo(i.fiveTuple, i.startTs, [i.endTs] + rest);
    assert ([i.endTs] + rest)[1..] == rest;
  }

  // ----- a payload without a key -----

  /** A payload that is accepted and decodes: its five-tuple is not empty, and the four endpoint fields
      are there. */
  const BARS := Identity("|", "", "", "", "", "", "")

  /** So a payload that reaches the insert can be stored twice. */
  lemma BarsAreStoredTwice()
    ensures BARS.fiveTuple != "" && KEYLESS_TWICE[0] == Enqueue(Session(IdentityKey(FieldsOf(BARS))))
    ensures Run(Start(1), KEYLESS_TWICE).rows == map[Uuid(0) := 0, Uuid(1) := 0]
  {
    KeylessIff(FieldsOf(BARS));
    KeylessEntryCanBeStoredTwice();
  }
}
