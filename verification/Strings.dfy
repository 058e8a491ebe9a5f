/** Strings as Python orders and formats them. */
module Strings {

  /** A sixteen-bit value. */
  type Word = x: int | 0 <= x < 0x1_0000

  function Digit(n: int): (c: char)
    requires 0 <= n < 16
    ensures c as int == if n < 10 then 48 + n else 87 + n
  {
    "0123456789abcdef"[n]
  }

  function Hex2(v: int): (s: string)
    requires 0 <= v < 256
    ensures |s| == 2
  {
    [Digit(v / 16), Digit(v % 16)]
  }

  /** f"{v:04x}". */
  function Hex4(v: Word): (s: string)
    ensures |s| == 4
  {
    Hex2(v / 256) + Hex2(v % 256)
  }

  /** Python's <= on str: lexicographic by code point. */
  predicate StrLe(x: string, y: string) {
    x == [] || (y != [] && (x[0] < y[0] || (x[0] == y[0] && StrLe(x[1..], y[1..]))))
  }

  lemma {:induction false} StrLeIsTotal(x: string, y: string)
    ensures StrLe(x, y) || StrLe(y, x)
    ensures StrLe(x, y) && StrLe(y, x) ==> x == y
  {
    if x != [] && y != [] {
      StrLeIsTotal(x[1..], y[1..]);
      assert x == [x[0]] + x[1..] && y == [y[0]] + y[1..];
    }
  }

  lemma {:induction false} StrLeIsTransitive(x: string, y: string, z: string)
    requires StrLe(x, y) && StrLe(y, z)
    ensures StrLe(x, z)
  {
    if x != [] && x[0] == y[0] == z[0] { StrLeIsTransitive(x[1..], y[1..], z[1..]); }
  }

  lemma {:induction false} AppendLe(a: string, x: string, b: string, y: string)
    requires |a| == |b|
    ensures StrLe(a + x, b + y) <==> (a != b && StrLe(a, b)) || (a == b && StrLe(x, y))
  {
    if a == [] {
      assert a + x == x && b + y == y;
    } else {
      AppendLe(a[1..], x, b[1..], y);
      assert (a + x)[1..] == a[1..] + x && (b + y)[1..] == b[1..] + y;
      assert a == [a[0]] + a[1..] && b == [b[0]] + b[1..];
    }
  }

  lemma Hex2Order(v: int, w: int)
    requires 0 <= v < 256 && 0 <= w < 256
    ensures StrLe(Hex2(v), Hex2(w)) <==> v <= w
    ensures Hex2(v) == Hex2(w) <==> v == w
  {
    var (x, y) := ([Digit(v % 16)], [Digit(w % 16)]);
    assert Hex2(v) == [Digit(v / 16)] + x && Hex2(w) == [Digit(w / 16)] + y;
    assert Hex2(v)[0] == Digit(v / 16) && Hex2(w)[0] == Digit(w / 16);
    assert Hex2(v)[1] == Digit(v % 16) && Hex2(w)[1] == Digit(w % 16);
    AppendLe([Digit(v / 16)], x, [Digit(w / 16)], y);
    OneLe(Digit(v / 16), Digit(w / 16));
    OneLe(Digit(v % 16), Digit(w % 16));
  }

  lemma OneLe(a: char, b: char)
    ensures StrLe([a], [b]) <==> a <= b
  {
    assert [a][1..] == [] && [b][1..] == [];
  }

  /** The order of the hexadecimal forms is the order of the values. */
  lemma HexOrderIsNumeric(v: Word, w: Word)
    ensures StrLe(Hex4(v), Hex4(w)) <==> v <= w
    ensures Hex4(v) == Hex4(w) <==> v == w
  {
    hide Hex2, StrLe;
    Hex2Order(v / 256, w / 256);
    Hex2Order(v % 256, w % 256);
    AppendLe(Hex2(v / 256), Hex2(v % 256), Hex2(w / 256), Hex2(w % 256));
    assert Hex4(v)[..2] == Hex2(v / 256) && Hex4(w)[..2] == Hex2(w / 256);
    assert Hex4(v)[2..] == Hex2(v % 256) && Hex4(w)[2..] == Hex2(w % 256);
  }

  /** sep.join(parts). */
  function Join(sep: char, parts: seq<string>): string {
    if parts == [] then "" else if |parts| == 1 then parts[0] else parts[0] + [sep] + Join(sep, parts[1..])
  }

  lemma NoneBefore(sep: char, a: string, b: string, c: string, d: string)
    requires sep !in a && a + [sep] + b == c + [sep] + d
    ensures |a| <= |c|
  {
    var s := a + [sep] + b;
    assert s[|c|] == sep;
    forall i | 0 <= i < |a|
      ensures s[i] != sep
    {
      assert s[i] == a[i] && a[i] in a;
    }
  }

  /** The first separator ends the first part. */
  lemma SplitsAt(sep: char, a: string, b: string, c: string, d: string)
    requires sep !in a && sep !in c && a + [sep] + b == c + [sep] + d
    ensures a == c && b == d
  {
    NoneBefore(sep, a, b, c, d);
    NoneBefore(sep, c, d, a, b);
    var s := a + [sep] + b;
    assert a == s[..|a|] && c == s[..|c|];
    assert b == s[|a| + 1..] && d == s[|c| + 1..];
  }
}
