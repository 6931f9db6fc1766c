/**
 * Key derivation. A land cell is keyed by `getLandId(x, y)`, the decimal text
 * of `x`, a '-' and the decimal text of `y` (src/mapping.ts:13-15); a People
 * record is keyed by `address.toHexString()` (src/mapping.ts:17-24). Both keys
 * are the only join keys of the store, so both must be injective.
 */
module Keys {
  import opened Wrappers
  import opened LandLists

  predicate IsDigit(c: char)
  {
    '0' <= c <= '9'
  }

  function DigitChar(d: nat): (c: char)
    requires d < 10
    ensures IsDigit(c) && c as int - '0' as int == d
  {
    ('0' as int + d) as char
  }

  /** Decimal text of a natural number, most significant digit first. */
  function NatText(n: nat): (r: string)
    ensures |r| >= 1
    ensures forall i :: 0 <= i < |r| ==> IsDigit(r[i])
    decreases n
  {
    if n < 10 then [DigitChar(n)] else NatText(n / 10) + [DigitChar(n % 10)]
  }

  /** `BigInt.toString()`: a '-' exactly for negative values, then the digits of the magnitude. */
  function IntText(i: int): (r: string)
    ensures |r| >= 1
    ensures r[0] == '-' <==> i < 0
    ensures forall k :: 1 <= k < |r| ==> IsDigit(r[k])
  {
    if i < 0 then "-" + NatText(-i) else NatText(i)
  }

  /**
   * `getLandId(x, y)`. The separator is the first '-' after the leading
   * character, which is what lets the id be read back into its coordinates.
   */
  function LandId(x: int, y: int): (id: string)
    ensures |IntText(x)| < |id| && id[|IntText(x)|] == '-'
    ensures forall i :: 1 <= i < |IntText(x)| ==> id[i] != '-'
  {
    IntText(x) + "-" + IntText(y)
  }

  function DigitValue(c: char): nat
  {
    if IsDigit(c) then c as int - '0' as int else 0
  }

  /** The number a string of decimal digits denotes. */
  function DigitsValue(s: string): nat
  {
    if |s| == 0 then 0 else DigitsValue(s[..|s| - 1]) * 10 + DigitValue(s[|s| - 1])
  }

  function ParseInt(s: string): int
  {
    if |s| > 0 && s[0] == '-' then -(DigitsValue(s[1..]) as int) else DigitsValue(s)
  }

  /**
   * Reads a land id back into its coordinates: the x part is everything
   * before the first '-' that is not the leading character.
   */
  function ParseLandId(id: string): Option<(int, int)>
  {
    if |id| == 0 then None
    else
      var k := IndexOf(id[1..], '-');
      if k < 0 then None else Some((ParseInt(id[..k + 1]), ParseInt(id[k + 2..])))
  }

  lemma {:induction false} NatTextRoundTrip(n: nat)
    ensures DigitsValue(NatText(n)) == n
    decreases n
  {
    var s := NatText(n);
    if n < 10 {
      assert s[..|s| - 1] == [];
    } else {
      assert s[..|s| - 1] == NatText(n / 10);
      NatTextRoundTrip(n / 10);
    }
  }

  lemma IntTextRoundTrip(i: int)
    ensures ParseInt(IntText(i)) == i
  {
    if i < 0 {
      assert IntText(i)[1..] == NatText(-i);
      NatTextRoundTrip(-i);
    } else {
      NatTextRoundTrip(i);
    }
  }

  /** The first occurrence of `c` in `p + [c] + q` is right after `p` when `p` lacks `c`. */
  lemma IndexOfAfter<T>(p: seq<T>, c: T, q: seq<T>)
    requires c !in p
    ensures IndexOf(p + [c] + q, c) == |p|
  {
    var s := p + [c] + q;
    var i := IndexOf(s, c);
    assert s[|p|] == c;
  }

  /** `ParseLandId` inverts `LandId`, negative coordinates included. */
  lemma {:induction false} ParseLandIdRoundTrip(x: int, y: int)
    ensures ParseLandId(LandId(x, y)) == Some((x, y))
  {
    var a, b := IntText(x), IntText(y);
    var id := LandId(x, y);
    assert id[1..] == a[1..] + ['-'] + b;
    IndexOfAfter(a[1..], '-', b);
    assert id[..|a|] == a;
    assert id[|a| + 1..] == b;
    IntTextRoundTrip(x);
    IntTextRoundTrip(y);
  }

  /** Distinct coordinate pairs give distinct land ids. */
  lemma LandIdInjective(x1: int, y1: int, x2: int, y2: int)
    requires LandId(x1, y1) == LandId(x2, y2)
    ensures x1 == x2 && y1 == y2
  {
    ParseLandIdRoundTrip(x1, y1);
    ParseLandIdRoundTrip(x2, y2);
  }

  type Byte = b: int | 0 <= b < 256

  /** An account address: its bytes (20 of them on chain). */
  type Address = seq<Byte>

  /** `Address.fromString("0x0000000000000000000000000000000000000000")`. */
  const ZeroAddress: Address := seq(20, _ => 0)

  /** Lower-case hexadecimal digit of a nibble. */
  function HexDigit(n: nat): (c: char)
    requires n < 16
    ensures c in "0123456789abcdef"
  {
    if n < 10 then ('0' as int + n) as char else ('a' as int + n - 10) as char
  }

  /** Two hex digits per byte, high nibble first. */
  function HexBytes(a: seq<Byte>): (r: string)
    ensures |r| == 2 * |a|
    ensures forall i :: 0 <= i < |r| ==> r[i] in "0123456789abcdef"
  {
    if |a| == 0 then "" else [HexDigit(a[0] / 16), HexDigit(a[0] % 16)] + HexBytes(a[1..])
  }

  /** `address.toHexString()`: "0x" and the lower-case hex of the bytes; the People key. */
  function HexString(a: Address): (r: string)
    ensures |r| == 2 + 2 * |a| && r[..2] == "0x"
    ensures forall i :: 2 <= i < |r| ==> r[i] in "0123456789abcdef"
  {
    "0x" + HexBytes(a)
  }

  /** The key of the zero address's People record, the owner of a land nobody was given yet. */
  const ZeroKey: string := "0x0000000000000000000000000000000000000000"

  lemma {:induction false} HexBytesOfZeros(a: seq<Byte>)
    requires forall i :: 0 <= i < |a| ==> a[i] == 0
    ensures forall i :: 0 <= i < |HexBytes(a)| ==> HexBytes(a)[i] == '0'
  {
    if |a| > 0 {
      HexBytesOfZeros(a[1..]);
      assert HexBytes(a) == "00" + HexBytes(a[1..]);
    }
  }

  /** The People id of the zero address, `ZeroAddress.toHexString()`, is `ZeroKey`. */
  lemma ZeroAddressKey(a: Address)
    requires |a| == 20 && forall i :: 0 <= i < |a| ==> a[i] == 0
    ensures HexString(a) == ZeroKey
  {
    var h := HexString(a);
    HexBytesOfZeros(a);
    assert forall i :: 2 <= i < |h| ==> h[i] == HexBytes(a)[i - 2];
  }

  lemma HexDigitInjective(m: nat, n: nat)
    requires m < 16 && n < 16 && HexDigit(m) == HexDigit(n)
    ensures m == n
  {
  }

  /** The two hex digits of a byte determine it. */
  lemma ByteHexInjective(u: Byte, v: Byte)
    requires HexDigit(u / 16) == HexDigit(v / 16) && HexDigit(u % 16) == HexDigit(v % 16)
    ensures u == v
  {
    HexDigitInjective(u / 16, v / 16);
    HexDigitInjective(u % 16, v % 16);
  }

  lemma {:induction false} HexBytesInjective(a: seq<Byte>, b: seq<Byte>)
    requires HexBytes(a) == HexBytes(b)
    ensures a == b
  {
    if |a| > 0 {
      var ha, hb := HexBytes(a), HexBytes(b);
      var ta, tb := HexBytes(a[1..]), HexBytes(b[1..]);
      assert ha == [HexDigit(a[0] / 16), HexDigit(a[0] % 16)] + ta;
      assert hb == [HexDigit(b[0] / 16), HexDigit(b[0] % 16)] + tb;
      assert ha[0] == hb[0] && ha[1] == hb[1] && ha[2..] == hb[2..];
      ByteHexInjective(a[0], b[0]);
      HexBytesInjective(a[1..], b[1..]);
      assert a == [a[0]] + a[1..] && b == [b[0]] + b[1..];
    }
  }

  /** Distinct addresses have distinct People keys. */
  lemma HexStringInjective(a: Address, b: Address)
    requires HexString(a) == HexString(b)
    ensures a == b
  {
    assert HexString(a)[2..] == HexBytes(a) && HexString(b)[2..] == HexBytes(b);
    HexBytesInjective(a, b);
  }
}
