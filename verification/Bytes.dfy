/** Big-endian byte strings and their hexadecimal form, as the key derivation code uses them. */
module ByteStrings {
  import opened Wrappers
  import opened Text

  type byte = x: int | 0 <= x < 256
  type Bytes = seq<byte>

  function Zeros(k: nat): (z: Bytes)
    ensures |z| == k
  {
    seq(k, _ => 0)
  }

  type Bytes64 = b: Bytes | |b| == 64 witness Zeros(64)

  function Pow256(k: nat): nat {
    if k == 0 then 1 else 256 * Pow256(k - 1)
  }

  /** big.Int.SetBytes */
  function Number(s: Bytes): nat {
    if s == [] then 0 else 256 * Number(s[..|s| - 1]) + s[|s| - 1]
  }

  /** big.Int.Bytes: no leading zero byte. */
  function Minimal(n: nat): Bytes {
    if n == 0 then [] else Minimal(n / 256) + [n % 256]
  }

  function LeftPad(src: Bytes, size: nat): (r: Bytes)
    ensures |r| == size
  {
    if |src| >= size then src[|src| - size..] else Zeros(size - |src|) + src
  }

  function Uint32Bytes(v: int): Bytes
    requires 0 <= v < 0x1_0000_0000
  {
    [v / 0x100_0000, v / 0x1_0000 % 256, v / 0x100 % 256, v % 256]
  }

  lemma NumberAppend(s: Bytes, b: byte)
    ensures Number(s + [b]) == 256 * Number(s) + b
  {
    assert (s + [b])[..|s|] == s;
  }

  lemma NumberOfFour(a: byte, b: byte, c: byte, d: byte)
    ensures Number([a, b, c, d]) == 256 * (256 * (256 * a + b) + c) + d
  {
    NumberAppend([], a);
    NumberAppend([a], b);
    NumberAppend([a, b], c);
    NumberAppend([a, b, c], d);
    assert [] + [a] == [a] && [a] + [b] == [a, b] && [a, b] + [c] == [a, b, c] && [a, b, c] + [d] == [a, b, c, d];
  }

  lemma FourDigits(v: int)
    requires 0 <= v < 0x1_0000_0000
    ensures v == 256 * (256 * (256 * (v / 0x100_0000) + v / 0x1_0000 % 256) + v / 0x100 % 256) + v % 256
  {
    assert v / 0x1_0000 == 256 * (v / 0x100_0000) + v / 0x1_0000 % 256;
    assert v / 0x100 == 256 * (v / 0x1_0000) + v / 0x100 % 256;
  }

  /** The four bytes are the index, most significant first. */
  lemma Uint32BytesIsBigEndian(v: int)
    requires 0 <= v < 0x1_0000_0000
    ensures |Uint32Bytes(v)| == 4 && Number(Uint32Bytes(v)) == v
  {
    NumberOfFour(v / 0x100_0000, v / 0x1_0000 % 256, v / 0x100 % 256, v % 256);
    FourDigits(v);
  }

  lemma Pow256Words(k: nat)
    ensures Pow256(k + 8) == 0x1_0000_0000_0000_0000 * Pow256(k)
  {
    assert Pow256(k + 2) == 0x1_0000 * Pow256(k);
    assert Pow256(k + 4) == 0x1_0000 * Pow256(k + 2);
    assert Pow256(k + 6) == 0x1_0000 * Pow256(k + 4);
  }

  lemma {:induction false} MinimalRoundTrip(n: nat)
    ensures Number(Minimal(n)) == n
  {
    if n > 0 {
      MinimalRoundTrip(n / 256);
      var s := Minimal(n);
      assert s[..|s| - 1] == Minimal(n / 256);
    }
  }

  lemma {:induction false} MinimalFits(n: nat, k: nat)
    requires n < Pow256(k)
    ensures |Minimal(n)| <= k
  {
    if n > 0 {
      MinimalFits(n / 256, k - 1);
    }
  }

  lemma {:induction false} LeadingZeros(k: nat, s: Bytes)
    ensures Number(Zeros(k) + s) == Number(s)
  {
    if s != [] {
      var t := Zeros(k) + s;
      assert t[..|t| - 1] == Zeros(k) + s[..|s| - 1];
      LeadingZeros(k, s[..|s| - 1]);
    } else if k > 0 {
      var t := Zeros(k) + s;
      assert t[..|t| - 1] == Zeros(k - 1) + s;
      LeadingZeros(k - 1, s);
    }
  }

  /** Padding keeps the number as long as it fits. */
  lemma PaddedNumber(n: nat, k: nat)
    requires n < Pow256(k)
    ensures Number(LeftPad(Minimal(n), k)) == n
  {
    MinimalRoundTrip(n);
    MinimalFits(n, k);
    if |Minimal(n)| < k {
      LeadingZeros(k - |Minimal(n)|, Minimal(n));
    }
  }

  /** A number has one representation of each length. */
  lemma {:induction false} NumberIsInjective(a: Bytes, b: Bytes)
    requires |a| == |b| && Number(a) == Number(b)
    ensures a == b
  {
    if a != [] {
      var m := |a| - 1;
      NumberIsInjective(a[..m], b[..m]);
      assert a == a[..m] + [a[m]] && b == b[..m] + [b[m]];
    }
  }

  // ---------------------------------------------------------------- hexadecimal

  function HexDigit(n: int): char
    requires 0 <= n < 16
  {
    if n < 10 then (n + '0' as int) as char else (n - 10 + 'a' as int) as char
  }

  function HexValue(c: char): Option<int> {
    if '0' <= c <= '9' then Some(c as int - '0' as int)
    else if 'a' <= c <= 'f' then Some(c as int - 'a' as int + 10)
    else if 'A' <= c <= 'F' then Some(c as int - 'A' as int + 10)
    else None
  }

  function HexEncode(b: Bytes): string {
    if b == [] then "" else [HexDigit(b[0] / 16), HexDigit(b[0] % 16)] + HexEncode(b[1..])
  }

  function HexDecode(s: string): Option<Bytes> {
    if s == [] then Some([])
    else if |s| == 1 then None
    else
      match (HexValue(s[0]), HexValue(s[1]), HexDecode(s[2..]))
      case (Some(hi), Some(lo), Some(rest)) => Some([16 * hi + lo] + rest)
      case _ => None
  }

  /** Hex arguments may be padded with blanks and carry a 0x prefix. */
  function StripHex(raw: string): string {
    var s := Trim(raw);
    var t := if |s| >= 2 && s[0] == '0' && s[1] == 'x' then s[2..] else s;
    if |t| >= 2 && t[0] == '0' && t[1] == 'X' then t[2..] else t
  }

  lemma {:induction false} HexRoundTrip(b: Bytes)
    ensures HexDecode(HexEncode(b)) == Some(b)
    ensures |HexEncode(b)| == 2 * |b|
    ensures forall c :: c in HexEncode(b) ==> HexValue(c).Some?
  {
    if b != [] {
      HexRoundTrip(b[1..]);
      var s := HexEncode(b);
      assert s[2..] == HexEncode(b[1..]);
      assert b == [b[0]] + b[1..];
    }
  }

  /** Hex digits contain neither blanks nor the x of a prefix. */
  lemma StripHexOfDigits(s: string)
    requires forall i :: 0 <= i < |s| ==> HexValue(s[i]).Some?
    ensures StripHex(s) == s
  {
    TrimOfTrimmed(s);
  }

  lemma StrippedHexRoundTrip(b: Bytes)
    ensures HexDecode(StripHex(HexEncode(b))) == Some(b)
  {
    HexRoundTrip(b);
    StripHexOfDigits(HexEncode(b));
  }

  /** Surrounding blanks and a 0x or 0X in front of an encoding change nothing. */
  lemma PrefixedHexRoundTrip(left: string, prefix: string, b: Bytes, right: string)
    requires prefix in {"", "0x", "0X"}
    requires (forall c :: c in left ==> IsSpace(c)) && (forall c :: c in right ==> IsSpace(c))
    ensures HexDecode(StripHex(left + prefix + HexEncode(b) + right)) == Some(b)
  {
    HexRoundTrip(b);
    PaddingIsStripped(left, prefix, HexEncode(b), right);
  }

  lemma PaddingIsStripped(left: string, prefix: string, s: string, right: string)
    requires prefix in {"", "0x", "0X"} && forall i :: 0 <= i < |s| ==> HexValue(s[i]).Some?
    requires (forall c :: c in left ==> IsSpace(c)) && (forall c :: c in right ==> IsSpace(c))
    ensures StripHex(left + prefix + s + right) == s
  {
    var body := prefix + s;
    assert left + prefix + s + right == left + body + right;
    HexBodyIsTrimmed(prefix, s);
    TrimOfPadded(left, body, right);
    TrimOfTrimmed(body);
    PrefixIsStripped(prefix, s);
  }

  lemma HexBodyIsTrimmed(prefix: string, s: string)
    requires prefix in {"", "0x", "0X"} && forall i :: 0 <= i < |s| ==> HexValue(s[i]).Some?
    ensures Trimmed(prefix + s)
  {
  }

  lemma PrefixIsStripped(prefix: string, s: string)
    requires prefix in {"", "0x", "0X"} && forall i :: 0 <= i < |s| ==> HexValue(s[i]).Some?
    ensures StripHex(prefix + s) == s
  {
    HexBodyIsTrimmed(prefix, s);
    TrimOfTrimmed(prefix + s);
    if prefix == "" {
      StripHexOfDigits(s);
    }
    assert (prefix + s)[|prefix|..] == s;
  }

  const HEX_DIGITS: string := "0123456789abcdef"

  lemma HexDigitIsListed(n: int)
    requires 0 <= n < 16
    ensures HexDigit(n) == HEX_DIGITS[n]
  {
  }

  /** Encoding goes byte by byte, high digit first, in lower case. */
  lemma {:induction false} HexOfBytes(b: Bytes, i: nat)
    requires i < |b|
    ensures |HexEncode(b)| == 2 * |b|
    ensures HexEncode(b)[2 * i] == HEX_DIGITS[b[i] / 16] && HexEncode(b)[2 * i + 1] == HEX_DIGITS[b[i] % 16]
  {
    HexRoundTrip(b);
    if i > 0 {
      HexOfBytes(b[1..], i - 1);
    } else {
      HexDigitIsListed(b[0] / 16);
      HexDigitIsListed(b[0] % 16);
    }
  }
}
