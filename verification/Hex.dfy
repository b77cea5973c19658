/** Hexadecimal text and fixed-width byte values: the decoders of the mint-burn and
    proof-of-reserve services, and the printing they have to undo. */
module Hex {
  import opened Wrappers

  type Byte = b: int | 0 <= b < 256

  predicate IsHexDigit(c: char) {
    '0' <= c <= '9' || 'a' <= c <= 'f' || 'A' <= c <= 'F'
  }

  function DigitValue(c: char): (v: int)
    requires IsHexDigit(c)
    ensures 0 <= v < 16
  {
    if '0' <= c <= '9' then c as int - '0' as int
    else if 'a' <= c <= 'f' then c as int - 'a' as int + 10
    else c as int - 'A' as int + 10
  }

  /** The encoder's digit for a half byte; letters come out in lower case. */
  function Digit(v: int): (d: char)
    requires 0 <= v < 16
    ensures IsHexDigit(d) && DigitValue(d) == v
  {
    if v < 10 then ('0' as int + v) as char else ('a' as int + v - 10) as char
  }

  function LowerDigit(c: char): char
    requires IsHexDigit(c)
  {
    Digit(DigitValue(c))
  }

  function Lower(s: string): (r: string)
    requires forall k | 0 <= k < |s| :: IsHexDigit(s[k])
    ensures |r| == |s|
  {
    seq(|s|, i requires 0 <= i < |s| => LowerDigit(s[i]))
  }

  /** `hex.EncodeToString`, also what the verb %x prints for a byte array. */
  function Encode(bs: seq<Byte>): (s: string)
    ensures |s| == 2 * |bs|
  {
    if bs == [] then "" else [Digit(bs[0] / 16), Digit(bs[0] % 16)] + Encode(bs[1..])
  }

  /** `hex.DecodeString`: an odd length or a foreign character is an error. */
  function Decode(s: string): (r: Result<seq<Byte>, string>)
  {
    if s == "" then Ok([])
    else if |s| == 1 then Err("odd length hex string")
    else if !IsHexDigit(s[0]) || !IsHexDigit(s[1]) then Err("invalid byte")
    else
      match Decode(s[2..])
      case Ok(rest) => Ok([16 * DigitValue(s[0]) + DigitValue(s[1])] + rest)
      case Err(e) => Err(e)
  }

  function TrimPrefix(s: string, prefix: string): string {
    if prefix <= s then s[|prefix|..] else s
  }

  function Zeros(n: nat): (z: seq<Byte>)
    ensures |z| == n
  {
    seq(n, _ => 0)
  }

  function Bytes32ToHex(b: seq<Byte>): string
    requires |b| == 32
  {
    "0x" + Encode(b)
  }

  /** What `HexToBytes32` leaves in its 32-byte result. None is the panic of slicing with a
      negative bound, which longer inputs provoke. */
  function ParseBytes32(s: string): Option<Result<seq<Byte>, string>> {
    match Decode(TrimPrefix(s, "0x"))
    case Err(e) => Some(Err(e))
    case Ok(b) => if |b| > 32 then None else Some(Ok(Zeros(32 - |b|) + b))
  }

  /** `HexToBytes32`: the copy into the tail of a zeroed buffer. */
  method HexToBytes32(s: string) returns (r: Option<Result<array<Byte>, string>>)
    ensures r.None? <==> ParseBytes32(s).None?
    ensures r.Some? && r.value.Err? ==> ParseBytes32(s) == Some(Err(r.value.error))
    ensures r.Some? && r.value.Ok? ==>
              fresh(r.value.value) && ParseBytes32(s) == Some(Ok(r.value.value[..]))
  {
    var decoded := Decode(TrimPrefix(s, "0x"));
    if decoded.Err? {
      return Some(Err(decoded.error));
    }
    var b := decoded.value;
    if |b| > 32 {
      return None;
    }
    var out := new Byte[32](_ => 0);
    for k := 0 to |b|
      invariant out[..] == Zeros(32 - |b|) + b[..k] + Zeros(|b| - k)
    {
      out[32 - |b| + k] := b[k];
    }
    assert out[..] == Zeros(32 - |b|) + b;
    return Some(Ok(out));
  }

  function PrintAddress(to: seq<Byte>): string
    requires |to| == 20
  {
    "0x" + Encode(to)
  }

  function ParseAddress(s: string): Result<seq<Byte>, string> {
    var t := TrimPrefix(s, "0x");
    if |t| != 40 then Err("invalid ethereum address")
    else
      match Decode(t)
      case Err(_) => Err("invalid ethereum address")
      case Ok(raw) => Ok(raw)
  }

  predicate IsHex(s: string) {
    forall k | 0 <= k < |s| :: IsHexDigit(s[k])
  }

  lemma {:induction false} DecodeEncode(bs: seq<Byte>)
    ensures IsHex(Encode(bs))
    ensures Decode(Encode(bs)) == Ok(bs)
  {
    if bs != [] {
      DecodeEncode(bs[1..]);
      var s := Encode(bs);
      assert s[2..] == Encode(bs[1..]);
      assert forall k | 2 <= k < |s| :: s[k] == s[2..][k - 2];
      assert bs == [bs[0]] + bs[1..];
    }
  }

  lemma IsHexTail(s: string)
    requires |s| >= 2
    ensures IsHex(s) <==> IsHexDigit(s[0]) && IsHexDigit(s[1]) && IsHex(s[2..])
  {
  }

  /** The decoder accepts exactly the even-length hex texts. */
  lemma {:induction false} DecodeDomain(s: string)
    ensures Decode(s).Ok? <==> |s| % 2 == 0 && IsHex(s)
    ensures Decode(s).Ok? ==> 2 * |Decode(s).value| == |s|
  {
    if |s| >= 2 {
      DecodeDomain(s[2..]);
      IsHexTail(s);
    }
  }

  /** Re-encoding what was decoded gives the same text in lower case. */
  lemma {:induction false} EncodeDecode(s: string)
    requires IsHex(s) && |s| % 2 == 0
    ensures Decode(s).Ok? && Encode(Decode(s).value) == Lower(s)
  {
    DecodeDomain(s);
    if |s| >= 2 {
      IsHexTail(s);
      EncodeDecode(s[2..]);
      var bytes := Decode(s).value;
      assert bytes[1..] == Decode(s[2..]).value;
      assert bytes[0] / 16 == DigitValue(s[0]) && bytes[0] % 16 == DigitValue(s[1]);
      assert Lower(s) == [LowerDigit(s[0]), LowerDigit(s[1])] + Lower(s[2..]);
    }
  }

  lemma EncodeCons(x: Byte, b: seq<Byte>)
    ensures Encode([x] + b) == [Digit(x / 16), Digit(x % 16)] + Encode(b)
  {
  }

  lemma {:induction false} EncodeZeros(n: nat, b: seq<Byte>)
    ensures Encode(Zeros(n) + b) == seq(2 * n, _ => '0') + Encode(b)
  {
    hide Encode;
    if n == 0 {
      assert Zeros(0) + b == b;
    } else {
      EncodeZeros(n - 1, b);
      EncodeCons(0, Zeros(n - 1) + b);
      assert Zeros(n) + b == [0] + (Zeros(n - 1) + b);
      assert seq(2 * n, _ => '0') == ['0', '0'] + seq(2 * (n - 1), _ => '0');
    }
  }

  lemma Bytes32RoundTrip(b: seq<Byte>)
    requires |b| == 32
    ensures ParseBytes32(Bytes32ToHex(b)) == Some(Ok(b))
  {
    DecodeEncode(b);
    assert Bytes32ToHex(b)[2..] == Encode(b);
    assert Zeros(0) + b == b;
  }

  /** The other order: which texts parse at all, and what printing the value gives. */
  lemma HexNormalForm(s: string)
    ensures var t := TrimPrefix(s, "0x");
            && (ParseBytes32(s).None? <==> |t| % 2 == 0 && IsHex(t) && |t| > 64)
            && (ParseBytes32(s).Some? && ParseBytes32(s).value.Ok? <==>
                |t| % 2 == 0 && IsHex(t) && |t| <= 64)
            && (ParseBytes32(s).Some? && ParseBytes32(s).value.Ok? ==>
                Bytes32ToHex(ParseBytes32(s).value.value) == "0x" + seq(64 - |t|, _ => '0') + Lower(t))
  {
    var t := TrimPrefix(s, "0x");
    DecodeDomain(t);
    if Decode(t).Ok? {
      EncodeDecode(t);
    }
    if Decode(t).Ok? && |Decode(t).value| <= 32 {
      EncodeZeros(32 - |Decode(t).value|, Decode(t).value);
    }
  }

  /** The address printed into an executed event is the address a consumer parses back, and
      parsing accepts nothing but forty hex digits with an optional prefix. */
  lemma AddressRoundTrip(to: seq<Byte>, s: string)
    requires |to| == 20
    ensures ParseAddress(PrintAddress(to)) == Ok(to)
    ensures ParseAddress(s).Ok? <==>
              var t := TrimPrefix(s, "0x"); |t| == 40 && IsHex(t)
    ensures ParseAddress(s).Ok? ==>
              |ParseAddress(s).value| == 20
              && PrintAddress(ParseAddress(s).value) == "0x" + Lower(TrimPrefix(s, "0x"))
  {
    DecodeEncode(to);
    assert PrintAddress(to)[2..] == Encode(to);
    var t := TrimPrefix(s, "0x");
    DecodeDomain(t);
    if |t| == 40 && IsHex(t) {
      EncodeDecode(t);
    }
  }
}
