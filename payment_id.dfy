/** The 8-byte payment identifier: its equality and its lowercase hex text form. */
module PaymentIds {
  import opened Results

  type Byte = x: int | 0 <= x < 256

  /** Exactly eight bytes, as `[u8; 8]`. */
  type IdBytes = s: seq<Byte> | |s| == 8 witness [0, 0, 0, 0, 0, 0, 0, 0]

  datatype PaymentID = PaymentID(bytes: IdBytes)

  /** `PartialEq`: two ids are equal when their byte arrays are. Dafny's own
      equality on `PaymentID`, which the ledger map uses for its keys, is the same relation. */
  function Equal(a: PaymentID, b: PaymentID): (r: bool)
    ensures r <==> forall i | 0 <= i < 8 :: a.bytes[i] == b.bytes[i]
    ensures r <==> a == b
  {
    a.bytes == b.bytes
  }

  /** The lowercase hex digit of a nibble. */
  function HexDigit(n: nat): (c: char)
    requires n < 16
    ensures '0' <= c <= '9' || 'a' <= c <= 'f'
    ensures DigitValue(c) == Some(n)
  {
    if n < 10 then ('0' as int + n) as char else ('a' as int + n - 10) as char
  }

  /** The value of a hex digit of either case; None for any other character. */
  function DigitValue(c: char): (v: Option<nat>)
    ensures v.Some? ==> v.value < 16
    ensures v.Some? <==> ('0' <= c <= '9' || 'a' <= c <= 'f' || 'A' <= c <= 'F')
  {
    if '0' <= c <= '9' then Some(c as int - '0' as int)
    else if 'a' <= c <= 'f' then Some(c as int - 'a' as int + 10)
    else if 'A' <= c <= 'F' then Some(c as int - 'A' as int + 10)
    else None
  }

  /** `hex::encode`: two lowercase digits per byte, high nibble first. */
  function HexEncode(bs: seq<Byte>): (s: string)
    ensures |s| == 2 * |bs|
    ensures forall i | 0 <= i < |bs| :: s[2 * i] == HexDigit(bs[i] / 16) && s[2 * i + 1] == HexDigit(bs[i] % 16)
  {
    if bs == [] then []
    else [HexDigit(bs[0] / 16), HexDigit(bs[0] % 16)] + HexEncode(bs[1..])
  }

  /** The `Display` text of an id. */
  function ToHex(id: PaymentID): (s: string)
    ensures |s| == 16
    ensures forall k | 0 <= k < 16 :: '0' <= s[k] <= '9' || 'a' <= s[k] <= 'f'
    ensures forall i | 0 <= i < 8 :: s[2 * i] == HexDigit(id.bytes[i] / 16) && s[2 * i + 1] == HexDigit(id.bytes[i] % 16)
  {
    var s := HexEncode(id.bytes);
    assert forall k | 0 <= k < 16 :: s[k] == if k % 2 == 0 then HexDigit(id.bytes[k / 2] / 16) else HexDigit(id.bytes[k / 2] % 16) by {
      forall k | 0 <= k < 16
        ensures s[k] == if k % 2 == 0 then HexDigit(id.bytes[k / 2] / 16) else HexDigit(id.bytes[k / 2] % 16)
      {
        var i := k / 2;
        assert k == 2 * i || k == 2 * i + 1;
      }
    }
    s
  }

  /** Decodes pairs of hex digits (either case) into bytes; None on an odd length
      or a non-hex character. */
  function HexDecode(s: string): (r: Option<seq<Byte>>)
    ensures r.Some? ==> 2 * |r.value| == |s|
    decreases |s|
  {
    if s == [] then Some([])
    else if |s| == 1 then None
    else
      match (DigitValue(s[0]), DigitValue(s[1]), HexDecode(s[2..]))
      case (Some(hi), Some(lo), Some(rest)) => Some([hi * 16 + lo] + rest)
      case _ => None
  }

  /** The inverse of `ToHex` (the id `from_hex` builds in src/main.rs). */
  function ParseId(s: string): (r: Option<PaymentID>)
    ensures r.Some? <==> (|s| == 16 && forall k | 0 <= k < 16 :: DigitValue(s[k]).Some?)
  {
    HexDecodeDefined(s);
    match HexDecode(s)
    case Some(bs) => if |bs| == 8 then Some(PaymentID(bs)) else None
    case None => None
  }

  /** A text decodes exactly when it has even length and only hex digits. */
  lemma {:induction false} HexDecodeDefined(s: string)
    ensures HexDecode(s).Some? <==> (|s| % 2 == 0 && forall k | 0 <= k < |s| :: DigitValue(s[k]).Some?)
    decreases |s|
  {
    if |s| >= 2 {
      HexDecodeDefined(s[2..]);
      assert forall k | 2 <= k < |s| :: s[k] == s[2..][k - 2];
    }
  }

  lemma {:induction false} HexDecodeEncode(bs: seq<Byte>)
    ensures HexDecode(HexEncode(bs)) == Some(bs)
  {
    if bs != [] {
      var s := HexEncode(bs);
      assert s[2..] == HexEncode(bs[1..]);
      HexDecodeEncode(bs[1..]);
      assert (bs[0] / 16) * 16 + bs[0] % 16 == bs[0];
      assert [bs[0]] + bs[1..] == bs;
    }
  }

  /** Reading back the text form of an id gives the id. */
  lemma ParseToHex(id: PaymentID)
    ensures ParseId(ToHex(id)) == Some(id)
  {
    HexDecodeEncode(id.bytes);
  }

  /** Distinct ids have distinct text forms. */
  lemma ToHexInjective(a: PaymentID, b: PaymentID)
    requires ToHex(a) == ToHex(b)
    ensures a == b
  {
    ParseToHex(a);
    ParseToHex(b);
  }

  /** The text a lowercase hex digit came from is the digit of its value. */
  lemma LowerDigitRoundTrip(c: char)
    requires '0' <= c <= '9' || 'a' <= c <= 'f'
    ensures DigitValue(c).Some? && HexDigit(DigitValue(c).value) == c
  {
  }

  lemma {:induction false} HexEncodeDecode(s: string)
    requires HexDecode(s).Some?
    requires forall k | 0 <= k < |s| :: '0' <= s[k] <= '9' || 'a' <= s[k] <= 'f'
    ensures HexEncode(HexDecode(s).value) == s
  {
    if s != [] {
      var hi, lo := DigitValue(s[0]).value, DigitValue(s[1]).value;
      LowerDigitRoundTrip(s[0]);
      LowerDigitRoundTrip(s[1]);
      HexEncodeDecode(s[2..]);
      var bs := HexDecode(s).value;
      assert bs == [hi * 16 + lo] + HexDecode(s[2..]).value;
      assert (hi * 16 + lo) / 16 == hi && (hi * 16 + lo) % 16 == lo;
      assert bs[1..] == HexDecode(s[2..]).value;
      assert s == [s[0], s[1]] + s[2..];
    }
  }

  /** A lowercase hex text of 16 digits is the displayed form of the id it parses to. */
  lemma ToHexParse(s: string)
    requires |s| == 16
    requires forall k | 0 <= k < 16 :: '0' <= s[k] <= '9' || 'a' <= s[k] <= 'f'
    ensures ParseId(s).Some? && ToHex(ParseId(s).value) == s
  {
    HexDecodeDefined(s);
    HexEncodeDecode(s);
  }
}
