/** Tenant ids and their hexadecimal text form, as the attachment service's
    state file writes and reads them (`hex::encode`, `TenantId::from_hex`).
    A tenant id is 16 bytes. Encoding writes two lower-case digits per byte;
    decoding accepts either case and rejects an odd length, a length other
    than 32 digits, and the first character that is not a hex digit, in that
    order. The `hex` crate and utils/id.rs are not part of this model; their
    behaviour is stated here as the attachment service relies on it. */
module Hex {
  import opened Wrappers

  type Byte = b: nat | b < 256

  /** `utils::id::TenantId`: 16 bytes. */
  type TenantId = s: seq<Byte> | |s| == 16 witness seq(16, i => 0)

  const LowerDigits: string := "0123456789abcdef"
  const UpperDigits: string := "0123456789ABCDEF"

  datatype HexError =
    | OddLength
    | InvalidStringLength
    | InvalidHexCharacter(c: char, index: nat)

  function EncodeBytes(bytes: seq<Byte>): (s: string)
    ensures |s| == 2 * |bytes|
  {
    if bytes == [] then ""
    else [LowerDigits[bytes[0] / 16], LowerDigits[bytes[0] % 16]] + EncodeBytes(bytes[1..])
  }

  /** `hex::encode` of a tenant id: 32 lower-case hex digits. */
  function TenantIdToHex(id: TenantId): (s: string)
    ensures |s| == 32
  {
    EncodeBytes(id)
  }

  function DigitValue(c: char): (d: Option<nat>)
    ensures d.Some? ==> d.value < 16
  {
    if '0' <= c <= '9' then Some(c as nat - '0' as nat)
    else if 'a' <= c <= 'f' then Some(c as nat - 'a' as nat + 10)
    else if 'A' <= c <= 'F' then Some(c as nat - 'A' as nat + 10)
    else None
  }

  /** Decode digit pairs, high digit first; `base` is the index of `s[0]` in
      the whole input, for the error report. */
  function DecodePairs(s: string, base: nat): (r: Result<seq<Byte>, HexError>)
    requires |s| % 2 == 0
    ensures r.Ok? ==> |r.value| == |s| / 2
  {
    if s == [] then Ok([])
    else match DigitValue(s[0])
      case None => Err(InvalidHexCharacter(s[0], base))
      case Some(hi) =>
        match DigitValue(s[1])
        case None => Err(InvalidHexCharacter(s[1], base + 1))
        case Some(lo) =>
          match DecodePairs(s[2..], base + 2)
          case Err(e) => Err(e)
          case Ok(rest) => Ok([hi * 16 + lo] + rest)
  }

  /** `TenantId::from_hex`. */
  function TenantIdFromHex(s: string): (r: Result<TenantId, HexError>)
    ensures |s| % 2 != 0 ==> r == Err(OddLength)
    ensures |s| % 2 == 0 && |s| != 32 ==> r == Err(InvalidStringLength)
  {
    if |s| % 2 != 0 then Err(OddLength)
    else if |s| / 2 != 16 then Err(InvalidStringLength)
    else match DecodePairs(s, 0)
      case Err(e) => Err(e)
      case Ok(bytes) => Ok(bytes)
  }

  lemma DigitRoundTrip(d: nat)
    requires d < 16
    ensures DigitValue(LowerDigits[d]) == Some(d)
  {
  }

  /** Decoding accepts exactly the digits of either case. */
  lemma DigitAccepted(c: char)
    ensures DigitValue(c).Some? <==> c in LowerDigits || c in UpperDigits
  {
    if '0' <= c <= '9' {
      assert c == LowerDigits[c as int - '0' as int];
    } else if 'a' <= c <= 'f' {
      assert c == LowerDigits[c as int - 'a' as int + 10];
    } else if 'A' <= c <= 'F' {
      assert c == UpperDigits[c as int - 'A' as int + 10];
    }
  }

  /** Each upper-case digit has the same value as its lower-case twin. */
  lemma UpperDigitRoundTrip(d: nat)
    requires d < 16
    ensures DigitValue(UpperDigits[d]) == Some(d)
  {
  }

  /** The first two characters of an encoding are the digits of the first
      byte, and the rest is the encoding of the remaining bytes. */
  lemma EncodeHead(bytes: seq<Byte>)
    requires bytes != []
    ensures var s := EncodeBytes(bytes);
            && DigitValue(s[0]) == Some(bytes[0] / 16) && DigitValue(s[1]) == Some(bytes[0] % 16)
            && s[2..] == EncodeBytes(bytes[1..])
  {
    DigitRoundTrip(bytes[0] / 16);
    DigitRoundTrip(bytes[0] % 16);
  }

  /** Decoding a string that starts with the two digits of `bytes[0]` and
      continues with a decoding of `bytes[1..]` yields `bytes`. */
  lemma DecodeHead(s: string, base: nat, bytes: seq<Byte>)
    requires bytes != [] && |s| == 2 * |bytes|
    requires DigitValue(s[0]) == Some(bytes[0] / 16) && DigitValue(s[1]) == Some(bytes[0] % 16)
    requires var tail := s[2..]; |tail| % 2 == 0 && DecodePairs(tail, base + 2) == Ok(bytes[1..])
    ensures DecodePairs(s, base) == Ok(bytes)
  {
    var b := bytes[0];
    assert (b / 16) * 16 + b % 16 == b;
    assert bytes == [b] + bytes[1..];
  }

  lemma {:induction false} DecodeEncodeBytes(bytes: seq<Byte>, base: nat)
    ensures DecodePairs(EncodeBytes(bytes), base) == Ok(bytes)
  {
    if bytes != [] {
      EncodeHead(bytes);
      DecodeEncodeBytes(bytes[1..], base + 2);
      DecodeHead(EncodeBytes(bytes), base, bytes);
    }
  }

  /** Decoding inverts encoding. */
  lemma HexRoundTrip(id: TenantId)
    ensures TenantIdFromHex(TenantIdToHex(id)) == Ok(id)
  {
    var s := TenantIdToHex(id);
    DecodeEncodeBytes(id, 0);
    assert |s| % 2 == 0 && |s| / 2 == 16;
    assert DecodePairs(s, 0) == Ok(id);
  }

  lemma HexRoundTripAll()
    ensures forall id: TenantId :: TenantIdFromHex(TenantIdToHex(id)) == Ok(id)
  {
    forall id: TenantId ensures TenantIdFromHex(TenantIdToHex(id)) == Ok(id) {
      HexRoundTrip(id);
    }
  }

  /** So distinct tenant ids have distinct hex forms. */
  lemma HexInjective(a: TenantId, b: TenantId)
    requires TenantIdToHex(a) == TenantIdToHex(b)
    ensures a == b
  {
    HexRoundTrip(a);
    HexRoundTrip(b);
  }

  /** A 32-character string with a character that is not a hex digit is
      rejected. */
  lemma {:induction false} NonDigitRejected(s: string, base: nat, k: nat)
    requires |s| % 2 == 0
    requires k < |s| && DigitValue(s[k]).None?
    ensures DecodePairs(s, base).Err?
  {
    if k >= 2 && DigitValue(s[0]).Some? && DigitValue(s[1]).Some? {
      NonDigitRejected(s[2..], base + 2, k - 2);
    }
  }
}
