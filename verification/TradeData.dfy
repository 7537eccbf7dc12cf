/** The signed trade action: seven 32-byte ABI words in hex, read by the API before an order is
    admitted and again by the matcher before it is executed. */
module TradeData {
  import opened Arith
  import opened DecimalText
  import opened Wrappers

  type Byte = b: int | 0 <= b < 256

  function Pow256(n: nat): (p: nat)
    ensures p >= 1
  {
    if n == 0 then 1 else 256 * Pow256(n - 1)
  }

  /** big.Int.SetBytes: big-endian. */
  function NatOfBytes(bytes: seq<Byte>): nat {
    if bytes == [] then 0 else 256 * NatOfBytes(bytes[..|bytes| - 1]) + bytes[|bytes| - 1]
  }

  function Word(n: nat, width: nat): (w: seq<Byte>)
    ensures |w| == width
  {
    if width == 0 then [] else Word(n / 256, width - 1) + [n % 256]
  }

  lemma {:induction false} WordValue(n: nat, width: nat)
    requires n < Pow256(width)
    ensures NatOfBytes(Word(n, width)) == n
  {
    if width > 0 {
      WordValue(n / 256, width - 1);
      assert Word(n, width)[..width - 1] == Word(n / 256, width - 1);
    }
  }

  lemma {:induction false} TopByte(bytes: seq<Byte>)
    requires bytes != []
    ensures NatOfBytes(bytes) == bytes[0] * Pow256(|bytes| - 1) + NatOfBytes(bytes[1..])
    ensures NatOfBytes(bytes[1..]) < Pow256(|bytes| - 1)
  {
    if |bytes| == 1 {
      assert bytes[..0] == [] && bytes[1..] == [];
    } else {
      var front := bytes[..|bytes| - 1];
      TopByte(front);
      var rest := bytes[1..];
      assert rest[..|rest| - 1] == front[1..];
      assert rest[|rest| - 1] == bytes[|bytes| - 1];
      ShiftByte(bytes[0], NatOfBytes(front[1..]), bytes[|bytes| - 1], Pow256(|bytes| - 2));
    }
  }

  lemma ShiftByte(top: nat, x: nat, last: Byte, p: nat)
    requires x < p
    ensures 256 * (top * p + x) + last == top * (256 * p) + (256 * x + last)
    ensures 256 * x + last < 256 * p
  {
  }

  // ---------------------------------------------------------------- signed words

  /** Two's complement of a 32-byte word. */
  function Int256OfWord(word: seq<Byte>): int {
    var value := NatOfBytes(word);
    if |word| != 32 then value
    else if word[0] < 128 then value
    else value - Pow256(32)
  }

  predicate FitsInt256(n: int) { -(128 * Pow256(31)) <= n < 128 * Pow256(31) }

  function SignedWord(n: int): (w: seq<Byte>)
    requires FitsInt256(n)
    ensures |w| == 32
  {
    Word(if n < 0 then n + Pow256(32) else n, 32)
  }

  lemma SignedWordValue(n: int)
    requires FitsInt256(n)
    ensures Int256OfWord(SignedWord(n)) == n
  {
    assert Pow256(32) == 256 * Pow256(31);
    hide Pow256, Word, NatOfBytes;
    var u := if n < 0 then n + Pow256(32) else n;
    var w := Word(u, 32);
    WordValue(u, 32);
    TopByte(w);
    var h: nat := Pow256(31);
    if w[0] >= 128 { MulMono(128, w[0], h); } else { MulMono(w[0], 127, h); }
  }

  // ---------------------------------------------------------------- hex

  function HexValue(c: char): Option<nat> {
    if '0' <= c <= '9' then Some(c as int - '0' as int)
    else if 'a' <= c <= 'f' then Some(c as int - 'a' as int + 10)
    else if 'A' <= c <= 'F' then Some(c as int - 'A' as int + 10)
    else None
  }

  function HexChar(n: nat): (c: char)
    requires n < 16
    ensures HexValue(c) == Some(n) && ('0' <= c <= '9' || 'a' <= c <= 'f')
  {
    if n < 10 then ('0' as int + n) as char else ('a' as int + n - 10) as char
  }

  function HexDecode(s: string): Option<seq<Byte>> {
    if s == "" then Some([])
    else if |s| == 1 then None
    else
      match (HexValue(s[0]), HexValue(s[1]), HexDecode(s[2..]))
      case (Some(hi), Some(lo), Some(rest)) =>
        if hi < 16 && lo < 16 then Some([16 * hi + lo] + rest) else None
      case _ => None
  }

  function HexEncode(bytes: seq<Byte>): (s: string)
    ensures |s| == 2 * |bytes|
  {
    if bytes == [] then ""
    else [HexChar(bytes[0] / 16), HexChar(bytes[0] % 16)] + HexEncode(bytes[1..])
  }

  lemma {:induction false} HexRoundTrip(bytes: seq<Byte>)
    ensures HexDecode(HexEncode(bytes)) == Some(bytes)
  {
    if bytes != [] {
      HexRoundTrip(bytes[1..]);
      assert HexEncode(bytes)[2..] == HexEncode(bytes[1..]);
      assert [bytes[0]] + bytes[1..] == bytes;
    }
  }

  lemma {:induction false} HexLength(s: string)
    ensures HexDecode(s).Some? ==> |s| == 2 * |HexDecode(s).value|
  {
    if |s| > 1 {
      HexLength(s[2..]);
    }
  }

  function LowerChar(c: char): char {
    if 'A' <= c <= 'Z' then (c as int - 'A' as int + 'a' as int) as char else c
  }

  function Lower(s: string): (t: string)
    ensures |t| == |s| && forall i | 0 <= i < |s| :: t[i] == LowerChar(s[i])
  {
    seq(|s|, i requires 0 <= i < |s| => LowerChar(s[i]))
  }

  /** t is s in lower case: no capital letter is left, and only capitals changed, to their small
      letters. */
  lemma LowerIff(s: string, t: string)
    ensures t == Lower(s)
            <==> |t| == |s| && forall i | 0 <= i < |s| ::
                   && !('A' <= t[i] <= 'Z')
                   && (t[i] != s[i] ==> 'A' <= s[i] <= 'Z' && t[i] as int == s[i] as int + 32)
  {
    assert t == Lower(s) <==> |t| == |s| && forall i | 0 <= i < |s| :: t[i] == LowerChar(s[i]);
  }

  lemma {:induction false} HexIgnoresCase(s: string)
    ensures HexDecode(Lower(s)) == HexDecode(s)
  {
    if |s| > 1 {
      HexIgnoresCase(s[2..]);
      assert Lower(s)[2..] == Lower(s[2..]);
    }
  }

  // ---------------------------------------------------------------- the two decoders

  datatype TradeAction = TradeAction(asset: string, subId: nat, limitPrice: int, desiredAmount: int, isBid: bool)

  predicate HasPrefix(s: string, p: string) { p <= s }

  function TrimPrefix(s: string, p: string): string {
    if HasPrefix(s, p) then s[|p|..] else s
  }

  function WordAt(payload: seq<Byte>, i: nat): seq<Byte>
    requires |payload| == 32 * 7 && i < 7
  {
    payload[32 * i..32 * i + 32]
  }

  function ActionOf(payload: seq<Byte>): TradeAction
    requires |payload| == 32 * 7
  {
    TradeAction("0x" + HexEncode(WordAt(payload, 0)[12..]),
                NatOfBytes(WordAt(payload, 1)),
                Int256OfWord(WordAt(payload, 2)),
                Int256OfWord(WordAt(payload, 3)),
                NatOfBytes(WordAt(payload, 6)) != 0)
  }

  function DecodePayload(hexValue: string): Option<TradeAction> {
    if |hexValue| != 64 * 7 then None
    else
      match HexDecode(hexValue)
      case None => None
      case Some(payload) => HexLength(hexValue); Some(ActionOf(payload))
  }

  /** The matcher's reading (internal/matching/trade_units.go). */
  function DecodeTradeData(raw: string): Option<TradeAction> {
    DecodePayload(TrimPrefix(TrimSpace(raw), "0x"))
  }

  datatype ActionError = Malformed | PriceNotPositive | AmountNotPositive

  /** The API's reading (internal/api/orders.go). */
  function ParseActionTradeData(raw: string): Result<TradeAction, ActionError> {
    Admit(DecodePayload(TrimPrefix(Lower(TrimSpace(raw)), "0x")))
  }

  function Admit(decoded: Option<TradeAction>): Result<TradeAction, ActionError> {
    match decoded
    case None => Err(Malformed)
    case Some(action) => Positive(action)
  }

  function Positive(action: TradeAction): Result<TradeAction, ActionError> {
    if action.limitPrice <= 0 then Err(PriceNotPositive)
    else if action.desiredAmount <= 0 then Err(AmountNotPositive)
    else Ok(action)
  }

  predicate UpperPrefix(raw: string) { HasPrefix(TrimSpace(raw), "0X") }

  lemma UpperPrefixIsNotHex(t: string)
    requires HasPrefix(t, "0X")
    ensures DecodePayload(t) == None
  {
    assert t[1] == 'X';
  }

  lemma PrefixAndCase(t: string)
    ensures !HasPrefix(t, "0X") ==> TrimPrefix(Lower(t), "0x") == Lower(TrimPrefix(t, "0x"))
    ensures HasPrefix(t, "0X") ==> TrimPrefix(t, "0x") == t
  {
    if |t| >= 2 && t[0] == '0' && t[1] == 'x' {
      assert Lower(t)[..2] == "0x" && t[..2] == "0x";
      assert Lower(t)[2..] == Lower(t[2..]);
    }
    if HasPrefix(Lower(t), "0x") && !HasPrefix(t, "0x") {
      assert Lower(t)[0] == '0' && Lower(t)[1] == 'x';
      assert t[..2] == "0X";
    }
  }

  /** The two decoders read the same action, or both reject, on every text that does not begin
      with "0X"; the API alone then adds its sign checks. A text beginning with "0X" is never
      readable to the matcher, whatever the API makes of it. */
  lemma DecodersAgree(raw: string)
    ensures !UpperPrefix(raw) ==> ParseActionTradeData(raw) == Admit(DecodeTradeData(raw))
    ensures UpperPrefix(raw) ==> DecodeTradeData(raw) == None
  {
    hide TrimSpace, HexDecode, TrimPrefix, Lower, ActionOf;
    var t := TrimSpace(raw);
    PrefixAndCase(t);
    if HasPrefix(t, "0X") {
      UpperPrefixIsNotHex(t);
    } else {
      var h := TrimPrefix(t, "0x");
      HexIgnoresCase(h);
      assert |Lower(h)| == |h|;
    }
  }

  /** Exactly when an admitted payload is readable at execution. */
  lemma AdmittedPayloadReadableIff(raw: string)
    requires ParseActionTradeData(raw).Ok?
    ensures DecodeTradeData(raw) == Some(ParseActionTradeData(raw).value) <==> !UpperPrefix(raw)
  {
    hide DecodeTradeData, ParseActionTradeData, UpperPrefix;
    DecodersAgree(raw);
  }

  // ---------------------------------------------------------------- the encoder

  function Payload(asset: seq<Byte>, subId: nat, limitPrice: int, desiredAmount: int,
                   worstFee: nat, recipient: nat, isBid: bool): (p: seq<Byte>)
    requires |asset| == 20 && FitsInt256(limitPrice) && FitsInt256(desiredAmount)
    ensures |p| == 32 * 7
  {
    Word(0, 12) + asset + Word(subId, 32) + SignedWord(limitPrice) + SignedWord(desiredAmount)
    + Word(worstFee, 32) + Word(recipient, 32) + Word(if isBid then 1 else 0, 32)
  }

  function EncodeTradeData(asset: seq<Byte>, subId: nat, limitPrice: int, desiredAmount: int,
                           worstFee: nat, recipient: nat, isBid: bool): string
    requires |asset| == 20 && FitsInt256(limitPrice) && FitsInt256(desiredAmount)
  {
    "0x" + HexEncode(Payload(asset, subId, limitPrice, desiredAmount, worstFee, recipient, isBid))
  }

  lemma {:induction false} HexIsSpaceFree(bytes: seq<Byte>)
    ensures forall c | c in HexEncode(bytes) :: !IsSpace(c)
  {
    if bytes != [] {
      HexIsSpaceFree(bytes[1..]);
    }
  }

  lemma PayloadWords(asset: seq<Byte>, subId: nat, limitPrice: int, desiredAmount: int,
                     worstFee: nat, recipient: nat, isBid: bool)
    requires |asset| == 20 && FitsInt256(limitPrice) && FitsInt256(desiredAmount)
    ensures var p := Payload(asset, subId, limitPrice, desiredAmount, worstFee, recipient, isBid);
            && WordAt(p, 0)[12..] == asset && WordAt(p, 1) == Word(subId, 32)
            && WordAt(p, 2) == SignedWord(limitPrice) && WordAt(p, 3) == SignedWord(desiredAmount)
            && WordAt(p, 6) == Word(if isBid then 1 else 0, 32)
  {
    hide Word, SignedWord;
  }

  /** Both decoders invert the ABI encoding of every 160-bit asset, uint256 sub id, int256 price
      and amount, fee, recipient and bid flag. */
  lemma DecodeInvertsEncode(asset: seq<Byte>, subId: nat, limitPrice: int, desiredAmount: int,
                            worstFee: nat, recipient: nat, isBid: bool)
    requires |asset| == 20 && subId < Pow256(32) && FitsInt256(limitPrice) && FitsInt256(desiredAmount)
    ensures var raw := EncodeTradeData(asset, subId, limitPrice, desiredAmount, worstFee, recipient, isBid);
            var action := TradeAction("0x" + HexEncode(asset), subId, limitPrice, desiredAmount, isBid);
            && DecodeTradeData(raw) == Some(action)
            && ParseActionTradeData(raw) ==
               if limitPrice <= 0 then Err(PriceNotPositive)
               else if desiredAmount <= 0 then Err(AmountNotPositive)
               else Ok(action)
  {
    hide DecodePayload, TrimSpace, TrimPrefix, HexEncode, Payload, ParseActionTradeData, FitsInt256, Pow256;
    var p := Payload(asset, subId, limitPrice, desiredAmount, worstFee, recipient, isBid);
    EncodedText(p);
    PayloadDecodes(p);
    ActionFields(asset, subId, limitPrice, desiredAmount, worstFee, recipient, isBid);
    DecodersAgree("0x" + HexEncode(p));
  }

  lemma EncodedText(p: seq<Byte>)
    requires p != []
    ensures var raw := "0x" + HexEncode(p);
            TrimSpace(raw) == raw && TrimPrefix(raw, "0x") == HexEncode(p) && !UpperPrefix(raw)
  {
    hide TrimSpace, HexEncode;
    var h := HexEncode(p);
    var raw := "0x" + h;
    HexIsSpaceFree(p);
    assert raw[1] == 'x' && raw[..2] == "0x" && raw[2..] == h;
    assert raw[|raw| - 1] == h[|h| - 1] && h[|h| - 1] in h;
    TrimKeeps(raw);
  }

  /** With "0X" in front of it every encoded payload is still admitted by the API, on its signs, and
      unreadable to the matcher. */
  lemma UpperPrefixDiverges(p: seq<Byte>)
    requires |p| == 32 * 7
    ensures var raw := "0X" + HexEncode(p);
            && DecodeTradeData(raw) == None
            && (ParseActionTradeData(raw) == Ok(ActionOf(p))
              <==> ActionOf(p).limitPrice > 0 && ActionOf(p).desiredAmount > 0)
  {
    hide TrimSpace, HexEncode, HexDecode, ActionOf;
    var h := HexEncode(p);
    var raw := "0X" + h;
    HexIsSpaceFree(p);
    assert raw[1] == 'X' && raw[..2] == "0X" && raw[2..] == h;
    assert raw[|raw| - 1] == h[|h| - 1] && h[|h| - 1] in h;
    TrimKeeps(raw);
    DecodersAgree(raw);
    HexRoundTrip(p);
    HexIgnoresCase(h);
    assert Lower(raw)[..2] == "0x" && Lower(raw)[2..] == Lower(h);
  }

  lemma PayloadDecodes(p: seq<Byte>)
    requires |p| == 32 * 7
    ensures DecodePayload(HexEncode(p)) == Some(ActionOf(p))
  {
    hide HexDecode, HexEncode, ActionOf;
    HexRoundTrip(p);
  }

  lemma ActionFields(asset: seq<Byte>, subId: nat, limitPrice: int, desiredAmount: int,
                     worstFee: nat, recipient: nat, isBid: bool)
    requires |asset| == 20 && subId < Pow256(32) && FitsInt256(limitPrice) && FitsInt256(desiredAmount)
    ensures ActionOf(Payload(asset, subId, limitPrice, desiredAmount, worstFee, recipient, isBid))
            == TradeAction("0x" + HexEncode(asset), subId, limitPrice, desiredAmount, isBid)
  {
    BidWord(isBid);
    hide HexEncode, Payload, Word, NatOfBytes, Int256OfWord, SignedWord, Pow256, WordAt, FitsInt256;
    PayloadWords(asset, subId, limitPrice, desiredAmount, worstFee, recipient, isBid);
    WordValue(subId, 32);
    SignedWordValue(limitPrice);
    SignedWordValue(desiredAmount);
  }

  // ---------------------------------------------------------------- which texts decode

  predicate IsHexDigit(c: char) { '0' <= c <= '9' || 'a' <= c <= 'f' || 'A' <= c <= 'F' }

  lemma {:induction false} HexDecodesIff(s: string)
    ensures HexDecode(s).Some? <==> |s| % 2 == 0 && forall i | 0 <= i < |s| :: IsHexDigit(s[i])
  {
    if |s| > 1 {
      HexDecodesIff(s[2..]);
      assert forall i | 0 <= i < |s| :: s[i] == if i < 2 then s[i] else s[2..][i - 2];
    }
  }

  /** A text decodes exactly when, without surrounding space and an optional "0x", it is 448 hex
      digits of either case. */
  lemma DecodesIff(raw: string)
    ensures var t := TrimSpace(raw);
            var h := if |t| >= 2 && t[..2] == "0x" then t[2..] else t;
            DecodeTradeData(raw).Some? <==> |h| == 448 && forall i | 0 <= i < |h| :: IsHexDigit(h[i])
  {
    hide TrimSpace, HexDecode, ActionOf, IsHexDigit;
    var t := TrimSpace(raw);
    HexDecodesIff(TrimPrefix(t, "0x"));
    assert HasPrefix(t, "0x") <==> |t| >= 2 && t[..2] == "0x";
  }

  lemma {:induction false} NatIsZeroIff(bytes: seq<Byte>)
    ensures NatOfBytes(bytes) == 0 <==> forall i | 0 <= i < |bytes| :: bytes[i] == 0
  {
    if bytes != [] {
      NatIsZeroIff(bytes[..|bytes| - 1]);
      assert forall i | 0 <= i < |bytes| - 1 :: bytes[..|bytes| - 1][i] == bytes[i];
    }
  }

  /** The fields of any payload: the asset is the low twenty bytes of its word whatever stands above
      them, price and amount are two's complement, and any nonzero flag word is a bid. */
  lemma PayloadFields(p: seq<Byte>)
    requires |p| == 224
    ensures var raw := "0x" + HexEncode(p);
            DecodeTradeData(raw).Some? &&
            var a := DecodeTradeData(raw).value;
            && a.asset == "0x" + HexEncode(p[12..32]) && a.subId == NatOfBytes(p[32..64])
            && a.limitPrice == Int256OfWord(p[64..96]) && a.desiredAmount == Int256OfWord(p[96..128])
            && (a.isBid <==> exists i :: 192 <= i < 224 && p[i] != 0)
  {
    hide TrimSpace, HexEncode, DecodePayload, NatOfBytes, Int256OfWord;
    EncodedText(p);
    PayloadDecodes(p);
    NatIsZeroIff(p[192..224]);
    assert forall i | 0 <= i < 32 :: p[192..224][i] == p[192 + i];
    assert p[0..32][12..] == p[12..32];
    if i :| 192 <= i < 224 && p[i] != 0 { assert p[192..224][i - 192] != 0; }
  }

  /** A word's value: its bytes in base 256, less 2^256 when the top bit is set. */
  lemma SignedWordOfBytes(word: seq<Byte>)
    requires |word| == 32
    ensures FitsInt256(Int256OfWord(word)) && SignedWord(Int256OfWord(word)) == word
  {
    hide Pow256, Word, NatOfBytes;
    TopByte(word);
    WordOfBytes(word);
    HalfRange();
    var (h, v) := (Pow256(31), NatOfBytes(word));
    if word[0] >= 128 { MulMono(128, word[0], h); MulMono(word[0], 255, h); } else { MulMono(word[0], 127, h); }
  }

  lemma HalfRange()
    ensures Pow256(32) == 256 * Pow256(31)
  {
  }

  lemma {:induction false} WordOfBytes(bytes: seq<Byte>)
    ensures NatOfBytes(bytes) < Pow256(|bytes|) && Word(NatOfBytes(bytes), |bytes|) == bytes
  {
    if bytes != [] {
      WordOfBytes(bytes[..|bytes| - 1]);
    }
  }

  lemma BidWord(isBid: bool)
    ensures NatOfBytes(Word(if isBid then 1 else 0, 32)) == if isBid then 1 else 0
  {
    hide Word, NatOfBytes;
    WordValue(if isBid then 1 else 0, 32);
  }
}
