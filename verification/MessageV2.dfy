/** The packed binary message of the cross-chain relayer. */
module MessageV2 {
  import opened Wrappers
  import opened Positional

  type Bytes = seq<nat>

  const MESSAGE_VERSION: nat := 1
  const FINALITY_STANDARD: nat := 2000
  const HEADER_LENGTH: nat := 124

  datatype MessageEvent = MessageEvent(
    nonce: nat, sourceDomain: nat, destinationDomain: nat,
    sender: Bytes, recipient: Bytes, destinationCaller: Bytes,
    minFinalityThreshold: nat, messageBody: Bytes)

  predicate IsBytes(b: Bytes) {
    AreDigits(256, b)
  }

  /** Every field fits the width the packed encoding gives it. */
  predicate InRange(e: MessageEvent) {
    && e.sourceDomain < Pow(256, 4) && e.destinationDomain < Pow(256, 4)
    && e.nonce < Pow(256, 8)
    && |e.sender| == |e.recipient| == |e.destinationCaller| == 32
    && IsBytes(e.sender) && IsBytes(e.recipient) && IsBytes(e.destinationCaller)
    && e.minFinalityThreshold < Pow(256, 4)
    && IsBytes(e.messageBody)
  }

  function Uint(width: nat, x: nat): (b: Bytes)
    ensures |b| == width && IsBytes(b)
  {
    Digits(256, width, x)
  }

  /** Packing fails when a value does not fit its type. */
  function EncodeMessageV2(e: MessageEvent): Option<Bytes> {
    if !InRange(e) then None
    else
      Some(Uint(4, MESSAGE_VERSION) + Uint(4, e.sourceDomain) + Uint(4, e.destinationDomain) + Uint(8, e.nonce)
           + e.sender + e.recipient + e.destinationCaller
           + Uint(4, e.minFinalityThreshold) + Uint(4, FINALITY_STANDARD) + e.messageBody)
  }

  function UintAt(b: Bytes, from: nat, width: nat): nat
    requires from + width <= |b|
  {
    Value(256, b[from..from + width])
  }

  /** Read the fields back at the documented offsets. */
  function DecodeMessageV2(b: Bytes): Option<MessageEvent> {
    if |b| < HEADER_LENGTH || !IsBytes(b) || UintAt(b, 0, 4) != MESSAGE_VERSION || UintAt(b, 120, 4) != FINALITY_STANDARD
    then None
    else
      Some(MessageEvent(UintAt(b, 12, 8), UintAt(b, 4, 4), UintAt(b, 8, 4),
                        b[20..52], b[52..84], b[84..116], UintAt(b, 116, 4), b[124..]))
  }

  lemma UintRoundTrip(width: nat, x: nat)
    requires x < Pow(256, width)
    ensures Value(256, Uint(width, x)) == x
  {
    ValueOfDigits(256, width, x);
  }

  lemma ConstantsFit()
    ensures MESSAGE_VERSION < Pow(256, 4) && FINALITY_STANDARD < Pow(256, 4)
  {
    assert Pow(256, 2) == 65536;
  }

  lemma PartsAtOffsets(a: Bytes, b: Bytes, c: Bytes, d: Bytes, e: Bytes, f: Bytes, g: Bytes, h: Bytes, i: Bytes, j: Bytes)
    requires |a| == |b| == |c| == |h| == |i| == 4 && |d| == 8 && |e| == |f| == |g| == 32
    ensures var s := a + b + c + d + e + f + g + h + i + j;
            && |s| == HEADER_LENGTH + |j|
            && s[0..4] == a && s[4..8] == b && s[8..12] == c && s[12..20] == d && s[20..52] == e && s[52..84] == f
            && s[84..116] == g && s[116..120] == h && s[120..124] == i && s[124..] == j
  {
  }

  /** The encoding has 124 bytes and the body, and each field sits at its documented offset. */
  lemma FieldOffsets(e: MessageEvent)
    requires InRange(e)
    ensures var b := EncodeMessageV2(e).value;
            && |b| == HEADER_LENGTH + |e.messageBody|
            && b[0..4] == Uint(4, MESSAGE_VERSION) && b[4..8] == Uint(4, e.sourceDomain)
            && b[8..12] == Uint(4, e.destinationDomain) && b[12..20] == Uint(8, e.nonce)
            && b[20..52] == e.sender && b[52..84] == e.recipient && b[84..116] == e.destinationCaller
            && b[116..120] == Uint(4, e.minFinalityThreshold) && b[120..124] == Uint(4, FINALITY_STANDARD)
            && b[124..] == e.messageBody
  {
    PartsAtOffsets(Uint(4, MESSAGE_VERSION), Uint(4, e.sourceDomain), Uint(4, e.destinationDomain), Uint(8, e.nonce),
                   e.sender, e.recipient, e.destinationCaller,
                   Uint(4, e.minFinalityThreshold), Uint(4, FINALITY_STANDARD), e.messageBody);
  }

  /** Decoding undoes encoding for all in-range fields and every body. */
  lemma DecodeOfEncode(e: MessageEvent)
    requires InRange(e)
    ensures DecodeMessageV2(EncodeMessageV2(e).value) == Some(e)
  {
    FieldOffsets(e);
    ConstantsFit();
    UintRoundTrip(4, MESSAGE_VERSION);
    UintRoundTrip(4, e.sourceDomain);
    UintRoundTrip(4, e.destinationDomain);
    UintRoundTrip(8, e.nonce);
    UintRoundTrip(4, e.minFinalityThreshold);
    UintRoundTrip(4, FINALITY_STANDARD);
  }

  lemma SliceIsUint(b: Bytes, from: nat, width: nat)
    requires from + width <= |b| && IsBytes(b)
    ensures Uint(width, UintAt(b, from, width)) == b[from..from + width] && UintAt(b, from, width) < Pow(256, width)
  {
    DigitsOfValue(256, b[from..from + width]);
    ValueIsBounded(256, b[from..from + width]);
  }

  /** Whatever decodes was encoded: the encoding of the decoded event is the input. */
  lemma EncodeOfDecode(b: Bytes)
    requires DecodeMessageV2(b).Some?
    ensures EncodeMessageV2(DecodeMessageV2(b).value) == Some(b)
  {
    var e := DecodeMessageV2(b).value;
    SliceIsUint(b, 0, 4);
    SliceIsUint(b, 4, 4);
    SliceIsUint(b, 8, 4);
    SliceIsUint(b, 12, 8);
    SliceIsUint(b, 116, 4);
    SliceIsUint(b, 120, 4);
    Reassemble(b);
  }

  lemma Reassemble(b: Bytes)
    requires |b| >= HEADER_LENGTH
    ensures b[0..4] + b[4..8] + b[8..12] + b[12..20] + b[20..52] + b[52..84] + b[84..116] + b[116..120] + b[120..124] + b[124..] == b
  {
  }

  /** No two in-range events share an encoding. */
  lemma EncodingIsInjective(d: MessageEvent, e: MessageEvent)
    requires InRange(d) && InRange(e) && EncodeMessageV2(d) == EncodeMessageV2(e)
    ensures d == e
  {
    DecodeOfEncode(d);
    DecodeOfEncode(e);
  }
}

/** The message transmitter of the contracts, which expects a header of its own. */
module TransmitterV2 {
  import opened Wrappers
  import opened Positional
  import opened MessageV2

  const DESTINATION_CALLER_OFFSET: nat := 108
  const MIN_MESSAGE_LENGTH: nat := 148

  function Zeros(n: nat): (b: Bytes)
    ensures |b| == n && IsBytes(b)
  {
    if n == 0 then [] else Zeros(n - 1) + [0]
  }

  /** An address as a 32-byte word. */
  function PaddedAddress(address: Bytes): Bytes {
    Zeros(12) + address
  }

  /** The key under which `receiveMessage` marks a message of `caller` as processed: source domain and
      nonce as this layout has them. None when it refuses the message. */
  function Receive(message: Bytes, localDomain: int, caller: Bytes): Option<(nat, nat)> {
    if |message| < MIN_MESSAGE_LENGTH || UintAt(message, 0, 4) != MESSAGE_VERSION || UintAt(message, 8, 4) != localDomain
    then None
    else
      var destinationCaller := message[DESTINATION_CALLER_OFFSET..DESTINATION_CALLER_OFFSET + 32];
      if destinationCaller != Zeros(32) && destinationCaller != PaddedAddress(caller) then None
      else Some((UintAt(message, 4, 4), UintAt(message, 12, 32)))
  }

  /** What this layout reads as the destination caller of a packed event: the end of the event's own
      destination caller, its minimum finality, the finality constant, and the start of its body. */
  function CallerRead(e: MessageEvent): Bytes
    requires InRange(e) && |e.messageBody| >= 24
  {
    e.destinationCaller[24..32] + Uint(4, e.minFinalityThreshold) + Uint(4, FINALITY_STANDARD) + e.messageBody[..16]
  }

  lemma SliceOfSlices(s: Bytes, dc: Bytes, min: Bytes, fin: Bytes, body: Bytes)
    requires |s| >= 140 && |dc| == 32 && |body| >= 16
    requires s[84..116] == dc && s[116..120] == min && s[120..124] == fin && s[124..] == body
    ensures s[108..140] == dc[24..32] + min + fin + body[..16]
  {
    assert s[108..116] == s[84..116][24..32] && s[124..140] == s[124..][..16];
    assert s[108..140] == s[108..116] + s[116..120] + s[120..124] + s[124..140];
  }

  lemma CallerIsRead(e: MessageEvent)
    requires InRange(e) && |e.messageBody| >= 24
    ensures EncodeMessageV2(e).value[108..140] == CallerRead(e)
  {
    FieldOffsets(e);
    SliceOfSlices(EncodeMessageV2(e).value, e.destinationCaller, Uint(4, e.minFinalityThreshold),
                  Uint(4, FINALITY_STANDARD), e.messageBody);
  }

  /** The finality constant in bytes. */
  lemma StandardFinalityBytes()
    ensures Uint(4, FINALITY_STANDARD) == [0, 0, 7, 208]
  {
    assert Digits(256, 4, 2000) == Digits(256, 3, 7) + [208];
    assert Digits(256, 3, 7) == Digits(256, 2, 0) + [7];
    assert Digits(256, 2, 0) == Digits(256, 1, 0) + [0];
    assert Digits(256, 1, 0) == Digits(256, 0, 0) + [0];
  }

  lemma {:induction false} ZeroAt(n: nat, i: nat)
    requires i < n
    ensures Zeros(n)[i] == 0
  {
    if i < n - 1 {
      ZeroAt(n - 1, i);
    }
  }

  /** The word read is never zero: it holds the finality constant. */
  lemma CallerReadIsNotZero(e: MessageEvent)
    requires InRange(e) && |e.messageBody| >= 24
    ensures CallerRead(e) != Zeros(32)
  {
    StandardFinalityBytes();
    assert CallerRead(e)[14] == 7;
    ZeroAt(32, 14);
  }

  /** When the contracts take what the relayer packs: the message is for this chain, its body has at least
      24 bytes, and the word read as the destination caller is the relayer's own address. */
  lemma PackedIsReceivedIff(e: MessageEvent, localDomain: int, caller: Bytes)
    requires InRange(e)
    ensures Receive(EncodeMessageV2(e).value, localDomain, caller).Some? <==>
              e.destinationDomain == localDomain && |e.messageBody| >= 24 && CallerRead(e) == PaddedAddress(caller)
  {
    FieldOffsets(e);
    ConstantsFit();
    UintRoundTrip(4, MESSAGE_VERSION);
    UintRoundTrip(4, e.destinationDomain);
    if |e.messageBody| >= 24 {
      CallerIsRead(e);
      CallerReadIsNotZero(e);
    }
  }

  /** That takes an event whose destination caller ends in zeros, without a minimum finality, and a relayer
      whose address starts with the finality constant and goes on as the body does. */
  lemma CallerReadIs(e: MessageEvent, caller: Bytes)
    requires InRange(e) && |e.messageBody| >= 24 && |caller| == 20
    ensures CallerRead(e) == PaddedAddress(caller) <==>
              && e.destinationCaller[24..32] == Zeros(8) && e.minFinalityThreshold == 0
              && caller == [0, 0, 7, 208] + e.messageBody[..16]
  {
    StandardFinalityBytes();
    ZerosSplit();
    var a, b, c, d := e.destinationCaller[24..32], Uint(4, e.minFinalityThreshold), [0, 0, 7, 208], e.messageBody[..16];
    SameParts(a, b, c, d, Zeros(8), Zeros(4), caller);
    UintRoundTrip(4, e.minFinalityThreshold);
    UintRoundTrip(4, 0);
    ZeroBytes();
  }

  lemma ZerosSplit()
    ensures Zeros(12) == Zeros(8) + Zeros(4)
  {
    forall i | 0 <= i < 12 ensures Zeros(12)[i] == (Zeros(8) + Zeros(4))[i] {
      ZeroAt(12, i);
      if i < 8 {
        ZeroAt(8, i);
      } else {
        ZeroAt(4, i - 8);
      }
    }
  }

  lemma ZeroBytes()
    ensures Uint(4, 0) == Zeros(4)
  {
    forall i | 0 <= i < 4 ensures Zeros(4)[i] == 0 {
      ZeroAt(4, i);
    }
    assert Digits(256, 4, 0) == Digits(256, 3, 0) + [0];
    assert Digits(256, 3, 0) == Digits(256, 2, 0) + [0];
    assert Digits(256, 2, 0) == Digits(256, 1, 0) + [0];
    assert Digits(256, 1, 0) == Digits(256, 0, 0) + [0];
  }

  lemma SameParts(a: Bytes, b: Bytes, c: Bytes, d: Bytes, x: Bytes, y: Bytes, z: Bytes)
    requires |a| == |x| == 8 && |b| == |y| == 4 && |c| == 4 && |d| == 16 && |z| == 20
    ensures a + b + c + d == (x + y) + z <==> a == x && b == y && z == c + d
  {
    var l, r := a + b + c + d, (x + y) + z;
    assert l[..8] == a && l[8..12] == b && l[12..] == c + d;
    assert r[..8] == x && r[8..12] == y && r[12..] == z;
    assert a == x && b == y && z == c + d ==> l == r;
  }

  /** So an event that asks for standard finality is refused whoever relays it, one open to any caller too. */
  lemma StandardEventIsRefused(e: MessageEvent, localDomain: int, caller: Bytes)
    requires InRange(e) && e.minFinalityThreshold == FINALITY_STANDARD && |caller| == 20
    ensures Receive(EncodeMessageV2(e).value, localDomain, caller).None?
  {
    PackedIsReceivedIff(e, localDomain, caller);
    if |e.messageBody| >= 24 {
      CallerReadIs(e, caller);
    }
  }

  /** And a relayer whose address does not start with the finality constant can relay nothing. */
  lemma OrdinaryRelayerIsRefused(e: MessageEvent, localDomain: int, caller: Bytes)
    requires InRange(e) && |caller| == 20 && caller[..4] != [0, 0, 7, 208]
    ensures Receive(EncodeMessageV2(e).value, localDomain, caller).None?
  {
    PackedIsReceivedIff(e, localDomain, caller);
    if |e.messageBody| >= 24 {
      CallerReadIs(e, caller);
      assert ([0, 0, 7, 208] + e.messageBody[..16])[..4] == [0, 0, 7, 208];
    }
  }

  /** A first deposit between the local chains: open to any caller, standard finality, a body of 24 bytes. */
  const FAILING_EVENT: MessageEvent :=
    MessageEvent(0, 100, 101, Zeros(32), Zeros(32), Zeros(32), FINALITY_STANDARD, Zeros(24))

  lemma FailingEventIsPackedAndRefused(caller: Bytes)
    requires |caller| == 20
    ensures EncodeMessageV2(FAILING_EVENT).Some? && Receive(EncodeMessageV2(FAILING_EVENT).value, 101, caller).None?
  {
    assert Pow(256, 2) == 65536;
    ConstantsFit();
    StandardEventIsRefused(FAILING_EVENT, 101, caller);
  }
}
