/** The compact binary message format: writing, reading, and framing. Bit operations on bytes and 64-bit
    words are written as the arithmetic they perform. */
module Codec {
  import opened Prelude

  /** Go strings are byte sequences. */
  type Text = seq<Byte>

  const TWO63: int := 0x8000_0000_0000_0000
  const TWO64: int := 0x1_0000_0000_0000_0000

  type Int64 = v: int | -TWO63 <= v < TWO63
  type Uint64 = v: int | 0 <= v < TWO64

  datatype Message = Message(
    id: Text, typ: Text, sender: Text, senderNick: Text, recipient: Text, payload: Text, timestamp: Int64,
    ttl: int, hopCount: int, sprayBudget: int, copiesMade: int, nonce: Text, keyId: Text)

  datatype Failure =
    TooShort | UnknownTypeCode | MissingId | TruncatedString | BadTimestamp | TruncatedCounters

  // The six message types with short codes, spelled in ASCII.
  const CHAT: Text := [99, 104, 97, 116]
  const FILE: Text := [102, 105, 108, 101]
  const SOS: Text := [115, 111, 115]
  const DELIVERY_ACK: Text := [100, 101, 108, 105, 118, 101, 114, 121, 95, 97, 99, 107]
  const PEER_INFO: Text := [112, 101, 101, 114, 95, 105, 110, 102, 111]
  const KEY_EXCHANGE: Text := [107, 101, 121, 95, 101, 120, 99, 104, 97, 110, 103, 101]

  const LONG_FORM := 15
  const MAX_SHORT_LEN := 15
  const MTU := 20

  function TypeToShort(t: Text): (code: Option<Byte>)
    ensures code.Some? ==> code.value < 6 && ShortToType(code.value) == Some(t)
  {
    if t == CHAT then Some(0)
    else if t == FILE then Some(1)
    else if t == SOS then Some(2)
    else if t == DELIVERY_ACK then Some(3)
    else if t == PEER_INFO then Some(4)
    else if t == KEY_EXCHANGE then Some(5)
    else None
  }

  function ShortToType(code: Byte): Option<Text> {
    if code == 0 then Some(CHAT)
    else if code == 1 then Some(FILE)
    else if code == 2 then Some(SOS)
    else if code == 3 then Some(DELIVERY_ACK)
    else if code == 4 then Some(PEER_INFO)
    else if code == 5 then Some(KEY_EXCHANGE)
    else None
  }

  // ---------------------------------------------------------------- integers

  /** Exclusive or with a word of all zeros or all ones. */
  function XorMask(x: Uint64, ones: bool): Uint64 {
    if ones then TWO64 - 1 - x else x
  }

  /** A 64-bit word read as two's complement. */
  function AsInt64(x: Uint64): Int64 {
    if x >= TWO63 then x - TWO64 else x
  }

  /** The left shift by one, exclusive-or'ed with the sign. */
  function Zigzag(v: Int64): Uint64 {
    XorMask((2 * v) % TWO64, v < 0)
  }

  /** The right shift by one, exclusive-or'ed with the negated low bit. */
  function Unzigzag(u: Uint64): Int64 {
    AsInt64(XorMask(u / 2, u % 2 == 1))
  }

  /** Zigzag numbers the integers 0, -1, 1, -2, 2, ... and Unzigzag is its inverse, over all 64-bit values. */
  lemma ZigzagBijection(v: Int64, u: Uint64)
    ensures Zigzag(v) == if v >= 0 then 2 * v else -2 * v - 1
    ensures Unzigzag(Zigzag(v)) == v
    ensures Zigzag(Unzigzag(u)) == u
  {
    ZigzagValue(v);
    ZigzagValue(Unzigzag(u));
  }

  lemma ZigzagValue(v: Int64)
    ensures Zigzag(v) == if v >= 0 then 2 * v else -2 * v - 1
  {
    if v < 0 {
      assert (2 * v) % TWO64 == 2 * v + TWO64;
    }
  }

  /** The base-128 form: low groups first, all but the last with the continuation bit. */
  function Uvarint(v: nat): seq<Byte> {
    if v < 128 then [v] else [128 + v % 128] + Uvarint(v / 128)
  }

  /** Reads such a form starting at the i-th byte of the number; ten bytes at most, and the tenth may only
      hold the last bit. Gives the value and the bytes used from here on. */
  function ReadUvarint(data: seq<Byte>, i: nat): Option<(nat, nat)> {
    if data == [] || i >= 10 then None
    else if data[0] < 128 then
      if i == 9 && data[0] > 1 then None else Some((data[0], 1))
    else
      match ReadUvarint(data[1..], i + 1)
      case None => None
      case Some((v, n)) => Some((data[0] - 128 + 128 * v, n + 1))
  }

  /** One more than the largest value that bytes i and up of a 64-bit number can hold. */
  function Capacity(i: nat): nat
    requires i < 10
  {
    if i == 0 then TWO64 else Capacity(i - 1) / 128
  }

  lemma CapacityDivides(i: nat)
    requires i < 9
    ensures Capacity(i) == 128 * Capacity(i + 1)
    ensures Capacity(9) == 2
  {
    assert Capacity(0) == 0x1_0000_0000_0000_0000 && Capacity(1) == 0x200_0000_0000_0000;
    assert Capacity(2) == 0x4_0000_0000_0000 && Capacity(3) == 0x800_0000_0000;
    assert Capacity(4) == 0x10_0000_0000 && Capacity(5) == 0x2000_0000;
    assert Capacity(6) == 0x40_0000 && Capacity(7) == 0x8000;
    assert Capacity(8) == 0x100 && Capacity(9) == 2;
  }

  /** Reading undoes writing, whatever follows. */
  lemma {:induction false} UvarintRoundTrip(v: nat, i: nat, rest: seq<Byte>)
    requires i < 10 && v < Capacity(i)
    ensures ReadUvarint(Uvarint(v) + rest, i) == Some((v, |Uvarint(v)|))
    decreases 10 - i
  {
    var data := Uvarint(v) + rest;
    if i < 9 {
      CapacityDivides(i);
    } else {
      CapacityDivides(0);
    }
    if v >= 128 {
      assert data[1..] == Uvarint(v / 128) + rest;
      UvarintRoundTrip(v / 128, i + 1, rest);
    }
  }

  /** No reading of a value uses fewer bytes than writing it does. */
  lemma {:induction false} UvarintShortest(data: seq<Byte>, i: nat)
    requires ReadUvarint(data, i).Some?
    ensures
      var (v, n) := ReadUvarint(data, i).value;
      |Uvarint(v)| <= n <= |data| && n + i <= 10
    decreases |data|
  {
    if data[0] >= 128 {
      UvarintShortest(data[1..], i + 1);
      var (v, n) := ReadUvarint(data[1..], i + 1).value;
      var w := data[0] - 128 + 128 * v;
      assert w / 128 == v;
    }
  }

  // ----------------------------------------------------------------- strings

  /** Nothing for the empty string; one length byte up to 255; the sentinel 255 and a 16-bit length above. */
  function Prefixed(s: Text): seq<Byte> {
    if s == [] then []
    else if |s| <= 255 then [|s|] + s
    else [255, (|s| % 65536) / 256, |s| % 256] + s
  }

  /** Reads a string; gives it with the number of bytes used. */
  function GetString(data: seq<Byte>): (r: Result<(Text, nat), Failure>)
    ensures r.Ok? ==> r.value.1 <= |data|
  {
    if data == [] then Ok(([], 0))
    else if data[0] == 255 then
      if |data| < 3 then Err(TruncatedString)
      else
        var n := data[1] as int * 256 + data[2] as int;
        if |data| < 3 + n then Err(TruncatedString) else Ok((data[3..3 + n], 3 + n))
    else
      var n := data[0];
      if n == 0 then Ok(([], 1))
      else if |data| < 1 + n then Err(TruncatedString)
      else Ok((data[1..1 + n], 1 + n))
  }

  /** The strings the format can carry. */
  predicate Carried(s: Text) {
    s != [] && |s| != 255 && |s| <= 65535
  }

  lemma StringRoundTrip(s: Text, rest: seq<Byte>)
    requires Carried(s)
    ensures GetString(Prefixed(s) + rest) == Ok((s, |Prefixed(s)|))
  {
    var data := Prefixed(s) + rest;
    if |s| <= 255 {
      assert data[1..1 + |s|] == s;
    } else {
      var high: nat, low: nat := data[1], data[2];
      assert high * 256 + low == |s|;
      assert data[3..3 + |s|] == s;
    }
  }

  /** The bytes reading this string takes at least, from data that is not exhausted. */
  function ReadCost(s: Text): nat {
    if |s| <= 254 then 1 + |s| else 3 + |s|
  }

  lemma StringCost(data: seq<Byte>)
    requires GetString(data).Ok?
    ensures |GetString(data).value.0| <= 65535
    ensures data != [] ==> GetString(data).value.1 >= ReadCost(GetString(data).value.0)
    ensures GetString(data).value.0 != [] ==> data != []
  {
  }

  // ---------------------------------------------------------------- messages

  function Flag(s: Text, bit: nat): nat {
    if s != [] then bit else 0
  }

  function TypeCode(typ: Text): (code: nat)
    ensures code < 16
  {
    var code := TypeToShort(typ);
    if code.Some? && |typ| <= MAX_SHORT_LEN then code.value else LONG_FORM
  }

  /** The type code in the upper half, one presence bit per optional string in the lower. */
  function FlagsOf(m: Message): Byte {
    TypeCode(m.typ) * 16
      + Flag(m.senderNick, 1) + Flag(m.recipient, 2) + Flag(m.nonce, 4) + Flag(m.keyId, 8)
  }

  lemma FlagsRead(m: Message)
    ensures FlagsOf(m) / 16 == TypeCode(m.typ)
    ensures FlagsOf(m) % 2 == 1 <==> m.senderNick != []
    ensures FlagsOf(m) / 2 % 2 == 1 <==> m.recipient != []
    ensures FlagsOf(m) / 4 % 2 == 1 <==> m.nonce != []
    ensures FlagsOf(m) / 8 % 2 == 1 <==> m.keyId != []
  {
    BitsRead(TypeCode(m.typ), m.senderNick != [], m.recipient != [], m.nonce != [], m.keyId != []);
  }

  function Bit(b: bool, value: nat): nat {
    if b then value else 0
  }

  lemma BitsRead(code: nat, b0: bool, b1: bool, b2: bool, b3: bool)
    ensures
      var flags := code * 16 + Bit(b0, 1) + Bit(b1, 2) + Bit(b2, 4) + Bit(b3, 8);
      && flags / 16 == code
      && (flags % 2 == 1 <==> b0) && (flags / 2 % 2 == 1 <==> b1)
      && (flags / 4 % 2 == 1 <==> b2) && (flags / 8 % 2 == 1 <==> b3)
  {
    var f3 := code * 2 + Bit(b3, 1);
    var f2 := f3 * 2 + Bit(b2, 1);
    var f1 := f2 * 2 + Bit(b1, 1);
    var flags := f1 * 2 + Bit(b0, 1);
    Halve(code, b3);
    Halve(f3, b2);
    Halve(f2, b1);
    Halve(f1, b0);
    HalveTwice(flags);
    assert flags == code * 16 + Bit(b0, 1) + Bit(b1, 2) + Bit(b2, 4) + Bit(b3, 8);
  }

  lemma Halve(x: nat, b: bool)
    ensures (x * 2 + Bit(b, 1)) / 2 == x
    ensures (x * 2 + Bit(b, 1)) % 2 == 1 <==> b
  {
  }

  lemma HalveTwice(x: nat)
    ensures x / 4 == x / 2 / 2 && x / 8 == x / 2 / 2 / 2 && x / 16 == x / 2 / 2 / 2 / 2
  {
  }

  /** Every type with a short code is short enough to use it. */
  lemma TypeCodeMeaning(typ: Text)
    ensures TypeCode(typ) == if TypeToShort(typ).Some? then TypeToShort(typ).value else LONG_FORM
  {
  }

  /** A counter capped at 255 and truncated to a byte. */
  function Counter(n: int): Byte {
    (if n > 255 then 255 else n) % 256
  }

  function LongType(m: Message): Text {
    if TypeToShort(m.typ).Some? then [] else m.typ
  }

  function Encoding(m: Message): seq<Byte> {
    [FlagsOf(m)] + Prefixed(LongType(m)) + Prefixed(m.id) + Prefixed(m.sender) + Prefixed(m.senderNick)
      + Prefixed(m.recipient) + Prefixed(m.payload) + Uvarint(Zigzag(m.timestamp))
      + [Counter(m.ttl), Counter(m.hopCount)] + Prefixed(m.nonce) + Prefixed(m.keyId)
  }

  /** The next string of the remaining data, when its flag says it is there. */
  function Take(present: bool, data: seq<Byte>): Result<(Text, seq<Byte>), Failure> {
    if !present then Ok(([], data))
    else
      var (s, n) :- GetString(data);
      Ok((s, data[n..]))
  }

  function TakeType(code: nat, data: seq<Byte>): Result<(Text, seq<Byte>), Failure>
    requires code < 16
  {
    if code == LONG_FORM then Take(true, data)
    else if ShortToType(code).Some? then Ok((ShortToType(code).value, data))
    else Err(UnknownTypeCode)
  }

  function TakeTimestamp(data: seq<Byte>): Result<(Int64, seq<Byte>), Failure> {
    match ReadUvarint(data, 0)
    case None => Err(BadTimestamp)
    case Some((u, n)) =>
      UvarintShortest(data, 0);
      UvarintRange(data, 0);
      Ok((Unzigzag(u), data[n..]))
  }

  lemma {:induction false} UvarintRange(data: seq<Byte>, i: nat)
    requires i < 10 && ReadUvarint(data, i).Some?
    ensures ReadUvarint(data, i).value.0 < Capacity(i)
    decreases |data|
  {
    if i < 9 {
      CapacityDivides(i);
    } else {
      CapacityDivides(0);
    }
    if data[0] >= 128 {
      if i < 9 {
        UvarintRange(data[1..], i + 1);
      }
    } else if i < 9 {
      CapacityLarge(i);
    }
  }

  lemma {:induction false} CapacityLarge(i: nat)
    requires i < 9
    ensures Capacity(i) >= 128
    decreases 9 - i
  {
    CapacityDivides(i);
    if i < 8 {
      CapacityLarge(i + 1);
    }
  }

  /** Reads a message; whatever follows it is ignored. */
  function Decoding(data: seq<Byte>): Result<Message, Failure> {
    if |data| < 2 then Err(TooShort)
    else
      var flags := data[0];
      var (typ, d1) :- TakeType(flags / 16, data[1..]);
      var (id, d2) :- Take(true, d1);
      if id == [] then Err(MissingId)
      else
        var (sender, d3) :- Take(true, d2);
        var (senderNick, d4) :- Take(flags % 2 == 1, d3);
        var (recipient, d5) :- Take(flags / 2 % 2 == 1, d4);
        var (payload, d6) :- Take(true, d5);
        var (timestamp, d7) :- TakeTimestamp(d6);
        if |d7| < 2 then Err(TruncatedCounters)
        else
          var (nonce, d8) :- Take(flags / 4 % 2 == 1, d7[2..]);
          var (keyId, d9) :- Take(flags / 8 % 2 == 1, d8);
          Ok(Message(id, typ, sender, senderNick, recipient, payload, timestamp, d7[0], d7[1], 0, 0, nonce, keyId))
  }

  // ------------------------------------------------------- the round-trip law

  /** The messages this format carries faithfully. The spray counters are not on this wire. */
  predicate WireSafe(m: Message) {
    && (TypeToShort(m.typ).None? ==> Carried(m.typ))
    && Carried(m.id) && Carried(m.sender) && Carried(m.payload)
    && (m.senderNick != [] ==> Carried(m.senderNick)) && (m.recipient != [] ==> Carried(m.recipient))
    && (m.nonce != [] ==> Carried(m.nonce)) && (m.keyId != [] ==> Carried(m.keyId))
    && 0 <= m.ttl <= 255 && 0 <= m.hopCount <= 255
    && m.sprayBudget == 0 && m.copiesMade == 0
  }

  /** The encoding with what follows it, in the order it is read. */
  function Before(m: Message, rest: seq<Byte>): seq<Byte> {
    [FlagsOf(m)] + AfterFlags(m, rest)
  }

  function AfterFlags(m: Message, rest: seq<Byte>): seq<Byte> {
    Prefixed(LongType(m)) + (Prefixed(m.id) + (Prefixed(m.sender) + (Prefixed(m.senderNick) + (Prefixed(m.recipient) +
      (Prefixed(m.payload) + AfterPayload(m, rest))))))
  }

  function AfterPayload(m: Message, rest: seq<Byte>): seq<Byte> {
    Uvarint(Zigzag(m.timestamp)) + AfterTimestamp(m, rest)
  }

  function AfterTimestamp(m: Message, rest: seq<Byte>): seq<Byte> {
    [Counter(m.ttl), Counter(m.hopCount)] + (Prefixed(m.nonce) + (Prefixed(m.keyId) + rest))
  }

  lemma Regroup(a: seq<Byte>, b: seq<Byte>, c: seq<Byte>)
    ensures (a + b) + c == a + (b + c)
  {
  }

  lemma EncodingBefore(m: Message, rest: seq<Byte>)
    ensures Encoding(m) + rest == Before(m, rest)
  {
    hide Prefixed, Uvarint, Zigzag, FlagsOf, Counter, LongType;
    var e0, e1, e2, e3 := [FlagsOf(m)], Prefixed(LongType(m)), Prefixed(m.id), Prefixed(m.sender);
    var e4, e5, e6 := Prefixed(m.senderNick), Prefixed(m.recipient), Prefixed(m.payload);
    var e7, e8: seq<Byte> := Uvarint(Zigzag(m.timestamp)), [Counter(m.ttl), Counter(m.hopCount)];
    var e9, r9 := Prefixed(m.nonce), Prefixed(m.keyId) + rest;
    var l1 := e0 + e1;
    var l2 := l1 + e2;
    var l3 := l2 + e3;
    var l4 := l3 + e4;
    var l5 := l4 + e5;
    var l6 := l5 + e6;
    var l7 := l6 + e7;
    var l8 := l7 + e8;
    Regroup(l8 + e9, Prefixed(m.keyId), rest);
    Regroup(l8, e9, r9);
    Regroup(l7, e8, e9 + r9);
    Regroup(l6, e7, AfterTimestamp(m, rest));
    Regroup(l5, e6, AfterPayload(m, rest));
    Regroup(l4, e5, e6 + AfterPayload(m, rest));
    Regroup(l3, e4, e5 + (e6 + AfterPayload(m, rest)));
    Regroup(l2, e3, e4 + (e5 + (e6 + AfterPayload(m, rest))));
    Regroup(l1, e2, e3 + (e4 + (e5 + (e6 + AfterPayload(m, rest)))));
    Regroup(e0, e1, e2 + (e3 + (e4 + (e5 + (e6 + AfterPayload(m, rest))))));
  }

  lemma TakeWritten(s: Text, present: bool, rest: seq<Byte>)
    requires (present <==> s != []) && (s != [] ==> Carried(s))
    ensures Take(present, Prefixed(s) + rest) == Ok((s, rest))
  {
    if present {
      StringRoundTrip(s, rest);
      assert (Prefixed(s) + rest)[|Prefixed(s)|..] == rest;
    } else {
      assert Prefixed(s) + rest == rest;
    }
  }

  lemma TakeTypeWritten(m: Message, rest: seq<Byte>)
    requires TypeToShort(m.typ).None? ==> Carried(m.typ)
    ensures TakeType(TypeCode(m.typ), Prefixed(LongType(m)) + rest) == Ok((m.typ, rest))
  {
    TypeCodeMeaning(m.typ);
    if TypeToShort(m.typ).Some? {
      assert Prefixed([]) + rest == rest;
    } else {
      TakeWritten(m.typ, true, rest);
    }
  }

  lemma TakeTimestampWritten(v: Int64, rest: seq<Byte>)
    ensures TakeTimestamp(Uvarint(Zigzag(v)) + rest) == Ok((v, rest))
  {
    hide Zigzag, Unzigzag;
    UvarintRoundTrip(Zigzag(v), 0, rest);
    ZigzagBijection(v, 0);
    assert (Uvarint(Zigzag(v)) + rest)[|Uvarint(Zigzag(v))|..] == rest;
  }

  /** Reading undoes writing for every message the format carries, whatever bytes follow. */
  lemma RoundTrip(m: Message, rest: seq<Byte>)
    requires WireSafe(m)
    ensures Decoding(Encoding(m) + rest) == Ok(m)
  {
    hide Prefixed, Uvarint, Zigzag, Take, TakeType, TakeTimestamp, LongType, TypeCode;
    EncodingBefore(m, rest);
    FlagsRead(m);
    var data := Before(m, rest);
    assert data[0] == FlagsOf(m) && data[1..] == AfterFlags(m, rest);
    var d8 := Prefixed(m.keyId) + rest;
    var d7 := AfterTimestamp(m, rest);
    var d6 := AfterPayload(m, rest);
    var d5 := Prefixed(m.payload) + d6;
    var d4 := Prefixed(m.recipient) + d5;
    var d3 := Prefixed(m.senderNick) + d4;
    var d2 := Prefixed(m.sender) + d3;
    var d1 := Prefixed(m.id) + d2;
    TakeTypeWritten(m, d1);
    TakeWritten(m.id, true, d2);
    TakeWritten(m.sender, true, d3);
    TakeWritten(m.senderNick, m.senderNick != [], d4);
    TakeWritten(m.recipient, m.recipient != [], d5);
    TakeWritten(m.payload, true, d6);
    TakeTimestampWritten(m.timestamp, d7);
    assert d7[2..] == Prefixed(m.nonce) + d8;
    TakeWritten(m.nonce, m.nonce != [], d8);
    TakeWritten(m.keyId, m.keyId != [], rest);
    assert |data| >= 2 by {
      assert |data| == 1 + |AfterFlags(m, rest)| && |AfterFlags(m, rest)| >= |d7| >= 2;
    }
  }

  /** What reading a string took, and that it leaves data to read only if there was some before. */
  lemma TakeCost(present: bool, data: seq<Byte>)
    requires Take(present, data).Ok?
    ensures
      var (s, rest) := Take(present, data).value;
      && |rest| <= |data| && |s| <= 65535
      && (present && data != [] ==> |data| - |rest| >= ReadCost(s))
      && (s != [] ==> present && data != [])
  {
    if present {
      StringCost(data);
    }
  }

  /** The bytes of a written string. */
  lemma WrittenCost(s: Text)
    ensures |Prefixed(s)| == if s == [] then 0 else if |s| <= 255 then 1 + |s| else 3 + |s|
    ensures |Prefixed(s)| <= ReadCost(s)
    ensures |s| <= 65535 && |Prefixed(s)| == ReadCost(s) ==> Carried(s)
  {
  }

  function ReadCostIf(present: bool, s: Text): nat {
    if present then ReadCost(s) else 0
  }

  /** A message that was read has taken at least its reading cost. */
  lemma DecodingCost(data: seq<Byte>, m: Message)
    requires Decoding(data) == Ok(m)
    ensures |data| >= 1 + ReadCostIf(data[0] / 16 == LONG_FORM, m.typ) + ReadCost(m.id) + ReadCost(m.sender)
                      + ReadCostIf(m.senderNick != [], m.senderNick) + ReadCostIf(m.recipient != [], m.recipient)
                      + ReadCost(m.payload) + |Uvarint(Zigzag(m.timestamp))| + 2
                      + ReadCostIf(m.nonce != [], m.nonce) + ReadCostIf(m.keyId != [], m.keyId)
    ensures |m.id| <= 65535 && |m.sender| <= 65535 && |m.payload| <= 65535 && |m.senderNick| <= 65535
    ensures |m.recipient| <= 65535 && |m.nonce| <= 65535 && |m.keyId| <= 65535
    ensures data[0] / 16 == LONG_FORM ==> |m.typ| <= 65535
    ensures 0 <= m.ttl <= 255 && 0 <= m.hopCount <= 255 && m.sprayBudget == 0 && m.copiesMade == 0
  {
    hide Uvarint, Zigzag, Unzigzag, Take, ReadCost;
    var flags := data[0];
    TakeTypeCost(flags / 16, data[1..]);
    var (_, d1) := TakeType(flags / 16, data[1..]).value;
    TakeCost(true, d1);
    var (_, d2) := Take(true, d1).value;
    TakeCost(true, d2);
    var (_, d3) := Take(true, d2).value;
    TakeCost(flags % 2 == 1, d3);
    var (_, d4) := Take(flags % 2 == 1, d3).value;
    TakeCost(flags / 2 % 2 == 1, d4);
    var (_, d5) := Take(flags / 2 % 2 == 1, d4).value;
    TakeCost(true, d5);
    var (_, d6) := Take(true, d5).value;
    TakeTimestampCost(d6);
    var (_, d7) := TakeTimestamp(d6).value;
    TakeCost(flags / 4 % 2 == 1, d7[2..]);
    var (_, d8) := Take(flags / 4 % 2 == 1, d7[2..]).value;
    TakeCost(flags / 8 % 2 == 1, d8);
  }

  lemma TakeTypeCost(code: nat, data: seq<Byte>)
    requires code < 16 && TakeType(code, data).Ok?
    ensures
      var (typ, rest) := TakeType(code, data).value;
      && |rest| <= |data|
      && (code == LONG_FORM ==> |typ| <= 65535)
      && (data != [] ==> |data| - |rest| >= ReadCostIf(code == LONG_FORM, typ))
  {
    if code == LONG_FORM {
      TakeCost(true, data);
    }
  }

  lemma TakeTimestampCost(data: seq<Byte>)
    requires TakeTimestamp(data).Ok?
    ensures
      var (v, rest) := TakeTimestamp(data).value;
      data != [] && |data| - |rest| >= |Uvarint(Zigzag(v))|
  {
    hide Zigzag, Unzigzag;
    UvarintShortest(data, 0);
    UvarintRange(data, 0);
    ZigzagBijection(0, ReadUvarint(data, 0).value.0);
  }

  /** The law holds exactly for these messages: for any other, reading back what was written gives an
      error or a different message, because the message would have to take more bytes to read than it has. */
  lemma RoundTripExactly(m: Message)
    ensures Decoding(Encoding(m)) == Ok(m) <==> WireSafe(m)
  {
    hide Uvarint, Zigzag, Prefixed, ReadCost, Decoding, Carried;
    if WireSafe(m) {
      RoundTrip(m, []);
      assert Encoding(m) + [] == Encoding(m);
    }
    if Decoding(Encoding(m)) == Ok(m) {
      DecodingCost(Encoding(m), m);
      FlagsRead(m);
      TypeCodeMeaning(m.typ);
      WrittenCost(LongType(m));
      WrittenCost(m.id);
      WrittenCost(m.sender);
      WrittenCost(m.senderNick);
      WrittenCost(m.recipient);
      WrittenCost(m.payload);
      WrittenCost(m.nonce);
      WrittenCost(m.keyId);
      assert Encoding(m)[0] == FlagsOf(m);
    }
  }

  /** A chat message without text, from its parts: flags, "1", "2", timestamp 0, 16 hops to live, none taken. */
  const EMPTY_CHAT := Message([49], CHAT, [50], [], [], [], 0, 16, 0, 0, 0, [], [])

  /** It is written in eight bytes. The reader takes the timestamp for its text, the time to live for its
      timestamp, and finds the counters missing. */
  lemma EmptyPayloadUnreadable()
    ensures Encoding(EMPTY_CHAT) == [0, 1, 49, 1, 50, 0, 16, 0]
    ensures Decoding(Encoding(EMPTY_CHAT)) == Err(TruncatedCounters)
  {
    hide Decoding, Take, TakeTimestamp, Encoding;
    EmptyChatWritten();
    ReadShort([49], [1, 50, 0, 16, 0]);
    ReadShort([50], [0, 16, 0]);
    assert [1] + [49] == [1, 49] && [1] + [50] == [1, 50];
    ReadNothing([16, 0]);
    ReadSixteen();
    DecodeEmptyChat(Encoding(EMPTY_CHAT));
  }

  lemma EmptyChatWritten()
    ensures Encoding(EMPTY_CHAT) == [0, 1, 49, 1, 50, 0, 16, 0]
  {
    hide Prefixed, Uvarint, FlagsOf, Zigzag;
    var m := EMPTY_CHAT;
    assert Uvarint(Zigzag(m.timestamp)) == [0] by { ZeroWritten(); }
    assert FlagsOf(m) == 0 by { NoFlags(); }
    assert Prefixed([49]) == [1, 49] && Prefixed([50]) == [1, 50] && Prefixed([]) == [] by { ShortWritten(); }
    assert LongType(m) == [];
  }

  lemma NoFlags()
    ensures FlagsOf(EMPTY_CHAT) == 0
  {
  }

  lemma ShortWritten()
    ensures Prefixed([49]) == [1, 49] && Prefixed([50]) == [1, 50] && Prefixed([]) == []
  {
  }

  /** A full alert, byte by byte: type code 2 above four presence bits, each string behind its length, the
      timestamp -1 as 1, then the counters. */
  lemma AlertWritten()
    ensures
      Encoding(Message([11], SOS, [12], [13], [14], [15], -1, 64, 3, 0, 0, [16], [17]))
        == [47, 1, 11, 1, 12, 1, 13, 1, 14, 1, 15, 1, 64, 3, 1, 16, 1, 17]
  {
    hide Prefixed, Uvarint, FlagsOf, Zigzag;
    var m := Message([11], SOS, [12], [13], [14], [15], -1, 64, 3, 0, 0, [16], [17]);
    assert Uvarint(Zigzag(m.timestamp)) == [1] by { MinusOneWritten(); }
    assert FlagsOf(m) == 47 by { AllFlags(m); }
    forall x: Byte
      ensures Prefixed([x]) == [1, x]
    {
      StringForms([x]);
    }
    assert Prefixed([]) == [] by { StringForms([]); }
    assert LongType(m) == [];
    PiecesJoined();
  }

  lemma PiecesJoined()
    ensures
      var pieces: seq<Byte> := [47] + [] + [1, 11] + [1, 12] + [1, 13] + [1, 14] + [1, 15] + [1] + [64, 3] + [1, 16] + [1, 17];
      pieces == [47, 1, 11, 1, 12, 1, 13, 1, 14, 1, 15, 1, 64, 3, 1, 16, 1, 17]
  {
  }

  lemma MinusOneWritten()
    ensures Uvarint(Zigzag(-1)) == [1]
  {
  }

  lemma AllFlags(m: Message)
    requires m.typ == SOS && m.senderNick != [] && m.recipient != [] && m.nonce != [] && m.keyId != []
    ensures FlagsOf(m) == 47
  {
    TypeCodes();
  }

  /** The forms of a string: nothing, one length byte, or 255 and two bytes, the high one first. */
  lemma StringForms(s: Text)
    requires |s| <= 65535
    ensures Prefixed(s) ==
              if s == [] then []
              else if |s| <= 255 then [|s|] + s
              else [255, |s| / 256, |s| % 256] + s
  {
  }

  lemma TypeCodes()
    ensures TypeCode(CHAT) == 0 && TypeCode(FILE) == 1 && TypeCode(SOS) == 2
    ensures TypeCode(DELIVERY_ACK) == 3 && TypeCode(PEER_INFO) == 4 && TypeCode(KEY_EXCHANGE) == 5
    ensures forall t :: t !in [CHAT, FILE, SOS, DELIVERY_ACK, PEER_INFO, KEY_EXCHANGE] ==> TypeCode(t) == 15
  {
    assert |CHAT| == 4 && |FILE| == 4 && |SOS| == 3 && |DELIVERY_ACK| == 12 && |PEER_INFO| == 9 && |KEY_EXCHANGE| == 12;
    assert FILE[0] == 102 && PEER_INFO[0] == 112 && KEY_EXCHANGE[0] == 107 && CHAT[0] == 99 && DELIVERY_ACK[0] == 100;
  }

  lemma ZeroWritten()
    ensures Uvarint(Zigzag(0)) == [0]
  {
  }

  lemma ReadShort(s: Text, rest: seq<Byte>)
    requires 0 < |s| < 255
    ensures Take(true, [|s|] + s + rest) == Ok((s, rest))
  {
    assert [|s|] + s + rest == Prefixed(s) + rest;
    TakeWritten(s, true, rest);
  }

  lemma ReadNothing(rest: seq<Byte>)
    ensures Take(true, [0] + rest) == Ok(([], rest))
  {
  }

  lemma ReadSixteen()
    ensures TakeTimestamp([16, 0]) == Ok((8, [0]))
  {
    assert ReadUvarint([16, 0], 0) == Some((16, 1));
  }

  lemma DecodeEmptyChat(data: seq<Byte>)
    requires data == [0, 1, 49, 1, 50, 0, 16, 0]
    requires Take(true, [1, 49] + [1, 50, 0, 16, 0]) == Ok(([49], [1, 50, 0, 16, 0]))
    requires Take(true, [1, 50] + [0, 16, 0]) == Ok(([50], [0, 16, 0]))
    requires Take(true, [0] + [16, 0]) == Ok(([], [16, 0]))
    requires TakeTimestamp([16, 0]) == Ok((8, [0]))
    ensures Decoding(data) == Err(TruncatedCounters)
  {
    hide TakeTimestamp, GetString;
    assert data[1..] == [1, 49] + [1, 50, 0, 16, 0];
    assert [1, 50] + [0, 16, 0] == [1, 50, 0, 16, 0];
    assert [0] + [16, 0] == [0, 16, 0];
  }

  // ------------------------------------------------------------ the procedures

  /** Fills a buffer with the length prefix and the bytes. */
  method PutString(s: Text) returns (out: array<Byte>)
    ensures fresh(out) && out[..] == Prefixed(s)
  {
    if s == [] {
      out := new Byte[0];
      return;
    }
    if |s| <= 255 {
      out := new Byte[1 + |s|](_ => 0);
      out[0] := |s|;
      CopyInto(out, 1, s);
      assert out[..] == [out[0]] + out[1..];
      return;
    }
    out := new Byte[3 + |s|](_ => 0);
    out[0] := 255;
    out[1], out[2] := (|s| % 65536) / 256, |s| % 256;
    CopyInto(out, 3, s);
    assert out[..] == [out[0], out[1], out[2]] + out[3..];
  }

  /** The copy of a whole string behind the first `at` bytes. */
  method CopyInto(out: array<Byte>, at: nat, s: Text)
    requires out.Length == at + |s|
    modifies out
    ensures out[..at] == old(out[..at]) && out[at..] == s
  {
    for i := 0 to |s|
      invariant out[..at] == old(out[..at])
      invariant forall j :: 0 <= j < i ==> out[at + j] == s[j]
    {
      out[at + i] := s[i];
    }
  }

  /** Sets the presence bits, then the type code above them. */
  method FlagsByte(m: Message) returns (flags: Byte)
    ensures flags == FlagsOf(m)
  {
    hide TypeToShort, ShortToType;
    var low := 0;
    if m.senderNick != [] {
      low := low + 1;
    }
    if m.recipient != [] {
      low := low + 2;
    }
    if m.nonce != [] {
      low := low + 4;
    }
    if m.keyId != [] {
      low := low + 8;
    }
    assert low == Flag(m.senderNick, 1) + Flag(m.recipient, 2) + Flag(m.nonce, 4) + Flag(m.keyId, 8);
    assert low % 16 == low;
    var code := TypeToShort(m.typ);
    if code.Some? && |m.typ| <= MAX_SHORT_LEN {
      flags := code.value * 16 + low % 16;
    } else {
      flags := LONG_FORM * 16 + low % 16;
    }
  }

  /** Appends the fields one after the other. */
  method Marshal(m: Message) returns (buf: seq<Byte>)
    ensures buf == Encoding(m)
  {
    hide Prefixed, Uvarint, Zigzag, FlagsOf;
    var flags := FlagsByte(m);
    buf := [flags];
    var code := TypeToShort(m.typ);
    buf := AppendIf(code.None?, buf, LongType(m));
    buf := AppendIf(true, buf, m.id);
    buf := AppendIf(true, buf, m.sender);
    buf := AppendIf(m.senderNick != [], buf, m.senderNick);
    buf := AppendIf(m.recipient != [], buf, m.recipient);
    buf := AppendIf(m.payload != [], buf, m.payload);
    buf := buf + Uvarint(Zigzag(m.timestamp));
    var ttl := if m.ttl > 255 then 255 else m.ttl;
    var hops := if m.hopCount > 255 then 255 else m.hopCount;
    buf := buf + [ttl % 256, hops % 256];
    buf := AppendIf(m.nonce != [], buf, m.nonce);
    buf := AppendIf(m.keyId != [], buf, m.keyId);
  }

  method AppendIf(present: bool, buf: seq<Byte>, s: Text) returns (r: seq<Byte>)
    requires !present ==> s == []
    ensures r == buf + Prefixed(s)
  {
    r := buf;
    if present {
      var b := PutString(s);
      r := r + b[..];
    }
  }

  /** The next string from an offset, when it is present; the offset behind it, or the failure. */
  method Next(data: seq<Byte>, off: nat, present: bool) returns (s: Text, end: nat, failure: Option<Failure>)
    requires off <= |data|
    ensures
      match Take(present, data[off..])
      case Ok((t, rest)) => failure.None? && s == t && off <= end <= |data| && data[end..] == rest
      case Err(e) => failure == Some(e)
  {
    s, end, failure := [], off, None;
    if present {
      var r := GetString(data[off..]);
      if r.Err? {
        failure := Some(r.error);
        return;
      }
      s, end := r.value.0, off + r.value.1;
      assert data[off..][r.value.1..] == data[end..];
    }
  }

  method NextType(data: seq<Byte>, off: nat, code: nat) returns (typ: Text, end: nat, failure: Option<Failure>)
    requires off <= |data| && code < 16
    ensures
      match TakeType(code, data[off..])
      case Ok((t, rest)) => failure.None? && typ == t && off <= end <= |data| && data[end..] == rest
      case Err(e) => failure == Some(e)
  {
    if code == LONG_FORM {
      typ, end, failure := Next(data, off, true);
      return;
    }
    var known := ShortToType(code);
    if known.None? {
      return [], off, Some(UnknownTypeCode);
    }
    return known.value, off, None;
  }

  method NextTimestamp(data: seq<Byte>, off: nat) returns (timestamp: Int64, end: nat, failure: Option<Failure>)
    requires off <= |data|
    ensures
      match TakeTimestamp(data[off..])
      case Ok((t, rest)) => failure.None? && timestamp == t && off <= end <= |data| && data[end..] == rest
      case Err(e) => failure == Some(e)
  {
    var ts := ReadUvarint(data[off..], 0);
    if ts.None? {
      return 0, off, Some(BadTimestamp);
    }
    UvarintShortest(data[off..], 0);
    UvarintRange(data[off..], 0);
    end := off + ts.value.1;
    assert data[off..][ts.value.1..] == data[end..];
    return Unzigzag(ts.value.0), end, None;
  }

  /** Advances an offset through the data, field by field. */
  method Unmarshal(data: seq<Byte>) returns (r: Result<Message, Failure>)
    ensures r == Decoding(data)
  {
    hide Take, TakeType, TakeTimestamp;
    if |data| < 2 {
      return Err(TooShort);
    }
    var flags: nat := data[0];
    var off := 1;
    var failure: Option<Failure>;
    var typ: Text;
    typ, off, failure := NextType(data, off, flags / 16);
    if failure.Some? {
      return Err(failure.value);
    }
    var id, sender, senderNick, recipient, payload, nonce, keyId: Text;
    id, off, failure := Next(data, off, true);
    if failure.Some? {
      return Err(failure.value);
    }
    if id == [] {
      return Err(MissingId);
    }
    sender, off, failure := Next(data, off, true);
    if failure.Some? {
      return Err(failure.value);
    }
    senderNick, off, failure := Next(data, off, flags % 2 == 1);
    if failure.Some? {
      return Err(failure.value);
    }
    recipient, off, failure := Next(data, off, flags / 2 % 2 == 1);
    if failure.Some? {
      return Err(failure.value);
    }
    payload, off, failure := Next(data, off, true);
    if failure.Some? {
      return Err(failure.value);
    }
    var timestamp: Int64;
    timestamp, off, failure := NextTimestamp(data, off);
    if failure.Some? {
      return Err(failure.value);
    }
    if off + 2 > |data| {
      return Err(TruncatedCounters);
    }
    var ttl, hopCount := data[off], data[off + 1];
    assert data[off..][2..] == data[off + 2..];
    off := off + 2;
    nonce, off, failure := Next(data, off, flags / 4 % 2 == 1);
    if failure.Some? {
      return Err(failure.value);
    }
    keyId, off, failure := Next(data, off, flags / 8 % 2 == 1);
    if failure.Some? {
      return Err(failure.value);
    }
    return Ok(Message(id, typ, sender, senderNick, recipient, payload, timestamp, ttl, hopCount, 0, 0, nonce, keyId));
  }

  // ------------------------------------------------------------------ frames

  function Joined(frames: seq<seq<Byte>>): seq<Byte> {
    if frames == [] then [] else Joined(frames[..|frames| - 1]) + frames[|frames| - 1]
  }

  /** Cuts the data into frames of at most MTU bytes, all full but the last. */
  method MTUFriendlySplit(data: seq<Byte>) returns (frames: seq<seq<Byte>>)
    ensures Joined(frames) == data && frames != []
    ensures forall i :: 0 <= i < |frames| - 1 ==> |frames[i]| == MTU
    ensures |frames[|frames| - 1]| <= MTU
    ensures data != [] ==> frames[|frames| - 1] != []
  {
    if |data| <= MTU {
      frames := [data];
      assert frames[..0] == [];
      return;
    }
    frames := [];
    var i := 0;
    while i < |data|
      invariant 0 <= i && Joined(frames) == data[..if i < |data| then i else |data|]
      invariant i > 0 ==> frames != []
      invariant i < |data| ==> forall j :: 0 <= j < |frames| ==> |frames[j]| == MTU
      invariant forall j :: 0 <= j < |frames| - 1 ==> |frames[j]| == MTU
      invariant frames != [] ==> 0 < |frames[|frames| - 1]| <= MTU
      decreases |data| - i
    {
      var end := i + MTU;
      if end > |data| {
        end := |data|;
      }
      assert (frames + [data[i..end]])[..|frames|] == frames;
      assert data[..i] + data[i..end] == data[..end];
      frames := frames + [data[i..end]];
      i := i + MTU;
    }
    assert data[..|data|] == data;
  }

  /** A message the format carries survives being written, cut into frames, put together again and read. */
  method SendInFrames(m: Message) returns (r: Result<Message, Failure>)
    ensures WireSafe(m) <==> r == Ok(m)
  {
    var buf := Marshal(m);
    var frames := MTUFriendlySplit(buf);
    var data: seq<Byte> := [];
    for i := 0 to |frames|
      invariant data == Joined(frames[..i])
    {
      assert frames[..i + 1][..i] == frames[..i];
      data := data + frames[i];
    }
    assert frames[..|frames|] == frames;
    r := Unmarshal(data);
    RoundTripExactly(m);
  }
}
