/**
 The variable-length integers of the touch input channel (channels/rdpei/rdpei_common.c; section 2.2.2 of
 MS-RDPEI), as byte sequences. Words are bit vectors of the source's widths; signed ones are read as two's
 complement. A first byte holds the length, possibly a sign, and the top bits of the value; the bytes that
 follow hold the rest, most significant first.
*/
module VarInt {
  import opened Common

  // ---- a word and its bytes

  function Down(w: bv64): bv64 { w >> (8 as bv6) }

  function LowByte(w: bv64): bv8 { (w & 0xFF) as bv8 }

  function Push(w: bv64, b: bv8): bv64 { (w << (8 as bv6)) | b as bv64 }

  /** What is left of a word above its n low bytes. */
  function Top(w: bv64, n: nat): bv64
    decreases n
  {
    if n == 0 then w else Top(Down(w), n - 1)
  }

  /** The n low bytes of a word, most significant first. */
  function Tail(w: bv64, n: nat): (s: seq<bv8>)
    ensures |s| == n
    decreases n
  {
    if n == 0 then [] else Tail(Down(w), n - 1) + [LowByte(w)]
  }

  /** The word with some top bits above a run of bytes. */
  function Join(top: bv64, s: seq<bv8>): bv64 {
    if s == [] then top else Push(Join(top, s[..|s| - 1]), s[|s| - 1])
  }

  /** Every bit of v is a bit of w. */
  predicate Within(v: bv64, w: bv64) { v & w == v }

  /** How many bytes must follow a first byte that has room for some bits; at most bound are tried. */
  function Extra(w: bv64, room: bv64, bound: nat): (n: nat)
    ensures n <= bound
    decreases bound
  {
    if Within(w, room) || bound == 0 then 0 else 1 + Extra(Down(w), room, bound - 1)
  }

  lemma PushDown(w: bv64)
    ensures Push(Down(w), LowByte(w)) == w
  {}

  lemma WithinDown(v: bv64, w: bv64)
    requires Within(v, w)
    ensures Within(Down(v), Down(w))
  {}

  lemma WithinTrans(u: bv64, v: bv64, w: bv64)
    requires Within(u, v) && Within(v, w)
    ensures Within(u, w)
  {}

  lemma {:induction false} JoinTail(w: bv64, n: nat)
    ensures Join(Top(w, n), Tail(w, n)) == w
    decreases n
  {
    hide Down, Push, LowByte;
    if n > 0 {
      var s := Tail(w, n);
      assert s[..n - 1] == Tail(Down(w), n - 1);
      JoinTail(Down(w), n - 1);
      PushDown(w);
    }
  }

  /** The top bits fit the first byte when enough bytes follow, for the word and for any smaller one. */
  lemma {:induction false} TopFits(v: bv64, w: bv64, room: bv64, bound: nat)
    requires Within(v, w) && Within(Top(w, bound), room)
    ensures Within(Top(v, Extra(w, room, bound)), room)
    decreases bound
  {
    hide Down, Within;
    if Within(w, room) || bound == 0 {
      WithinTrans(v, w, room);
    } else {
      WithinDown(v, w);
      TopFits(Down(v), Down(w), room, bound - 1);
    }
  }

  // ---- the five first-byte layouts

  datatype Kind = KU2 | KS2 | KU4 | KS4 | KU8

  /** The value bits of a first byte. */
  function Room(k: Kind): bv8 {
    match k case KU2 => 0x7F case KS2 => 0x3F case KU4 => 0x3F case KS4 => 0x1F case KU8 => 0x1F
  }

  /** The greatest number of bytes that can follow. */
  function Most(k: Kind): nat {
    match k case KU2 => 1 case KS2 => 1 case KU4 => 3 case KS4 => 3 case KU8 => 7
  }

  function SignBit(k: Kind): bv8 {
    match k case KS2 => 0x40 case KS4 => 0x20 case _ => 0
  }

  /** The length bits for n more bytes. */
  function LengthTag(k: Kind, n: nat): bv8
    requires n <= Most(k)
  {
    match k
    case KU2 | KS2 => if n == 0 then 0 else 0x80
    case KU4 | KS4 => if n == 0 then 0 else if n == 1 then 0x40 else if n == 2 then 0x80 else 0xC0
    case KU8 =>
      if n == 0 then 0 else if n == 1 then 0x20 else if n == 2 then 0x40 else if n == 3 then 0x60
      else if n == 4 then 0x80 else if n == 5 then 0xA0 else if n == 6 then 0xC0 else 0xE0
  }

  /** How many bytes a reader takes after this first byte. */
  function Following(k: Kind, first: bv8): (n: nat)
    ensures n <= Most(k)
  {
    match k
    case KU2 | KS2 => if first & 0x80 == 0 then 0 else 1
    case KU4 | KS4 =>
      if first & 0xC0 == 0 then 0 else if first & 0xC0 == 0x40 then 1 else if first & 0xC0 == 0x80 then 2 else 3
    case KU8 =>
      if first & 0xE0 == 0 then 0 else if first & 0xE0 == 0x20 then 1 else if first & 0xE0 == 0x40 then 2
      else if first & 0xE0 == 0x60 then 3 else if first & 0xE0 == 0x80 then 4 else if first & 0xE0 == 0xA0 then 5
      else if first & 0xE0 == 0xC0 then 6 else 7
  }

  function First(k: Kind, negative: bool, top: bv8, n: nat): bv8
    requires n <= Most(k)
  {
    (top & Room(k)) | LengthTag(k, n) | (if negative then SignBit(k) else 0)
  }

  function ValueBits(k: Kind, first: bv8): bv64 { (first & Room(k)) as bv64 }

  predicate SignSet(k: Kind, first: bv8) { first & SignBit(k) != 0 }

  function RoomBits(k: Kind): bv64 {
    match k case KU2 => 0x7F case KS2 => 0x3F case KU4 => 0x3F case KS4 => 0x1F case KU8 => 0x1F
  }

  lemma FirstBits(k: Kind, negative: bool, b: bv8, n: nat)
    requires n <= Most(k) && b & Room(k) == b && (negative ==> k.KS2? || k.KS4?)
    ensures Following(k, First(k, negative, b, n)) == n
    ensures First(k, negative, b, n) & Room(k) == b
    ensures SignSet(k, First(k, negative, b, n)) == negative
  {}

  lemma TopByte(k: Kind, top: bv64)
    requires Within(top, RoomBits(k))
    ensures LowByte(top) & Room(k) == LowByte(top) && LowByte(top) as bv64 == top
  {}

  lemma ValueOf(k: Kind, first: bv8, b: bv8)
    requires first & Room(k) == b
    ensures ValueBits(k, first) == b as bv64
  {}

  lemma FirstByte(k: Kind, negative: bool, top: bv64, n: nat)
    requires n <= Most(k) && Within(top, RoomBits(k)) && (negative ==> k.KS2? || k.KS4?)
    ensures Following(k, First(k, negative, LowByte(top), n)) == n
    ensures ValueBits(k, First(k, negative, LowByte(top), n)) == top
    ensures SignSet(k, First(k, negative, LowByte(top), n)) == negative
  {
    TopByte(k, top);
    FirstBits(k, negative, LowByte(top), n);
    ValueOf(k, First(k, negative, LowByte(top), n), LowByte(top));
    hide *;
  }

  // ---- one value as bytes

  /** A magnitude and sign in a given number of following bytes. */
  function Pack(k: Kind, negative: bool, w: bv64, n: nat): (s: seq<bv8>)
    requires n <= Most(k)
    ensures |s| == n + 1
  {
    [First(k, negative, LowByte(Top(w, n)), n)] + Tail(w, n)
  }

  /** What a reader makes of the bytes before it: sign, magnitude, and bytes taken. */
  function Unpack(k: Kind, s: seq<bv8>): Option<(bool, bv64, nat)> {
    if |s| < 1 || |s| < 1 + Following(k, s[0]) then None
    else Some((SignSet(k, s[0]), Join(ValueBits(k, s[0]), s[1..1 + Following(k, s[0])]), 1 + Following(k, s[0])))
  }

  lemma {:induction false} UnpackPack(k: Kind, negative: bool, w: bv64, n: nat, rest: seq<bv8>)
    requires n <= Most(k) && Within(Top(w, n), RoomBits(k)) && (negative ==> k.KS2? || k.KS4?)
    ensures Unpack(k, Pack(k, negative, w, n) + rest) == Some((negative, w, n + 1))
  {
    hide Within, RoomBits, First, Following, SignSet, ValueBits, LowByte, Join, Tail, Top, Most;
    var s := Pack(k, negative, w, n) + rest;
    FirstByte(k, negative, Top(w, n), n);
    assert s[1..1 + n] == Tail(w, n);
    JoinTail(w, n);
  }

  /** The bits a value of a kind can use. */
  function RoomFor(room: bv64, n: nat): bv64 { if n == 0 then room else Push(RoomFor(room, n - 1), 0xFF) }

  lemma PushWithin(w: bv64, m: bv64, b: bv8)
    requires Within(w, m)
    ensures Within(Push(w, b), Push(m, 0xFF))
  {}

  lemma {:induction false} JoinWithin(top: bv64, room: bv64, s: seq<bv8>)
    requires Within(top, room)
    ensures Within(Join(top, s), RoomFor(room, |s|))
  {
    hide Within, Push;
    if s != [] {
      JoinWithin(top, room, s[..|s| - 1]);
      PushWithin(Join(top, s[..|s| - 1]), RoomFor(room, |s| - 1), s[|s| - 1]);
    }
  }

  // ---- the five writers and readers

  datatype Item = U2(u2: bv16) | S2(s2: bv16) | U4(u4: bv32) | S4(s4: bv32) | U8(u8: bv64)

  function KindOf(i: Item): Kind {
    match i case U2(_) => KU2 case S2(_) => KS2 case U4(_) => KU4 case S4(_) => KS4 case U8(_) => KU8
  }

  /** Bits 29-31, 37-39, 45-47 and 53-55: what the five-bit masks of the 8-byte writer drop. */
  const DROPPED: bv64 := 0x00E0_E0E0_E000_0000

  predicate Negative16(v: bv16) { v & 0x8000 != 0 }
  predicate Negative32(v: bv32) { v & 0x8000_0000 != 0 }

  function Minus16(v: bv16): bv16 { 0 - v }
  function Minus32(v: bv32): bv32 { 0 - v }

  /** C's negation of a negative value, which leaves the minimum as it is. */
  function Abs16(v: bv16): bv16 { if Negative16(v) then Minus16(v) else v }
  function Abs32(v: bv32): bv32 { if Negative32(v) then Minus32(v) else v }

  function Wide16(v: bv16): bv64 { v as bv64 }
  function Wide32(v: bv32): bv64 { v as bv64 }
  function Word16(w: bv64): bv16 { (w & 0xFFFF) as bv16 }
  function Word32(w: bv64): bv32 { (w & 0xFFFF_FFFF) as bv32 }

  /** The magnitude a writer puts on the wire; the minimum signed value keeps none of its bits. */
  function Magnitude(i: Item): bv64 {
    match i
    case U2(v) => Wide16(v)
    case S2(v) => if v == 0x8000 then 0 else Wide16(Abs16(v))
    case U4(v) => Wide32(v)
    case S4(v) => if v == 0x8000_0000 then 0 else Wide32(Abs32(v))
    case U8(v) => v
  }

  predicate Negative(i: Item) {
    (i.S2? && Negative16(i.s2)) || (i.S4? && Negative32(i.s4))
  }

  /** The number of following bytes; the 2-byte writers start the longer form one value early. */
  function Length(i: Item): (n: nat)
    ensures n <= Most(KindOf(i))
  {
    match i
    case U2(v) => if v >= 0x7F then 1 else 0
    case S2(_) => if Magnitude(i) >= 0x3F then 1 else 0
    case _ => Extra(Magnitude(i), RoomBits(KindOf(i)), Most(KindOf(i)))
  }

  /** The bits of the magnitude that are written. */
  function Written(i: Item): bv64 { if i.U8? then Magnitude(i) & !DROPPED else Magnitude(i) }

  /** A writer takes a value whose magnitude fits the longest form. */
  predicate Fits(i: Item) { Within(Top(Magnitude(i), Most(KindOf(i))), RoomBits(KindOf(i))) }

  function Encode(i: Item): Option<seq<bv8>> {
    if !Fits(i) then None
    else Some(Pack(KindOf(i), Negative(i), Written(i), Length(i)))
  }

  function ItemOf(k: Kind, negative: bool, w: bv64): Item {
    match k
    case KU2 => U2(Word16(w))
    case KS2 => S2(if negative then Minus16(Word16(w)) else Word16(w))
    case KU4 => U4(Word32(w))
    case KS4 => S4(if negative then Minus32(Word32(w)) else Word32(w))
    case KU8 => U8(w)
  }

  /** The value read and the number of bytes it took. */
  function Decode(k: Kind, s: seq<bv8>): Option<(Item, nat)> {
    var r := Unpack(k, s);
    if r.None? then None else Some((ItemOf(k, r.value.0, r.value.1), r.value.2))
  }

  /** What a written value comes back as. */
  function Canonical(i: Item): Item {
    match i
    case S2(v) => if v == 0x8000 then S2(0) else i
    case S4(v) => if v == 0x8000_0000 then S4(0) else i
    case U8(v) => U8(v & !DROPPED)
    case _ => i
  }

  /** The values a writer takes; the minimum signed value is taken although it is out of range. */
  predicate Encodable(i: Item) {
    match i
    case U2(v) => v <= 0x7FFF
    case S2(v) => v == 0x8000 || Abs16(v) <= 0x3FFF
    case U4(v) => v <= 0x3FFF_FFFF
    case S4(v) => v == 0x8000_0000 || Abs32(v) <= 0x1FFF_FFFF
    case U8(v) => v <= 0x1FFF_FFFF_FFFF_FFFF
  }

  // ---- what holds of them

  lemma TopUnfolds(w: bv64)
    ensures Top(w, 1) == Down(w)
    ensures Top(w, 3) == Down(Down(Down(w)))
    ensures Top(w, 7) == Down(Down(Down(Down(Down(Down(Down(w)))))))
  {}

  lemma InRange16(v: bv16)
    ensures Within(Down(Wide16(v)), 0x7F) <==> v <= 0x7FFF
    ensures Within(Down(Wide16(v)), 0x3F) <==> v <= 0x3FFF
  {}

  lemma InRange32(v: bv32)
    ensures Within(Down(Down(Down(Wide32(v)))), 0x3F) <==> v <= 0x3FFF_FFFF
    ensures Within(Down(Down(Down(Wide32(v)))), 0x1F) <==> v <= 0x1FFF_FFFF
  {}

  lemma InRange64(v: bv64)
    ensures Within(Down(Down(Down(Down(Down(Down(Down(v))))))), 0x1F) <==> v <= 0x1FFF_FFFF_FFFF_FFFF
  {}

  lemma ZeroInRange()
    ensures Within(Down(0), 0x3F) && Within(Down(Down(Down(0))), 0x1F)
  {}

  /** Negation undoes itself, and widening a word loses nothing. */
  lemma Words16(v: bv16)
    ensures Minus16(Minus16(v)) == v && Word16(Wide16(v)) == v
  {}

  lemma Words32(v: bv32)
    ensures Minus32(Minus32(v)) == v && Word32(Wide32(v)) == v
  {}

  lemma ZeroWords()
    ensures Minus16(Word16(0)) == 0 && Minus32(Word32(0)) == 0
    ensures Negative16(0x8000) && Negative32(0x8000_0000)
  {}

  lemma SmallWords(v: bv64)
    ensures Within(v & !DROPPED, v) && Within(v, v)
    ensures v < 0x7F ==> Within(v, 0x7F)
    ensures v < 0x3F ==> Within(v, 0x3F)
  {}

  /** What the longest form leaves above its last byte. */
  function Above(k: Kind, w: bv64): bv64 {
    match k
    case KU2 | KS2 => Down(w)
    case KU4 | KS4 => Down(Down(Down(w)))
    case KU8 => Down(Down(Down(Down(Down(Down(Down(w)))))))
  }

  lemma TopIs(k: Kind, w: bv64)
    ensures Top(w, Most(k)) == Above(k, w)
  {
    hide Down, Top;
    TopUnfolds(w);
  }

  lemma FitsAre(i: Item)
    ensures Fits(i) <==> Within(Above(KindOf(i), Magnitude(i)), RoomBits(KindOf(i)))
  {
    hide Down, Within, Top, Magnitude, RoomBits, Above, Most;
    TopIs(KindOf(i), Magnitude(i));
  }


  lemma MagnitudeIs(i: Item)
    ensures i.U2? ==> Magnitude(i) == Wide16(i.u2)
    ensures i.S2? ==> Magnitude(i) == if i.s2 == 0x8000 then 0 else Wide16(Abs16(i.s2))
    ensures i.U4? ==> Magnitude(i) == Wide32(i.u4)
    ensures i.S4? ==> Magnitude(i) == if i.s4 == 0x8000_0000 then 0 else Wide32(Abs32(i.s4))
    ensures i.U8? ==> Magnitude(i) == i.u8
  {}

  lemma TopFitsRoom(i: Item)
    requires Fits(i)
    ensures Within(Top(Written(i), Length(i)), RoomBits(KindOf(i)))
  {
    hide Down, Within, Magnitude, Abs16, Abs32, Extra;
    var m, k := Magnitude(i), KindOf(i);
    MagnitudeIs(i);
    SmallWords(m);
    match i
    case U2(_) =>
    case S2(_) =>
    case U4(_) => TopFits(m, m, RoomBits(k), Most(k));
    case S4(_) => TopFits(m, m, RoomBits(k), Most(k));
    case U8(_) => TopFits(m & !DROPPED, m, RoomBits(k), Most(k));
  }

  lemma RangeU2(v: bv16)
    ensures Fits(U2(v)) <==> v <= 0x7FFF
  {
    hide Down, Within, Fits, Magnitude, Wide16;
    FitsAre(U2(v));
    MagnitudeIs(U2(v));
    InRange16(v);
  }

  lemma RangeS2(v: bv16)
    ensures Fits(S2(v)) <==> v == 0x8000 || Abs16(v) <= 0x3FFF
  {
    hide Down, Within, Fits, Magnitude, Wide16, Abs16;
    FitsAre(S2(v));
    MagnitudeIs(S2(v));
    ZeroInRange();
    InRange16(Abs16(v));
  }

  lemma RangeU4(v: bv32)
    ensures Fits(U4(v)) <==> v <= 0x3FFF_FFFF
  {
    hide Down, Within, Fits, Magnitude, Wide32;
    FitsAre(U4(v));
    MagnitudeIs(U4(v));
    InRange32(v);
  }

  lemma RangeS4(v: bv32)
    ensures Fits(S4(v)) <==> v == 0x8000_0000 || Abs32(v) <= 0x1FFF_FFFF
  {
    hide Down, Within, Fits, Magnitude, Wide32, Abs32;
    FitsAre(S4(v));
    MagnitudeIs(S4(v));
    ZeroInRange();
    InRange32(Abs32(v));
  }

  lemma RangeU8(v: bv64)
    ensures Fits(U8(v)) <==> v <= 0x1FFF_FFFF_FFFF_FFFF
  {
    hide Down, Within, Fits, Magnitude;
    FitsAre(U8(v));
    MagnitudeIs(U8(v));
    InRange64(v);
  }

  lemma EncodableIff(i: Item)
    ensures Encode(i).Some? <==> Encodable(i)
  {
    hide Fits, Magnitude, Pack, Abs16, Abs32;
    match i
    case U2(v) => RangeU2(v);
    case S2(v) => RangeS2(v);
    case U4(v) => RangeU4(v);
    case S4(v) => RangeS4(v);
    case U8(v) => RangeU8(v);
  }

  /** What a writer puts on the wire is read as the canonical value. */
  lemma ReadsBack(i: Item)
    ensures ItemOf(KindOf(i), Negative(i), Written(i)) == Canonical(i)
  {
    hide Magnitude, Wide16, Wide32, Word16, Word32, Minus16, Minus32, Negative16, Negative32;
    MagnitudeIs(i);
    ZeroWords();
    match i
    case U2(v) => Words16(v);
    case S2(v) => Words16(v); Words16(Abs16(v));
    case U4(v) => Words32(v);
    case S4(v) => Words32(v); Words32(Abs32(v));
    case U8(v) =>
  }

  /** The values that survive a round trip unchanged. */
  predicate Lossless(i: Item) {
    match i
    case S2(v) => v != 0x8000
    case S4(v) => v != 0x8000_0000
    case U8(v) => v & DROPPED == 0
    case _ => true
  }

  lemma CanonicalIff(i: Item)
    ensures Canonical(i) == i <==> Lossless(i)
  {}

  lemma NegativeSigned(i: Item)
    ensures Negative(i) ==> KindOf(i).KS2? || KindOf(i).KS4?
  {}

  lemma {:induction false} RoundTrip(i: Item, rest: seq<bv8>)
    requires Encode(i).Some?
    ensures Decode(KindOf(i), Encode(i).value + rest) == Some((Canonical(i), |Encode(i).value|))
  {
    hide Within, Top, Pack, Unpack, ItemOf, Length, Written, Magnitude, Canonical, RoomBits, Negative;
    TopFitsRoom(i);
    ReadsBack(i);
    NegativeSigned(i);
    UnpackPack(KindOf(i), Negative(i), Written(i), Length(i), rest);
  }

  lemma SelfDelimiting(k: Kind, s: seq<bv8>, t: seq<bv8>, m: nat)
    requires Decode(k, s).Some? && m < Decode(k, s).value.1
    ensures Decode(k, s).value.1 <= |s|
    ensures Decode(k, s[..Decode(k, s).value.1] + t) == Decode(k, s)
    ensures Decode(k, s[..m]).None?
  {}

  // ---- several values one after the other

  function EncodeAll(items: seq<Item>): Option<seq<bv8>> {
    if items == [] then Some([])
    else if Encode(items[0]).None? || EncodeAll(items[1..]).None? then None
    else Some(Encode(items[0]).value + EncodeAll(items[1..]).value)
  }

  function DecodeAll(kinds: seq<Kind>, s: seq<bv8>): Option<(seq<Item>, nat)> {
    if kinds == [] then Some(([], 0)) else
    var r := Decode(kinds[0], s);
    if r.None? || r.value.1 > |s| then None else
    var t := DecodeAll(kinds[1..], s[r.value.1..]);
    if t.None? then None else Some(([r.value.0] + t.value.0, r.value.1 + t.value.1))
  }

  function Kinds(items: seq<Item>): (r: seq<Kind>)
    ensures |r| == |items|
  {
    if items == [] then [] else [KindOf(items[0])] + Kinds(items[1..])
  }

  function CanonicalAll(items: seq<Item>): (r: seq<Item>)
    ensures |r| == |items|
  {
    if items == [] then [] else [Canonical(items[0])] + CanonicalAll(items[1..])
  }

  lemma {:induction false} AllEncodable(items: seq<Item>)
    ensures EncodeAll(items).Some? <==> forall i :: i in items ==> Encodable(i)
  {
    hide Encode, Encodable;
    if items != [] {
      EncodableIff(items[0]);
      AllEncodable(items[1..]);
      assert items == [items[0]] + items[1..];
    }
  }

  lemma {:induction false} ListRoundTrip(items: seq<Item>, rest: seq<bv8>)
    requires EncodeAll(items).Some?
    ensures DecodeAll(Kinds(items), EncodeAll(items).value + rest)
         == Some((CanonicalAll(items), |EncodeAll(items).value|))
  {
    hide Encode, Decode, Canonical, KindOf;
    if items != [] {
      var head, tail := Encode(items[0]).value, EncodeAll(items[1..]).value;
      var s := EncodeAll(items).value + rest;
      assert s == head + (tail + rest);
      RoundTrip(items[0], tail + rest);
      assert s[|head|..] == tail + rest;
      assert Kinds(items)[1..] == Kinds(items[1..]);
      ListRoundTrip(items[1..], rest);
    }
  }

  lemma {:induction false} AllCanonicalIff(items: seq<Item>)
    ensures CanonicalAll(items) == items <==> forall i :: i in items ==> Lossless(i)
  {
    hide Canonical, Lossless;
    if items != [] {
      CanonicalIff(items[0]);
      AllCanonicalIff(items[1..]);
      assert items == [items[0]] + items[1..];
      var c := CanonicalAll(items);
      assert c[0] == Canonical(items[0]) && c[1..] == CanonicalAll(items[1..]);
    }
  }

  /** Written lists come back unchanged, whatever follows them, exactly when no value loses bits. */
  lemma ListRoundTripIff(items: seq<Item>, rest: seq<bv8>)
    requires forall i :: i in items ==> Encodable(i)
    ensures EncodeAll(items).Some?
    ensures DecodeAll(Kinds(items), EncodeAll(items).value + rest) == Some((items, |EncodeAll(items).value|))
       <==> forall i :: i in items ==> Lossless(i)
  {
    hide Encodable, Lossless;
    AllEncodable(items);
    ListRoundTrip(items, rest);
    AllCanonicalIff(items);
  }

  predicate ComesBackAs(i: Item, j: Item) {
    Encode(i).Some? && Decode(KindOf(i), Encode(i).value) == Some((j, |Encode(i).value|))
  }

  lemma ComesBackCanonical(i: Item)
    requires Encodable(i)
    ensures ComesBackAs(i, Canonical(i))
  {
    hide Encode, Decode, Canonical;
    EncodableIff(i);
    var e := Encode(i).value;
    assert e + [] == e;
    RoundTrip(i, []);
  }

  /** Values that the writers take and that come back as zero: both minima, and bit 29 alone. */
  lemma LossyValues()
    ensures ComesBackAs(S2(0x8000), S2(0)) && ComesBackAs(S4(0x8000_0000), S4(0)) && ComesBackAs(U8(0x2000_0000), U8(0))
  {
    hide ComesBackAs;
    ComesBackCanonical(S2(0x8000));
    ComesBackCanonical(S4(0x8000_0000));
    ComesBackCanonical(U8(0x2000_0000));
  }

  // ---- what readers can return

  /** The largest magnitude of each kind, all ones. */
  function Range(k: Kind): bv64 {
    match k
    case KU2 => 0x7FFF case KS2 => 0x3FFF case KU4 => 0x3FFF_FFFF case KS4 => 0x1FFF_FFFF
    case KU8 => 0x1FFF_FFFF_FFFF_FFFF
  }

  lemma RoomForIs(room: bv64)
    ensures RoomFor(room, 1) == Push(room, 0xFF)
    ensures RoomFor(room, 3) == Push(Push(Push(room, 0xFF), 0xFF), 0xFF)
    ensures RoomFor(room, 7) == Push(Push(Push(Push(RoomFor(room, 3), 0xFF), 0xFF), 0xFF), 0xFF)
  {
    hide Push;
    var r := RoomFor(room, 3);
    assert RoomFor(room, 2) == Push(RoomFor(room, 1), 0xFF);
    assert RoomFor(room, 4) == Push(r, 0xFF) && RoomFor(room, 5) == Push(RoomFor(room, 4), 0xFF);
    assert RoomFor(room, 6) == Push(RoomFor(room, 5), 0xFF);
  }

  lemma RoomOf(k: Kind)
    ensures RoomFor(RoomBits(k), Most(k)) == Range(k)
  {
    RoomForIs(RoomBits(k));
  }

  lemma SmallPush(room: bv64)
    requires Within(room, 0xFF)
    ensures Within(room, Push(room, 0xFF))
  {}

  lemma {:induction false} RoomStep(room: bv64, n: nat)
    requires Within(room, 0xFF)
    ensures Within(RoomFor(room, n), RoomFor(room, n + 1))
    decreases n
  {
    hide Within, Push;
    if n == 0 {
      SmallPush(room);
    } else {
      RoomStep(room, n - 1);
      PushWithin(RoomFor(room, n - 1), RoomFor(room, n), 0xFF);
    }
  }

  lemma {:induction false} RoomGrows(room: bv64, n: nat, m: nat)
    requires n <= m && Within(room, 0xFF)
    ensures Within(RoomFor(room, n), RoomFor(room, m))
    decreases m
  {
    hide Within, RoomFor;
    if n == m {
      SmallWords(RoomFor(room, n));
    } else {
      RoomGrows(room, n, m - 1);
      RoomStep(room, m - 1);
      WithinTrans(RoomFor(room, n), RoomFor(room, m - 1), RoomFor(room, m));
    }
  }

  lemma ByteRoom(k: Kind, first: bv8)
    ensures Within(RoomBits(k), 0xFF) && Within(ValueBits(k, first), RoomBits(k))
  {}

  /** No reader gets more bits than its kind has. */
  lemma UnpackWithin(k: Kind, s: seq<bv8>)
    requires Unpack(k, s).Some?
    ensures Within(Unpack(k, s).value.1, Range(k))
    ensures Unpack(k, s).value.0 ==> k.KS2? || k.KS4?
  {
    hide Within, RoomFor, RoomBits, ValueBits, Join, Range, SignSet;
    var n := Following(k, s[0]);
    hide Following, Most;
    var top, t, room := ValueBits(k, s[0]), s[1..1 + n], RoomBits(k);
    ByteRoom(k, s[0]);
    JoinWithin(top, room, t);
    RoomGrows(room, n, Most(k));
    RoomOf(k);
    WithinTrans(Join(top, t), RoomFor(room, n), Range(k));
    SignOnly(k, s[0]);
  }

  lemma SignOnly(k: Kind, first: bv8)
    ensures SignSet(k, first) ==> k.KS2? || k.KS4?
  {}

  lemma Read64(w: bv64)
    requires Within(w, 0x1FFF_FFFF_FFFF_FFFF)
    ensures w <= 0x1FFF_FFFF_FFFF_FFFF
  {}

  lemma ItemRange16(k: Kind, negative: bool, w: bv64)
    requires (k.KU2? || k.KS2?) && Within(w, Range(k)) && (negative ==> k.KS2?)
    ensures KindOf(ItemOf(k, negative, w)) == k && Encodable(ItemOf(k, negative, w)) && Lossless(ItemOf(k, negative, w))
  {}

  lemma ItemRange32(k: Kind, negative: bool, w: bv64)
    requires (k.KU4? || k.KS4?) && Within(w, Range(k)) && (negative ==> k.KS4?)
    ensures KindOf(ItemOf(k, negative, w)) == k && Encodable(ItemOf(k, negative, w)) && Lossless(ItemOf(k, negative, w))
  {}

  /** Whatever a reader returns, its writer takes; only 8-byte values may then lose bits. */
  lemma DecodedIsEncodable(k: Kind, s: seq<bv8>)
    requires Decode(k, s).Some?
    ensures KindOf(Decode(k, s).value.0) == k && Encodable(Decode(k, s).value.0)
    ensures k != KU8 ==> Lossless(Decode(k, s).value.0)
  {
    var (negative, w, n) := Unpack(k, s).value;
    UnpackWithin(k, s);
    hide Unpack, Within, Lossless;
    if k == KU8 {
      Read64(w);
    } else {
      hide Encodable, ItemOf, KindOf, Range;
      if k == KU2 || k == KS2 { ItemRange16(k, negative, w); } else { ItemRange32(k, negative, w); }
    }
  }
}
