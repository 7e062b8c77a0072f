/**
 The read and write functions of channels/rdpei/rdpei_common.c over a stream with a position, each proved to
 put or take exactly the bytes of the byte-sequence codec.
*/
module VarIntStream {
  import opened Common
  import opened VarInt

  // ---- the codec's bytes in the terms of the writers

  lemma {:induction false} TopShifts(w: bv64)
    ensures Top(w, 0) == w
    ensures Top(w, 1) == w >> (8 as bv6) && Top(w, 2) == w >> (16 as bv6) && Top(w, 3) == w >> (24 as bv6)
    ensures Top(w, 4) == w >> (32 as bv6) && Top(w, 5) == w >> (40 as bv6) && Top(w, 6) == w >> (48 as bv6)
    ensures Top(w, 7) == w >> (56 as bv6)
  {
    assert Top(w, 0) == w;
    hide Top;
    TopStep(w, 0); TopStep(w, 1); TopStep(w, 2); TopStep(w, 3); TopStep(w, 4); TopStep(w, 5); TopStep(w, 6);
    Shifts(w);
  }

  lemma {:induction false} TopStep(w: bv64, n: nat)
    ensures Top(w, n + 1) == Down(Top(w, n))
    decreases n
  {
    hide Down;
    if n > 0 {
      TopStep(Down(w), n - 1);
    }
  }

  lemma Shifts(w: bv64)
    ensures Down(w) == w >> (8 as bv6) && Down(w >> (8 as bv6)) == w >> (16 as bv6)
    ensures Down(w >> (16 as bv6)) == w >> (24 as bv6) && Down(w >> (24 as bv6)) == w >> (32 as bv6)
    ensures Down(w >> (32 as bv6)) == w >> (40 as bv6) && Down(w >> (40 as bv6)) == w >> (48 as bv6)
    ensures Down(w >> (48 as bv6)) == w >> (56 as bv6)
  {}

  /** The number of following bytes is the least that leaves few enough top bits. */
  lemma {:induction false} ExtraIs(w: bv64, room: bv64, bound: nat, n: nat)
    requires n <= bound && (n < bound ==> Within(Top(w, n), room))
    requires forall j | 0 <= j < n :: !Within(Top(w, j), room)
    ensures Extra(w, room, bound) == n
    decreases n
  {
    hide Down, Within;
    if n > 0 {
      assert !Within(Top(w, 0), room);
      forall j | 0 <= j < n - 1 ensures !Within(Top(Down(w), j), room) {
        assert Top(w, j + 1) == Top(Down(w), j);
      }
      ExtraIs(Down(w), room, bound - 1, n - 1);
    }
  }

  lemma Thresholds5(w: bv64)
    ensures Within(w, 0x1F) <==> w <= 0x1F
    ensures Within(w >> (8 as bv6), 0x1F) <==> w <= 0x1FFF
    ensures Within(w >> (16 as bv6), 0x1F) <==> w <= 0x1F_FFFF
    ensures Within(w >> (24 as bv6), 0x1F) <==> w <= 0x1FFF_FFFF
    ensures Within(w >> (32 as bv6), 0x1F) <==> w <= 0x1F_FFFF_FFFF
    ensures Within(w >> (40 as bv6), 0x1F) <==> w <= 0x1FFF_FFFF_FFFF
    ensures Within(w >> (48 as bv6), 0x1F) <==> w <= 0x1F_FFFF_FFFF_FFFF
  {}

  lemma Thresholds6(w: bv64)
    ensures Within(w, 0x3F) <==> w <= 0x3F
    ensures Within(w >> (8 as bv6), 0x3F) <==> w <= 0x3FFF
    ensures Within(w >> (16 as bv6), 0x3F) <==> w <= 0x3F_FFFF
  {}

  lemma Extra6(w: bv64)
    ensures w <= 0x3F ==> Extra(w, 0x3F, 3) == 0
    ensures 0x3F < w <= 0x3FFF ==> Extra(w, 0x3F, 3) == 1
    ensures 0x3FFF < w <= 0x3F_FFFF ==> Extra(w, 0x3F, 3) == 2
    ensures 0x3F_FFFF < w ==> Extra(w, 0x3F, 3) == 3
  {
    hide Top, Within, Extra;
    TopShifts(w);
    Thresholds6(w);
    ExtraIs(w, 0x3F, 3, if w <= 0x3F then 0 else if w <= 0x3FFF then 1 else if w <= 0x3F_FFFF then 2 else 3);
  }

  lemma Extra5(w: bv64, bound: nat)
    requires bound == 3 || bound == 7
    ensures w <= 0x1F ==> Extra(w, 0x1F, bound) == 0
    ensures 0x1F < w <= 0x1FFF ==> Extra(w, 0x1F, bound) == 1
    ensures 0x1FFF < w <= 0x1F_FFFF ==> Extra(w, 0x1F, bound) == 2
    ensures 0x1F_FFFF < w && (bound == 3 || w <= 0x1FFF_FFFF) ==> Extra(w, 0x1F, bound) == 3
    ensures bound == 7 && 0x1FFF_FFFF < w <= 0x1F_FFFF_FFFF ==> Extra(w, 0x1F, bound) == 4
    ensures bound == 7 && 0x1F_FFFF_FFFF < w <= 0x1FFF_FFFF_FFFF ==> Extra(w, 0x1F, bound) == 5
    ensures bound == 7 && 0x1FFF_FFFF_FFFF < w <= 0x1F_FFFF_FFFF_FFFF ==> Extra(w, 0x1F, bound) == 6
    ensures bound == 7 && 0x1F_FFFF_FFFF_FFFF < w ==> Extra(w, 0x1F, bound) == 7
  {
    hide Top, Within, Extra;
    TopShifts(w);
    Thresholds5(w);
    var n := if w <= 0x1F then 0 else if w <= 0x1FFF then 1 else if w <= 0x1F_FFFF then 2
             else if bound == 3 || w <= 0x1FFF_FFFF then 3 else if w <= 0x1F_FFFF_FFFF then 4
             else if w <= 0x1FFF_FFFF_FFFF then 5 else if w <= 0x1F_FFFF_FFFF_FFFF then 6 else 7;
    ExtraIs(w, 0x1F, bound, n);
  }

  /** Byte n of a word, counted from the least significant one: (w >> 8n) & 0xFF. */
  function ByteOf(w: bv64, n: nat): bv8 { LowByte(Top(w, n)) }

  /** Some value bits under a mask, with length and sign bits beside them. */
  function Lead(b: bv8, mask: bv8, tag: bv8): bv8 { (b & mask) | tag }

  lemma Widened(v: bv32)
    ensures v <= 0x3F <==> Wide32(v) <= 0x3F
    ensures v <= 0x3FFF <==> Wide32(v) <= 0x3FFF
    ensures v <= 0x3F_FFFF <==> Wide32(v) <= 0x3F_FFFF
    ensures v <= 0x1F <==> Wide32(v) <= 0x1F
    ensures v <= 0x1FFF <==> Wide32(v) <= 0x1FFF
    ensures v <= 0x1F_FFFF <==> Wide32(v) <= 0x1F_FFFF
  {}

  lemma LengthU4(v: bv32)
    ensures Length(U4(v)) == if v <= 0x3F then 0 else if v <= 0x3FFF then 1 else if v <= 0x3F_FFFF then 2 else 3
  {
    hide Wide32;
    Widened(v);
    Extra6(Wide32(v));
  }

  lemma LengthS4(v: bv32)
    requires v != 0x8000_0000
    ensures Length(S4(v)) == var m := Abs32(v);
      if m <= 0x1F then 0 else if m <= 0x1FFF then 1 else if m <= 0x1F_FFFF then 2 else 3
  {
    hide Wide32, Abs32;
    Widened(Abs32(v));
    Extra5(Wide32(Abs32(v)), 3);
  }

  lemma LengthU8(v: bv64)
    ensures Length(U8(v)) ==
      if v <= 0x1F then 0 else if v <= 0x1FFF then 1 else if v <= 0x1F_FFFF then 2 else if v <= 0x1FFF_FFFF then 3
      else if v <= 0x1F_FFFF_FFFF then 4 else if v <= 0x1FFF_FFFF_FFFF then 5
      else if v <= 0x1F_FFFF_FFFF_FFFF then 6 else 7
  {
    Extra5(v, 7);
  }

  // ---- bytes, most significant first

  lemma {:induction false} TailHead(w: bv64, n: nat)
    requires n > 0
    ensures Tail(w, n) == [ByteOf(w, n - 1)] + Tail(w, n - 1)
    decreases n
  {
    hide Down, LowByte;
    if n > 1 {
      TailHead(Down(w), n - 1);
      var t := Tail(Down(w), n - 2);
      assert ([ByteOf(w, n - 1)] + t) + [LowByte(w)] == [ByteOf(w, n - 1)] + (t + [LowByte(w)]);
    }
  }

  lemma TailNone(w: bv64)
    ensures Tail(w, 0) == []
  {}

  lemma Tails(w: bv64)
    ensures Tail(w, 1) == [ByteOf(w, 0)]
    ensures Tail(w, 2) == [ByteOf(w, 1), ByteOf(w, 0)]
    ensures Tail(w, 3) == [ByteOf(w, 2), ByteOf(w, 1), ByteOf(w, 0)]
  {
    TailNone(w);
    hide Tail, ByteOf;
    TailHead(w, 1); TailHead(w, 2); TailHead(w, 3);
  }

  lemma {:induction false} LongTails(w: bv64)
    ensures Tail(w, 4) == [ByteOf(w, 3)] + Tail(w, 3)
    ensures Tail(w, 5) == [ByteOf(w, 4), ByteOf(w, 3)] + Tail(w, 3)
    ensures Tail(w, 6) == [ByteOf(w, 5), ByteOf(w, 4), ByteOf(w, 3)] + Tail(w, 3)
    ensures Tail(w, 7) == [ByteOf(w, 6), ByteOf(w, 5), ByteOf(w, 4), ByteOf(w, 3)] + Tail(w, 3)
  {
    hide Tail, ByteOf;
    TailHead(w, 4); TailHead(w, 5); TailHead(w, 6); TailHead(w, 7);
  }

  /** What a writer puts on the wire, apart from the range check. */
  lemma Encoded(i: Item)
    requires Encode(i).Some?
    ensures Encode(i) == Some([First(KindOf(i), Negative(i), ByteOf(Written(i), Length(i)), Length(i))]
                              + Tail(Written(i), Length(i)))
  {}

  lemma LeadU4(b: bv8)
    ensures First(KU4, false, b, 0) == Lead(b, 0x3F, 0) && First(KU4, false, b, 1) == Lead(b, 0x3F, 0x40)
    ensures First(KU4, false, b, 2) == Lead(b, 0x3F, 0x80) && First(KU4, false, b, 3) == Lead(b, 0x3F, 0xC0)
  {}

  /** A word moved up by n bytes. */
  function Raised(w: bv64, n: nat): bv64 { if n == 0 then w else Raised(w, n - 1) << (8 as bv6) }

  lemma ShiftOr(x: bv64, y: bv64)
    ensures (x | y) << (8 as bv6) == (x << (8 as bv6)) | (y << (8 as bv6))
  {}

  /** Or-ing a byte into a value at its own shift. */
  function OrIn(value: bv64, b: bv8, n: nat): bv64 { value | Raised(b as bv64, n) }

  /** Raising what was read so far and the next byte separately is raising them joined. */
  lemma {:induction false} RaisedPush(w: bv64, b: bv8, n: nat)
    ensures OrIn(Raised(w, n + 1), b, n) == Raised(Push(w, b), n)
  {
    if n == 0 {
      RaisedOnce(w, b);
    } else {
      RaisedPush(w, b, n - 1);
      RaisedMore(w, n);
      RaisedMore(Push(w, b), n - 1);
      RaisedMore(b as bv64, n - 1);
      hide Push, Raised;
      ShiftOr(Raised(w, n), Raised(b as bv64, n - 1));
    }
  }

  lemma RaisedMore(w: bv64, n: nat)
    ensures Raised(w, n + 1) == Raised(w, n) << (8 as bv6)
  {}

  lemma RaisedOnce(w: bv64, b: bv8)
    ensures OrIn(Raised(w, 1), b, 0) == Raised(Push(w, b), 0)
  {}

  lemma {:induction false} JoinStep(top: bv64, read: seq<bv8>, b: bv8, n: nat)
    ensures OrIn(Raised(Join(top, read), n + 1), b, n) == Raised(Join(top, read + [b]), n)
  {
    hide Raised, Push, OrIn;
    var s := read + [b];
    assert s[..|s| - 1] == read && s[|s| - 1] == b;
    RaisedPush(Join(top, read), b, n);
  }

  lemma JoinNone(top: bv64)
    ensures Join(top, []) == top
  {}

  // ---- first bytes

  lemma LeadU2(b: bv8)
    ensures First(KU2, false, b, 0) == Lead(b, 0x7F, 0) && First(KU2, false, b, 1) == Lead(b, 0x7F, 0x80)
  {}

  /** The length bits, with the sign bit for a negative value. */
  function SignTag(negative: bool, bit: bv8, tag: bv8): bv8 { (if negative then bit else 0) | tag }

  lemma LeadS2(negative: bool, b: bv8)
    ensures First(KS2, negative, b, 0) == Lead(b, 0x3F, SignTag(negative, 0x40, 0))
    ensures First(KS2, negative, b, 1) == Lead(b, 0x3F, SignTag(negative, 0x40, 0x80))
  {}

  lemma LeadS4(negative: bool, b: bv8)
    ensures First(KS4, negative, b, 0) == Lead(b, 0x1F, SignTag(negative, 0x20, 0))
    ensures First(KS4, negative, b, 1) == Lead(b, 0x1F, SignTag(negative, 0x20, 0x40))
    ensures First(KS4, negative, b, 2) == Lead(b, 0x1F, SignTag(negative, 0x20, 0x80))
    ensures First(KS4, negative, b, 3) == Lead(b, 0x1F, SignTag(negative, 0x20, 0xC0))
  {}

  lemma LeadU8(b: bv8)
    ensures First(KU8, false, b, 0) == Lead(b, 0x1F, 0) && First(KU8, false, b, 1) == Lead(b, 0x1F, 0x20)
    ensures First(KU8, false, b, 2) == Lead(b, 0x1F, 0x40) && First(KU8, false, b, 3) == Lead(b, 0x1F, 0x60)
    ensures First(KU8, false, b, 4) == Lead(b, 0x1F, 0x80) && First(KU8, false, b, 5) == Lead(b, 0x1F, 0xA0)
    ensures First(KU8, false, b, 6) == Lead(b, 0x1F, 0xC0) && First(KU8, false, b, 7) == Lead(b, 0x1F, 0xE0)
  {}

  /** The cases of the signed writers: the negated minimum stays negative and is written as a lone zero. */
  lemma SignedS2(v: bv16)
    ensures Negative16(Abs16(v)) <==> v == 0x8000
    ensures v == 0x8000 ==> Length(S2(v)) == 0 && ByteOf(Written(S2(v)), 0) == ByteOf(Wide16(Abs16(v)), 0)
    ensures v != 0x8000 ==> Written(S2(v)) == Wide16(Abs16(v)) && Length(S2(v)) == if Abs16(v) >= 0x3F then 1 else 0
  {}

  lemma SignedS4(v: bv32)
    ensures Negative32(Abs32(v)) <==> v == 0x8000_0000
    ensures v == 0x8000_0000 ==> Length(S4(v)) == 0 && ByteOf(Written(S4(v)), 0) == ByteOf(Wide32(Abs32(v)), 0)
    ensures v != 0x8000_0000 ==> Written(S4(v)) == Wide32(Abs32(v))
  {}

  /** A byte under the five-bit mask. */
  function Narrow(w: bv64, n: nat): bv8 { ByteOf(w, n) & 0x1F }

  /** The masks of the 8-byte writer are the bits it drops: the low three bytes are whole, the next four narrow. */
  lemma MaskedBytes(v: bv64)
    ensures ByteOf(v & !DROPPED, 0) == ByteOf(v, 0) && ByteOf(v & !DROPPED, 1) == ByteOf(v, 1)
    ensures ByteOf(v & !DROPPED, 2) == ByteOf(v, 2) && ByteOf(v & !DROPPED, 7) == ByteOf(v, 7)
    ensures ByteOf(v & !DROPPED, 3) == Narrow(v, 3) && ByteOf(v & !DROPPED, 4) == Narrow(v, 4)
    ensures ByteOf(v & !DROPPED, 5) == Narrow(v, 5) && ByteOf(v & !DROPPED, 6) == Narrow(v, 6)
  {
    TopShifts(v);
    TopShifts(v & !DROPPED);
    hide Top;
  }

  lemma WrittenBytes(v: bv64)
    ensures var w := Written(U8(v));
      && ByteOf(w, 0) == ByteOf(v, 0) && ByteOf(w, 1) == ByteOf(v, 1) && ByteOf(w, 2) == ByteOf(v, 2)
      && ByteOf(w, 3) == Narrow(v, 3) && ByteOf(w, 4) == Narrow(v, 4) && ByteOf(w, 5) == Narrow(v, 5)
      && ByteOf(w, 6) == Narrow(v, 6) && ByteOf(w, 7) == ByteOf(v, 7)
  {
    hide ByteOf, Narrow;
    MaskedBytes(v);
  }

  lemma ShortU8(v: bv64)
    requires Encode(U8(v)).Some? && Length(U8(v)) <= 3
    ensures var n, e := Length(U8(v)), Encode(U8(v)).value;
      && (n == 0 ==> e == [Lead(ByteOf(v, 0), 0x1F, 0)])
      && (n == 1 ==> e == [Lead(ByteOf(v, 1), 0x1F, 0x20)] + [ByteOf(v, 0)])
      && (n == 2 ==> e == [Lead(ByteOf(v, 2), 0x1F, 0x40)] + [ByteOf(v, 1), ByteOf(v, 0)])
      && (n == 3 ==> e == [Lead(Narrow(v, 3), 0x1F, 0x60)] + [ByteOf(v, 2), ByteOf(v, 1), ByteOf(v, 0)])
  {
    hide Encode, Lead, First, Length, ByteOf, Tail, Narrow, Written, Encodable;
    var w, n := Written(U8(v)), Length(U8(v));
    Encoded(U8(v));
    WrittenBytes(v);
    LeadU8(ByteOf(w, n));
    Tails(w);
    TailNone(w);
  }

  lemma LongU8(v: bv64)
    requires Encode(U8(v)).Some? && Length(U8(v)) > 3
    ensures var n, e := Length(U8(v)), Encode(U8(v)).value;
      var low := [ByteOf(v, 2), ByteOf(v, 1), ByteOf(v, 0)];
      && (n == 4 ==> e == [Lead(Narrow(v, 4), 0x1F, 0x80)] + ([Narrow(v, 3)] + low))
      && (n == 5 ==> e == [Lead(Narrow(v, 5), 0x1F, 0xA0)] + ([Narrow(v, 4), Narrow(v, 3)] + low))
      && (n == 6 ==> e == [Lead(Narrow(v, 6), 0x1F, 0xC0)] + ([Narrow(v, 5), Narrow(v, 4), Narrow(v, 3)] + low))
      && (n == 7 ==>
        e == [Lead(ByteOf(v, 7), 0x1F, 0xE0)] + ([Narrow(v, 6), Narrow(v, 5), Narrow(v, 4), Narrow(v, 3)] + low))
  {
    hide Encode, Lead, First, Length, ByteOf, Tail, Narrow, Written, Encodable;
    var w, n := Written(U8(v)), Length(U8(v));
    Encoded(U8(v));
    WrittenBytes(v);
    LeadU8(ByteOf(w, n));
    Tails(w);
    LongTails(w);
  }

  lemma CasesS4(v: bv32)
    ensures Encode(S4(v)).Some? <==> Negative32(Abs32(v)) || Abs32(v) <= 0x1FFF_FFFF
    ensures Negative32(Abs32(v)) ==> Length(S4(v)) == 0
    ensures !Negative32(Abs32(v)) ==>
      Length(S4(v)) == if Abs32(v) <= 0x1F then 0 else if Abs32(v) <= 0x1FFF then 1 else if Abs32(v) <= 0x1F_FFFF then 2 else 3
    ensures ByteOf(Written(S4(v)), 0) == ByteOf(Wide32(Abs32(v)), 0)
    ensures !Negative32(Abs32(v)) ==> Written(S4(v)) == Wide32(Abs32(v))
  {
    SignedS4(v);
    EncodableIff(S4(v));
    if v != 0x8000_0000 { LengthS4(v); }
    hide Encode, Length, ByteOf, Wide32, Abs32, Negative32, Written;
  }

  /** The four forms of a signed value, and the minimum's. */
  lemma BytesS4(v: bv32)
    requires Encode(S4(v)).Some?
    ensures Negative32(Abs32(v)) || Abs32(v) <= 0x1F ==>
      Encode(S4(v)).value == [Lead(ByteOf(Wide32(Abs32(v)), 0), 0x1F, SignTag(Negative32(v), 0x20, 0))]
    ensures !Negative32(Abs32(v)) && 0x1F < Abs32(v) <= 0x1FFF ==>
      Encode(S4(v)).value == [Lead(ByteOf(Wide32(Abs32(v)), 1), 0x1F, SignTag(Negative32(v), 0x20, 0x40))]
                             + [ByteOf(Wide32(Abs32(v)), 0)]
    ensures !Negative32(Abs32(v)) && 0x1FFF < Abs32(v) <= 0x1F_FFFF ==>
      Encode(S4(v)).value == [Lead(ByteOf(Wide32(Abs32(v)), 2), 0x1F, SignTag(Negative32(v), 0x20, 0x80))]
                             + [ByteOf(Wide32(Abs32(v)), 1), ByteOf(Wide32(Abs32(v)), 0)]
    ensures !Negative32(Abs32(v)) && 0x1F_FFFF < Abs32(v) ==>
      Encode(S4(v)).value == [Lead(ByteOf(Wide32(Abs32(v)), 3), 0x1F, SignTag(Negative32(v), 0x20, 0xC0))]
                             + [ByteOf(Wide32(Abs32(v)), 2), ByteOf(Wide32(Abs32(v)), 1), ByteOf(Wide32(Abs32(v)), 0)]
  {
    hide Encode, Wide32, Lead, First, Length, ByteOf, Tail, Abs32, SignTag, Written, Negative32, Encodable;
    CasesS4(v);
    Encoded(S4(v));
    LeadS4(Negative32(v), ByteOf(Wide32(Abs32(v)), Length(S4(v))));
    Tails(Wide32(Abs32(v)));
    TailNone(Written(S4(v)));
  }

  /** A read that succeeds moves past the value; one that fails has taken at most the first byte. */
  ghost predicate ReadAs(k: Kind, s: seq<bv8>, r: Option<Item>, moved: nat) {
    if Decode(k, s).None? then r == None && moved == (if s == [] then 0 else 1)
    else r == Some(Decode(k, s).value.0) && moved == Decode(k, s).value.1
  }

  lemma TakeApart(k: Kind, s: seq<bv8>)
    ensures s == [] || |s| < 1 + Following(k, s[0]) ==> Decode(k, s).None?
    ensures s != [] && |s| >= 1 + Following(k, s[0]) ==>
      Decode(k, s) == Some((ItemOf(k, SignSet(k, s[0]), Join(ValueBits(k, s[0]), s[1..1 + Following(k, s[0])])),
                            1 + Following(k, s[0])))
  {}

  // ---- the stream

  class Stream {
    var buffer: seq<bv8>
    var pos: nat

    predicate Valid() reads this { pos <= |buffer| }

    function Done(): seq<bv8>
      requires Valid()
      reads this
    {
      buffer[..pos]
    }

    /** What is still to be read. */
    function Rest(): seq<bv8>
      requires Valid()
      reads this
    {
      buffer[pos..]
    }

    method EnsureRemainingCapacity(n: nat)
      requires Valid()
      modifies this`buffer
      ensures Valid() && pos + n <= |buffer| && Done() == old(Done())
    {
      while |buffer| < pos + n
        invariant pos <= |buffer| && Done() == old(Done())
      {
        buffer := buffer + [0];
      }
    }

    /** Writes bytes one by one. */
    method Write(bytes: seq<bv8>)
      requires pos + |bytes| <= |buffer|
      modifies this
      ensures Valid() && Done() == old(Done()) + bytes
    {
      var i := 0;
      while i < |bytes|
        invariant 0 <= i <= |bytes| && pos + |bytes| - i <= |buffer| && Done() == old(Done()) + bytes[..i]
      {
        buffer := buffer[pos := bytes[i]];
        pos := pos + 1;
        i := i + 1;
      }
    }

    method Write2ByteUnsigned(value: bv16) returns (ok: bool)
      requires Valid()
      modifies this
      ensures Valid() && ok == Encode(U2(value)).Some?
      ensures Done() == old(Done()) + if ok then Encode(U2(value)).value else []
    {
      hide Done, Encode, Wide16, Lead, First, ByteOf, Tail;
      EnsureRemainingCapacity(2);
      var w := Wide16(value);
      EncodableIff(U2(value));
      if value > 0x7FFF {
        return false;
      }
      Encoded(U2(value));
      Tails(w);
      TailNone(w);
      if value >= 0x7F {
        LeadU2(ByteOf(w, 1));
        Write([Lead(ByteOf(w, 1), 0x7F, 0x80)] + [ByteOf(w, 0)]);
      } else {
        LeadU2(ByteOf(w, 0));
        Write([Lead(ByteOf(w, 0), 0x7F, 0)]);
      }
      return true;
    }

    method Write2ByteSigned(value: bv16) returns (ok: bool)
      requires Valid()
      modifies this
      ensures Valid() && ok == Encode(S2(value)).Some?
      ensures Done() == old(Done()) + if ok then Encode(S2(value)).value else []
    {
      hide Done, Encode, Wide16, Lead, First, ByteOf, Tail, Abs16, SignTag, Length, Written;
      EnsureRemainingCapacity(2);
      var negative, m := Negative16(value), Abs16(value);
      var w := Wide16(m);
      SignedS2(value);
      EncodableIff(S2(value));
      if !Negative16(m) && m > 0x3FFF {
        return false;
      }
      Encoded(S2(value));
      Tails(w);
      TailNone(Written(S2(value)));
      if !Negative16(m) && m >= 0x3F {
        LeadS2(negative, ByteOf(w, 1));
        Write([Lead(ByteOf(w, 1), 0x3F, SignTag(negative, 0x40, 0x80))] + [ByteOf(w, 0)]);
      } else {
        LeadS2(negative, ByteOf(w, 0));
        Write([Lead(ByteOf(w, 0), 0x3F, SignTag(negative, 0x40, 0))]);
      }
      return true;
    }

    method Write4ByteUnsigned(value: bv32) returns (ok: bool)
      requires Valid()
      modifies this
      ensures Valid() && ok == Encode(U4(value)).Some?
      ensures Done() == old(Done()) + if ok then Encode(U4(value)).value else []
    {
      hide Done, Encode, Wide32, Lead, First, Length, ByteOf, Tail;
      EnsureRemainingCapacity(4);
      var w := Wide32(value);
      EncodableIff(U4(value));
      LengthU4(value);
      LeadU4(ByteOf(w, Length(U4(value))));
      Tails(w);
      TailNone(w);
      if value > 0x3FFF_FFFF {
        return false;
      }
      Encoded(U4(value));
      if value <= 0x3F {
        Write([Lead(ByteOf(w, 0), 0x3F, 0)]);
      } else if value <= 0x3FFF {
        Write([Lead(ByteOf(w, 1), 0x3F, 0x40)] + [ByteOf(w, 0)]);
      } else if value <= 0x3F_FFFF {
        Write([Lead(ByteOf(w, 2), 0x3F, 0x80)] + [ByteOf(w, 1), ByteOf(w, 0)]);
      } else {
        Write([Lead(ByteOf(w, 3), 0x3F, 0xC0)] + [ByteOf(w, 2), ByteOf(w, 1), ByteOf(w, 0)]);
      }
      return true;
    }

    method Write4ByteSigned(value: bv32) returns (ok: bool)
      requires Valid()
      modifies this
      ensures Valid() && ok == Encode(S4(value)).Some?
      ensures Done() == old(Done()) + if ok then Encode(S4(value)).value else []
    {
      hide Done, Valid, Encode, Wide32, Lead, First, Length, ByteOf, Tail, Abs32, SignTag, Written, Negative32, Encodable;
      EnsureRemainingCapacity(4);
      var negative := Negative32(value);
      var w := Wide32(Abs32(value));
      CasesS4(value);
      if !Negative32(Abs32(value)) && Abs32(value) > 0x1FFF_FFFF {
        return false;
      }
      BytesS4(value);
      if Negative32(Abs32(value)) || Abs32(value) <= 0x1F {
        Write([Lead(ByteOf(w, 0), 0x1F, SignTag(negative, 0x20, 0))]);
      } else if Abs32(value) <= 0x1FFF {
        Write([Lead(ByteOf(w, 1), 0x1F, SignTag(negative, 0x20, 0x40))] + [ByteOf(w, 0)]);
      } else if Abs32(value) <= 0x1F_FFFF {
        Write([Lead(ByteOf(w, 2), 0x1F, SignTag(negative, 0x20, 0x80))] + [ByteOf(w, 1), ByteOf(w, 0)]);
      } else {
        Write([Lead(ByteOf(w, 3), 0x1F, SignTag(negative, 0x20, 0xC0))] + [ByteOf(w, 2), ByteOf(w, 1), ByteOf(w, 0)]);
      }
      return true;
    }

    method Write8ByteUnsigned(value: bv64) returns (ok: bool)
      requires Valid()
      modifies this
      ensures Valid() && ok == Encode(U8(value)).Some?
      ensures Done() == old(Done()) + if ok then Encode(U8(value)).value else []
    {
      hide Done, Encode, Lead, First, Length, ByteOf, Tail, Narrow;
      EnsureRemainingCapacity(8);
      EncodableIff(U8(value));
      if value > 0x1FFF_FFFF_FFFF_FFFF {
        return false;
      }
      LengthU8(value);
      if Length(U8(value)) <= 3 { ShortU8(value); } else { LongU8(value); }
      var b0, b1, b2, b3, b4, b5, b6 := ByteOf(value, 0), ByteOf(value, 1), ByteOf(value, 2), Narrow(value, 3),
        Narrow(value, 4), Narrow(value, 5), Narrow(value, 6);
      var low := [b2, b1, b0];
      if value <= 0x1F {
        Write([Lead(b0, 0x1F, 0)]);
      } else if value <= 0x1FFF {
        Write([Lead(b1, 0x1F, 0x20)] + [b0]);
      } else if value <= 0x1F_FFFF {
        Write([Lead(b2, 0x1F, 0x40)] + [b1, b0]);
      } else if value <= 0x1FFF_FFFF {
        Write([Lead(b3, 0x1F, 0x60)] + [b2, b1, b0]);
      } else if value <= 0x1F_FFFF_FFFF {
        Write([Lead(b4, 0x1F, 0x80)] + ([b3] + low));
      } else if value <= 0x1FFF_FFFF_FFFF {
        Write([Lead(b5, 0x1F, 0xA0)] + ([b4, b3] + low));
      } else if value <= 0x1F_FFFF_FFFF_FFFF {
        Write([Lead(b6, 0x1F, 0xC0)] + ([b5, b4, b3] + low));
      } else {
        Write([Lead(ByteOf(value, 7), 0x1F, 0xE0)] + ([b6, b5, b4, b3] + low));
      }
      return true;
    }

    /** Reads n bytes and ors them in below some top bits, each at its own shift. */
    method ReadLower(top: bv64, n: nat) returns (value: bv64)
      requires pos + n <= |buffer|
      modifies this`pos
      ensures pos == old(pos) + n && value == Join(top, buffer[old(pos)..pos])
    {
      hide OrIn, Raised, Join;
      JoinNone(top);
      value := Raised(top, n);
      var k := 0;
      assert buffer[pos..pos] == [];
      while k < n
        invariant 0 <= k <= n && pos == old(pos) + k && pos + n - k <= |buffer|
        invariant value == Raised(Join(top, buffer[old(pos)..pos]), n - k)
      {
        ghost var read := buffer[old(pos)..pos];
        var byte := buffer[pos];
        pos := pos + 1;
        k := k + 1;
        JoinStep(top, read, byte, n - k);
        value := OrIn(value, byte, n - k);
        assert buffer[old(pos)..pos] == read + [byte];
      }
      RaisedNone(Join(top, buffer[old(pos)..pos]));
    }

    method Read2ByteUnsigned() returns (r: Option<bv16>)
      requires Valid()
      modifies this`pos
      ensures Valid() && pos >= old(pos)
      ensures ReadAs(KU2, old(Rest()), if r.None? then None else Some(U2(r.value)), pos - old(pos))
    {
      hide Decode, Join, Word16;
      ghost var s := Rest();
      TakeApart(KU2, s);
      if |buffer| - pos < 1 {
        return None;
      }
      var byte := buffer[pos];
      pos := pos + 1;
      var value := (byte & 0x7F) as bv64;
      JoinNone(value);
      if byte & 0x80 != 0 {
        if |buffer| - pos < 1 {
          return None;
        }
        value := ReadLower(value, 1);
      }
      assert s[1..pos - old(pos)] == buffer[old(pos) + 1..pos];
      return Some(Word16(value));
    }

    method Read2ByteSigned() returns (r: Option<bv16>)
      requires Valid()
      modifies this`pos
      ensures Valid() && pos >= old(pos)
      ensures ReadAs(KS2, old(Rest()), if r.None? then None else Some(S2(r.value)), pos - old(pos))
    {
      hide Decode, Join, Word16, Minus16;
      ghost var s := Rest();
      TakeApart(KS2, s);
      if |buffer| - pos < 1 {
        return None;
      }
      var byte := buffer[pos];
      pos := pos + 1;
      var negative := byte & 0x40 != 0;
      var value := (byte & 0x3F) as bv64;
      JoinNone(value);
      if byte & 0x80 != 0 {
        if |buffer| - pos < 1 {
          return None;
        }
        value := ReadLower(value, 1);
      }
      assert s[1..pos - old(pos)] == buffer[old(pos) + 1..pos];
      return Some(if negative then Minus16(Word16(value)) else Word16(value));
    }

    method Read4ByteUnsigned() returns (r: Option<bv32>)
      requires Valid()
      modifies this`pos
      ensures Valid() && pos >= old(pos)
      ensures ReadAs(KU4, old(Rest()), if r.None? then None else Some(U4(r.value)), pos - old(pos))
    {
      hide Decode, Join, Word32, Following;
      ghost var s := Rest();
      TakeApart(KU4, s);
      if |buffer| - pos < 1 {
        return None;
      }
      var byte := buffer[pos];
      pos := pos + 1;
      var count := Following(KU4, byte);
      if |buffer| - pos < count {
        return None;
      }
      var value := ReadLower((byte & 0x3F) as bv64, count);
      assert s[1..1 + count] == buffer[old(pos) + 1..pos];
      return Some(Word32(value));
    }

    method Read4ByteSigned() returns (r: Option<bv32>)
      requires Valid()
      modifies this`pos
      ensures Valid() && pos >= old(pos)
      ensures ReadAs(KS4, old(Rest()), if r.None? then None else Some(S4(r.value)), pos - old(pos))
    {
      hide Decode, Join, Word32, Minus32, Following;
      ghost var s := Rest();
      TakeApart(KS4, s);
      if |buffer| - pos < 1 {
        return None;
      }
      var byte := buffer[pos];
      pos := pos + 1;
      var count := Following(KS4, byte);
      var negative := byte & 0x20 != 0;
      if |buffer| - pos < count {
        return None;
      }
      var value := ReadLower((byte & 0x1F) as bv64, count);
      assert s[1..1 + count] == buffer[old(pos) + 1..pos];
      return Some(if negative then Minus32(Word32(value)) else Word32(value));
    }

    method Read8ByteUnsigned() returns (r: Option<bv64>)
      requires Valid()
      modifies this`pos
      ensures Valid() && pos >= old(pos)
      ensures ReadAs(KU8, old(Rest()), if r.None? then None else Some(U8(r.value)), pos - old(pos))
    {
      hide Decode, Join, Following;
      ghost var s := Rest();
      TakeApart(KU8, s);
      if |buffer| - pos < 1 {
        return None;
      }
      var byte := buffer[pos];
      pos := pos + 1;
      var count := Following(KU8, byte);
      if |buffer| - pos < count {
        return None;
      }
      var value := ReadLower((byte & 0x1F) as bv64, count);
      assert s[1..1 + count] == buffer[old(pos) + 1..pos];
      return Some(value);
    }
  }

  lemma RaisedNone(w: bv64)
    ensures Raised(w, 0) == w
  {}
}
