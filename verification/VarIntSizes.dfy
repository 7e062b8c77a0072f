/** How many bytes the five writers put on the wire for every value they take. */
module VarIntSizes {
  import opened Common
  import opened VarInt
  import opened VarIntStream

  lemma SizeIs(i: Item)
    requires Encode(i).Some?
    ensures |Encode(i).value| == 1 + Length(i)
  {
    hide Length, Written, First, Tail;
    Encoded(i);
    TailSize(Written(i), Length(i));
  }

  lemma TailSize(w: bv64, n: nat)
    ensures |Tail(w, n)| == n
    decreases n
  {
    hide Down, LowByte;
  }

  /** The 2-byte writers need a second byte one value early; a minimum takes one byte. */
  lemma {:induction false} Size2(u: bv16, s: bv16)
    requires Encodable(U2(u)) && Encodable(S2(s))
    ensures Encode(U2(u)).Some? && |Encode(U2(u)).value| == if u < 0x7F then 1 else 2
    ensures Encode(S2(s)).Some? && |Encode(S2(s)).value| == if s == 0x8000 || Abs16(s) < 0x3F then 1 else 2
  {
    EncodableIff(U2(u));
    EncodableIff(S2(s));
    SizeIs(U2(u));
    SizeIs(S2(s));
    LengthU2(u);
    LengthS2(s);
    hide Encode, Length, Abs16;
  }

  lemma {:induction false} Size4(u: bv32, s: bv32)
    requires Encodable(U4(u)) && Encodable(S4(s))
    ensures Encode(U4(u)).Some?
    ensures |Encode(U4(u)).value| == if u <= 0x3F then 1 else if u <= 0x3FFF then 2 else if u <= 0x3F_FFFF then 3 else 4
    ensures Encode(S4(s)).Some? && (s == 0x8000_0000 ==> |Encode(S4(s)).value| == 1)
    ensures s == 0x8000_0000 || |Encode(S4(s)).value|
         == if Abs32(s) <= 0x1F then 1 else if Abs32(s) <= 0x1FFF then 2 else if Abs32(s) <= 0x1F_FFFF then 3 else 4
  {
    EncodableIff(U4(u));
    EncodableIff(S4(s));
    SizeIs(U4(u));
    SizeIs(S4(s));
    LengthU4(u);
    if s == 0x8000_0000 { LengthMin(); } else { LengthS4(s); }
    hide Encode, Length, Abs32;
  }

  lemma Size8(u: bv64)
    requires Encodable(U8(u))
    ensures Encode(U8(u)).Some?
    ensures |Encode(U8(u)).value|
         == if u <= 0x1F then 1 else if u <= 0x1FFF then 2 else if u <= 0x1F_FFFF then 3 else if u <= 0x1FFF_FFFF then 4
            else if u <= 0x1F_FFFF_FFFF then 5 else if u <= 0x1FFF_FFFF_FFFF then 6
            else if u <= 0x1F_FFFF_FFFF_FFFF then 7 else 8
  {
    EncodableIff(U8(u));
    SizeIs(U8(u));
    LengthU8(u);
    hide Encode, Length;
  }

  lemma LengthU2(v: bv16)
    ensures Length(U2(v)) == if v < 0x7F then 0 else 1
  {}

  lemma LengthS2(v: bv16)
    ensures Length(S2(v)) == if v == 0x8000 || Abs16(v) < 0x3F then 0 else 1
  {
    MagnitudeIs(S2(v));
    Widened16(Abs16(v));
    hide Magnitude, Abs16, Wide16;
  }

  lemma Widened16(v: bv16)
    ensures Wide16(v) >= 0x3F <==> v >= 0x3F
  {}

  lemma LengthMin()
    ensures Length(S4(0x8000_0000)) == 0
  {}
}
