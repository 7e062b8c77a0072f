/** Reading back what the format list writer produced, for each name layout. */
module FormatListRoundTrip {
  import opened Common
  import opened LittleEndian
  import opened FormatListCodec

  predicate NulFree(fs: seq<Format>) {
    forall f | f in fs :: f.name.Some? ==> 0 !in f.name.value
  }

  predicate AllAscii(fs: seq<Format>) {
    forall f | f in fs :: f.name.Some? ==> IsAscii(f.name.value)
  }

  /** A list as its reader reports it: names cut to the layout's limit, empty names null. */
  function Reported(f: Format, limit: Option<nat>): Format {
    if f.name.None? || f.name.value == [] then Format(f.id, None)
    else if limit.None? then f
    else Format(f.id, Some(f.name.value[..Min(limit.value, |f.name.value|)]))
  }

  function ReportedAll(fs: seq<Format>, limit: Option<nat>): seq<Format> {
    if fs == [] then [] else [Reported(fs[0], limit)] + ReportedAll(fs[1..], limit)
  }

  // ---- long names

  /** The names a long-name list decodes to, if it decodes. */
  function LongNames(utf: Utf, b: Bytes): Option<seq<Format>> {
    var (es, ok) := ParseLong(b);
    if ok then NameAll(field => LongName(utf, field), es) else None
  }

  lemma LongEntryParses(id: uint32, w: seq<wchar>, rest: Bytes)
    requires 0 !in w
    ensures var (es, ok) := ParseLong(rest);
      ParseLong(Put32(id) + WideBytes(w) + [0, 0] + rest) == ([Entry(id, WideBytes(w))] + es, ok)
  {
    var b := Put32(id) + WideBytes(w) + [0, 0] + rest;
    var tail := WideBytes(w) + [0, 0] + rest;
    assert b == Put32(id) + tail;
    Get32Put32(id, tail);
    assert b[4..] == tail;
    WideLengthTerminated(w, rest);
    assert tail[..2 * |w|] == WideBytes(w);
    assert tail[2 * (|w| + 1)..] == rest;
  }

  /** One more entry at the front of a list: it decodes to its name, or nothing decodes. */
  lemma LongEntryDecodes(utf: Utf, id: uint32, w: seq<wchar>, rest: Bytes)
    requires 0 !in w && (w == [] || utf.toUtf8(w).Some?)
    ensures LongNames(utf, Put32(id) + WideBytes(w) + [0, 0] + rest) ==
      var head := Format(id, if w == [] then None else utf.toUtf8(w));
      if LongNames(utf, rest).None? then None else Some([head] + LongNames(utf, rest).value)
  {
    LongEntryParses(id, w, rest);
    UnitsOfWide(w);
    var (es, ok) := ParseLong(rest);
    assert ([Entry(id, WideBytes(w))] + es)[1..] == es;
  }

  lemma FaithfulTo(utf: Utf, n: Bytes)
    requires Faithful(utf) && 0 !in n
    ensures IsAscii(n) ==> utf.toWide(n) == Some(Widen(n))
    ensures utf.toWide(n).Some? ==>
      var w := utf.toWide(n).value;
      0 !in w && |w| <= |n| && (|w| == |n| <==> IsAscii(n)) && (n != [] ==> w != []) && utf.toUtf8(w) == Some(n)
  {}

  /** What the long layout writes for a name: the conversion of as many bytes as it has UTF-16 units. */
  lemma LongEntryWritten(utf: Utf, f: Format) returns (w: seq<wchar>, pad: nat)
    requires Faithful(utf) && (f.name.Some? ==> 0 !in f.name.value)
    requires EntryBytes(utf, f, true, false).Some?
    ensures 0 !in w && (w == [] || utf.toUtf8(w).Some?)
    ensures EntryBytes(utf, f, true, false).value == Put32(f.id) + WideBytes(w) + [0, 0] + Zeros(2 * pad)
    ensures IsAsciiName(f) ==> pad == 0 && Format(f.id, if w == [] then None else utf.toUtf8(w)) == Reported(f, None)
    ensures !IsAsciiName(f) ==> w != [] && utf.toUtf8(w) != f.name
  {
    w, pad := [], 0;
    if f.name.Some? && f.name.value != [] {
      w, pad := LongNameWritten(utf, f);
    } else {
      FaithfulTo(utf, []);
      assert Zeros(2) == [0, 0] && Zeros(0) == [] && WideBytes([]) == [];
    }
  }

  lemma LongNameWritten(utf: Utf, f: Format) returns (w: seq<wchar>, pad: nat)
    requires Faithful(utf) && f.name.Some? && f.name.value != [] && 0 !in f.name.value
    requires EntryBytes(utf, f, true, false).Some?
    ensures 0 !in w && w != [] && utf.toUtf8(w).Some?
    ensures EntryBytes(utf, f, true, false).value == Put32(f.id) + WideBytes(w) + [0, 0] + Zeros(2 * pad)
    ensures if IsAsciiName(f) then pad == 0 && utf.toUtf8(w) == f.name else utf.toUtf8(w) != f.name
  {
    var n := f.name.value;
    FaithfulTo(utf, n);
    var units := |utf.toWide(n).value|;
    var cut := n[..units];
    assert forall c | c in cut :: c in n;
    FaithfulTo(utf, cut);
    w := utf.toWide(cut).value;
    hide Faithful;
    pad := units - |w|;
    assert IsAscii(n) ==> cut == n;
    assert !IsAscii(n) ==> |cut| < |n|;
    WideFieldWritten(utf, f.id, n, units, w);
    hide IsAscii, WideField, Put32, WideBytes, Zeros;
  }

  lemma WideFieldWritten(utf: Utf, id: uint32, n: Bytes, units: nat, w: seq<wchar>)
    requires 0 < units <= |n| && |w| <= units && utf.toWide(n[..units]) == Some(w)
    requires utf.toWide(n).Some? && |utf.toWide(n).value| == units
    ensures EntryBytes(utf, Format(id, Some(n)), true, false) == Some(Put32(id) + WideBytes(w) + [0, 0] + Zeros(2 * (units - |w|)))
  {
    hide Put32, WideBytes, Zeros;
    FieldOf(utf, id, n, units);
    WideFieldIs(utf, n, units, w);
    NulMoves(Put32(id), WideBytes(w), units - |w|);
    hide *;
  }

  lemma FieldOf(utf: Utf, id: uint32, n: Bytes, units: nat)
    requires units > 0 && utf.toWide(n).Some? && |utf.toWide(n).value| == units
    ensures var field := WideField(utf, n, units);
      EntryBytes(utf, Format(id, Some(n)), true, false) == if field.None? then None else Some(Put32(id) + field.value)
  {
    hide Put32, WideField;
  }

  lemma {:induction false} WideFieldIs(utf: Utf, n: Bytes, units: nat, w: seq<wchar>)
    requires units <= |n| && |w| <= units && utf.toWide(n[..units]) == Some(w)
    ensures WideField(utf, n, units) == Some(WideBytes(w) + Zeros(2 * (units - |w|)) + [0, 0])
  {
    assert Min(|n|, units) == units && Min(|w|, units) == |w|;
    hide WideBytes, Zeros, Min;
    assert w[..|w|] == w;
  }

  lemma NulMoves(id: Bytes, name: Bytes, pad: nat)
    ensures id + (name + Zeros(2 * pad) + [0, 0]) == id + name + [0, 0] + Zeros(2 * pad)
  {
    assert Zeros(2 * pad) + [0, 0] == [0, 0] + Zeros(2 * pad);
    hide Zeros;
    assert id + (name + Zeros(2 * pad) + [0, 0]) == id + name + (Zeros(2 * pad) + [0, 0]);
    assert id + name + ([0, 0] + Zeros(2 * pad)) == id + name + [0, 0] + Zeros(2 * pad);
  }

  predicate IsAsciiName(f: Format) { f.name.Some? ==> IsAscii(f.name.value) }

  /** Reading what was written gives the list as reported. */
  predicate LongComesBack(utf: Utf, fs: seq<Format>) {
    var b := Encode(utf, fs, true, false);
    b.Some? && LongNames(utf, b.value) == Some(ReportedAll(fs, None))
  }

  lemma EncodeCons(utf: Utf, f: Format, rest: seq<Format>, long: bool, ascii: bool)
    ensures var e, b := EntryBytes(utf, f, long, ascii), Encode(utf, rest, long, ascii);
      Encode(utf, [f] + rest, long, ascii) == if e.None? || b.None? then None else Some(e.value + b.value)
    ensures forall limit :: ReportedAll([f] + rest, limit) == [Reported(f, limit)] + ReportedAll(rest, limit)
  {}

  lemma Padded(entry: Bytes, pad: nat, tail: Bytes)
    ensures entry + Zeros(2 * pad) + tail == entry + (Zeros(2 * pad) + tail)
    ensures pad == 0 ==> Zeros(2 * pad) + tail == tail
  {}

  lemma LongCons(utf: Utf, f: Format, rest: seq<Format>)
    requires Faithful(utf) && (f.name.Some? ==> 0 !in f.name.value)
    ensures LongComesBack(utf, [f] + rest) <==> IsAsciiName(f) && LongComesBack(utf, rest)
  {
    EncodeCons(utf, f, rest, true, false);
    if IsAsciiName(f) { LongEntryExists(utf, f); }
    hide EntryBytes, Encode, LongNames, ReportedAll, Faithful, IsAsciiName, Put32, WideBytes, Zeros;
    if Encode(utf, [f] + rest, true, false).Some? {
      var tail := Encode(utf, rest, true, false).value;
      var w, pad := LongEntryWritten(utf, f);
      Padded(Put32(f.id) + WideBytes(w) + [0, 0], pad, tail);
      LongEntryDecodes(utf, f.id, w, Zeros(2 * pad) + tail);
      assert ([Reported(f, None)] + ReportedAll(rest, None))[0] == Reported(f, None);
      assert ([Reported(f, None)] + ReportedAll(rest, None))[1..] == ReportedAll(rest, None);
    }
  }

  lemma LongEntryExists(utf: Utf, f: Format)
    requires Faithful(utf) && (f.name.Some? ==> 0 !in f.name.value) && IsAsciiName(f)
    ensures EntryBytes(utf, f, true, false).Some?
  {
    if f.name.Some? {
      FaithfulTo(utf, f.name.value);
      assert f.name.value[..|f.name.value|] == f.name.value;
    }
  }

  /**
   Long names come back exactly when every name is ASCII: the writer caps the UTF-8 length of a name by
   its UTF-16 length, so any other name is cut short or is not written at all.
  */
  lemma {:induction false} LongNamesIff(utf: Utf, fs: seq<Format>)
    requires Faithful(utf) && NulFree(fs)
    ensures LongComesBack(utf, fs) <==> AllAscii(fs)
  {
    if fs != [] {
      hide LongComesBack, Faithful;
      var f, rest := fs[0], fs[1..];
      assert fs == [f] + rest;
      assert f in fs && forall g | g in fs :: g == f || g in rest;
      assert forall g | g in rest :: g in fs;
      LongNamesIff(utf, rest);
      LongCons(utf, f, rest);
    }
  }

  /** The reader on the writer's bytes, whatever follows them in the stream. */
  lemma {:induction false} LongRoundTrip(utf: Utf, fs: seq<Format>, b: Bytes, rest: Bytes, asciiNames: bool)
    requires Faithful(utf) && NulFree(fs) && fs != [] && Encode(utf, fs, true, false) == Some(b)
    ensures Decode(utf, b + rest, |b|, asciiNames, true) == Outcome(NoError, Some(ReportedAll(fs, None)), |fs|)
       <==> AllAscii(fs)
  {
    LongNamesIff(utf, fs);
    assert (b + rest)[..|b|] == b;
    EncodeCons(utf, fs[0], fs[1..], true, false);
    assert fs == [fs[0]] + fs[1..];
    assert |b| >= 4;
    ReportedLength(fs, None);
    NamedSize(field => LongName(utf, field), ParseLong(b).0);
  }

  lemma {:induction false} ReportedLength(fs: seq<Format>, limit: Option<nat>)
    ensures |ReportedAll(fs, limit)| == |fs|
  {
    if fs != [] { ReportedLength(fs[1..], limit); }
  }

  // ---- short names

  lemma {:induction false} WideUntilNulTerminated(w: seq<wchar>, rest: Bytes)
    requires 0 !in w
    ensures WideUntilNul(Units(WideBytes(w) + [0, 0] + rest)) == w
  {
    var b := WideBytes(w) + [0, 0] + rest;
    if w == [] {
      assert Get16(b) == 0;
    } else {
      assert w[0] in w && Get16(b) == w[0];
      assert b[2..] == WideBytes(w[1..]) + [0, 0] + rest;
      WideUntilNulTerminated(w[1..], rest);
    }
  }

  function Limit(ascii: bool): nat { if ascii then 31 else 15 }

  /**
   What is read back from a short entry: the name up to the limit, and in the ASCII layout also only as
   many bytes as the name has UTF-16 units.
  */
  function Shown(utf: Utf, f: Format, ascii: bool): Format {
    if f.name.None? || f.name.value == [] then Format(f.id, None)
    else
      var n, units := f.name.value, NameUnits(utf, f);
      var room := if ascii && units.Some? then Min(Limit(ascii), units.value) else Limit(ascii);
      Format(f.id, Some(n[..Min(room, |n|)]))
  }

  function ShownAll(utf: Utf, fs: seq<Format>, ascii: bool): seq<Format> {
    if fs == [] then [] else [Shown(utf, fs[0], ascii)] + ShownAll(utf, fs[1..], ascii)
  }

  /** A short entry is 36 bytes and its name block reads back as shown. */
  lemma ShortEntryWritten(utf: Utf, f: Format, ascii: bool)
    requires Faithful(utf) && (f.name.Some? ==> 0 !in f.name.value) && EntryBytes(utf, f, false, ascii).Some?
    ensures var e := EntryBytes(utf, f, false, ascii).value;
      |e| == 36 && Get32(e) == f.id && ShortName(utf, ascii, e[4..]) == Some(Shown(utf, f, ascii).name)
  {
    if f.name.Some? && f.name.value != [] {
      var n := f.name.value;
      FaithfulTo(utf, n);
      assert n[0] in n;
      if ascii { ShortAsciiWritten(utf, f); } else { ShortUnicodeWritten(utf, f); }
    } else {
      FaithfulTo(utf, []);
      var e := EntryBytes(utf, f, false, ascii).value;
      assert e == Put32(f.id) + Zeros(32);
      Get32Put32(f.id, Zeros(32));
      assert e[4..] == Zeros(32);
    }
  }

  lemma ShortAsciiWritten(utf: Utf, f: Format)
    requires Faithful(utf) && f.name.Some? && f.name.value != [] && 0 !in f.name.value
    requires EntryBytes(utf, f, false, true).Some?
    ensures var e := EntryBytes(utf, f, false, true).value;
      |e| == 36 && Get32(e) == f.id && ShortName(utf, true, e[4..]) == Some(Shown(utf, f, true).name)
  {
    var n := f.name.value;
    FaithfulTo(utf, n);
    hide Faithful;
    var len := Min(31, |utf.toWide(n).value|);
    var block := n[..len] + Zeros(32 - len);
    assert EntryBytes(utf, f, false, true).value == Put32(f.id) + block;
    Get32Put32(f.id, block);
    AsciiBlock(n, len);
    assert (Put32(f.id) + block)[4..] == block;
  }

  lemma ShortUnicodeWritten(utf: Utf, f: Format)
    requires Faithful(utf) && f.name.Some? && f.name.value != [] && 0 !in f.name.value
    requires EntryBytes(utf, f, false, false).Some?
    ensures var e := EntryBytes(utf, f, false, false).value;
      |e| == 36 && Get32(e) == f.id && ShortName(utf, false, e[4..]) == Some(Shown(utf, f, false).name)
  {
    var n := f.name.value;
    var cut := n[..Min(15, |n|)];
    assert cut == n[..Min(|n|, 15)];
    FaithfulTo(utf, n);
    assert forall c | c in cut :: c in n;
    FaithfulTo(utf, cut);
    var w := utf.toWide(cut).value;
    UnicodeBlock(utf, w);
    hide Faithful;
    assert w[..|w|] == w;
    var block := WideBytes(w) + Zeros(2 * (15 - |w|)) + [0, 0];
    assert WideField(utf, n, 15) == Some(block);
    Get32Put32(f.id, block);
    assert (Put32(f.id) + block)[4..] == block;
  }

  lemma AsciiBlock(n: Bytes, len: nat)
    requires 0 !in n && 0 < len <= |n| && len <= 31
    ensures var block := n[..len] + Zeros(32 - len);
      |block| == 32 && block[0] != 0 && UntilNul(block[..31]) == n[..len]
  {
    var block := n[..len] + Zeros(32 - len);
    assert n[0] in n;
    if len < 31 {
      assert block[..31] == n[..len] + [0] + Zeros(30 - len);
      UntilNulTerminated(n[..len], Zeros(30 - len));
    } else {
      assert block[..31] == n[..len];
      UntilNulIdempotent(n[..len]);
    }
  }

  lemma UnicodeBlock(utf: Utf, w: seq<wchar>)
    requires 0 !in w && 0 < |w| <= 15 && utf.toUtf8(w).Some?
    ensures var block := WideBytes(w) + Zeros(2 * (15 - |w|)) + [0, 0];
      |block| == 32 && ShortName(utf, false, block) == Some(utf.toUtf8(w))
  {
    var block := WideBytes(w) + Zeros(2 * (15 - |w|)) + [0, 0];
    assert block == WideBytes(w) + [0, 0] + Zeros(2 * (15 - |w|));
    WideUntilNulTerminated(w, Zeros(2 * (15 - |w|)));
    assert w[0] in w && Get16(block) == w[0];
  }

  lemma ShortCons(utf: Utf, ascii: bool, e: Bytes, rest: Bytes)
    requires |e| == 36
    ensures var (es, ok) := ParseShort(rest);
      ParseShort(e + rest) == ([Entry(Get32(e), e[4..])] + es, ok)
  {}

  lemma {:induction false} ShortNames(utf: Utf, fs: seq<Format>, ascii: bool)
    requires Faithful(utf) && NulFree(fs) && Encode(utf, fs, false, ascii).Some?
    ensures var b := Encode(utf, fs, false, ascii).value;
      && ParseShort(b).1
      && NameAll(field => ShortName(utf, ascii, field), ParseShort(b).0) == Some(ShownAll(utf, fs, ascii))
  {
    if fs != [] {
      var f, rest := fs[0], fs[1..];
      assert f in fs && forall g | g in rest :: g in fs;
      ShortEntryWritten(utf, f, ascii);
      ShortNames(utf, rest, ascii);
      hide EntryBytes, ShortName, Faithful, ParseShort, Shown;
      var e, tail := EntryBytes(utf, f, false, ascii).value, Encode(utf, rest, false, ascii).value;
      ShortCons(utf, ascii, e, tail);
      var es := ParseShort(tail).0;
      assert ([Entry(Get32(e), e[4..])] + es)[1..] == es;
    }
  }

  /**
   Whatever short-name list the writer writes, its reader gives the list as shown (it must be told
   whether the names are ASCII), whatever follows it in the stream.
  */
  lemma {:induction false} ShortRoundTrip(utf: Utf, fs: seq<Format>, ascii: bool, b: Bytes, rest: Bytes)
    requires Faithful(utf) && NulFree(fs) && fs != [] && Encode(utf, fs, false, ascii) == Some(b)
    ensures Decode(utf, b + rest, |b|, ascii, false) == Outcome(NoError, Some(ShownAll(utf, fs, ascii)), |fs|)
  {
    ShortNames(utf, fs, ascii);
    assert (b + rest)[..|b|] == b;
    ShownLength(utf, fs, ascii);
    NamedSize(field => ShortName(utf, ascii, field), ParseShort(b).0);
    ParseShortShape(b);
  }

  lemma {:induction false} ShownLength(utf: Utf, fs: seq<Format>, ascii: bool)
    ensures |ShownAll(utf, fs, ascii)| == |fs|
  {
    if fs != [] { ShownLength(utf, fs[1..], ascii); }
  }

  /** The writer writes a short name exactly when it converts, and so does its cut in the Unicode layout. */
  predicate ShortWritable(utf: Utf, f: Format, ascii: bool) {
    f.name.Some? ==>
      && utf.toWide(f.name.value).Some?
      && (ascii || utf.toWide(f.name.value[..Min(15, |f.name.value|)]).Some?)
  }

  lemma {:induction false} ShortWrittenIff(utf: Utf, fs: seq<Format>, ascii: bool)
    requires Faithful(utf) && NulFree(fs)
    ensures Encode(utf, fs, false, ascii).Some? <==> forall f | f in fs :: ShortWritable(utf, f, ascii)
  {
    if fs != [] {
      var f, rest := fs[0], fs[1..];
      assert fs == [f] + rest;
      assert f in fs && forall g | g in fs :: g == f || g in rest;
      assert forall g | g in rest :: g in fs;
      ShortWrittenIff(utf, rest, ascii);
      if f.name.Some? {
        FaithfulTo(utf, f.name.value);
        assert Min(15, |f.name.value|) == Min(|f.name.value|, 15);
      }
      hide Faithful;
    }
  }

  /** A name the layout keeps up to its limit: in the ASCII layout it is ASCII or fills the block. */
  predicate ShortKept(utf: Utf, f: Format, ascii: bool) {
    ascii && f.name.Some? ==> IsAscii(f.name.value) || (NameUnits(utf, f).Some? && NameUnits(utf, f).value >= 31)
  }

  /**
   A short list comes back cut to 15 bytes in the Unicode layout, and cut to 31 bytes in the ASCII layout
   exactly when each name is ASCII or has at least 31 UTF-16 units.
  */
  lemma {:induction false} ShortNamesIff(utf: Utf, fs: seq<Format>, ascii: bool)
    requires Faithful(utf) && NulFree(fs) && Encode(utf, fs, false, ascii).Some?
    ensures ShownAll(utf, fs, ascii) == ReportedAll(fs, Some(Limit(ascii))) <==> forall f | f in fs :: ShortKept(utf, f, ascii)
  {
    if fs != [] {
      var f, rest := fs[0], fs[1..];
      assert fs == [f] + rest;
      assert f in fs && forall g | g in fs :: g == f || g in rest;
      assert forall g | g in rest :: g in fs;
      ShortNamesIff(utf, rest, ascii);
      ShownIff(utf, f, ascii);
      hide Faithful, Shown, Reported, ShortKept, EntryBytes;
      var limit := Some(Limit(ascii));
      assert ([Shown(utf, f, ascii)] + ShownAll(utf, rest, ascii))[1..] == ShownAll(utf, rest, ascii);
      assert ([Reported(f, limit)] + ReportedAll(rest, limit))[1..] == ReportedAll(rest, limit);
    }
  }

  lemma ShownIff(utf: Utf, f: Format, ascii: bool)
    requires Faithful(utf) && (f.name.Some? ==> 0 !in f.name.value) && EntryBytes(utf, f, false, ascii).Some?
    ensures Shown(utf, f, ascii) == Reported(f, Some(Limit(ascii))) <==> ShortKept(utf, f, ascii)
  {
    if f.name.Some? {
      var n := f.name.value;
      FaithfulTo(utf, n);
      hide Faithful;
      var units := |utf.toWide(n).value|;
      assert |n[..Min(Min(31, units), |n|)]| == Min(31, units) && |n[..Min(31, |n|)]| == Min(31, |n|);
    }
  }
}
