/**
 The clipboard format list PDU (channels/cliprdr/cliprdr_common.c; sections 2.2.3.1.1.1 and 2.2.3.1.2.1
 of MS-RDPECLIP): a writer and a reader for long names, short Unicode names and short ASCII names.
*/
module FormatListCodec {
  import opened Common
  import opened LittleEndian

  /** Names are UTF-8 bytes; a null name is None. */
  datatype Format = Format(id: uint32, name: Option<Bytes>)

  /** The platform's UTF-8 and UTF-16 conversions. */
  datatype Utf = Utf(toWide: Bytes -> Option<seq<wchar>>, toUtf8: seq<wchar> -> Option<Bytes>)

  predicate IsAscii(name: Bytes) { forall c | c in name :: c < 0x80 }

  function Widen(name: Bytes): seq<wchar> { seq(|name|, i requires 0 <= i < |name| => name[i] as int) }

  /**
   What the conversions give a NUL-free string: no NUL, never more units than bytes and as many only for
   ASCII, the same characters for ASCII, something for something, and back to the same bytes. What a
   string of units was converted to has as many units again.
  */
  ghost predicate Faithful(utf: Utf) {
    && (forall n: Bytes {:trigger utf.toWide(n)} | 0 !in n ::
          && (IsAscii(n) ==> utf.toWide(n) == Some(Widen(n)))
          && (utf.toWide(n).Some? ==>
                var w := utf.toWide(n).value;
                && 0 !in w && |w| <= |n| && (|w| == |n| <==> IsAscii(n)) && (n != [] ==> w != [])
                && utf.toUtf8(w) == Some(n)))
    && (forall w: seq<wchar> {:trigger utf.toUtf8(w)} | 0 !in w && utf.toUtf8(w).Some? ::
          var back := utf.toWide(utf.toUtf8(w).value); back.Some? ==> |back.value| == |w|)
  }

  function Min(a: nat, b: nat): nat { if a < b then a else b }
  function Max(a: nat, b: nat): nat { if a < b then b else a }

  // ---- the writer

  function NameUnits(utf: Utf, f: Format): Option<nat> {
    if f.name.None? then Some(0)
    else if utf.toWide(f.name.value).None? then None
    else Some(|utf.toWide(f.name.value).value|)
  }

  function CharSize(long: bool, ascii: bool): nat { if long || !ascii then 2 else 1 }

  /** Capacity asked for before an entry is written. */
  function Ensured(units: nat, long: bool, ascii: bool): nat { 4 + Max(32, (units + 1) * CharSize(long, ascii)) }

  /** Stream_Write_UTF16_String_From_UTF8 with fill, then one NUL unit. */
  function WideField(utf: Utf, name: Bytes, room: nat): Option<Bytes> {
    var w := utf.toWide(name[..Min(|name|, room)]);
    if w.None? then None else
    var cut := w.value[..Min(|w.value|, room)];
    Some(WideBytes(cut) + Zeros(2 * (room - |cut|)) + [0, 0])
  }

  function EntryBytes(utf: Utf, f: Format, long: bool, ascii: bool): Option<Bytes> {
    var units := NameUnits(utf, f);
    if units.None? then None else
    var max := if long then units.value + 1 else if ascii then 32 else 16;
    var len := if long then units.value else Min(max - 1, units.value);
    if f.name.None? || len == 0 then Some(Put32(f.id) + Zeros(max * CharSize(long, ascii)))
    else if ascii then
      var n := Min(len, |f.name.value|);
      Some(Put32(f.id) + f.name.value[..n] + Zeros(max - n))
    else
      var field := WideField(utf, f.name.value, max - 1);
      if field.None? then None else Some(Put32(f.id) + field.value)
  }

  function Encode(utf: Utf, fs: seq<Format>, long: bool, ascii: bool): Option<Bytes> {
    if fs == [] then Some([]) else
    var entry, rest := EntryBytes(utf, fs[0], long, ascii), Encode(utf, fs[1..], long, ascii);
    if entry.None? || rest.None? then None else Some(entry.value + rest.value)
  }

  /** Every entry fits the capacity ensured for it. */
  lemma EntryFits(utf: Utf, f: Format, long: bool, ascii: bool)
    requires EntryBytes(utf, f, long, ascii).Some?
    ensures |EntryBytes(utf, f, long, ascii).value| <= Ensured(NameUnits(utf, f).value, long, ascii)
    ensures !long ==> |EntryBytes(utf, f, long, ascii).value| == 36
  {}

  method WriteFormatList(utf: Utf, fs: seq<Format>, long: bool, ascii: bool) returns (s: Option<Bytes>)
    ensures s == Encode(utf, fs, long, ascii)
  {
    hide EntryBytes, Encode;
    var out: Bytes := [];
    assert fs[0..] == fs;
    Prefixed([], Encode(utf, fs, long, ascii));
    for i := 0 to |fs|
      invariant Encode(utf, fs, long, ascii) == After(out, Encode(utf, fs[i..], long, ascii))
    {
      var entry := EntryBytes(utf, fs[i], long, ascii);
      EncodeHead(utf, fs, i, long, ascii);
      if entry.None? { return None; }
      AfterBoth(out, entry.value, Encode(utf, fs[i + 1..], long, ascii));
      out := out + entry.value;
    }
    EncodeNone(utf, long, ascii);
    assert fs[|fs|..] == [];
    Prefixed(out, Some([]));
    return Some(out);
  }

  function After(out: Bytes, rest: Option<Bytes>): Option<Bytes> {
    if rest.None? then None else Some(out + rest.value)
  }

  lemma Prefixed(out: Bytes, rest: Option<Bytes>)
    ensures out == [] ==> After(out, rest) == rest
    ensures rest == Some([]) ==> After(out, rest) == Some(out)
  {
    if rest.Some? { assert [] + rest.value == rest.value && out + [] == out; }
  }

  lemma AfterBoth(out: Bytes, entry: Bytes, rest: Option<Bytes>)
    ensures After(out, After(entry, rest)) == After(out + entry, rest)
  {
    if rest.Some? { assert out + (entry + rest.value) == out + entry + rest.value; }
  }

  lemma EncodeNone(utf: Utf, long: bool, ascii: bool)
    ensures Encode(utf, [], long, ascii) == Some([])
  {}

  lemma EncodeHead(utf: Utf, fs: seq<Format>, i: nat, long: bool, ascii: bool)
    requires i < |fs|
    ensures var entry := EntryBytes(utf, fs[i], long, ascii);
      Encode(utf, fs[i..], long, ascii)
      == if entry.None? then None else After(entry.value, Encode(utf, fs[i + 1..], long, ascii))
  {
    hide EntryBytes;
    assert fs[i..][1..] == fs[i + 1..];
  }

  // ---- the reader: long names

  /** An entry before its name is converted. */
  datatype Entry = Entry(id: uint32, field: Bytes)

  /** The entries of a long-name list up to the first that does not fit, and whether all did. */
  function ParseLong(b: Bytes): (seq<Entry>, bool) {
    if |b| < 4 then ([], true) else
    var rest := b[4..];
    var n := WideLength(rest);
    if |rest| < 2 * (n + 1) then ([], false) else
    var (es, ok) := ParseLong(rest[2 * (n + 1)..]);
    ([Entry(Get32(b), rest[..2 * n])] + es, ok)
  }

  lemma ParseLongHead(b: Bytes)
    ensures if |b| < 4 || |b| - 4 < 2 * (WideLength(b[4..]) + 1) then ParseLong(b) == ([], |b| < 4)
      else
        var n := WideLength(b[4..]);
        var (es, ok) := ParseLong(b[4..][2 * (n + 1)..]);
        ParseLong(b) == ([Entry(Get32(b), b[4..][..2 * n])] + es, ok)
  {}

  /** An entry takes at least six bytes. */
  lemma {:induction false} CountBound(b: Bytes)
    ensures |ParseLong(b).0| <= |b| / 6
  {
    hide ParseLong, WideLength, Get32;
    ParseLongHead(b);
    if |b| >= 4 {
      var n := WideLength(b[4..]);
      if |b| - 4 >= 2 * (n + 1) { CountBound(b[4..][2 * (n + 1)..]); }
    }
  }

  datatype Error = NoError | InvalidData | InternalError | NoMemory

  /** What the caller sees: the error, the array (None for null) and the count beside it. */
  datatype Outcome = Outcome(error: Error, formats: Option<seq<Format>>, numFormats: nat)

  const FREED := Outcome(InternalError, None, 0)

  function LongName(utf: Utf, field: Bytes): Option<Option<Bytes>> {
    if field == [] then Some(None) else
    var n := utf.toUtf8(Units(field));
    if n.None? then None else Some(n)
  }

  /** Names for all entries, unless a conversion fails. */
  function NameAll(name: Bytes -> Option<Option<Bytes>>, es: seq<Entry>): Option<seq<Format>> {
    if es == [] then Some([]) else
    var n, rest := name(es[0].field), NameAll(name, es[1..]);
    if n.None? || rest.None? then None else Some([Format(es[0].id, n.value)] + rest.value)
  }

  function Named(fs: Option<seq<Format>>): Outcome {
    if fs.None? then FREED else Outcome(NoError, Some(fs.value), |fs.value|)
  }

  /** A failing first pass leaves its count behind, with a null array beside it. */
  function DecodeLong(utf: Utf, b: Bytes): Outcome {
    var (es, ok) := ParseLong(b);
    if !ok then Outcome(InternalError, None, |es|)
    else if es == [] then Outcome(NoMemory, None, 0)
    else Named(NameAll(field => LongName(utf, field), es))
  }

  /** One more entry consumed: how the parse of a suffix continues. */
  lemma ParseLongAt(b: Bytes, pos: nat, n: nat)
    requires pos + 4 <= |b| && n == WideLength(b[pos + 4..])
    ensures pos + 4 + 2 * (n + 1) > |b| ==> ParseLong(b[pos..]) == ([], false)
    ensures pos + 4 + 2 * (n + 1) <= |b| ==>
      var (es, ok) := ParseLong(b[pos + 4 + 2 * (n + 1)..]);
      ParseLong(b[pos..]) == ([Entry(Get32(b[pos..]), b[pos + 4..pos + 4 + 2 * n])] + es, ok)
  {
    hide ParseLong, WideLength, Get32;
    ParseLongHead(b[pos..]);
    assert b[pos..][4..] == b[pos + 4..];
    if pos + 4 + 2 * (n + 1) <= |b| {
      assert b[pos + 4..][2 * (n + 1)..] == b[pos + 4 + 2 * (n + 1)..];
      assert b[pos + 4..][..2 * n] == b[pos + 4..pos + 4 + 2 * n];
    }
  }

  lemma ParseLongEnd(b: Bytes, pos: nat)
    requires pos <= |b| < pos + 4
    ensures ParseLong(b[pos..]) == ([], true)
  {}

  lemma {:induction false} NameAllPrefix(name: Bytes -> Option<Option<Bytes>>, es: seq<Entry>, k: nat)
    requires k < |es| && name(es[k].field).None?
    ensures NameAll(name, es).None?
  {
    if k > 0 {
      NameAllPrefix(name, es[1..], k - 1);
    }
  }

  lemma {:induction false} NameAllEach(name: Bytes -> Option<Option<Bytes>>, es: seq<Entry>, fs: seq<Format>)
    requires |fs| == |es|
    requires forall k :: 0 <= k < |es| ==> name(es[k].field).Some? && fs[k] == Format(es[k].id, name(es[k].field).value)
    ensures NameAll(name, es) == Some(fs)
  {
    if es != [] {
      NameAllEach(name, es[1..], fs[1..]);
      assert fs == [fs[0]] + fs[1..];
    }
  }

  /** The first pass: counts entries, or fails on the first that does not fit. */
  method CountEntries(b: Bytes) returns (ok: bool, numFormats: nat)
    ensures ok == ParseLong(b).1 && numFormats == |ParseLong(b).0|
  {
    hide ParseLong, WideLength, Get32;
    var pos := 0;
    numFormats := 0;
    assert b[0..] == b;
    while |b| - pos >= 4
      invariant pos <= |b|
      invariant ParseLong(b).1 == ParseLong(b[pos..]).1
      invariant |ParseLong(b).0| == numFormats + |ParseLong(b[pos..]).0|
    {
      var n := FindWideLength(b[pos + 4..]);
      ParseLongAt(b, pos, n);
      if |b| - (pos + 4) < 2 * (n + 1) { return false, numFormats; }
      pos := pos + 4 + 2 * (n + 1);
      numFormats := numFormats + 1;
    }
    ParseLongEnd(b, pos);
    return true, numFormats;
  }

  /**
   The second pass on bytes that the first pass accepted: it sees the same entries, stays below the
   count, and fills every slot unless a name conversion fails.
  */
  method FillEntries(utf: Utf, b: Bytes, numFormats: nat) returns (ok: bool, formats: array<Format>)
    requires ParseLong(b).1 && numFormats == |ParseLong(b).0|
    ensures formats.Length == numFormats && fresh(formats)
    ensures NameAll(field => LongName(utf, field), ParseLong(b).0) == if ok then Some(formats[..]) else None
  {
    hide ParseLong, NameAll, LongName, WideLength, Get32;
    formats := new Format[numFormats](i => Format(0, None));
    var index, pos := 0, 0;
    ghost var es := ParseLong(b).0;
    ghost var name := field => LongName(utf, field);
    assert b[0..] == b && es[0..] == es;
    while |b| - pos >= 4
      invariant pos <= |b| && index <= numFormats
      invariant ParseLong(b[pos..]) == (es[index..], true)
      invariant forall k :: 0 <= k < index ==> name(es[k].field).Some? && formats[k] == Format(es[k].id, name(es[k].field).value)
    {
      var n := FindWideLength(b[pos + 4..]);
      ParseLongAt(b, pos, n);
      assert index < numFormats;                 // the overflow guard is never taken
      assert pos + 4 + 2 * (n + 1) <= |b|;       // and the seek over the name never fails
      assert es[index] == es[index..][0] && es[index + 1..] == es[index..][1..];
      var field := b[pos + 4..pos + 4 + 2 * n];
      var decoded := LongName(utf, field);
      if decoded.None? {
        NameAllPrefix(name, es, index);
        return false, formats;
      }
      formats[index] := Format(Get32(b[pos..]), decoded.value);
      pos := pos + 4 + 2 * (n + 1);
      index := index + 1;
    }
    ParseLongEnd(b, pos);
    assert index == numFormats;
    NameAllEach(name, es, formats[..]);
    return true, formats;
  }

  // ---- the reader: short names

  /** The 36-byte entries of a short-name list, and whether fewer than four bytes are left over. */
  function ParseShort(b: Bytes): (seq<Entry>, bool) {
    if |b| < 36 then ([], |b| < 4) else
    var (es, ok) := ParseShort(b[36..]);
    ([Entry(Get32(b), b[4..36])] + es, ok)
  }

  function WideUntilNul(w: seq<wchar>): seq<wchar> {
    if w == [] || w[0] == 0 then [] else [w[0]] + WideUntilNul(w[1..])
  }

  function ShortName(utf: Utf, asciiNames: bool, field: Bytes): Option<Option<Bytes>> {
    if |field| != 32 then Some(None)
    else if asciiNames then Some(if field[0] == 0 then None else Some(UntilNul(field[..31])))
    else if Get16(field) == 0 then Some(None)
    else
      var n := utf.toUtf8(WideUntilNul(Units(field)));
      if n.None? then None else Some(n)
  }

  lemma {:induction false} ParseShortShape(b: Bytes)
    ensures |ParseShort(b).0| == |b| / 36
    ensures ParseShort(b).1 <==> |b| % 36 < 4
  {
    if |b| >= 36 { ParseShortShape(b[36..]); }
  }

  lemma ParseShortAt(b: Bytes, pos: nat)
    requires pos <= |b|
    ensures if pos + 36 <= |b| then
        ParseShort(b[pos..]).0 == [Entry(Get32(b[pos..]), b[pos + 4..pos + 36])] + ParseShort(b[pos + 36..]).0
      else ParseShort(b[pos..]).0 == []
  {
    if pos + 36 <= |b| {
      assert b[pos..][36..] == b[pos + 36..] && b[pos..][4..36] == b[pos + 4..pos + 36];
    }
  }

  /** A list shorter than one entry has no array; left-over bytes free it again. */
  function DecodeShort(utf: Utf, asciiNames: bool, b: Bytes): Outcome {
    var (es, ok) := ParseShort(b);
    if es == [] then Outcome(NoMemory, None, 0) else
    var fs := NameAll(field => ShortName(utf, asciiNames, field), es);
    if !ok then FREED else Named(fs)
  }

  /** The short-name loop; it stops at the count, so the seek over a name never fails. */
  method FillShort(utf: Utf, asciiNames: bool, b: Bytes, numFormats: nat) returns (ok: bool, formats: array<Format>)
    requires 36 * numFormats <= |b| < 36 * numFormats + 36 && numFormats == |ParseShort(b).0|
    ensures formats.Length == numFormats && fresh(formats)
    ensures ok ==> |b| - 36 * numFormats < 4
    ensures ok ==> NameAll(field => ShortName(utf, asciiNames, field), ParseShort(b).0) == Some(formats[..])
    ensures !ok && |b| - 36 * numFormats < 4 ==> NameAll(field => ShortName(utf, asciiNames, field), ParseShort(b).0).None?
  {
    hide ParseShort, NameAll, ShortName;
    formats := new Format[numFormats](i => Format(0, None));
    var index, pos := 0, 0;
    ghost var es := ParseShort(b).0;
    ghost var name := field => ShortName(utf, asciiNames, field);
    assert b[0..] == b && es[0..] == es;
    while |b| - pos >= 4
      invariant pos == 36 * index && index <= numFormats
      invariant ParseShort(b[pos..]).0 == es[index..]
      invariant forall k :: 0 <= k < index ==> name(es[k].field).Some? && formats[k] == Format(es[k].id, name(es[k].field).value)
      decreases |b| - pos
    {
      if index >= numFormats { return false, formats; }
      ParseShortAt(b, pos);
      assert es[index] == es[index..][0] && es[index + 1..] == es[index..][1..];
      var field := b[pos + 4..pos + 36];
      var decoded := ShortName(utf, asciiNames, field);
      if decoded.None? {
        NameAllPrefix(name, es, index);
        return false, formats;
      }
      formats[index] := Format(Get32(b[pos..]), decoded.value);
      pos, index := pos + 36, index + 1;
    }
    assert index == numFormats;
    NameAllEach(name, es, formats[..]);
    return true, formats;
  }

  method ReadShort(utf: Utf, asciiNames: bool, b: Bytes) returns (r: Outcome)
    requires b != []
    ensures r == DecodeShort(utf, asciiNames, b)
  {
    ParseShortShape(b);
    var numFormats := |b| / 36;
    if numFormats == 0 { return Outcome(NoMemory, None, 0); }
    hide ParseShort, NameAll, ShortName;
    var ok, formats := FillShort(utf, asciiNames, b, numFormats);
    return if ok then Outcome(NoError, Some(formats[..]), numFormats) else FREED;
  }

  /**
   Short names are read exactly from whole entries with fewer than four bytes left over whose names all
   convert, as ASCII names always do.
  */
  lemma {:induction false} ShortLoopCompletes(utf: Utf, asciiNames: bool, b: Bytes)
    requires b != []
    ensures var names := NameAll(field => ShortName(utf, asciiNames, field), ParseShort(b).0);
      && (DecodeShort(utf, asciiNames, b).error == NoError <==> |b| >= 36 && |b| % 36 < 4 && names.Some?)
      && (asciiNames ==> names.Some?)
  {
    ParseShortShape(b);
    if asciiNames { AsciiNamesAlwaysDecode(utf, ParseShort(b).0); }
  }

  lemma {:induction false} AsciiNamesAlwaysDecode(utf: Utf, es: seq<Entry>)
    ensures NameAll(field => ShortName(utf, true, field), es).Some?
  {
    if es != [] { AsciiNamesAlwaysDecode(utf, es[1..]); }
  }

  // ---- the reader

  /** cliprdr_read_format_list on a stream with the bytes "s" left */
  function Decode(utf: Utf, s: Bytes, dataLen: nat, asciiNames: bool, long: bool): Outcome {
    if |s| < dataLen then Outcome(InvalidData, None, 0)
    else if dataLen == 0 then Outcome(NoError, None, 0)
    else if long then DecodeLong(utf, s[..dataLen])
    else DecodeShort(utf, asciiNames, s[..dataLen])
  }

  /** Every way a read can end: its error, and the array and count beside it. */
  lemma ReadEnds(utf: Utf, s: Bytes, dataLen: nat, asciiNames: bool, long: bool)
    ensures var r := Decode(utf, s, dataLen, asciiNames, long);
      && (dataLen > |s| ==> r == Outcome(InvalidData, None, 0))
      && (dataLen == 0 ==> r == Outcome(NoError, None, 0))
      && (0 < dataLen <= |s| ==>
            var b, (es, whole) := s[..dataLen], if long then ParseLong(s[..dataLen]) else ParseShort(s[..dataLen]);
            var fs := if long then NameAll(field => LongName(utf, field), es)
                      else NameAll(field => ShortName(utf, asciiNames, field), es);
            && (r.error == NoError ==> whole && es != [] && r.formats == fs && fs.Some? && r.numFormats == |es|)
            && (r.error == NoMemory <==> dataLen < if long then 4 else 36)
            && (r.error == InternalError <==> dataLen >= (if long then 4 else 36) && !(whole && fs.Some?))
            && (r.error != NoError ==> r.formats == None && r.numFormats == if long && !whole then |es| else 0))
  {
    if 0 < dataLen <= |s| {
      var b := s[..dataLen];
      ParseShortShape(b);
      ParseLongHead(b);
      NamedSize(field => LongName(utf, field), ParseLong(b).0);
      NamedSize(field => ShortName(utf, asciiNames, field), ParseShort(b).0);
    }
  }

  lemma {:induction false} NamedSize(name: Bytes -> Option<Option<Bytes>>, es: seq<Entry>)
    ensures NameAll(name, es).Some? ==> |NameAll(name, es).value| == |es|
  {
    if es != [] { NamedSize(name, es[1..]); }
  }

  /** A list without formats is written as nothing, and read back as no array without an error. */
  lemma EmptyList(utf: Utf, rest: Bytes, long: bool, ascii: bool, asciiNames: bool)
    ensures Encode(utf, [], long, ascii) == Some([]) && Decode(utf, [] + rest, 0, asciiNames, long) == Outcome(NoError, None, 0)
  {}

  method ReadFormatList(utf: Utf, s: Bytes, dataLen: nat, asciiNames: bool, long: bool) returns (r: Outcome)
    ensures r == Decode(utf, s, dataLen, asciiNames, long)
  {
    if |s| < dataLen { return Outcome(InvalidData, None, 0); }
    if dataLen == 0 { return Outcome(NoError, None, 0); }
    if !long {
      r := ReadShort(utf, asciiNames, s[..dataLen]);
      return;
    }
    var ok, numFormats := CountEntries(s[..dataLen]);
    if !ok { return Outcome(InternalError, None, numFormats); }
    if numFormats == 0 { return Outcome(NoMemory, None, 0); }
    var filled, formats := FillEntries(utf, s[..dataLen], numFormats);
    r := if filled then Outcome(NoError, Some(formats[..]), numFormats) else FREED;
  }
}
