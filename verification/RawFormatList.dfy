/**
 The raw format list one X11 client leaves for another on its selection (client/X11/xf_cliprdr.c): the server's
 formats without the synthetic last one, and the parser that reads them back.
*/
module RawFormatList {
  import opened Common
  import opened LittleEndian
  import opened FormatListCodec

  const MAX_CLIPBOARD_FORMATS := 255

  // ---- the printer

  function NameBytes(f: Format): Bytes { if f.name.None? then [] else f.name.value }

  function EntryOf(f: Format): Bytes { Put32(f.id) + NameBytes(f) + [0] }

  function Entries(fs: seq<Format>): Bytes {
    if fs == [] then [] else EntryOf(fs[0]) + Entries(fs[1..])
  }

  /** All but the last: the server list always ends with the synthetic raw format. */
  function WithoutLast(fs: seq<Format>): seq<Format> { if fs == [] then [] else fs[..|fs| - 1] }

  function Serialize(fs: seq<Format>): Bytes
    requires |fs| <= 0xFFFF_FFFF
  {
    Put32(|WithoutLast(fs)|) + Entries(WithoutLast(fs))
  }

  // ---- the parser

  /** The entry at the start and its length, if it is whole. */
  function ParseEntry(b: Bytes): (r: Option<(Format, nat)>)
    ensures r.Some? ==> r.value.1 <= |b|
  {
    if |b| < 4 then None else
    var name := UntilNul(b[4..]);
    if 4 + |name| == |b| then None else Some((Format(Get32(b), Some(name)), 4 + |name| + 1))
  }

  function ParseEntries(b: Bytes, n: nat): Option<seq<Format>> {
    if n == 0 then Some([]) else
    var entry := ParseEntry(b);
    if entry.None? then None else
    var rest := ParseEntries(b[entry.value.1..], n - 1);
    if rest.None? then None else Some([entry.value.0] + rest.value)
  }

  function Parse(b: Bytes): Option<seq<Format>> {
    if |b| < 4 || Get32(b) > MAX_CLIPBOARD_FORMATS then None else ParseEntries(b[4..], Get32(b))
  }

  // ---- the two are inverse to each other

  /** Formats as the parser returns them: a null name becomes the empty one. */
  function Named(fs: seq<Format>): (r: seq<Format>)
    ensures |r| == |fs| && forall i :: 0 <= i < |fs| ==> r[i] == Format(fs[i].id, Some(NameBytes(fs[i])))
  {
    if fs == [] then [] else [Format(fs[0].id, Some(NameBytes(fs[0])))] + Named(fs[1..])
  }

  /** C strings hold no NUL. */
  predicate CStrings(fs: seq<Format>) { forall f :: f in fs ==> 0 !in NameBytes(f) }

  lemma {:induction false} ParsePrinted(fs: seq<Format>, rest: Bytes)
    requires CStrings(fs)
    ensures ParseEntries(Entries(fs) + rest, |fs|) == Some(Named(fs))
  {
    hide ParseEntries, ParseEntry, Entries, EntryOf, NameBytes, Named;
    if fs == [] {
      PrintedNone(rest);
    } else {
      var f, tail := fs[0], Entries(fs[1..]) + rest;
      assert f in fs && forall g | g in fs[1..] :: g in fs;
      EntryPrinted(f, tail);
      ParsePrinted(fs[1..], rest);
      EntriesHead(fs, rest);
      ParseHead(EntryOf(f), tail, |fs|, Format(f.id, Some(NameBytes(f))));
      NamedHead(fs);
    }
  }

  lemma PrintedNone(rest: Bytes)
    ensures ParseEntries(Entries([]) + rest, 0) == Some(Named([]))
  {}

  lemma EntriesHead(fs: seq<Format>, rest: Bytes)
    requires fs != []
    ensures Entries(fs) + rest == EntryOf(fs[0]) + (Entries(fs[1..]) + rest)
  {
    hide EntryOf;
  }

  lemma ParseHead(entry: Bytes, tail: Bytes, n: nat, f: Format)
    requires n > 0 && ParseEntry(entry + tail) == Some((f, |entry|))
    ensures ParseEntries(entry + tail, n)
         == var rest := ParseEntries(tail, n - 1); if rest.None? then None else Some([f] + rest.value)
  {
    hide ParseEntry;
    assert (entry + tail)[|entry|..] == tail;
  }

  lemma NamedHead(fs: seq<Format>)
    requires fs != []
    ensures Named(fs) == [Format(fs[0].id, Some(NameBytes(fs[0])))] + Named(fs[1..])
  {
    hide NameBytes;
  }

  lemma EntryPrinted(f: Format, tail: Bytes)
    requires 0 !in NameBytes(f)
    ensures ParseEntry(EntryOf(f) + tail) == Some((Format(f.id, Some(NameBytes(f))), |EntryOf(f)|))
  {
    var name, b := NameBytes(f), EntryOf(f) + tail;
    assert b == Put32(f.id) + (name + [0] + tail);
    Get32Put32(f.id, name + [0] + tail);
    UntilNulTerminated(name, tail);
    hide Put32, Get32, UntilNul;
    assert b[4..] == name + [0] + tail;
  }

  /** A count and, for every format but the last, its id and its name up to a NUL. */
  lemma PrintedBytes()
    ensures Serialize([Format(13, None), Format(0x102, Some([97, 98])), Format(0, None)])
         == [2, 0, 0, 0, 13, 0, 0, 0, 0, 2, 1, 0, 0, 97, 98, 0]
  {
    var fs := [Format(13, None), Format(0x102, Some([97, 98]))];
    assert WithoutLast(fs + [Format(0, None)]) == fs && fs[1..][1..] == [];
    assert Put32(2) == [2, 0, 0, 0] && Put32(13) == [13, 0, 0, 0] && Put32(0x102) == [2, 1, 0, 0];
    assert EntryOf(fs[0]) == [13, 0, 0, 0, 0] && EntryOf(fs[1]) == [2, 1, 0, 0, 97, 98, 0];
    hide EntryOf, Put32;
    assert Entries(fs) == EntryOf(fs[0]) + (EntryOf(fs[1]) + []);
  }

  /** Parsing what was printed gives every format but the last exactly when there are at most 255 of them. */
  lemma {:induction false} RoundTripIff(fs: seq<Format>, rest: Bytes)
    requires |fs| <= 0xFFFF_FFFF && CStrings(fs)
    ensures Parse(Serialize(fs) + rest)
         == if |WithoutLast(fs)| <= 255 then Some(Named(WithoutLast(fs))) else None
  {
    var kept := WithoutLast(fs);
    assert forall f :: f in kept ==> f in fs;
    var b := Serialize(fs) + rest;
    assert b == Put32(|kept|) + (Entries(kept) + rest);
    Get32Put32(|kept|, Entries(kept) + rest);
    assert b[4..] == Entries(kept) + rest;
    ParsePrinted(kept, rest);
  }

  lemma Put32Get32(b: Bytes)
    requires |b| >= 4
    ensures Put32(Get32(b)) == b[..4]
  {
    var b0, b1, b2, b3 := b[0] as int, b[1] as int, b[2] as int, b[3] as int;
    var top := b2 + 0x100 * b3;
    var high := b1 + 0x100 * top;
    assert Get32(b) == b0 + 0x100 * high;
    Base256(b2, b3);
    Base256(b1, top);
    Base256(b0, high);
    WordParts(b0 + 0x100 * high, high, top);
    hide Get32;
    assert Put32(Get32(b)) == [b[0], b[1], b[2], b[3]];
  }

  lemma Base256(low: int, high: int)
    requires 0 <= low < 0x100
    ensures (low + 0x100 * high) % 0x100 == low && (low + 0x100 * high) / 0x100 == high
  {}

  lemma WordParts(v: int, high: int, top: int)
    requires v / 0x100 == high && high / 0x100 == top
    ensures v / 0x1_0000 == top && v / 0x100_0000 == top / 0x100
  {}

  /** One parsed entry is the bytes it was read from. */
  lemma EntryParsed(b: Bytes)
    requires ParseEntry(b).Some?
    ensures var (f, n) := ParseEntry(b).value;
      0 !in NameBytes(f) && b == EntryOf(f) + b[n..]
  {
    hide Put32, Get32, UntilNul;
    Put32Get32(b);
    var name := UntilNul(b[4..]);
    assert b[4..][..|name|] == name;
  }

  /** What was parsed is printed as the bytes that were read. */
  lemma {:induction false} PrintParsed(b: Bytes, n: nat)
    requires ParseEntries(b, n).Some?
    ensures var fs := ParseEntries(b, n).value;
      |fs| == n && CStrings(fs) && Entries(fs) <= b
    decreases n
  {
    hide ParseEntry, EntryOf;
    if n > 0 {
      EntryParsed(b);
      var tail := b[ParseEntry(b).value.1..];
      PrintParsed(tail, n - 1);
      var fs, all := ParseEntries(tail, n - 1).value, ParseEntries(b, n).value;
      assert all[1..] == fs;
    }
  }

  /** Any list the parser accepts, with a raw format appended again, is printed as the bytes it came from. */
  lemma ParsedReprints(b: Bytes, raw: Format)
    requires Parse(b).Some?
    ensures |Parse(b).value| <= MAX_CLIPBOARD_FORMATS && Serialize(Parse(b).value + [raw]) <= b
  {
    var fs := Parse(b).value;
    PrintParsed(b[4..], Get32(b));
    Put32Get32(b);
    assert WithoutLast(fs + [raw]) == fs;
    assert b == b[..4] + b[4..];
  }

  // ---- the loops

  lemma PrintStep(s: Bytes, fs: seq<Format>, i: nat)
    requires i < |fs|
    ensures s + Entries(fs[i..]) == s + EntryOf(fs[i]) + Entries(fs[i + 1..])
  {}

  method SerializeServerFormats(fs: seq<Format>) returns (s: Bytes)
    requires |fs| <= 0xFFFF_FFFF
    ensures s == Serialize(fs)
  {
    var formatCount := if |fs| > 0 then |fs| - 1 else 0;
    s := Put32(formatCount);
    ghost var kept := WithoutLast(fs);
    assert kept[0..] == kept;
    hide Entries, Put32;
    for i := 0 to formatCount
      invariant s + Entries(kept[i..]) == Serialize(fs)
    {
      PrintStep(s, kept, i);
      var entry := Put32(fs[i].id);
      if fs[i].name.Some? {
        entry := entry + fs[i].name.value;
      }
      entry := entry + [0];
      assert fs[i].name.None? ==> Put32(fs[i].id) + [] == Put32(fs[i].id);
      s := s + entry;
    }
    assert kept[formatCount..] == [] && s + [] == s;
  }

  function After(read: seq<Format>, rest: Option<seq<Format>>): Option<seq<Format>> {
    if rest.None? then None else Some(read + rest.value)
  }

  lemma ParseStep(b: Bytes, n: nat, read: seq<Format>)
    requires n > 0
    ensures After(read, ParseEntries(b, n))
         == var e := ParseEntry(b);
            if e.None? then None else After(read + [e.value.0], ParseEntries(b[e.value.1..], n - 1))
  {
    var e := ParseEntry(b);
    if e.Some? {
      var rest := ParseEntries(b[e.value.1..], n - 1);
      assert rest.Some? ==> read + ([e.value.0] + rest.value) == read + [e.value.0] + rest.value;
    }
  }

  lemma ParseDone(b: Bytes, read: seq<Format>)
    ensures After(read, ParseEntries(b, 0)) == Some(read)
  {
    assert read + [] == read;
  }

  /** One turn of the parser's loop: an entry at a position, and the position after it. */
  method ReadEntry(data: Bytes, start: nat) returns (entry: Option<Format>, pos: nat)
    requires start <= |data|
    ensures entry.Some? <==> ParseEntry(data[start..]).Some?
    ensures entry.Some? ==> ParseEntry(data[start..]).value == (entry.value, pos - start) && start <= pos <= |data|
  {
    pos := start;
    if |data| - pos < 4 {
      return None, pos;
    }
    var id := Get32(data[pos..]);
    pos := pos + 4;
    assert data[start..][4..] == data[pos..];
    var name := UntilNul(data[pos..]);
    if |name| == |data| - pos {
      return None, pos;
    }
    return Some(Format(id, Some(name))), pos + |name| + 1;
  }

  lemma ParseStart(data: Bytes)
    ensures |data| < 4 || Get32(data) > MAX_CLIPBOARD_FORMATS ==> Parse(data) == None
    ensures |data| >= 4 && Get32(data) <= MAX_CLIPBOARD_FORMATS ==>
      Parse(data) == After([], ParseEntries(data[4..], Get32(data)))
  {
    var r := Parse(data);
    assert r.Some? ==> [] + r.value == r.value;
  }

  method ParseServerFormats(data: Bytes) returns (formats: array?<Format>)
    ensures formats == null <==> Parse(data).None?
    ensures formats != null ==> fresh(formats) && formats[..] == Parse(data).value
  {
    hide Get32, Parse, ParseEntry, ParseEntries, After;
    ParseStart(data);
    if |data| < 4 {
      return null;
    }
    var numFormats := Get32(data);
    if numFormats > MAX_CLIPBOARD_FORMATS {
      return null;
    }
    var out := new Format[numFormats](_ => Format(0, None));
    var pos := 4;
    ghost var read: seq<Format> := [];
    for i := 0 to numFormats
      invariant pos <= |data| && read == out[..i]
      invariant Parse(data) == After(read, ParseEntries(data[pos..], numFormats - i))
    {
      ParseStep(data[pos..], numFormats - i, read);
      var entry, next := ReadEntry(data, pos);
      if entry.None? {
        return null;
      }
      out[i] := entry.value;
      read := read + [entry.value];
      assert data[pos..][next - pos..] == data[next..];
      pos := next;
    }
    ParseDone(data[pos..], read);
    assert out[..] == out[..numFormats];
    return out;
  }
}
