/** Where the format list's writer and reader disagree, and conversions that show the disagreement. */
module FormatListLimits {
  import opened Common
  import opened LittleEndian
  import opened FormatListCodec
  import opened FormatListRoundTrip

  // ---- long names written as ASCII

  predicate Nameless(f: Format) { f.name.None? || f.name.value == [] }

  /** What an entry takes when its long name is written as ASCII: one byte for each unit and for the NUL. */
  function Written(utf: Utf, f: Format): nat {
    if Nameless(f) || utf.toWide(f.name.value).None? then 6 else 5 + |utf.toWide(f.name.value).value|
  }

  function WrittenAll(utf: Utf, fs: seq<Format>): nat {
    if fs == [] then 0 else Written(utf, fs[0]) + WrittenAll(utf, fs[1..])
  }

  lemma {:induction false} LongAsciiLength(utf: Utf, fs: seq<Format>)
    requires Faithful(utf) && NulFree(fs) && Encode(utf, fs, true, true).Some?
    ensures |Encode(utf, fs, true, true).value| == WrittenAll(utf, fs)
  {
    if fs != [] {
      var f, rest := fs[0], fs[1..];
      assert f in fs && forall g | g in rest :: g in fs;
      LongAsciiLength(utf, rest);
      FaithfulTo(utf, []);
      if f.name.Some? { FaithfulTo(utf, f.name.value); }
      hide Faithful, Put32;
      assert |EntryBytes(utf, f, true, true).value| == Written(utf, f);
    }
  }

  /** What the long-name reader takes for its entries. */
  function Taken(es: seq<Entry>): nat { if es == [] then 0 else 6 + |es[0].field| + Taken(es[1..]) }

  /** The field of an entry that was parsed: whole units before the first NUL. */
  predicate IsField(field: Bytes) { |field| % 2 == 0 && 0 !in Units(field) }

  predicate AreFields(es: seq<Entry>) { forall e | e in es :: IsField(e.field) }

  lemma {:induction false} TakenFits(b: Bytes)
    ensures Taken(ParseLong(b).0) <= |b| && AreFields(ParseLong(b).0)
  {
    hide ParseLong, IsField;
    ParseLongHead(b);
    if |b| >= 4 && |b| - 4 >= 2 * (WideLength(b[4..]) + 1) {
      var n := WideLength(b[4..]);
      var rest := b[4..][2 * (n + 1)..];
      TakenFits(rest);
      FieldParsed(b[4..]);
      var e, es := Entry(Get32(b), b[4..][..2 * n]), ParseLong(rest).0;
      assert ([e] + es)[1..] == es;
    }
  }

  lemma FieldParsed(b: Bytes)
    ensures IsField(b[..2 * WideLength(b)])
  {
    BeforeNul(b);
  }

  lemma {:induction false} BeforeNul(b: Bytes)
    ensures 0 !in Units(b[..2 * WideLength(b)])
  {
    if |b| >= 2 && Get16(b) != 0 {
      BeforeNul(b[2..]);
      var n := WideLength(b[2..]);
      assert WideLength(b) == n + 1;
      assert b[..2 * (n + 1)][2..] == b[2..][..2 * n];
    }
  }

  /** A reader that gives every name back takes two bytes for each unit: more than was written, if there is one. */
  lemma {:induction false} TakesMore(utf: Utf, fs: seq<Format>, es: seq<Entry>)
    requires Faithful(utf) && NulFree(fs) && Encode(utf, fs, true, true).Some? && AreFields(es)
    requires NameAll(field => LongName(utf, field), es) == Some(ReportedAll(fs, None))
    ensures Taken(es) >= WrittenAll(utf, fs)
    ensures Taken(es) == WrittenAll(utf, fs) ==> forall f | f in fs :: Nameless(f)
  {
    if fs != [] {
      var f, rest := fs[0], fs[1..];
      assert fs == [f] + rest;
      assert f in fs && forall g | g in fs :: g == f || g in rest;
      assert forall g | g in rest :: g in fs;
      assert es != [];
      var name := field => LongName(utf, field);
      assert es[0] in es && forall e | e in es[1..] :: e in es;
      assert NameAll(name, es).value == [Format(es[0].id, name(es[0].field).value)] + NameAll(name, es[1..]).value;
      assert NameAll(name, es).value[0] == Reported(f, None) && NameAll(name, es).value[1..] == ReportedAll(rest, None);
      TakesMore(utf, rest, es[1..]);
      if !Nameless(f) { EntryTakesMore(utf, f, es[0].field); }
    } else {
      assert es == [];
    }
  }

  lemma EntryTakesMore(utf: Utf, f: Format, field: Bytes)
    requires Faithful(utf) && !Nameless(f) && 0 !in f.name.value && IsField(field)
    requires LongName(utf, field) == Some(f.name)
    ensures 6 + |field| > Written(utf, f)
  {
    var w := Units(field);
    assert utf.toUtf8(w) == f.name;
  }

  /**
   Asked for long names and ASCII at once, the writer warns that it ignores ASCII but does not: the list
   then comes back exactly when no format in it has a name.
  */
  lemma {:induction false} LongAsciiIff(utf: Utf, fs: seq<Format>, b: Bytes, rest: Bytes, asciiNames: bool)
    requires Faithful(utf) && NulFree(fs) && fs != [] && Encode(utf, fs, true, true) == Some(b)
    ensures Decode(utf, b + rest, |b|, asciiNames, true) == Outcome(NoError, Some(ReportedAll(fs, None)), |fs|)
       <==> forall f | f in fs :: Nameless(f)
  {
    assert (b + rest)[..|b|] == b;
    LongAsciiLength(utf, fs);
    if forall f | f in fs :: Nameless(f) {
      NamelessSame(utf, fs);
      LongRoundTrip(utf, fs, b, rest, asciiNames);
    } else {
      TakenFits(b);
      var es := ParseLong(b).0;
      if NameAll(field => LongName(utf, field), es) == Some(ReportedAll(fs, None)) { TakesMore(utf, fs, es); }
    }
  }

  lemma {:induction false} NamelessSame(utf: Utf, fs: seq<Format>)
    requires Faithful(utf) && forall f | f in fs :: Nameless(f)
    ensures Encode(utf, fs, true, false) == Encode(utf, fs, true, true)
    ensures AllAscii(fs)
  {
    if fs != [] {
      assert fs[0] in fs && forall g | g in fs[1..] :: g in fs;
      NamelessSame(utf, fs[1..]);
      assert forall g | g in fs :: g == fs[0] || g in fs[1..];
      NamelessEntry(utf, fs[0]);
      hide EntryBytes, Nameless, Faithful;
      assert fs == [fs[0]] + fs[1..];
      EncodeCons(utf, fs[0], fs[1..], true, false);
      EncodeCons(utf, fs[0], fs[1..], true, true);
    }
  }

  lemma NamelessEntry(utf: Utf, f: Format)
    requires Faithful(utf) && Nameless(f)
    ensures EntryBytes(utf, f, true, false) == EntryBytes(utf, f, true, true)
    ensures IsAsciiName(f)
  {
    FaithfulTo(utf, []);
  }

  /** One such entry alone is refused. */
  lemma OneEntryRefused(utf: Utf, id: uint32, n: Bytes)
    requires Faithful(utf) && 0 !in n && IsAscii(n) && n != []
    ensures var b := Encode(utf, [Format(id, Some(n))], true, true);
      b.Some? && b.value == Put32(id) + n + [0] && DecodeLong(utf, b.value).error == InternalError
  {
    var f := Format(id, Some(n));
    FaithfulTo(utf, n);
    assert [f] == [f] + [];
    EncodeCons(utf, f, [], true, true);
    assert n[..|n|] == n && Zeros(1) == [0] && n + [0] + [] == n + [0];
    var b := Put32(id) + n + [0];
    assert b[4..] == n + [0];
    NoWholeNul(n);
  }

  lemma {:induction false} NoWholeNul(n: Bytes)
    requires 0 !in n && n != []
    ensures 2 * WideLength(n + [0]) + 2 > |n| + 1
  {
    var b := n + [0];
    assert n[0] in n && Get16(b) != 0;
    if |n| >= 2 {
      assert b[2..] == n[2..] + [0];
      assert forall c | c in n[2..] :: c in n;
      if |n| > 2 { NoWholeNul(n[2..]); }
    }
  }

  const TWO_NAMES := [Format(1, Some([97])), Format(13, Some([99]))]
  const TWO_WRITTEN := [1, 0, 0, 0, 97, 0, 13, 0, 0, 0, 99, 0]

  lemma TwoWritten(utf: Utf)
    requires Faithful(utf)
    ensures Encode(utf, TWO_NAMES, true, true) == Some(TWO_WRITTEN)
  {
    FaithfulTo(utf, [97]);
    FaithfulTo(utf, [99]);
    hide Faithful;
    var first, second := TWO_NAMES[0], TWO_NAMES[1];
    assert EntryBytes(utf, first, true, true) == Some([1, 0, 0, 0, 97, 0]) && EntryBytes(utf, second, true, true) == Some([13, 0, 0, 0, 99, 0]) by {
      assert Zeros(1) == [0] && [97][..1] == [97] && [99][..1] == [99];
      assert Put32(1) == [1, 0, 0, 0] && Put32(13) == [13, 0, 0, 0];
      assert [1, 0, 0, 0] + [97] + [0] == [1, 0, 0, 0, 97, 0] && [13, 0, 0, 0] + [99] + [0] == [13, 0, 0, 0, 99, 0];
    }
    assert Encode(utf, [], true, true) == Some([]);
    hide EntryBytes, Encode;
    assert TWO_NAMES == [first] + [second] && [second] == [second] + [];
    EncodeCons(utf, first, [second], true, true);
    EncodeCons(utf, second, [], true, true);
    assert [13, 0, 0, 0, 99, 0] + [] == [13, 0, 0, 0, 99, 0];
    assert [1, 0, 0, 0, 97, 0] + [13, 0, 0, 0, 99, 0] == TWO_WRITTEN;
  }

  /** Two of them are read without an error as one format with another name. */
  lemma TwoEntriesMerge(utf: Utf)
    requires Faithful(utf)
    ensures Encode(utf, TWO_NAMES, true, true) == Some(TWO_WRITTEN)
    ensures Decode(utf, TWO_WRITTEN, |TWO_WRITTEN|, false, true) == Outcome(NoError, Some([Format(1, Some([97, 13]))]), 1)
  {
    hide Faithful, Encode, LongNames, DecodeLong;
    TwoWritten(utf);
    TwoNames(utf);
    DecodedLong(utf, TWO_WRITTEN);
    assert TWO_WRITTEN[..|TWO_WRITTEN|] == TWO_WRITTEN;
  }

  lemma {:induction false} TwoNames(utf: Utf)
    requires Faithful(utf)
    ensures LongNames(utf, TWO_WRITTEN) == Some([Format(1, Some([97, 13]))])
  {
    var w := [97, 13];
    FaithfulTo(utf, w);
    assert Widen(w) == w;
    TwoMerged();
    assert LongNames(utf, [99, 0]) == Some([]);
    hide Faithful, Encode, ParseLong, Put32, WideBytes, LongNames;
    LongEntryDecodes(utf, 1, w, [99, 0]);
    var head := Format(1, Some(w));
    assert [head] + [] == [head];
  }

  lemma TwoMerged()
    ensures Put32(1) + WideBytes([97, 13]) + [0, 0] + [99, 0] == TWO_WRITTEN
  {
    assert [97, 13][1..] == [13];
    assert WideBytes([97, 13]) == [97, 0] + WideBytes([13]) == [97, 0, 13, 0];
    assert Put32(1) == [1, 0, 0, 0];
  }

  lemma DecodedLong(utf: Utf, b: Bytes)
    requires LongNames(utf, b).Some? && LongNames(utf, b).value != []
    ensures DecodeLong(utf, b) == Outcome(NoError, LongNames(utf, b), |LongNames(utf, b).value|)
  {
    NamedSize(field => LongName(utf, field), ParseLong(b).0);
  }

  // ---- a count without an array

  /**
   A failing read leaves a count beside a null array exactly when an entry of a long list does not fit
   and one before it did.
  */
  lemma StaleCountIff(utf: Utf, s: Bytes, dataLen: nat, asciiNames: bool, long: bool)
    ensures var r := Decode(utf, s, dataLen, asciiNames, long);
      r.formats.None? && r.numFormats > 0
      <==> long && 0 < dataLen <= |s| && !ParseLong(s[..dataLen]).1 && ParseLong(s[..dataLen]).0 != []
  {}

  lemma StaleCount(utf: Utf)
    ensures DecodeLong(utf, Put32(13) + [0, 0] + Put32(1)) == Outcome(InternalError, None, 1)
  {
    LongEntryParses(13, [], Put32(1));
    assert Put32(13) + WideBytes([]) + [0, 0] + Put32(1) == Put32(13) + [0, 0] + Put32(1);
    assert Put32(1)[4..] == [];
  }

  // ---- conversions that meet the contract

  /** UTF-8 sequences of one and two bytes. */
  function FromUtf8(n: Bytes): Option<seq<wchar>> {
    if n == [] then Some([])
    else if n[0] < 0x80 then
      var rest := FromUtf8(n[1..]);
      if rest.None? then None else Some([n[0] as wchar] + rest.value)
    else if |n| >= 2 && IsPair(n[0], n[1]) then
      var rest := FromUtf8(n[2..]);
      if rest.None? then None else Some([Joined(n[0], n[1])] + rest.value)
    else None
  }

  predicate IsPair(x: byte, y: byte) { 0xC2 <= x < 0xE0 && 0x80 <= y < 0xC0 }

  function Joined(x: byte, y: byte): (u: wchar)
    requires IsPair(x, y)
    ensures 0x80 <= u < 0x800 && 0xC0 + u / 0x40 == x && 0x80 + u % 0x40 == y
  {
    (x as int - 0xC0) * 0x40 + (y as int - 0x80)
  }

  function Coded(u: wchar): (c: Bytes)
    requires u < 0x800
    ensures if u < 0x80 then c == [u] else |c| == 2 && IsPair(c[0], c[1]) && Joined(c[0], c[1]) == u
  {
    if u < 0x80 then [u] else [0xC0 + u / 0x40, 0x80 + u % 0x40]
  }

  function ToUtf8(w: seq<wchar>): Option<Bytes> {
    if w == [] then Some([])
    else if w[0] >= 0x800 || ToUtf8(w[1..]).None? then None
    else Some(Coded(w[0]) + ToUtf8(w[1..]).value)
  }

  const TWO_BYTE_UTF := Utf(FromUtf8, ToUtf8)

  /** The first k bytes are one character, of unit u. */
  predicate StartsWith(n: Bytes, k: nat, u: wchar) {
    if k == 1 then |n| >= 1 && n[0] < 0x80 && u == n[0]
    else k == 2 && |n| >= 2 && IsPair(n[0], n[1]) && u == Joined(n[0], n[1])
  }

  lemma CodedIs(n: Bytes, k: nat, u: wchar)
    requires StartsWith(n, k, u)
    ensures u < 0x800 && |n| >= k && Coded(u) == n[..k]
  {
    hide Joined;
    if k == 1 {
      assert n[..1] == [n[0]];
    } else {
      assert Coded(u) == [0xC0 + u / 0x40, 0x80 + u % 0x40];
      hide Coded;
      assert n[..2] == [n[0], n[1]];
    }
  }

  lemma ToUtf8Head(u: wchar, w: seq<wchar>)
    requires u < 0x800 && ToUtf8(w).Some?
    ensures ToUtf8([u] + w) == Some(Coded(u) + ToUtf8(w).value)
  {
    assert ([u] + w)[1..] == w;
  }

  /** The conversion of a string after its first unit. */
  lemma OneUnit(n: Bytes, k: nat, u: wchar)
    requires StartsWith(n, k, u)
    ensures k <= |n|
    ensures FromUtf8(n) == (var rest := FromUtf8(n[k..]); if rest.None? then None else Some([u] + rest.value))
    ensures forall w :: ToUtf8(w) == Some(n[k..]) ==> ToUtf8([u] + w) == Some(n)
  {
    CodedIs(n, k, u);
    hide FromUtf8, ToUtf8, Coded, StartsWith;
    assert n[..k] + n[k..] == n;
    forall w | ToUtf8(w) == Some(n[k..]) ensures ToUtf8([u] + w) == Some(n) {
      ToUtf8Head(u, w);
    }
  }

  /** What a conversion of n to w must be. */
  predicate Converts(n: Bytes, w: seq<wchar>) {
    0 !in w && |w| <= |n| && (|w| == |n| <==> IsAscii(n)) && (n != [] ==> w != []) && ToUtf8(w) == Some(n)
  }

  lemma {:induction false} FromThenTo(n: Bytes)
    requires 0 !in n
    ensures IsAscii(n) ==> FromUtf8(n) == Some(Widen(n))
    ensures FromUtf8(n).Some? ==> Converts(n, FromUtf8(n).value)
  {
    if n == [] {
      assert Widen([]) == [];
    } else {
      assert n[0] in n;
      if n[0] < 0x80 {
        FromThenTo(n[1..]);
        OneUnit(n, 1, n[0]);
        hide FromUtf8, ToUtf8;
        assert Widen(n) == [n[0] as int] + Widen(n[1..]);
        assert forall c | c in n :: c == n[0] || c in n[1..];
        assert forall c | c in n[1..] :: c in n;
      } else if |n| >= 2 && IsPair(n[0], n[1]) {
        FromThenTo(n[2..]);
        OneUnit(n, 2, Joined(n[0], n[1]));
        hide FromUtf8, ToUtf8, Joined;
      }
    }
  }

  lemma {:induction false} ToThenFrom(w: seq<wchar>)
    ensures ToUtf8(w).Some? ==> FromUtf8(ToUtf8(w).value) == Some(w)
  {
    if w != [] && ToUtf8(w).Some? {
      ToThenFrom(w[1..]);
      var c, rest := Coded(w[0]), ToUtf8(w[1..]).value;
      assert (c + rest)[|c|..] == rest;
      OneUnit(c + rest, |c|, w[0]);
      hide FromUtf8, Coded;
      assert w == [w[0]] + w[1..];
    }
  }

  lemma {:induction false} FaithfulConversionsExist()
    ensures Faithful(TWO_BYTE_UTF)
  {
    forall n: Bytes | 0 !in n
      ensures IsAscii(n) ==> FromUtf8(n) == Some(Widen(n))
      ensures FromUtf8(n).Some? ==> Converts(n, FromUtf8(n).value)
    {
      FromThenTo(n);
    }
    forall w: seq<wchar> | ToUtf8(w).Some? ensures FromUtf8(ToUtf8(w).value) == Some(w) {
      ToThenFrom(w);
    }
  }

  const ACCENTS := [0xC3, 0xA9, 0xC3, 0xA9]

  lemma AccentsConvert()
    ensures FromUtf8(ACCENTS) == Some([0xE9, 0xE9])
    ensures FromUtf8(ACCENTS[..2]) == Some([0xE9]) && ToUtf8([0xE9]) == Some(ACCENTS[..2])
  {
    var one := ACCENTS[..2];
    assert ACCENTS[2..] == one && Joined(0xC3, 0xA9) == 0xE9 && FromUtf8([]) == Some([]) && ToUtf8([]) == Some([]);
    OneUnit(one, 2, 0xE9);
    OneUnit(ACCENTS, 2, 0xE9);
    hide FromUtf8, ToUtf8;
    assert [0xE9] + [] == [0xE9] && [0xE9] + [0xE9] == [0xE9, 0xE9];
  }

  lemma AccentsWritten()
    ensures EntryBytes(TWO_BYTE_UTF, Format(1, Some(ACCENTS)), true, false) == Some(Put32(1) + WideBytes([0xE9]) + [0, 0] + Zeros(2))
    ensures EntryBytes(TWO_BYTE_UTF, Format(1, Some(ACCENTS)), false, false).Some?
  {
    AccentsConvert();
    hide FromUtf8, ToUtf8, Put32, WideBytes;
    assert ACCENTS[..4] == ACCENTS && [0xE9][..1] == [0xE9];
    assert WideField(TWO_BYTE_UTF, ACCENTS, 2) == Some(WideBytes([0xE9]) + Zeros(2) + [0, 0]);
    var entry := Put32(1) + (WideBytes([0xE9]) + Zeros(2) + [0, 0]);
    assert entry == Put32(1) + WideBytes([0xE9]) + [0, 0] + Zeros(2);
  }

  /**
   A long name of two accented letters comes back as one of them, and so does a short ASCII one; a short
   Unicode one comes back whole.
  */
  lemma {:induction false} AccentsCut()
    ensures var long := Encode(TWO_BYTE_UTF, [Format(1, Some(ACCENTS))], true, false);
      long.Some? && LongNames(TWO_BYTE_UTF, long.value) == Some([Format(1, Some(ACCENTS[..2]))])
    ensures Encode(TWO_BYTE_UTF, [Format(1, Some(ACCENTS))], false, false).Some?
    ensures Shown(TWO_BYTE_UTF, Format(1, Some(ACCENTS)), false) == Format(1, Some(ACCENTS))
    ensures Shown(TWO_BYTE_UTF, Format(1, Some(ACCENTS)), true) == Format(1, Some(ACCENTS[..2]))
    ensures Encode(TWO_BYTE_UTF, [Format(1, Some(ACCENTS))], false, true).Some?
  {
    var f, utf := Format(1, Some(ACCENTS)), TWO_BYTE_UTF;
    AccentsConvert();
    AccentsWritten();
    assert Encode(utf, [], false, false) == Some([]);
    assert LongNames(utf, Zeros(2)) == Some([]);
    assert Shown(utf, f, false) == f && Shown(utf, f, true) == Format(1, Some(ACCENTS[..2])) by {
      assert ACCENTS[..4] == ACCENTS;
    }
    assert EntryBytes(utf, f, false, true).Some? && Encode(utf, [], false, true) == Some([]);
    hide FromUtf8, ToUtf8, EntryBytes, Encode, LongNames, Put32, WideBytes, Shown;
    assert [f] == [f] + [];
    EncodeCons(utf, f, [], false, false);
    EncodeCons(utf, f, [], false, true);
    Single(TWO_BYTE_UTF, f, [0xE9], 1);
  }

  /** What a list of one entry with padding behind it is read as. */
  lemma Single(utf: Utf, f: Format, w: seq<wchar>, pad: nat)
    requires 0 !in w && w != [] && utf.toUtf8(w).Some? && LongNames(utf, Zeros(2 * pad)) == Some([])
    requires EntryBytes(utf, f, true, false) == Some(Put32(f.id) + WideBytes(w) + [0, 0] + Zeros(2 * pad))
    ensures var b := Encode(utf, [f], true, false);
      b.Some? && LongNames(utf, b.value) == Some([Format(f.id, utf.toUtf8(w))])
  {
    assert Encode(utf, [], true, false) == Some([]);
    hide EntryBytes, Encode, LongNames, Put32, WideBytes;
    assert [f] == [f] + [];
    EncodeCons(utf, f, [], true, false);
    var b := Put32(f.id) + WideBytes(w) + [0, 0] + Zeros(2 * pad);
    assert b + [] == b;
    LongEntryDecodes(utf, f.id, w, Zeros(2 * pad));
    var head := Format(f.id, utf.toUtf8(w));
    assert [head] + [] == [head];
  }
}
