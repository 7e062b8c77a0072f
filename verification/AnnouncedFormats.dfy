/** Which formats the X11 client announces for the targets a selection owner offers (client/X11/xf_cliprdr.c). */
module AnnouncedFormats {
  import opened Common
  import opened ClipboardFormats

  predicate HasId(formats: seq<ServerFormat>, id: uint32) { exists f :: f in formats && f.id == id }

  /** A target adds its row's format unless the target is unknown or the id is there already. */
  function Add(clients: seq<ClientFormat>, formats: seq<ServerFormat>, target: Atom): seq<ServerFormat> {
    var row := ClientFormatByAtom(clients, target);
    if row.None? || HasId(formats, row.value.formatToRequest) then formats
    else formats + [ServerFormat(row.value.formatToRequest, row.value.name)]
  }

  function Collected(clients: seq<ClientFormat>, targets: seq<Atom>): seq<ServerFormat> {
    if targets == [] then []
    else Add(clients, Collected(clients, targets[..|targets| - 1]), targets[|targets| - 1])
  }

  predicate ImageId(id: uint32) { id == CF_TIFF || id == CF_DIB || id == CF_DIBV5 }

  predicate HasImage(formats: seq<ServerFormat>) { exists f :: f in formats && ImageId(f.id) }

  /** Images are offered as HTML too. */
  function Announced(clients: seq<ClientFormat>, targets: seq<Atom>, html: uint32): seq<ServerFormat> {
    var c := Collected(clients, targets);
    if HasImage(c) && !HasId(c, html) then c + [ServerFormat(html, Some(HTML_FORMAT))] else c
  }

  // ---- what that list is

  function Ids(formats: seq<ServerFormat>): set<uint32> { set f | f in formats :: f.id }

  /** The ids of the known targets. */
  function KnownIds(clients: seq<ClientFormat>, targets: seq<Atom>): set<uint32> {
    set t | t in targets && ClientFormatByAtom(clients, t).Some? :: ClientFormatByAtom(clients, t).value.formatToRequest
  }

  predicate DistinctIds(formats: seq<ServerFormat>) {
    forall i, j :: 0 <= i < j < |formats| ==> formats[i].id != formats[j].id
  }

  lemma IdsSnoc(formats: seq<ServerFormat>, f: ServerFormat)
    ensures Ids(formats + [f]) == Ids(formats) + {f.id}
  {}

  lemma KnownSnoc(clients: seq<ClientFormat>, targets: seq<Atom>, t: Atom)
    ensures var row := ClientFormatByAtom(clients, t);
      KnownIds(clients, targets + [t]) == KnownIds(clients, targets) + if row.Some? then {row.value.formatToRequest} else {}
  {}

  lemma {:induction false} CollectedIs(clients: seq<ClientFormat>, targets: seq<Atom>)
    ensures Ids(Collected(clients, targets)) == KnownIds(clients, targets)
    ensures DistinctIds(Collected(clients, targets)) && |Collected(clients, targets)| <= |targets|
  {
    if targets != [] {
      var n := |targets| - 1;
      CollectedIs(clients, targets[..n]);
      assert targets == targets[..n] + [targets[n]];
      KnownSnoc(clients, targets[..n], targets[n]);
      var c, row := Collected(clients, targets[..n]), ClientFormatByAtom(clients, targets[n]);
      if row.Some? {
        assert HasId(c, row.value.formatToRequest) <==> row.value.formatToRequest in Ids(c);
        IdsSnoc(c, ServerFormat(row.value.formatToRequest, row.value.name));
      }
    }
  }

  /** The announced ids are distinct, and are those of the known targets, with HTML beside an image. */
  lemma AnnouncedIs(clients: seq<ClientFormat>, targets: seq<Atom>, html: uint32)
    ensures var a, known := Announced(clients, targets, html), KnownIds(clients, targets);
      && DistinctIds(a) && |a| <= |targets| + 1
      && Ids(a) == known + if exists id :: id in known && ImageId(id) then {html} else {}
  {
    CollectedIs(clients, targets);
    var c, known := Collected(clients, targets), KnownIds(clients, targets);
    IdsSnoc(c, ServerFormat(html, Some(HTML_FORMAT)));
    assert HasId(c, html) <==> html in Ids(c);
    ImageIds(c);
    hide HasImage, Collected;
  }

  lemma ImageIds(formats: seq<ServerFormat>)
    ensures HasImage(formats) <==> exists id :: id in Ids(formats) && ImageId(id)
  {}

  /**
   The entries collected from the targets come first; the HTML format is added after them, under its name, exactly
   when some target's format is TIFF, DIB or DIBV5 and none is HTML.
  */
  lemma HtmlIsLast(clients: seq<ClientFormat>, targets: seq<Atom>, html: uint32)
    ensures var a, c, known := Announced(clients, targets, html), Collected(clients, targets), KnownIds(clients, targets);
      a == if (6 in known || 8 in known || 17 in known) && html !in known then c + [ServerFormat(html, Some("HTML Format"))] else c
  {
    CollectedIs(clients, targets);
    var c := Collected(clients, targets);
    assert HasId(c, html) <==> html in Ids(c);
    ImageIds(c);
    hide HasImage, Collected;
  }

  /** The positions of the known targets whose id no earlier target has. */
  function Firsts(clients: seq<ClientFormat>, targets: seq<Atom>): seq<nat> {
    if targets == [] then [] else
    var n := |targets| - 1;
    var row := ClientFormatByAtom(clients, targets[n]);
    Firsts(clients, targets[..n]) +
    if row.Some? && row.value.formatToRequest !in KnownIds(clients, targets[..n]) then [n] else []
  }

  predicate FormatAt(clients: seq<ClientFormat>, targets: seq<Atom>, k: nat, f: ServerFormat) {
    && k < |targets|
    && var row := ClientFormatByAtom(clients, targets[k]);
    && row.Some? && f == ServerFormat(row.value.formatToRequest, row.value.name)
  }

  /** The collected formats are the rows of the first targets with new ids, in the order of the targets. */
  lemma {:induction false} CollectedInOrder(clients: seq<ClientFormat>, targets: seq<Atom>)
    ensures var c, at := Collected(clients, targets), Firsts(clients, targets);
      && |at| == |c| && (forall i, j :: 0 <= i < j < |at| ==> at[i] < at[j])
      && forall i :: 0 <= i < |at| ==> FormatAt(clients, targets, at[i], c[i])
  {
    if targets != [] {
      var n := |targets| - 1;
      var before := targets[..n];
      CollectedInOrder(clients, before);
      CollectedIs(clients, before);
      var c, at, row := Collected(clients, before), Firsts(clients, before), ClientFormatByAtom(clients, targets[n]);
      assert row.Some? ==> (HasId(c, row.value.formatToRequest) <==> row.value.formatToRequest in Ids(c));
      forall i | 0 <= i < |at| ensures FormatAt(clients, targets, at[i], c[i]) {
        assert FormatAt(clients, before, at[i], c[i]);
      }
    }
  }

  // ---- the loop over the property

  class TargetReader {
    const clients: seq<ClientFormat>
    const html: uint32
    var isImageContent: bool

    constructor (clients: seq<ClientFormat>, html: uint32)
      ensures this.clients == clients && this.html == html && !isImageContent
    {
      this.clients, this.html, isImageContent := clients, html, false;
    }

    method ShouldAddFormat(formats: array<ServerFormat>, count: nat, row: Option<ClientFormat>) returns (add: bool)
      requires count <= formats.Length
      ensures add <==> row.Some? && !HasId(formats[..count], row.value.formatToRequest)
    {
      if row.None? {
        return false;
      }
      for x := 0 to count
        invariant !HasId(formats[..x], row.value.formatToRequest)
      {
        if formats[x].id == row.value.formatToRequest {
          assert formats[x] in formats[..count];
          return false;
        }
        assert formats[..x + 1] == formats[..x] + [formats[x]];
      }
      return true;
    }

    /** "complete" is false when the property has no data, "memOk" when the array cannot be allocated. */
    method FormatsFromTargets(targets: seq<Atom>, complete: bool, memOk: bool)
      returns (formats: array?<ServerFormat>, numFormats: nat)
      modifies this
      ensures |targets| > 0 && !(complete && memOk) ==>
        formats == null && numFormats == 0 && isImageContent == old(isImageContent)
      ensures targets == [] ==> formats == null && numFormats == 0 && !isImageContent
      ensures |targets| > 0 && complete && memOk ==>
        && formats != null && fresh(formats) && formats.Length == |targets| + 1 && numFormats <= formats.Length
        && formats[..numFormats] == Announced(clients, targets, html)
        && isImageContent == HasImage(Collected(clients, targets))
    {
      if |targets| == 0 {
        isImageContent := false;
        return null, 0;
      }
      if !complete || !memOk {
        return null, 0;
      }
      var a := new ServerFormat[|targets| + 1](_ => ServerFormat(0, None));
      numFormats := 0;
      var isImage, hasHtml := false, false;
      for i := 0 to |targets|
        invariant numFormats <= i && a[..numFormats] == Collected(clients, targets[..i])
        invariant isImage == HasImage(a[..numFormats]) && hasHtml == HasId(a[..numFormats], html)
      {
        var row := FindClientFormat(clients, targets[i]);
        var add := ShouldAddFormat(a, numFormats, row);
        assert targets[..i + 1][..i] == targets[..i];
        if add {
          ghost var before := a[..numFormats];
          var format := ServerFormat(row.value.formatToRequest, row.value.name);
          a[numFormats] := format;
          if format.id == html { hasHtml := true; }
          if format.id == CF_TIFF {
            isImage := true;
          } else if format.id == CF_DIB {
            isImage := true;
          } else if format.id == CF_DIBV5 {
            isImage := true;
          }
          numFormats := numFormats + 1;
          assert a[..numFormats] == before + [format];
        }
      }
      assert targets[..|targets|] == targets;
      isImageContent := isImage;
      if isImage && !hasHtml {
        ghost var before := a[..numFormats];
        a[numFormats] := ServerFormat(html, Some(HTML_FORMAT));
        numFormats := numFormats + 1;
        assert a[..numFormats] == before + [ServerFormat(html, Some(HTML_FORMAT))];
      }
      formats := a;
    }
  }

}
