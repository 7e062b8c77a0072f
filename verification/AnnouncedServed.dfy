/** Whether the formats announced for a selection can be served from it when the server asks for them. */
module AnnouncedServed {
  import opened Common
  import opened ClipboardFormats
  import opened AnnouncedFormats
  import L = LocalTransfer

  /** A list of targets arrives from a selection owner. */
  function ListChange(env: L.Env, targets: seq<Atom>, fileOk: bool): L.Event {
    L.FormatListChange(targets, Some(HasImage(Collected(env.clients, targets))), fileOk)
  }

  /** A request for this format right after the list is not refused. */
  predicate Served(env: L.Env, s: L.State, targets: seq<Atom>, fileOk: bool, id: uint32) {
    L.Available(env, L.Step(env, s, ListChange(env, targets, fileOk)), id).Some?
  }

  /** A row that offers an image, or the HTML format itself. */
  predicate ServesHtml(env: L.Env, c: ClientFormat) { c.isImage || c.formatToRequest == env.htmlFormat }

  predicate AnyServesHtml(env: L.Env, targets: seq<Atom>) {
    exists c :: c in env.clients && c.atom in targets && ServesHtml(env, c)
  }

  lemma {:induction false} AvailableIff(clients: seq<ClientFormat>, atoms: seq<Atom>, fetchImage: bool, format: uint32)
    ensures L.AvailableIn(clients, atoms, fetchImage, format).Some?
       <==> exists c :: c in clients && c.atom in atoms && ((fetchImage && c.isImage) || c.formatToRequest == format)
  {
    if clients != [] {
      AvailableIff(clients[1..], atoms, fetchImage, format);
      assert forall c | c in clients :: c == clients[0] || c in clients[1..];
    }
  }

  /** A request that is not refused waits for the owner's data. */
  lemma ServedWaits(env: L.Env, s: L.State, targets: seq<Atom>, fileOk: bool, id: uint32)
    requires id != L.NO_REQUEST
    ensures var t := L.Step(env, s, ListChange(env, targets, fileOk));
      Served(env, s, targets, fileOk, id) <==> L.Step(env, t, L.DataRequest(id, false)).requested == id
  {}

  /** A request for an announced format is served exactly when a target maps to it, or an image row stands in for HTML. */
  lemma {:induction false} ServedIff(env: L.Env, s: L.State, targets: seq<Atom>, fileOk: bool, id: uint32)
    requires id in Ids(Announced(env.clients, targets, env.htmlFormat))
    ensures Served(env, s, targets, fileOk, id) <==> id in KnownIds(env.clients, targets) || AnyServesHtml(env, targets)
  {
    AnnouncedIs(env.clients, targets, env.htmlFormat);
    CollectedIs(env.clients, targets);
    ImageIds(Collected(env.clients, targets));
    var image := HasImage(Collected(env.clients, targets));
    AvailableIff(env.clients, targets, image && id == env.htmlFormat, id);
    hide Announced, Collected, HasImage, L.AvailableIn;
    if id in KnownIds(env.clients, targets) {
      var t :| t in targets && ClientFormatByAtom(env.clients, t).Some?
        && ClientFormatByAtom(env.clients, t).value.formatToRequest == id;
    }
  }

  predicate AllServed(env: L.Env, s: L.State, targets: seq<Atom>, fileOk: bool) {
    forall id | id in Ids(Announced(env.clients, targets, env.htmlFormat)) :: Served(env, s, targets, fileOk, id)
  }

  /** Each target whose first row has an image id also has a row that serves HTML. */
  predicate ImagesServeHtml(env: L.Env) {
    forall c | c in env.clients && ImageId(c.formatToRequest) && ClientFormatByAtom(env.clients, c.atom) == Some(c) ::
      exists d :: d in env.clients && d.atom == c.atom && ServesHtml(env, d)
  }

  /** Whatever targets an owner offers, what is announced for them can be served, exactly for such a table. */
  lemma AnnouncedServedIff(env: L.Env, s: L.State, fileOk: bool)
    ensures (forall targets :: AllServed(env, s, targets, fileOk)) <==> ImagesServeHtml(env)
  {
    if ImagesServeHtml(env) {
      forall targets ensures AllServed(env, s, targets, fileOk) {
        TargetsServed(env, s, targets, fileOk);
      }
    } else {
      var c :| c in env.clients && ImageId(c.formatToRequest) && ClientFormatByAtom(env.clients, c.atom) == Some(c)
            && !exists d :: d in env.clients && d.atom == c.atom && ServesHtml(env, d);
      OneTargetRefused(env, s, c, fileOk);
      assert !AllServed(env, s, [c.atom], fileOk);
    }
  }

  lemma TargetsServed(env: L.Env, s: L.State, targets: seq<Atom>, fileOk: bool)
    requires ImagesServeHtml(env)
    ensures AllServed(env, s, targets, fileOk)
  {
    AnnouncedIs(env.clients, targets, env.htmlFormat);
    forall id | id in Ids(Announced(env.clients, targets, env.htmlFormat)) ensures Served(env, s, targets, fileOk, id) {
      ServedIff(env, s, targets, fileOk, id);
      hide Announced, Served;
      if id !in KnownIds(env.clients, targets) {
        var i :| i in KnownIds(env.clients, targets) && ImageId(i);
        var t :| t in targets && ClientFormatByAtom(env.clients, t).Some?
          && ClientFormatByAtom(env.clients, t).value.formatToRequest == i;
        var c := ClientFormatByAtom(env.clients, t).value;
        assert c in env.clients && c.atom == t;
      }
    }
  }

  lemma OneTargetRefused(env: L.Env, s: L.State, c: ClientFormat, fileOk: bool)
    requires c in env.clients && ImageId(c.formatToRequest) && ClientFormatByAtom(env.clients, c.atom) == Some(c)
    requires !exists d :: d in env.clients && d.atom == c.atom && ServesHtml(env, d)
    ensures env.htmlFormat in Ids(Announced(env.clients, [c.atom], env.htmlFormat))
    ensures !Served(env, s, [c.atom], fileOk, env.htmlFormat)
  {
    var targets := [c.atom];
    AnnouncedIs(env.clients, targets, env.htmlFormat);
    assert c.atom in targets;
    assert KnownIds(env.clients, targets) == {c.formatToRequest};
    assert ServesHtml(env, c) <==> c.isImage || c.formatToRequest == env.htmlFormat;
    ServedIff(env, s, targets, fileOk, env.htmlFormat);
  }
}
