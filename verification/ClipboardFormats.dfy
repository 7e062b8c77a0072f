/** The two format tables of the X11 clipboard and the searches over them. */
module ClipboardFormats {
  import opened Common

  type Atom = nat
  const NO_ATOM: Atom := 0

  const CF_RAW: uint32 := 0
  const CF_TEXT: uint32 := 1
  const CF_TIFF: uint32 := 6
  const CF_OEMTEXT: uint32 := 7
  const CF_DIB: uint32 := 8
  const CF_UNICODETEXT: uint32 := 13
  const CF_DIBV5: uint32 := 17

  const HTML_FORMAT := "HTML Format"
  const FILE_GROUP := "FileGroupDescriptorW"

  /** A format the server announced. */
  datatype ServerFormat = ServerFormat(id: uint32, name: Option<string>)

  /** A row of the fixed table that maps X11 targets to remote and local formats. */
  datatype ClientFormat = ClientFormat(atom: Atom, formatToRequest: uint32, localFormat: uint32,
                                       name: Option<string>, isImage: bool)

  /** The server may announce a shortened name, so a prefix of the local name is a match. */
  predicate FormatsEqual(server: ServerFormat, client: ClientFormat) {
    match (server.name, client.name)
    case (Some(s), Some(c)) => s <= c
    case (None, None) => server.id == client.formatToRequest
    case _ => false
  }

  function ClientFormatByAtom(clients: seq<ClientFormat>, atom: Atom): (r: Option<ClientFormat>)
    ensures r.Some? ==> r.value in clients && r.value.atom == atom
    ensures r.None? ==> forall c | c in clients :: c.atom != atom
  {
    if clients == [] then None
    else if clients[0].atom == atom then Some(clients[0])
    else ClientFormatByAtom(clients[1..], atom)
  }

  function FirstEqual(servers: seq<ServerFormat>, client: ClientFormat): (r: Option<ServerFormat>)
    ensures r.Some? ==> r.value in servers && FormatsEqual(r.value, client)
    ensures r.None? ==> forall s | s in servers :: !FormatsEqual(s, client)
  {
    if servers == [] then None
    else if FormatsEqual(servers[0], client) then Some(servers[0])
    else FirstEqual(servers[1..], client)
  }

  /** The first server format that matches a table row carrying this target. */
  function ServerFormatByAtom(clients: seq<ClientFormat>, servers: seq<ServerFormat>, atom: Atom)
    : (r: Option<ServerFormat>)
    ensures r.Some? <==> exists c, s :: c in clients && c.atom == atom && s in servers && FormatsEqual(s, c)
    ensures r.Some? ==> r.value in servers && exists c :: c in clients && c.atom == atom && FormatsEqual(r.value, c)
  {
    if clients == [] then None
    else if clients[0].atom == atom && FirstEqual(servers, clients[0]).Some? then FirstEqual(servers, clients[0])
    else ServerFormatByAtom(clients[1..], servers, atom)
  }

  method FindClientFormat(clients: seq<ClientFormat>, atom: Atom) returns (r: Option<ClientFormat>)
    ensures r == ClientFormatByAtom(clients, atom)
  {
    for i := 0 to |clients|
      invariant ClientFormatByAtom(clients, atom) == ClientFormatByAtom(clients[i..], atom)
    {
      if clients[i].atom == atom { return Some(clients[i]); }
    }
    return None;
  }

  method FindServerFormat(clients: seq<ClientFormat>, servers: seq<ServerFormat>, atom: Atom)
    returns (r: Option<ServerFormat>)
    ensures r == ServerFormatByAtom(clients, servers, atom)
  {
    for i := 0 to |clients|
      invariant ServerFormatByAtom(clients, servers, atom) == ServerFormatByAtom(clients[i..], servers, atom)
    {
      if clients[i].atom == atom {
        for j := 0 to |servers|
          invariant FirstEqual(servers, clients[i]) == FirstEqual(servers[j..], clients[i])
        {
          if FormatsEqual(servers[j], clients[i]) { return Some(servers[j]); }
        }
      }
    }
    return None;
  }
}
