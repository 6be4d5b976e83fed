/** `HackadayioApi`: connecting, closing, `fetchURL` and `GetProject`, over an
    abstract client whose answers are given in advance. */
module Fetch {
  import opened ApiTypes
  import opened Http
  import opened Json

  /** The client connection as `HackadayioApi` sees it. The oracle fields say
      how the peer will answer: whether `connect` succeeds, the response
      lines not yet read, what `peek` returns once the headers are read (a
      byte, or -1 for nothing), and what deserialising the rest of the stream
      yields. `stops` counts calls of `stop`; `sent` is the text printed to
      the connection so far. */
  datatype Client = Client(
    connected: bool,
    connectSucceeds: bool,
    lines: seq<string>,
    peekByte: int,
    body: ParseOutcome,
    stops: nat,
    sent: string)

  /** `stop`: drops the connection. */
  function Stop(c: Client): (r: Client)
    ensures !r.connected && r.stops == c.stops + 1
    ensures r == c.(connected := false, stops := r.stops)
  {
    c.(connected := false, stops := c.stops + 1)
  }

  /** `connect`: one attempt to reach the API host and port, no retry. */
  function Connect(c: Client): (r: (ApiError, Client))
    ensures r.0 == None <==> c.connectSucceeds
    ensures r.0 != None ==> r.0 == NoConnection && r.1 == c
    ensures r.0 == None ==> r.1 == c.(connected := true)
  {
    if !c.connectSucceeds then (NoConnection, c) else (None, c.(connected := true))
  }

  /** `close`: stops the client only when it is connected, and always answers
      `None`. Nothing but the connection and the stop count changes. */
  function Close(c: Client): (r: (ApiError, Client))
    ensures r.0 == None
    ensures !r.1.connected
    ensures r.1.stops == c.stops + (if c.connected then 1 else 0)
    ensures r.1 == c.(connected := false, stops := r.1.stops)
  {
    if c.connected then (None, Stop(c)) else (None, c)
  }

  /** Closing twice stops the client at most once. */
  lemma CloseIdempotent(c: Client)
    ensures Close(Close(c).1) == Close(c)
  {
  }

  /** `fetchURL`: connect when not yet connected, print the request, then
      scan the response headers. On success the unread lines are the body. */
  function FetchUrl(c: Client, path: string): (r: (ApiError, Client))
    ensures r.0 == None || r.0 == NoConnection || r.0 == ResponseToLong || r.0 == NoResponse
    ensures r.0 == NoConnection <==> !c.connected && !c.connectSucceeds
    ensures r.0 == NoConnection ==> r.1 == c
    ensures r.0 != NoConnection ==>
              && r.1.connected
              && r.1.sent == c.sent + RequestText(path)
              && r.0 == ScanHeaders(c.lines).error
              && r.1.lines == c.lines[ScanHeaders(c.lines).consumed..]
              && r.1 == c.(connected := true, sent := r.1.sent, lines := r.1.lines)
  {
    var (response, c1) := if c.connected then (None, c) else Connect(c);
    if Truthy(response) then (response, c1)
    else
      var c2 := c1.(sent := c1.sent + RequestText(path));
      var scan := ScanHeaders(c2.lines);
      (scan.error, c2.(lines := c2.lines[scan.consumed..]))
  }

  /** A fetched record together with the client afterwards. */
  datatype Fetched = Fetched(project: ProjectRecord, client: Client)

  /** `GetProject`: format the path, fetch it, check that the body starts
      with `{`, decode it and close. A failed fetch stops the client; a body
      that is not JSON returns without closing; a parse failure keeps the
      record's initial `Empty`. */
  function GetProject(c: Client, id: Int32, key: string): (f: Fetched)
    requires PathFits(id, key)
    ensures f.project.apiError != None ==> f.project == BlankRecord(f.project.apiError)
    ensures f.project.apiError == NoConnection <==> !c.connected && !c.connectSucceeds
    ensures f.client.sent == if f.project.apiError == NoConnection then c.sent
                             else c.sent + RequestText(PathFor(id, key))
    ensures f.client.connected <==> f.project.apiError == NoJson
    ensures f.client.stops == c.stops + (if f.project.apiError == NoJson then 0 else 1)
  {
    var hproject := BlankRecord(Empty);
    var request := PathFor(id, key);
    var (response, c1) := FetchUrl(c, request);
    if Truthy(response) then
      Fetched(hproject.(apiError := response), Stop(c1))
    else if c1.peekByte != '{' as int then
      Fetched(hproject.(apiError := NoJson), c1)
    else
      var decoded := match c1.body
        case Parsed(doc) => ProjectFromDoc(doc)
        case ParseFailed => hproject;
      var (_, c2) := Close(c1);
      Fetched(decoded, c2)
  }

  /** The client can reach the host: it is connected, or connecting works. */
  predicate Reachable(c: Client)
  {
    c.connected || c.connectSucceeds
  }

  /** A failed connect ends the fetch with `NoConnection` before any request
      text is written or any line read, yet `stop` is still called once. */
  lemma ConnectFailure(c: Client, id: Int32, key: string)
    requires PathFits(id, key)
    requires !Reachable(c)
    ensures GetProject(c, id, key).project == BlankRecord(NoConnection)
    ensures GetProject(c, id, key).client == c.(stops := c.stops + 1)
  {
  }

  /** The record depends only on the peer's answers and on whether the host
      can be reached, not on the client's history. */
  lemma ProjectDependsOnAnswers(c1: Client, c2: Client, id: Int32, key: string)
    requires PathFits(id, key)
    requires Reachable(c1) == Reachable(c2)
    requires c1.lines == c2.lines && c1.peekByte == c2.peekByte && c1.body == c2.body
    ensures GetProject(c1, id, key).project == GetProject(c2, id, key).project
  {
  }

  /** An open connection is reused: whether a new connect would work makes
      no difference to the outcome. */
  lemma ConnectedSkipsConnect(c: Client, id: Int32, key: string)
    requires PathFits(id, key)
    requires c.connected
    ensures GetProject(c.(connectSucceeds := false), id, key).project
            == GetProject(c.(connectSucceeds := true), id, key).project
  {
    ProjectDependsOnAnswers(c.(connectSucceeds := false), c.(connectSucceeds := true), id, key);
  }

  /** A header failure is returned as the record's error; the client is
      stopped and the lines after the one that ended the scan stay unread. */
  lemma HeaderFailure(c: Client, id: Int32, key: string)
    requires PathFits(id, key)
    requires Reachable(c)
    requires ScanHeaders(c.lines).error != None
    ensures var f := GetProject(c, id, key);
            && f.project == BlankRecord(ScanHeaders(c.lines).error)
            && (f.project.apiError == ResponseToLong || f.project.apiError == NoResponse)
            && f.client.lines == c.lines[ScanHeaders(c.lines).consumed..]
            && !f.client.connected && f.client.stops == c.stops + 1
  {
  }

  /** A body that does not start with `{` gives `NoJson`, and the connection
      is left open: neither `close` nor `stop` is called on this path. */
  lemma NotJsonLeavesConnectionOpen(c: Client, id: Int32, key: string)
    requires PathFits(id, key)
    requires Reachable(c)
    requires ScanHeaders(c.lines).error == None
    requires c.peekByte != '{' as int
    ensures var f := GetProject(c, id, key);
            && f.project == BlankRecord(NoJson)
            && f.client.connected
            && f.client.stops == c.stops
  {
  }

  /** A body that parses gives `None` and the fields of the document; the
      connection is then closed. */
  lemma Decoded(c: Client, id: Int32, key: string, doc: Document)
    requires PathFits(id, key)
    requires Reachable(c)
    requires ScanHeaders(c.lines).error == None
    requires c.peekByte == '{' as int
    requires c.body == Parsed(doc)
    ensures var f := GetProject(c, id, key);
            && f.project == ProjectFromDoc(doc)
            && f.project.apiError == None
            && !f.client.connected && f.client.stops == c.stops + 1
  {
  }

  /** A body that starts with `{` but does not parse leaves the record's
      initial `Empty`, still closing the connection. */
  lemma ParseFailureKeepsEmpty(c: Client, id: Int32, key: string)
    requires PathFits(id, key)
    requires Reachable(c)
    requires ScanHeaders(c.lines).error == None
    requires c.peekByte == '{' as int
    requires c.body == ParseFailed
    ensures var f := GetProject(c, id, key);
            && f.project == BlankRecord(Empty)
            && !f.client.connected && f.client.stops == c.stops + 1
  {
  }

  /** `None` comes only from a parsed body, and `Empty` only from a body that
      starts with `{` but does not parse. */
  lemma OutcomeSources(c: Client, id: Int32, key: string)
    requires PathFits(id, key)
    ensures var e := GetProject(c, id, key).project.apiError;
            var headersOk := Reachable(c) && ScanHeaders(c.lines).error == None;
            && (e == None <==> headersOk && c.peekByte == '{' as int && c.body.Parsed?)
            && (e == Empty <==> headersOk && c.peekByte == '{' as int && c.body.ParseFailed?)
  {
  }

  /** A fresh start: the same answers from the peer, on a client that is not
      connected, with any history of stops and printed text. */
  function Rewound(c: Client, history: Client): Client
  {
    c.(stops := history.stops, sent := history.sent)
  }

  /** Fetching twice against identical answers gives identical records: unless
      the first fetch ended in `NoJson`, it leaves the client disconnected,
      and a second fetch from there behaves exactly like the first. */
  lemma RefetchSameRecord(c: Client, id: Int32, key: string)
    requires PathFits(id, key)
    requires !c.connected
    ensures var f1 := GetProject(c, id, key);
            f1.project.apiError != NoJson ==>
              && !f1.client.connected
              && GetProject(Rewound(c, f1.client), id, key).project == f1.project
  {
    ProjectDependsOnAnswers(Rewound(c, GetProject(c, id, key).client), c, id, key);
  }
}
