/** What the handlers share about connections: the keyword arguments the
    factory forwards, and the `connect`/`close` life cycle of the driver
    handle a handler keeps. */
module Connection {
  import opened Exceptions
  import opened Artifacts

  /** The keyword arguments passed to `get_db_handler`; `None` means the
      argument was not supplied. */
  datatype ConnArgs = ConnArgs(
    host: Option<string>,
    user: Option<string>,
    password: Option<string>,
    database: Option<string>,
    port: Option<int>)

  /** The handler's `connection` (or `client`) attribute: never set, a live
      driver handle, or a handle whose `close()` has been called. `close`
      does not reset the attribute, so a released handle is still truthy. */
  datatype Link = NoLink | Live | Released

  /** `connect` of the PostgreSQL and MySQL handlers: a driver failure is
      re-raised as ConnectionError and leaves the attribute as it was. */
  function Connect(link: Link, reachable: bool): (r: (Link, Result<()>))
    ensures r.1.Ok? <==> reachable
    ensures r.1.Ok? ==> r.0 == Live
    ensures r.1.Err? ==> r.0 == link && r.1.error == ConnectionFailure
  {
    if reachable then (Live, Ok(())) else (link, Err(ConnectionFailure))
  }

  /** `close`: calls the driver's `close()` only when a handle was ever set. */
  function Close(link: Link): (r: (Link, seq<Event>))
    ensures link == NoLink ==> r == (NoLink, [])
    ensures link != NoLink ==> r.0 == Released && r.1 == [DriverClosed]
  {
    if link != NoLink then (Released, [DriverClosed]) else (NoLink, [])
  }

  /** Closing twice leaves the handler as closing once did. Because the
      attribute is never cleared, the second call repeats the driver's
      `close()` rather than doing nothing. */
  lemma CloseTwice(link: Link)
    ensures Close(Close(link).0).0 == Close(link).0
    ensures Close(Close(link).0).1 == Close(link).1
  {
  }
}
