/** The connection manager: how a client is obtained before every operation. */
module Connection {
  import opened Wire

  /** What an acquisition returns, and the handle cached afterwards. */
  datatype Acquired = Acquired(result: Result<Handle>, cached: Option<Handle>)

  /** Opening a new connection; a successful one replaces the cached handle. */
  function Dial(cached: Option<Handle>, dial: Result<Handle>): (a: Acquired)
    ensures a.result == dial
    ensures a.cached == if dial.Ok? then Some(dial.value) else cached
  {
    match dial
    case Ok(h) => Acquired(Ok(h), Some(h))
    case Err(e) => Acquired(Err(e), cached)
  }

  /** Acquisition with the reuse test as the source writes it: the cached
      handle is reused when its Ping reports an ERROR. */
  function AcquireAsWritten(cached: Option<Handle>, probe: Option<Error>, dial: Result<Handle>): (a: Acquired)
    ensures cached.Some? && probe.Some? ==> a == Acquired(Ok(cached.value), cached)
    ensures cached.None? || probe.None? ==> a == Dial(cached, dial)
  {
    if cached.Some? && probe.Some? then Acquired(Ok(cached.value), cached)
    else Dial(cached, dial)
  }

  /** Acquisition with the reuse test the client cache exists for
      (redis_manager.go:197 caches every new client for later calls): a cached
      handle that answers Ping is reused; otherwise a new connection is opened. */
  function Acquire(cached: Option<Handle>, probe: Option<Error>, dial: Result<Handle>): (a: Acquired)
    ensures a.result.Ok? ==> a.cached == Some(a.result.value)
    ensures a.result.Err? ==> a.cached == cached && a.result == dial
    ensures cached.Some? && probe.None? ==> a == Acquired(Ok(cached.value), cached)
    ensures cached.None? || probe.Some? ==> a.result == dial
  {
    if cached.Some? && probe.None? then Acquired(Ok(cached.value), cached)
    else Dial(cached, dial)
  }

  /** Once a connection has been acquired, the next acquisition returns the
      same handle without dialling as long as it answers Ping. */
  lemma LiveClientIsReused(cached: Option<Handle>, probe1: Option<Error>, dial1: Result<Handle>, dial2: Result<Handle>)
    requires Acquire(cached, probe1, dial1).result.Ok?
    ensures var first := Acquire(cached, probe1, dial1);
            Acquire(first.cached, None, dial2) == first
  {
  }

  /** As written, a live cached connection is dropped and a new one dialled:
      when dialling fails, the call fails although a working handle is cached. */
  lemma AsWrittenDropsLiveClient(h: Handle, e: Error)
    ensures AcquireAsWritten(Some(h), None, Err(e)).result == Err(e)
    ensures Acquire(Some(h), None, Err(e)).result == Ok(h)
  {
  }

  /** As written, a cached connection whose Ping fails is handed back. */
  lemma AsWrittenReturnsDeadClient(h: Handle, e: Error, d: Handle)
    requires d != h
    ensures AcquireAsWritten(Some(h), Some(e), Ok(d)).result == Ok(h)
    ensures Acquire(Some(h), Some(e), Ok(d)).result == Ok(d)
  {
  }
}
