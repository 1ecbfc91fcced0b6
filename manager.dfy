/** The manager object: a cached client and the operations callers use,
    each making its store calls one after another. */
module Manager {
  import opened Wire
  import opened Status
  import opened Connection
  import opened Protocol

  /** The key-value server the manager's connections reach. Every call is
      given the network's answer to it: None for success, Some(e) for failure. */
  class KeyValueStore {
    var data: Store

    constructor (initial: Store)
      ensures data == initial
    {
      data := initial;
    }

    method Exists(key: string, fault: Option<Error>) returns (r: Result<bool>)
      ensures fault.Some? ==> r == Err(fault.value)
      ensures fault.None? ==> r == Ok(key in data)
    {
      if fault.Some? { return Err(fault.value); }
      r := Ok(key in data);
    }

    method Get(key: string, fault: Option<Error>) returns (r: Result<string>)
      ensures fault.Some? ==> r == Err(fault.value)
      ensures fault.None? && key in data ==> r == Ok(data[key])
      ensures fault.None? && key !in data ==> r == Ok("")
    {
      if fault.Some? { return Err(fault.value); }
      r := Ok(Lookup(data, key));
    }

    method Set(key: string, value: string, fault: Option<Error>) returns (err: Option<Error>)
      modifies this
      ensures err == fault
      ensures data == Put(old(data), key, value, fault)
    {
      if fault.Some? { return fault; }
      data := data[key := value];
      err := None;
    }
  }

  /** The destination an object is decoded into. */
  class Box<T> {
    var value: T

    constructor (v: T)
      ensures value == v
    {
      value := v;
    }
  }

  class RedisManager {
    var client: Option<Handle>
    const host: string
    const port: int
    const password: string
    const db: int
    /** The database that host, port, password and db designate. */
    const server: KeyValueStore

    constructor (host: string, port: int, password: string, db: int, server: KeyValueStore)
      ensures client == None
      ensures this.host == host && this.port == port && this.password == password && this.db == db
      ensures this.server == server
    {
      this.host := host;
      this.port := port;
      this.password := password;
      this.db := db;
      this.server := server;
      client := None;
    }

    /** Returns the cached client when it answers Ping, otherwise dials a new
        one and caches it. */
    method GetClient(net: Network) returns (r: Result<Handle>)
      modifies this`client
      ensures Acquired(r, client) == Acquire(old(client), net.probe, net.dial)
    {
      if client.Some? && net.probe.None? {
        return Ok(client.value);
      }
      match net.dial
      case Err(e) =>
        r := Err(e);
      case Ok(h) =>
        client := Some(h);
        r := Ok(h);
    }

    method Set(key: string, str: string, net: Network) returns (err: Option<Error>)
      modifies this`client, server
      ensures var a := Acquire(old(client), net.probe, net.dial);
              client == a.cached &&
              SetReply(err, server.data) == SetSpec(old(server.data), key, str, a.result, net.fault)
    {
      var c := GetClient(net);
      if c.Err? {
        return Some(c.error);
      }
      err := server.Set(key, str, net.fault(SetCall(key)));
    }

    method Get(key: string, net: Network) returns (s: string, err: Option<Error>)
      modifies this`client
      ensures var a := Acquire(old(client), net.probe, net.dial);
              client == a.cached &&
              GetReply(s, err) == GetSpec(server.data, key, a.result, net.fault)
    {
      var c := GetClient(net);
      if c.Err? {
        return "", Some(c.error);
      }
      var bytes := server.Get(key, net.fault(GetCall(key)));
      if bytes.Err? {
        return "", Some(bytes.error);
      }
      return bytes.value, None;
    }

    /** Encodes `obj`, stores it under `key` and moves the status of `key` on. */
    method SetObject<T>(key: string, obj: T, encode: T -> Result<string>, net: Network)
      returns (status: string, err: Option<Error>)
      modifies this`client, server
      ensures var a := Acquire(old(client), net.probe, net.dial);
              client == (if encode(obj).Ok? then a.cached else old(client)) &&
              SetObjectReply(status, err, server.data) ==
                SetObjectSpec(old(server.data), key, encode(obj), a.result, net.fault)
    {
      var bytes := encode(obj);
      if bytes.Err? {
        return Empty, Some(bytes.error);
      }
      var c := GetClient(net);
      if c.Err? {
        return Empty, Some(c.error);
      }
      var present := server.Exists(key, net.fault(ExistsCall(key)));
      if present.Err? {
        return Empty, Some(present.error);
      }
      var statusKey := StatusKey(key);
      status := Unchecked;
      if present.value {
        var statusBytes := server.Get(statusKey, net.fault(GetCall(statusKey)));
        if statusBytes.Err? {
          return Empty, Some(statusBytes.error);
        }
        if statusBytes.value == Unchecked {
          status := Dirty;
        }
      }
      // The errors of both writes are ignored.
      var _ := server.Set(key, bytes.value, net.fault(SetCall(key)));
      var _ := server.Set(statusKey, status, net.fault(SetCall(statusKey)));
      err := None;
    }

    /** Reads the status of `key` and decodes its payload into `dest`. */
    method GetObject<T>(key: string, dest: Box<T>, decode: string -> Result<T>, net: Network)
      returns (status: string, err: Option<Error>)
      modifies this`client, dest
      ensures var a := Acquire(old(client), net.probe, net.dial);
              var r := GetObjectSpec(server.data, key, decode, a.result, net.fault);
              client == a.cached && status == r.status && err == r.err &&
              dest.value == (if r.decoded.Some? then r.decoded.value else old(dest.value))
    {
      var c := GetClient(net);
      if c.Err? {
        return Empty, Some(c.error);
      }
      var present := server.Exists(key, net.fault(ExistsCall(key)));
      if present.Err? {
        return Empty, Some(present.error);
      }
      var statusKey := StatusKey(key);
      if present.value {
        var statusBytes := server.Get(statusKey, net.fault(GetCall(statusKey)));
        if statusBytes.Err? {
          return Empty, Some(statusBytes.error);
        }
        var bytes := server.Get(key, net.fault(GetCall(key)));
        if bytes.Err? {
          return Empty, Some(bytes.error);
        }
        match decode(bytes.value)
        case Err(e) =>
          return Empty, Some(e);
        case Ok(v) =>
          dest.value := v;
          return statusBytes.value, None;
      } else {
        // An absent key is not an error; the destination is left as it was.
        return Empty, None;
      }
    }
  }
}
