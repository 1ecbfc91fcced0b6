/** The object cache as functions over the contents of the key-value store:
    what each operation of the manager returns and what it leaves in the
    store, given the client it was handed and the answers of the network. */
module Protocol {
  import opened Wire
  import opened Status

  /** The key space of the server; values are the stored byte strings. */
  type Store = map<string, string>

  /** What a client Get returns for a key that succeeds: a missing key reads
      as the empty string. */
  function Lookup(data: Store, key: string): string {
    if key in data then data[key] else ""
  }

  /** A client Set whose answer is `fault`: it writes only when it succeeds. */
  function Put(data: Store, key: string, value: string, fault: Option<Error>): Store {
    if fault.None? then data[key := value] else data
  }

  // ---------------------------------------------------------------------
  // Set and Get: plain string puts and gets
  // ---------------------------------------------------------------------

  datatype SetReply = SetReply(err: Option<Error>, data: Store)

  function SetSpec(data: Store, key: string, value: string, conn: Result<Handle>, fault: Call -> Option<Error>): (r: SetReply)
    ensures r.err.None? <==> conn.Ok? && fault(SetCall(key)).None?
    ensures conn.Err? ==> r.err == Some(conn.error)
    ensures conn.Ok? && fault(SetCall(key)).Some? ==> r.err == fault(SetCall(key))
    ensures r.err.None? ==> r.data == data[key := value]
    ensures r.err.Some? ==> r.data == data
  {
    if conn.Err? then SetReply(Some(conn.error), data)
    else if fault(SetCall(key)).Some? then SetReply(fault(SetCall(key)), data)
    else SetReply(None, data[key := value])
  }

  datatype GetReply = GetReply(value: string, err: Option<Error>)

  function GetSpec(data: Store, key: string, conn: Result<Handle>, fault: Call -> Option<Error>): (r: GetReply)
    ensures r.err.None? <==> conn.Ok? && fault(GetCall(key)).None?
    ensures conn.Err? ==> r.err == Some(conn.error)
    ensures conn.Ok? && fault(GetCall(key)).Some? ==> r.err == fault(GetCall(key))
    ensures r.err.None? ==> r.value == Lookup(data, key)
    ensures r.err.Some? ==> r.value == ""
  {
    if conn.Err? then GetReply("", Some(conn.error))
    else if fault(GetCall(key)).Some? then GetReply("", fault(GetCall(key)))
    else GetReply(Lookup(data, key), None)
  }

  /** A Set followed by a Get of the same key, both without error, reads back
      what was written. */
  lemma SetThenGet(data: Store, key: string, s: string, c1: Result<Handle>, f1: Call -> Option<Error>,
                   c2: Result<Handle>, f2: Call -> Option<Error>)
    requires SetSpec(data, key, s, c1, f1).err.None?
    requires GetSpec(SetSpec(data, key, s, c1, f1).data, key, c2, f2).err.None?
    ensures GetSpec(SetSpec(data, key, s, c1, f1).data, key, c2, f2).value == s
  {
  }

  // ---------------------------------------------------------------------
  // SetObject: the write path
  // ---------------------------------------------------------------------

  datatype SetObjectReply = SetObjectReply(status: string, err: Option<Error>, data: Store)

  /** SetObject, given the encoded object and the client acquisition result.
      The two writes at the end ignore their errors, as the source does. */
  function SetObjectSpec(data: Store, key: string, encoded: Result<string>, conn: Result<Handle>,
                         fault: Call -> Option<Error>): (r: SetObjectReply)
    // Early exits: "0", the error of the failing step, and no write at all.
    ensures r.err.Some? <==>
              encoded.Err? || conn.Err? || fault(ExistsCall(key)).Some? ||
              (key in data && fault(GetCall(StatusKey(key))).Some?)
    ensures r.err.Some? ==> r.status == Empty && r.data == data
    ensures encoded.Err? ==> r.err == Some(encoded.error)
    ensures encoded.Ok? && conn.Err? ==> r.err == Some(conn.error)
    ensures encoded.Ok? && conn.Ok? && fault(ExistsCall(key)).Some? ==> r.err == fault(ExistsCall(key))
    ensures encoded.Ok? && conn.Ok? && fault(ExistsCall(key)).None? &&
            key in data && fault(GetCall(StatusKey(key))).Some?
      ==> r.err == fault(GetCall(StatusKey(key)))
    // The transition: new key -> Unchecked, Unchecked -> Dirty, anything else -> Unchecked.
    ensures r.err.None? && key !in data ==> r.status == Unchecked
    ensures r.err.None? && key in data && Lookup(data, StatusKey(key)) == Unchecked ==> r.status == Dirty
    ensures r.err.None? && key in data && Lookup(data, StatusKey(key)) != Unchecked ==> r.status == Unchecked
    // What is written: the payload under the key, the returned status under the status key.
    ensures r.err.None? && fault(SetCall(key)).None? ==> key in r.data && r.data[key] == encoded.value
    ensures r.err.None? && fault(SetCall(StatusKey(key))).None? ==>
              StatusKey(key) in r.data && r.data[StatusKey(key)] == r.status
    // Nothing else changes, and no key is ever removed.
    ensures data.Keys <= r.data.Keys
    ensures forall k :: k in r.data ==>
              (k in data && r.data[k] == data[k]) ||
              (k == key && encoded.Ok? && r.data[k] == encoded.value) ||
              (k == StatusKey(key) && r.data[k] == r.status)
  {
    if encoded.Err? then SetObjectReply(Empty, Some(encoded.error), data)
    else if conn.Err? then SetObjectReply(Empty, Some(conn.error), data)
    else if fault(ExistsCall(key)).Some? then SetObjectReply(Empty, fault(ExistsCall(key)), data)
    else
      var sk := StatusKey(key);
      var present := key in data;
      if present && fault(GetCall(sk)).Some? then SetObjectReply(Empty, fault(GetCall(sk)), data)
      else
        var status := NextStatus(present, Lookup(data, sk));
        var written := Put(data, key, encoded.value, fault(SetCall(key)));
        SetObjectReply(status, None, Put(written, sk, status, fault(SetCall(sk))))
  }

  // ---------------------------------------------------------------------
  // GetObject: the read path
  // ---------------------------------------------------------------------

  /** The reads GetObject makes before decoding: a failed step, an absent
      key, or the stored status and payload. */
  datatype Fetch = FetchFailed(err: Error) | Absent | Fetched(status: string, payload: string)

  function ReadPath(data: Store, key: string, conn: Result<Handle>, fault: Call -> Option<Error>): Fetch {
    if conn.Err? then FetchFailed(conn.error)
    else if fault(ExistsCall(key)).Some? then FetchFailed(fault(ExistsCall(key)).value)
    else if key !in data then Absent
    else if fault(GetCall(StatusKey(key))).Some? then FetchFailed(fault(GetCall(StatusKey(key))).value)
    else if fault(GetCall(key)).Some? then FetchFailed(fault(GetCall(key)).value)
    else Fetched(Lookup(data, StatusKey(key)), data[key])
  }

  /** The status and error GetObject returns, and the value it decodes into
      the destination (None: the destination is left as it was). */
  datatype ReadReply<T> = ReadReply(status: string, err: Option<Error>, decoded: Option<T>)

  /** GetObject with a decode failure reported as an error ("0" and the
      decoder's error). */
  function GetObjectSpec<T>(data: Store, key: string, decode: string -> Result<T>, conn: Result<Handle>,
                            fault: Call -> Option<Error>): (r: ReadReply<T>)
    // Every error returns "0" and leaves the destination alone.
    ensures r.err.Some? ==> r.status == Empty && r.decoded.None?
    // GetObject succeeds exactly when the client is obtained, the existence check
    // succeeds and, for a present key, both reads succeed and the payload decodes.
    ensures r.err.None? <==>
              conn.Ok? && fault(ExistsCall(key)).None? &&
              (key in data ==>
                 fault(GetCall(StatusKey(key))).None? && fault(GetCall(key)).None? && decode(data[key]).Ok?)
    // Each failing step returns its own error.
    ensures conn.Err? ==> r.err == Some(conn.error)
    ensures conn.Ok? && fault(ExistsCall(key)).Some? ==> r.err == fault(ExistsCall(key))
    ensures conn.Ok? && fault(ExistsCall(key)).None? && key in data &&
            fault(GetCall(StatusKey(key))).Some?
      ==> r.err == fault(GetCall(StatusKey(key)))
    ensures conn.Ok? && fault(ExistsCall(key)).None? && key in data &&
            fault(GetCall(StatusKey(key))).None? && fault(GetCall(key)).Some?
      ==> r.err == fault(GetCall(key))
    // An absent key is "0" with no error, and the destination is untouched.
    ensures conn.Ok? && fault(ExistsCall(key)).None? && key !in data ==> r == ReadReply(Empty, None, None)
    // The destination is written exactly when the key is present and every step succeeds,
    // and then the stored status string is returned as it is.
    ensures r.decoded.Some? <==> r.err.None? && key in data
    ensures r.decoded.Some? ==>
              key in data && decode(data[key]) == Ok(r.decoded.value) &&
              r.status == Lookup(data, StatusKey(key))
    // A payload that does not decode gives "0" and the decoder's error.
    ensures ReadPath(data, key, conn, fault).Fetched? && decode(data[key]).Err? ==>
              r == ReadReply(Empty, Some(decode(data[key]).error), None)
  {
    match ReadPath(data, key, conn, fault)
    case FetchFailed(e) => ReadReply(Empty, Some(e), None)
    case Absent => ReadReply(Empty, None, None)
    case Fetched(status, payload) =>
      match decode(payload)
      case Err(e) => ReadReply(Empty, Some(e), None)
      case Ok(v) => ReadReply(status, None, Some(v))
  }

  /** What a call of GetObject does: it returns, or it panics. */
  datatype Outcome<T> = Returned(reply: ReadReply<T>) | Panicked

  /** GetObject as the source writes it: on a decode failure it logs the
      error of the preceding successful Get, which is nil, and calling its
      Error method panics. */
  function GetObjectAsWritten<T>(data: Store, key: string, decode: string -> Result<T>, conn: Result<Handle>,
                                 fault: Call -> Option<Error>): (o: Outcome<T>)
    ensures o.Returned? ==> o.reply == GetObjectSpec(data, key, decode, conn, fault)
    ensures o.Panicked? <==> ReadPath(data, key, conn, fault).Fetched? && decode(data[key]).Err?
  {
    match ReadPath(data, key, conn, fault)
    case Fetched(_, payload) =>
      if decode(payload).Err? then Panicked else Returned(GetObjectSpec(data, key, decode, conn, fault))
    case _ => Returned(GetObjectSpec(data, key, decode, conn, fault))
  }

  /** A stored payload that does not decode crashes GetObject as written,
      where the intended behaviour returns "0" and the decoder's error. */
  lemma BadPayloadPanicsAsWritten<T>(key: string, payload: string, status: string, decode: string -> Result<T>,
                                     h: Handle, fault: Call -> Option<Error>)
    requires decode(payload).Err?
    requires fault(ExistsCall(key)).None? && fault(GetCall(StatusKey(key))).None? && fault(GetCall(key)).None?
    ensures var data := map[key := payload, StatusKey(key) := status];
            GetObjectAsWritten(data, key, decode, Ok(h), fault) == Panicked &&
            GetObjectSpec(data, key, decode, Ok(h), fault) == ReadReply(Empty, Some(decode(payload).error), None)
  {
  }

  /** SetObject followed by GetObject of the same key, without errors, hands
      back the object written and the status SetObject returned, provided the
      encoder and decoder round-trip the object. */
  lemma SetObjectThenGetObject<T>(data: Store, key: string, obj: T, encode: T -> Result<string>,
                                  decode: string -> Result<T>, h1: Handle, f1: Call -> Option<Error>,
                                  h2: Handle, f2: Call -> Option<Error>)
    requires encode(obj).Ok? && decode(encode(obj).value) == Ok(obj)
    requires f1(ExistsCall(key)).None? && f1(GetCall(StatusKey(key))).None?
    requires f1(SetCall(key)).None? && f1(SetCall(StatusKey(key))).None?
    requires f2(ExistsCall(key)).None? && f2(GetCall(StatusKey(key))).None? && f2(GetCall(key)).None?
    ensures var w := SetObjectSpec(data, key, encode(obj), Ok(h1), f1);
            w.err.None? &&
            GetObjectSpec(w.data, key, decode, Ok(h2), f2) == ReadReply(w.status, None, Some(obj))
  {
  }

  /** A caller key that is itself a status key overwrites the status of the
      key it belongs to: SetObject leaves that status holding the payload. */
  lemma NestedKeyOverwritesStatus(data: Store, key: string, payload: string, h: Handle, fault: Call -> Option<Error>)
    requires fault(ExistsCall(StatusKey(key))).None? && fault(GetCall(StatusKey(StatusKey(key)))).None?
    requires fault(SetCall(StatusKey(key))).None?
    ensures var w := SetObjectSpec(data, StatusKey(key), Ok(payload), Ok(h), fault);
            w.err.None? && Lookup(w.data, StatusKey(key)) == payload
  {
  }

  // ---------------------------------------------------------------------
  // Sequences of writes
  // ---------------------------------------------------------------------

  /** One write call on the manager, with the answers it receives. */
  datatype Write =
    | SetObjectWrite(key: string, encoded: Result<string>, conn: Result<Handle>, fault: Call -> Option<Error>)
    | SetWrite(key: string, value: string, conn: Result<Handle>, fault: Call -> Option<Error>)

  function Apply(data: Store, w: Write): (r: Store)
    ensures data.Keys <= r.Keys
  {
    match w
    case SetObjectWrite(key, encoded, conn, fault) => SetObjectSpec(data, key, encoded, conn, fault).data
    case SetWrite(key, value, conn, fault) => SetSpec(data, key, value, conn, fault).data
  }

  /** The store after a sequence of writes. There is no delete operation, so
      a key once present stays present. */
  function Run(data: Store, ws: seq<Write>): (r: Store)
    ensures data.Keys <= r.Keys
    decreases |ws|
  {
    if ws == [] then data else Run(Apply(data, ws[0]), ws[1..])
  }

  /** A status key holds a value this protocol writes, or the value it had before. */
  ghost predicate StatusesFrom(data: Store, r: Store) {
    forall k :: k in r && IsStatusKey(k) ==>
      r[k] == Unchecked || r[k] == Dirty || (k in data && r[k] == data[k])
  }

  lemma ApplyKeepsStatuses(data: Store, w: Write)
    requires !IsStatusKey(w.key)
    ensures StatusesFrom(data, Apply(data, w))
  {
  }

  /** Writes through SetObject and Set on keys that are not status keys only
      ever store "1" or "3" under a status key; every other status value was
      in the store already. In particular "2" (Checked) is never written. */
  lemma {:induction false} StatusValuesStayInProtocol(data: Store, ws: seq<Write>)
    requires forall i :: 0 <= i < |ws| ==> !IsStatusKey(ws[i].key)
    ensures StatusesFrom(data, Run(data, ws))
    decreases |ws|
  {
    if ws != [] {
      var d1 := Apply(data, ws[0]);
      ApplyKeepsStatuses(data, ws[0]);
      StatusValuesStayInProtocol(d1, ws[1..]);
      assert Run(data, ws) == Run(d1, ws[1..]);
    }
  }

  /** A SetObject write whose every step succeeds. */
  predicate Clean(w: Write) {
    match w
    case SetObjectWrite(key, encoded, conn, fault) =>
      encoded.Ok? && conn.Ok? &&
      fault(ExistsCall(key)).None? && fault(GetCall(StatusKey(key))).None? &&
      fault(SetCall(key)).None? && fault(SetCall(StatusKey(key))).None?
    case SetWrite(_, _, _, _) => false
  }

  /** With no check operation, repeated clean writes to one key alternate its
      status between "1" and "3": the status after n writes is Dirty exactly
      when the parity of n matches whether the key started out Unchecked. On
      a new key the first write gives "1", the second "3", and so on; the key
      always holds the last payload. */
  lemma {:induction false} RewritesAlternate(data: Store, key: string, ws: seq<Write>)
    requires |ws| > 0
    requires forall i :: 0 <= i < |ws| ==> ws[i].key == key && Clean(ws[i])
    ensures var r := Run(data, ws);
            Clean(ws[|ws| - 1]) && key in r && r[key] == ws[|ws| - 1].encoded.value &&
            StatusKey(key) in r &&
            r[StatusKey(key)] ==
              (if (|ws| % 2 == 1) == (key in data && Lookup(data, StatusKey(key)) == Unchecked)
               then Dirty else Unchecked)
    decreases |ws|
  {
    var w := ws[0];
    var d1 := Apply(data, w);
    assert d1 == SetObjectSpec(data, key, w.encoded, w.conn, w.fault).data;
    assert Run(data, ws) == Run(d1, ws[1..]);
    if |ws| > 1 {
      RewritesAlternate(d1, key, ws[1..]);
      assert ws[1..][|ws| - 2] == ws[|ws| - 1];
    }
  }
}
