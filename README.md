# RedisManager status cache, modelled in Dafny

RedisManager caches JSON-encoded objects in a Redis database. Beside every
caller key `k` it keeps a status key `k/status` holding one of four tokens:
`"0"` Empty, `"1"` Unchecked, `"2"` Checked, `"3"` Dirty. `SetObject` stores
an object and moves the status on: a new key becomes Unchecked, an Unchecked
key becomes Dirty (a second write before anyone looked at the first), and any
other status goes back to Unchecked. `GetObject` returns the stored status
and decodes the payload; an absent key gives `"0"` and no error. `Set` and
`Get` are plain string puts and gets. `Set`, `Get` and `GetObject` first
obtain a client from a cached connection; `SetObject` first encodes the object
and obtains a client only when encoding succeeds.

The project has five modules:

- `Wire` (wire.dfy): errors, results, connection handles, and `Network`, the
  answers the outside world gives during one operation (Ping on the cached
  client, dialling a new one, and success or error for every store call).
- `Status` (status.dfy): the status tokens, `StatusKey`, and `NextStatus`, the
  transition `SetObject` applies.
- `Connection` (connection.dfy): client acquisition, both as written and as
  intended (see Findings).
- `Protocol` (protocol.dfy): every operation as a function over the store
  contents (`map<string, string>`). It also holds lemmas relating several
  calls: read-after-write, the status values a run of writes can leave, and
  the alternation of statuses under repeated writes.
- `Manager` (manager.dfy): the `RedisManager` class, with its cached client
  field and methods that make the store calls step by step. Each method is
  proved equal to its `Protocol` function. `KeyValueStore` is the server the
  connections reach; `Box` is the destination `GetObject` decodes into.

Modelling choices:

- Go converts between `[]byte` and `string` without loss, so stored values
  are Dafny strings.
- JSON encoding and decoding are parameters (`encode`, `decode`). Their
  round trip is a precondition of the lemma that needs it.
- The network is a parameter. A store `Get` of a missing key reads as the
  empty string, which is what the Go client returns for a nil reply.
- The two `client.Set` calls at the end of `SetObject` ignore their errors,
  as the source does. A failed write leaves its key unchanged, and
  `SetObject` still reports success.

## Model

| member | source | states |
|---|---|---|
| `Status.StatusKey` | redis_manager.go:201-203 | the status key is the caller key followed by `/status`; `BaseKey` recovers the caller key from it |
| `Status.StatusKeyInjective` | redis_manager.go:201-203 | distinct caller keys have distinct status keys, and equal keys equal ones |
| `Status.StatusKeyOfBase` | redis_manager.go:201-203 | every key ending in `/status` is the status key of the key before the suffix |
| `Status.StatusKeyIsOtherKey` | redis_manager.go:250-264 | a key and its status key differ, so the two writes of SetObject hit two keys |
| `Status.NextStatus` | redis_manager.go:250-261 | new key gives Unchecked (`"1"`); existing key stored as Unchecked gives Dirty (`"3"`); any other stored status gives Unchecked; never Empty or Checked |
| `Connection.Acquire` | redis_manager.go:187-199 | a cached client that answers Ping is reused without dialling; otherwise the dial result is returned, and a successful dial is cached; the returned client is always the cached one |
| `Connection.AcquireAsWritten` | redis_manager.go:188 | as written: the cached client is reused exactly when Ping reports an error, otherwise a new connection is dialled |
| `Connection.LiveClientIsReused` | redis_manager.go:187-199 | after a successful acquisition, the next one returns the same handle whatever dialling would give, while Ping succeeds |
| `Connection.AsWrittenDropsLiveClient` | redis_manager.go:188-196 | as written, a live cached client is dropped: a failed dial fails the call although the intended acquisition returns the cached handle |
| `Connection.AsWrittenReturnsDeadClient` | redis_manager.go:188-189 | as written, a cached client whose Ping fails is handed back instead of the newly dialled one |
| `Protocol.SetSpec` | redis_manager.go:205-217 | Set succeeds exactly when the client is obtained and the store write succeeds; it then maps the key to the string and changes nothing else; on error the store is unchanged and the error is the failing step's |
| `Protocol.GetSpec` | redis_manager.go:219-231 | Get succeeds exactly when the client is obtained and the read succeeds, returning the stored string; on error it returns the empty string and the failing step's own error |
| `Protocol.SetThenGet` | redis_manager.go:205-231 | a Set followed by a Get of the same key, both without error, returns the string written |
| `Protocol.SetObjectSpec` | redis_manager.go:233-266 | fails exactly when encoding, client, existence check or (for an existing key) status read fails, then returns `"0"`, the failing step's own error and no write; otherwise applies the transition, stores the payload under the key and the returned status under the status key (each when its write succeeds), removes nothing and changes no other key |
| `Protocol.GetObjectSpec` | redis_manager.go:268-304 | succeeds exactly when the client, the existence check and, for a present key, both reads and the decode succeed; each failing step returns `"0"` and its own error and leaves the destination alone; an absent key returns `"0"`, no error and no decode; the destination is written exactly when the key is present and every step succeeds, and then the stored status string is returned; an undecodable payload returns `"0"` with the decoder's error |
| `Protocol.GetObjectAsWritten` | redis_manager.go:286-295 | as written, GetObject panics exactly when the reads succeed and the payload does not decode, and otherwise agrees with `GetObjectSpec` |
| `Protocol.BadPayloadPanicsAsWritten` | redis_manager.go:286-295 | a present key whose payload fails to decode makes GetObject as written panic, where the intended reply is `"0"` and the decoder's error |
| `Protocol.SetObjectThenGetObject` | redis_manager.go:233-304 | with an encoder and decoder that round-trip the object, SetObject then GetObject without errors returns the object and the status SetObject returned |
| `Protocol.NestedKeyOverwritesStatus` | redis_manager.go:250-264 | a caller key that is itself a status key overwrites the status of the key it belongs to with the payload |
| `Protocol.Apply` | redis_manager.go:205-266 | a single write call through Set or SetObject never removes a key |
| `Protocol.Run` | redis_manager.go:205-266 | a sequence of writes never removes a key, because the manager has no delete operation |
| `Protocol.ApplyKeepsStatuses` | redis_manager.go:250-264 | one write to a caller key that is not a status key leaves each status key with `"1"`, `"3"` or its previous value |
| `Protocol.StatusValuesStayInProtocol` | redis_manager.go:250-264 | after any sequence of writes to caller keys that are not status keys, every status key holds `"1"`, `"3"` or the value it held before; `"2"` is never written |
| `Protocol.RewritesAlternate` | redis_manager.go:250-264 | n successful SetObject calls on one key leave the last payload and a status that alternates between `"1"` and `"3"`: on a new key, odd n gives `"1"` and even n gives `"3"` |
| `Manager.KeyValueStore.Exists` | redis_manager.go:245-249 | the existence check returns the call's error, or whether the key is stored |
| `Manager.KeyValueStore.Get` | redis_manager.go:281-290 | a store read returns the call's error, the stored string, or the empty string for a missing key |
| `Manager.KeyValueStore.Set` | redis_manager.go:211-215 | a store write returns the call's error and writes the key only when the call succeeds |
| `Manager.RedisManager.constructor` | redis_manager.go:174-182 | a new manager keeps the connection settings and has no cached client |
| `Manager.RedisManager.GetClient` | redis_manager.go:187-199 | returns and caches the client as `Connection.Acquire` says |
| `Manager.RedisManager.Set` | redis_manager.go:205-217 | the returned error and the new store are those of `SetSpec`; the cached client is updated by acquisition |
| `Manager.RedisManager.Get` | redis_manager.go:219-231 | the returned string and error are those of `GetSpec`; the store is not modified |
| `Manager.RedisManager.SetObject` | redis_manager.go:233-266 | the returned status, error and new store are those of `SetObjectSpec`; no client is acquired when encoding fails |
| `Manager.RedisManager.GetObject` | redis_manager.go:268-304 | the returned status and error are those of `GetObjectSpec`; the destination changes only to the decoded value; the store is not modified |

## Findings

| source | as written | input that shows it | evidently intended | confidence | as-written member | corrected member |
|---|---|---|---|---|---|---|
| redis_manager.go:286-295 | after a failed decode, the log call takes the error of the preceding Get; that Get succeeded, so the error is nil and calling its Error method panics | a present key whose payload is not valid JSON for the destination, with all reads succeeding | return `"0"` and the decode error, as the following return statement says | high, not executed | `Protocol.GetObjectAsWritten` (shown by `Protocol.BadPayloadPanicsAsWritten`) | `Protocol.GetObjectSpec` |
| redis_manager.go:188 | the cached client is reused only when Ping returns an error | a cached client that answers Ping while dialling fails: the call fails; a cached client whose Ping fails: it is returned | reuse the cached client when Ping succeeds, as the cache comment at line 197 implies | high, not executed | `Connection.AcquireAsWritten` (shown by `Connection.AsWrittenDropsLiveClient`, `Connection.AsWrittenReturnsDeadClient`) | `Connection.Acquire` |

The `RedisManager` methods use the corrected behaviour in both cases.

## Left out

- The demo code (`main0`, `main`, `Student`, `introduce`, the gender constants, redis_manager.go:9-118) prints and needs a live server.
- Logging (`Log`, `mode`, redis_manager.go:62-82 and log.go) only prints and does not affect control flow. The one place it does, the panic at redis_manager.go:293, is recorded under Findings.
- `RedisManagerError` and its codes (redis_manager.go:120-151) are never used.
- `SetObjects` (redis_manager.go:306-312) is a stub that only logs.
- The network connection itself (`redis.NewSynchClientWithSpec`, `Ping`, the wire protocol) is external. Its outcomes are the `Network` parameter, and the connection settings are kept but play no part.
- JSON encoding and decoding are external. They are the `encode`/`decode` parameters.
- Manager.RedisManager.GetObject: when decoding fails, the destination is modelled as unchanged; Go's JSON decoder may already have filled some fields.
- Concurrency is not modelled. The model is single-threaded, so the lack of atomicity between the two writes of SetObject and the two reads of GetObject is not represented.
- Check and delete operations for a cached object do not exist in the source, so none is modelled. The source declares a Checked token (`RedisManagerStatusChecked`, redis_manager.go:159) but no operation writes `"2"`, and no operation deletes a key or its status.
- An expiry time for cached keys does not appear in the source and is not modelled.
