# GoChat session registry: `SessionStore.NewSession` in Dafny

The server keeps every live client connection as a `Session`. A process-wide
`SessionStore` holds them all in a map from session id to session. It also
keeps an LRU list of the long-poll sessions, because those are not tied to a
live transport and must expire when idle. `NewSession` registers one new
connection. It does four things:

1. It picks the session id. This is the caller's id, or a freshly generated one
   when the caller gives none.
2. It refuses an id that is already registered. This is fatal: the process exits.
3. It classifies the connection. A websocket gives a `WEBSOCK` session that
   keeps its socket. An HTTP response writer gives an `LPOLL` (long-poll)
   session. Anything else makes the server panic.
4. It initialises the session and files it in the map. A long-poll session is
   also pushed to the front of the LRU list, and the session keeps a pointer
   (`lpTracker`) to its own list element.

The model has three modules:

- `Sessions` (`sessions.dfy`) holds the declarations of `server/session.go`:
  - the transport enumeration `SessionProto` and the `Subscription` record;
  - the `Session` class, with the fields that `NewSession` sets or that the Go
    zero value fixes;
  - `Element`, the LRU list element that holds a session;
  - `Created`, the value of a session just after `NewSession` has built it.
- `StoreSpec` (`store_spec.dfy`) describes the registry as a value. It has:
  - `StoreState`, the map of session values plus the LRU list of ids;
  - the registry invariant `StoreInv`;
  - `Register`, the value-level effect of one `NewSession` call;
  - lemmas about `Register` and the invariant.
- `Store` (`session_store.dfy`) holds the `SessionStore` class itself. Its
  fields are `sessCache: map<string, Session>` and `lru: seq<Element>`, with
  index 0 as the list's front. It has:
  - an object invariant `Valid`;
  - an abstraction `Abstract()` to a `StoreState`;
  - the imperative `NewSession`, proved to have exactly the effect of `Register`.

The id generator (`store.GetUidString`) and the clock (`time.Now`) are
parameters (`generatedId`, `now`). The exit on a duplicate id and the panic on
an unknown connection type are `Err` results that leave the store untouched.
In the source, neither happens after the store has been changed.

The source declares `NewSession` as returning `(*Session, int)`, but its body
(`server/sessionstore.go:29-72`) has no `return` statement. The model returns
the new session, or the fault, and has no integer result.

Registration returns no handle: the list element is kept in the session's own
`lpTracker` field. Only websocket and long-poll connections are accepted. Every
other transport, including `GRPC`, `PROXY` and `MULTIPLEX`, panics.

## Model

| member | source | states |
|---|---|---|
| `StoreSpec.Register` | server/sessionstore.go:29-72 | A non-empty caller id is used verbatim; an empty one is replaced by the generated id (`SessionId`, lines 32-36). A taken id fails with `DuplicateSessionId`, checked before the connection type. An unknown connection fails with `UnknownConnectionType`. It succeeds exactly when the id is free and the connection is a websocket or a response writer. On success the map gains the new session under its id and every old entry stays as it was. A websocket session gets `WEBSOCK` and its socket, is not tracked, and the list is unchanged. A response writer gets `LPOLL`, is tracked, and its id is put in front of the list. Every new session starts with no subscriptions, queue capacities 160/1/64, a stopped timer, `lastTouched == now`, and is unauthenticated and not terminating. |
| `Store.SessionStore.NewSession` | server/sessionstore.go:29-72 | Keeps `Valid`. Its result and new abstract state are exactly those of `Register` on the old abstract state. A refusal leaves map and list unchanged. On success (`Inserted`): the session object is new and filed under its previously free id. A long-poll session gets a new element pushed to the front of the list, and its `lpTracker` is that element, which holds the session. A websocket session has no tracker and the list is unchanged. |
| `Sessions.Session.Open` | server/sessionstore.go:53-63 | A new session is `Created`: the zero value with its id, transport and socket set, an empty subscription map, send/stop/detach capacities `sendQueueLimit + 32`, 1 and 64, the background timer stopped, and `lastTouched == now`. It has no LRU element yet. |
| `StoreSpec.RegisterPreservesInv` | server/sessionstore.go:65-71 | A successful registration keeps the registry invariant: every session is filed under its own id, a session is listed exactly when it is long-poll, every listed id is a registered long-poll session, and no id is listed twice. |
| `StoreSpec.SecondRegistrationRefused` | server/sessionstore.go:38-42 | After a session is registered under a caller-given id, registering that id again is refused with `DuplicateSessionId`. The first entry is never overwritten. |
| `StoreSpec.LruNoLongerThanCache` | server/sessionstore.go:17-26 | Under the registry invariant, the LRU list never has more entries than the map has sessions. |
| `Store.SessionStore.ValidStoreInv` | server/sessionstore.go:65-71 | The object invariant (back-pointers, list of distinct elements, every element holding a registered long-poll session) implies the registry invariant of the abstract value. |
| `Store.InsertKeepsValid` | server/sessionstore.go:65-71 | The in-place insertion keeps the object invariant, provided no previously registered session changed. |
| `Store.InsertAbstract` | server/sessionstore.go:65-71 | The in-place insertion changes the abstract value exactly as `Register` does. |
| `Store.InsertCorrect` | server/sessionstore.go:65-71 | The lemma `NewSession` calls after its insertion. It combines `InsertKeepsValid` and `InsertAbstract`: the object invariant holds again, and the abstract value is `Register`'s successful result. |
| `Store.EmptyStoreValid` | server/sessionstore.go:17-26 | A store with an empty map and an empty list satisfies `Valid`, so `NewSession`'s precondition can be met. |

## Left out

- Touch, idle eviction, lookup and removal of sessions are not part of this model. Their code is not in the source files modelled here.
- The store's mutex is not modelled, and neither is the gap between the duplicate check and the insertion. The lock is released in between (`server/sessionstore.go:38-42` against `65-71`), so two concurrent calls with the same id could both pass the check. A sequential model cannot show that.
- `store.GetUidString` and `time.Now` are foreign calls. They become the parameters `generatedId` and `now`. Uniqueness of generated ids is not assumed: a generated id that is already taken is refused like any other.
- `logs.Err.Fatalln` (process exit) and `logs.Err.Panic` are modelled as `Err` results with no state change. The log output is not modelled.
- Channels are modelled by their capacities only: `send`, `stop` and `detach` as numbers, and a `Subscription` as four channel identities. The background timer is modelled as the fact that it is stopped. The `inflightReqs` wait group is modelled as its counter.
- These session fields are not modelled: `grpcnode`, `remoteAddr`, `userAgent`, `deviceID`, `platf`, `lang`, `countryCode`, `lastAction`, and the locks `sessionStoreLock`, `subsLock` and `lock`. `NewSession` leaves all of them at their zero values.
- `sid` and `proto` are immutable fields. The source assigns them only while it builds the session, before the session is published.
- The list's `next`/`prev` links are not modelled: the list is a sequence of elements, with the front at index 0.
- `SessionStore` has no constructor in the source files modelled here. The model proves `NewSession` correct from any store that satisfies `Valid`. `lifeTime` is carried as a field that `NewSession` does not change.
- The map and the list are assumed to be allocated. In the source, a zero-value `SessionStore` has a nil map and a nil list, and `NewSession` panics at `server/sessionstore.go:67` or `:69` while it holds the store's lock. There is no deferred unlock, so a recovered panic leaves the store locked.
- The message structs of `server/datamodel.go` and `server/hub.go` are declarations with no behaviour, so they are not modelled. `parseVersion` and `minSupportedVersion` are not part of this model, and neither is the no-writes-after-terminating rule: no code in these files enforces it.
