/**
 * Declarations of server/session.go: the transport kinds, the subscription
 * record, the session object and the LRU list element that points back at it.
 * Channels, timers, mutexes and the wait group are reduced to the plain
 * values that `NewSession` fixes (capacities, "stopped", a counter).
 */
module Sessions {

  /** Base size of a session's outbound queue (`sendQueueLimit`). */
  const SendQueueLimit: nat := 128

  /** An instant, as `time.Time`; the clock itself is a parameter of the model. */
  type Time = int

  /** Identity of a `*websocket.Conn`; the connection itself is not modelled. */
  type WsConn = nat

  /** Identity of a Go channel. */
  type ChanId = nat

  /** `types.Uid`; zero means "not authenticated". */
  type Uid = nat

  /** `auth.Level`; zero is NONE (unset). */
  type AuthLevel = nat

  datatype Option<T> = None | Some(value: T)

  /** The transport of a session; the declaration order gives the `iota` codes 0..5. */
  datatype SessionProto = NONE | WEBSOCK | LPOLL | GRPC | PROXY | MULTIPLEX

  /** The four one-directional channels that wire one session to one topic. */
  datatype Subscription = Subscription(broadcast: ChanId, done: ChanId, meta: ChanId, supd: ChanId)

  /**
   * The value of a session's modelled fields. `tracked` stands for
   * `lpTracker != nil`; channel fields are given by their capacities.
   */
  datatype SessionInfo = SessionInfo(
    proto: SessionProto,
    sid: string,
    ws: Option<WsConn>,
    tracked: bool,
    ver: int,
    uid: Uid,
    authLvl: AuthLevel,
    lastTouched: Time,
    background: bool,
    bkgTimerStopped: bool,
    inflightReqs: nat,
    terminating: bool,
    sendCap: nat,
    stopCap: nat,
    detachCap: nat,
    subs: map<string, Subscription>)

  /** The Go zero value of a `Session` (`var s Session`). */
  const ZeroSession := SessionInfo(NONE, "", None, false, 0, 0, 0, 0, false, false, 0, false, 0, 0, 0, map[])

  /**
   * A session as `NewSession` initialises it: the zero value with the id,
   * transport and websocket set, an empty subscription map, the three
   * channels sized, the background timer stopped and the touch time `now`.
   */
  function Created(id: string, proto: SessionProto, ws: Option<WsConn>, tracked: bool, now: Time): SessionInfo
  {
    ZeroSession.(proto := proto, sid := id, ws := ws, tracked := tracked,
                 subs := map[], sendCap := SendQueueLimit + 32, stopCap := 1, detachCap := 64,
                 bkgTimerStopped := true, lastTouched := now)
  }

  /** An element of the store's LRU list (`*list.Element`); `value` is the session it holds. */
  class Element {
    const value: Session

    constructor (s: Session)
      ensures value == s
    {
      value := s;
    }
  }

  /** One live connection, websocket or long-poll. */
  class Session {
    /** The transport and the id are fixed while the session is built and never change after. */
    const proto: SessionProto
    const sid: string
    /** Set only for websocket sessions. */
    var ws: Option<WsConn>
    /** The session's own element in the store's LRU list; set only for long-poll sessions. */
    var lpTracker: Element?
    var ver: int
    var uid: Uid
    var authLvl: AuthLevel
    var lastTouched: Time
    var background: bool
    /** The background timer is created and stopped at once; only that fact is kept. */
    var bkgTimerStopped: bool
    /** Counter of the `inflightReqs` wait group. */
    var inflightReqs: nat
    /** The `terminating` flag (0 = false, 1 = true in the source). */
    var terminating: bool
    /** Capacities of the `send`, `stop` and `detach` channels. */
    var sendCap: nat
    var stopCap: nat
    var detachCap: nat
    var subs: map<string, Subscription>

    /** The session's modelled fields as a value. */
    ghost function Info(): SessionInfo
      reads this
    {
      SessionInfo(proto, sid, ws, lpTracker != null, ver, uid, authLvl, lastTouched,
                  background, bkgTimerStopped, inflightReqs, terminating,
                  sendCap, stopCap, detachCap, subs)
    }

    /** A new session initialised as `Created` describes; it is not yet in any LRU list. */
    constructor Open(id: string, proto: SessionProto, ws: Option<WsConn>, now: Time)
      ensures Info() == Created(id, proto, ws, false, now)
      ensures lpTracker == null
    {
      this.proto, this.sid, this.ws, lpTracker := proto, id, ws, null;
      ver, uid, authLvl, background, inflightReqs, terminating := 0, 0, 0, false, 0, false;
      subs := map[];
      sendCap := SendQueueLimit + 32;
      stopCap := 1;
      detachCap := 64;
      bkgTimerStopped := true;
      lastTouched := now;
    }
  }
}
