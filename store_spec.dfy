/**
 * The session registry of server/sessionstore.go as values: the map from
 * session id to session, the LRU order of long-poll session ids (front
 * first), the invariant that ties the two together, and `Register`, the
 * effect of one successful or failed `NewSession` call.
 */
module StoreSpec {
  import opened Sessions

  /**
   * The two ways `NewSession` ends without registering: a duplicate id
   * (the source exits the process) and a connection that is neither a
   * websocket nor an HTTP response writer (the source panics).
   */
  datatype Fault = DuplicateSessionId(sid: string) | UnknownConnectionType

  datatype Result<T> = Ok(value: T) | Err(fault: Fault)

  /** The dynamic type of the `conn` argument, as the source's type switch sees it. */
  datatype Conn = WebSocket(ws: WsConn) | ResponseWriter | Other

  /** The registry: `cache` is `sessCache`, `lru` the ids in the LRU list, front first. */
  datatype StoreState = StoreState(cache: map<string, SessionInfo>, lru: seq<string>)

  /** The store after a registration and the session it registered. */
  datatype Registered = Registered(store: StoreState, session: SessionInfo)

  predicate Distinct<T(==)>(s: seq<T>)
  {
    forall i, j | 0 <= i < j < |s| :: s[i] != s[j]
  }

  /**
   * The registry invariant: every session is filed under its own id; a
   * session is in the LRU list exactly when it is a long-poll session; every
   * LRU entry names a registered long-poll session; no id is listed twice.
   */
  predicate StoreInv(st: StoreState)
  {
    && (forall id | id in st.cache :: st.cache[id].sid == id)
    && (forall id | id in st.cache :: st.cache[id].tracked == (st.cache[id].proto == LPOLL))
    && (forall id | id in st.cache && st.cache[id].tracked :: id in st.lru)
    && (forall i | 0 <= i < |st.lru| :: st.lru[i] in st.cache && st.cache[st.lru[i]].proto == LPOLL)
    && Distinct(st.lru)
  }

  /** The id a new session gets: the caller's, or the generated one when the caller gave none. */
  function SessionId(sid: string, generatedId: string): string
  {
    if sid == "" then generatedId else sid
  }

  /** What every newly registered session starts with, whatever its transport. */
  predicate JustCreated(s: SessionInfo, now: Time)
  {
    && s.subs == map[]
    && s.sendCap == SendQueueLimit + 32 && s.stopCap == 1 && s.detachCap == 64
    && s.bkgTimerStopped && s.inflightReqs == 0
    && s.lastTouched == now
    && s.ver == 0 && s.uid == 0 && s.authLvl == 0 && !s.background && !s.terminating
  }

  /**
   * One call of `NewSession(conn, sid)` on the registry `st`, with
   * `generatedId` standing for the store's id generator and `now` for the clock.
   */
  function Register(st: StoreState, conn: Conn, sid: string, generatedId: string, now: Time): (r: Result<Registered>)
    // the id: the caller's verbatim, or the generated one
    ensures r.Ok? ==> r.value.session.sid == SessionId(sid, generatedId)
    ensures sid != "" && r.Ok? ==> r.value.session.sid == sid
    // a taken id is refused first, an unknown transport second; nothing else fails
    ensures r == Err(DuplicateSessionId(SessionId(sid, generatedId))) <==> SessionId(sid, generatedId) in st.cache
    ensures r == Err(UnknownConnectionType) <==> SessionId(sid, generatedId) !in st.cache && conn.Other?
    ensures r.Ok? <==> SessionId(sid, generatedId) !in st.cache && !conn.Other?
    // the new session is added under its id; no existing entry is overwritten or changed
    ensures r.Ok? ==> r.value.session.sid !in st.cache
    ensures r.Ok? ==> r.value.store.cache == st.cache[r.value.session.sid := r.value.session]
    ensures r.Ok? ==> JustCreated(r.value.session, now)
    // the transport decides the protocol and LRU membership
    ensures r.Ok? && conn.WebSocket? ==>
      && r.value.session.proto == WEBSOCK && r.value.session.ws == Some(conn.ws)
      && !r.value.session.tracked && r.value.store.lru == st.lru
    ensures r.Ok? && conn.ResponseWriter? ==>
      && r.value.session.proto == LPOLL && r.value.session.ws == None
      && r.value.session.tracked && r.value.store.lru == [r.value.session.sid] + st.lru
  {
    var id := SessionId(sid, generatedId);
    if id in st.cache then Err(DuplicateSessionId(id))
    else match conn
      case Other => Err(UnknownConnectionType)
      case WebSocket(c) =>
        var s := Created(id, WEBSOCK, Some(c), false, now);
        Ok(Registered(StoreState(st.cache[id := s], st.lru), s))
      case ResponseWriter =>
        var s := Created(id, LPOLL, None, true, now);
        Ok(Registered(StoreState(st.cache[id := s], [id] + st.lru), s))
  }

  /** A registration keeps the registry invariant. */
  lemma RegisterPreservesInv(st: StoreState, conn: Conn, sid: string, generatedId: string, now: Time)
    requires StoreInv(st)
    ensures Register(st, conn, sid, generatedId, now).Ok? ==> StoreInv(Register(st, conn, sid, generatedId, now).value.store)
  {
  }

  /** A second registration under an id that is already taken is refused and changes nothing. */
  lemma SecondRegistrationRefused(st: StoreState, c1: Conn, c2: Conn, sid: string, g1: string, g2: string, t1: Time, t2: Time)
    requires sid != ""
    requires Register(st, c1, sid, g1, t1).Ok?
    ensures Register(Register(st, c1, sid, g1, t1).value.store, c2, sid, g2, t2) == Err(DuplicateSessionId(sid))
  {
  }

  /** The elements of a duplicate-free sequence form a set of the same size. */
  lemma {:induction false} DistinctCard<T>(s: seq<T>)
    requires Distinct(s)
    ensures |set x | x in s| == |s|
  {
    if s != [] {
      var rest := s[1..];
      assert Distinct(rest) by {
        forall i, j | 0 <= i < j < |rest| ensures rest[i] != rest[j] {
          assert rest[i] == s[i + 1] && rest[j] == s[j + 1];
        }
      }
      DistinctCard(rest);
      assert s[0] !in rest by {
        forall k | 0 <= k < |rest| ensures rest[k] != s[0] {
          assert rest[k] == s[k + 1];
        }
      }
      assert (set x | x in s) == {s[0]} + (set x | x in rest) by {
        assert s == [s[0]] + rest;
      }
    }
  }

  /** The LRU list never holds more entries than the registry has sessions. */
  lemma LruNoLongerThanCache(st: StoreState)
    requires StoreInv(st)
    ensures |st.lru| <= |st.cache|
  {
    DistinctCard(st.lru);
    var listed := set x | x in st.lru;
    assert listed <= st.cache.Keys;
    assert |listed| <= |st.cache.Keys| by {
      SubsetCard(listed, st.cache.Keys);
    }
  }

  /** A subset is no larger than its superset. */
  lemma {:induction false} SubsetCard<T>(a: set<T>, b: set<T>)
    requires a <= b
    ensures |a| <= |b|
  {
    if a != {} {
      var x :| x in a;
      SubsetCard(a - {x}, b - {x});
    }
  }
}
