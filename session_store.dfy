/**
 * `SessionStore` of server/sessionstore.go: the map of live sessions and the
 * LRU list of long-poll sessions, updated in place by `NewSession`.
 * The store's mutex is not modelled: every operation here runs to completion
 * on its own. (In the source the lock is released between the duplicate
 * check and the insertion, so two concurrent calls with the same id could
 * both pass the check; a sequential model cannot show that.)
 */
module Store {
  import opened Sessions
  import opened StoreSpec

  /** The ids of the sessions held by a run of LRU elements, in list order. */
  ghost function SidsOf(els: seq<Element>): (r: seq<string>)
    ensures |r| == |els|
    ensures forall i | 0 <= i < |els| :: r[i] == els[i].value.sid
  {
    if els == [] then [] else [els[0].value.sid] + SidsOf(els[1..])
  }

  /** The value of every session of a session map. */
  ghost function InfoMap(m: map<string, Session>): (r: map<string, SessionInfo>)
    reads m.Values
    ensures r.Keys == m.Keys
  {
    map id | id in m :: m[id].Info()
  }

  /** Filing a session under an id files its value under that id. */
  lemma InfoMapUpdate(m: map<string, Session>, id: string, s: Session)
    ensures InfoMap(m[id := s]) == InfoMap(m)[id := s.Info()]
  {
  }

  /** A store with no sessions and an empty LRU list satisfies the object invariant. */
  lemma EmptyStoreValid(ss: SessionStore)
    requires ss.sessCache == map[] && ss.lru == []
    ensures ss.Valid()
  {
  }

  class SessionStore {
    /** The LRU list of long-poll sessions; index 0 is the front. */
    var lru: seq<Element>
    /** Lifetime of an idle long-poll session; `NewSession` does not use it. */
    var lifeTime: int
    /** All live sessions by id. */
    var sessCache: map<string, Session>

    /** The sessions held by the LRU list. */
    ghost function Listed(): set<Session>
      reads this
    {
      set e | e in lru :: e.value
    }

    /** The registered long-poll sessions. */
    ghost function LongPollSessions(): set<Session>
      reads this, sessCache.Values
    {
      set id | id in sessCache && sessCache[id].proto == LPOLL :: sessCache[id]
    }

    /**
     * The object invariant: each session is filed under its own id and has
     * an LRU element exactly when it is long-poll; that element is in the
     * list and holds it; each list element holds a registered long-poll
     * session whose `lpTracker` is that element; no element is listed twice.
     */
    ghost predicate Valid()
      reads this, sessCache.Values, Listed()
    {
      && (forall id | id in sessCache :: sessCache[id].sid == id)
      && (forall id | id in sessCache :: (sessCache[id].lpTracker != null) == (sessCache[id].proto == LPOLL))
      && Listed() == LongPollSessions()
      && (forall i | 0 <= i < |lru| ::
            && lru[i].value.proto == LPOLL
            && lru[i].value.sid in sessCache
            && sessCache[lru[i].value.sid] == lru[i].value
            && lru[i].value.lpTracker == lru[i])
      && Distinct(lru)
    }

    /** The registry as a value. */
    ghost function Abstract(): StoreState
      reads this, sessCache.Values, Listed()
    {
      StoreState(InfoMap(sessCache), SidsOf(lru))
    }

    /** The object invariant gives the registry invariant of the abstract value. */
    lemma ValidStoreInv()
      requires Valid()
      ensures StoreInv(Abstract())
    {
      var st := Abstract();
      forall id | id in st.cache && st.cache[id].tracked ensures id in st.lru {
        assert sessCache[id] in Listed();
        var k :| 0 <= k < |lru| && lru[k].value == sessCache[id];
        assert st.lru[k] == id;
      }
      forall i, j | 0 <= i < j < |st.lru| ensures st.lru[i] != st.lru[j] {
        assert lru[i] != lru[j];
      }
    }

    /**
     * Registers a session for `conn`, under `sid` or, when `sid` is empty,
     * under `generatedId`; `now` is the current time. On success the new
     * session is returned (the source declares a second, integer result
     * that it never returns; it is not modelled).
     */
    method NewSession(conn: Conn, sid: string, generatedId: string, now: Time) returns (r: Result<Session>)
      requires Valid()
      modifies this
      ensures Valid()
      ensures lifeTime == old(lifeTime)
      // the abstract effect is that of Register
      ensures r.Err? ==> Register(old(Abstract()), conn, sid, generatedId, now) == Err(r.fault)
      ensures r.Ok? ==> Register(old(Abstract()), conn, sid, generatedId, now) == Ok(Registered(Abstract(), r.value.Info()))
      // a refusal touches neither the map nor the list
      ensures r.Err? ==> sessCache == old(sessCache) && lru == old(lru)
      // on success the new session object is filed and, if long-poll, listed at the front
      ensures r.Ok? ==> Inserted(this, r.value)
    {
      var id := if sid == "" then generatedId else sid;
      if id in sessCache {
        return Err(DuplicateSessionId(id));
      }
      var proto, ws;
      match conn {
        case WebSocket(c) =>
          proto, ws := WEBSOCK, Some(c);
        case ResponseWriter =>
          proto, ws := LPOLL, None;
        case Other =>
          return Err(UnknownConnectionType);
      }
      var s := new Session.Open(id, proto, ws, now);

      if s.proto == LPOLL {
        var e := new Element(s);
        lru := [e] + lru;
        s.lpTracker := e;
      }
      sessCache := sessCache[s.sid := s];
      r := Ok(s);

      InsertCorrect(this, s, conn, sid, generatedId, now);
    }
  }

  /**
   * What `NewSession` did to the heap when it registered `s`: `s` is new and
   * filed under its own, previously free id; it has a new LRU element pushed
   * to the front exactly when it is a long-poll session. The lemmas below
   * add that no session registered before has changed.
   */
  twostate predicate Inserted(ss: SessionStore, new s: Session)
    reads ss, s
  {
    && fresh(s)
    && s.sid !in old(ss.sessCache)
    && ss.sessCache == old(ss.sessCache)[s.sid := s]
    && (s.proto == LPOLL ==>
          && s.lpTracker != null && fresh(s.lpTracker) && s.lpTracker.value == s
          && ss.lru == [s.lpTracker] + old(ss.lru))
    && (s.proto != LPOLL ==> s.lpTracker == null && ss.lru == old(ss.lru))
  }

  /** Inserting adds the new session to the listed ones exactly when it is long-poll. */
  twostate lemma InsertListed(ss: SessionStore, new s: Session)
    requires Inserted(ss, s)
    ensures ss.Listed() == old(ss.Listed()) + (if s.proto == LPOLL then {s} else {})
  {
  }

  /** Inserting adds the new session to the long-poll ones exactly when it is long-poll. */
  twostate lemma InsertLongPoll(ss: SessionStore, new s: Session)
    requires Inserted(ss, s) && unchanged(old(ss.sessCache).Values)
    ensures ss.LongPollSessions() == old(ss.LongPollSessions()) + (if s.proto == LPOLL then {s} else {})
  {
    var id := s.sid;
    var added := if s.proto == LPOLL then {s} else {};
    forall x ensures x in ss.LongPollSessions() <==> x in old(ss.LongPollSessions()) + added {
      if x in ss.LongPollSessions() {
        var k :| k in ss.sessCache && ss.sessCache[k].proto == LPOLL && ss.sessCache[k] == x;
        if k != id {
          assert k in old(ss.sessCache) && old(ss.sessCache)[k] == x && old(ss.sessCache[k].proto) == LPOLL;
          assert x in old(ss.LongPollSessions());
        }
      }
      if x in old(ss.LongPollSessions()) {
        var k :| k in old(ss.sessCache) && old(ss.sessCache[k].proto) == LPOLL && old(ss.sessCache)[k] == x;
        assert k != id && ss.sessCache[k] == x && x.proto == LPOLL;
        assert x in ss.LongPollSessions();
      }
      if x in added {
        assert ss.sessCache[id] == x && x.proto == LPOLL;
      }
    }
  }

  /** Inserting keeps the object invariant. */
  twostate lemma InsertKeepsValid(ss: SessionStore, new s: Session)
    requires old(ss.Valid())
    requires Inserted(ss, s) && unchanged(old(ss.sessCache).Values)
    ensures ss.Valid()
  {
    InsertListed(ss, s);
    InsertLongPoll(ss, s);
  }

  /** Inserting files the new session's value and leaves every other image alone. */
  twostate lemma InsertCacheImage(ss: SessionStore, new s: Session)
    requires Inserted(ss, s) && unchanged(old(ss.sessCache).Values)
    ensures InfoMap(ss.sessCache) == old(InfoMap(ss.sessCache))[s.sid := s.Info()]
  {
    assert InfoMap(old(ss.sessCache)) == old(InfoMap(ss.sessCache)) by {
      forall k | k in old(ss.sessCache) ensures old(ss.sessCache)[k].Info() == old(ss.sessCache[k].Info()) { }
    }
    InfoMapUpdate(old(ss.sessCache), s.sid, s);
  }

  /** Inserting puts the new id in front of the listed ids exactly when the session is long-poll. */
  twostate lemma InsertLruImage(ss: SessionStore, new s: Session)
    requires Inserted(ss, s)
    ensures SidsOf(ss.lru) == (if s.proto == LPOLL then [s.sid] else []) + old(SidsOf(ss.lru))
  {
    var front := if s.proto == LPOLL then [s.sid] else [];
    var before := old(SidsOf(ss.lru));
    forall i | 0 <= i < |ss.lru| ensures SidsOf(ss.lru)[i] == (front + before)[i] {
      if i >= |front| {
        assert ss.lru[i] == old(ss.lru)[i - |front|];
      }
    }
  }

  /**
   * Inserting `s` has the abstract effect of `Register`. The request values
   * are `new` parameters: they hold no objects, so they need not have been
   * allocated in the old state.
   */
  twostate lemma InsertAbstract(ss: SessionStore, new s: Session, new conn: Conn, new sid: string, new generatedId: string, new now: Time)
    requires old(ss.Valid())
    requires Inserted(ss, s) && unchanged(old(ss.sessCache).Values)
    requires s.sid == SessionId(sid, generatedId)
    requires s.Info() == Created(s.sid, s.proto, s.ws, s.proto == LPOLL, now)
    requires conn.WebSocket? ==> s.proto == WEBSOCK && s.ws == Some(conn.ws)
    requires conn.ResponseWriter? ==> s.proto == LPOLL && s.ws == None
    requires !conn.Other?
    ensures Register(old(ss.Abstract()), conn, sid, generatedId, now) == Ok(Registered(ss.Abstract(), s.Info()))
  {
    InsertCacheImage(ss, s);
    InsertLruImage(ss, s);
  }

  /** `NewSession`'s insertion keeps the object invariant and has the abstract effect of `Register`. */
  twostate lemma InsertCorrect(ss: SessionStore, new s: Session, new conn: Conn, new sid: string, new generatedId: string, new now: Time)
    requires old(ss.Valid())
    requires Inserted(ss, s) && unchanged(old(ss.sessCache).Values)
    requires s.sid == SessionId(sid, generatedId)
    requires s.Info() == Created(s.sid, s.proto, s.ws, s.proto == LPOLL, now)
    requires conn.WebSocket? ==> s.proto == WEBSOCK && s.ws == Some(conn.ws)
    requires conn.ResponseWriter? ==> s.proto == LPOLL && s.ws == None
    requires !conn.Other?
    ensures ss.Valid()
    ensures Register(old(ss.Abstract()), conn, sid, generatedId, now) == Ok(Registered(ss.Abstract(), s.Info()))
  {
    InsertKeepsValid(ss, s);
    InsertAbstract(ss, s, conn, sid, generatedId, now);
  }
}
