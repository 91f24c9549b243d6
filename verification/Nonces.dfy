/** Encrypted sessions and the replay cache: sessionStore.ts, and the timestamp check of decrypt.ts. */
module Nonces {

  const IDLE_TTL_MS := 900_000
  const HARD_TTL_MS := 3_600_000
  const NONCE_WINDOW_MS := 60_000
  const TIMESTAMP_WINDOW_MS := 60_000
  const MAX_SESSIONS := 10_000
  const MAX_NONCES := 10_000

  datatype Session = Session(createdAt: int, lastUsedAt: int, seen: map<string, int>)

  predicate Expired(e: Session, now: int) {
    now - e.lastUsedAt > IDLE_TTL_MS || now - e.createdAt > HARD_TTL_MS
  }

  predicate Fresh(timestamp: int, now: int) {
    -TIMESTAMP_WINDOW_MS <= now - timestamp <= TIMESTAMP_WINDOW_MS
  }

  /** The cache without the entries that have left the window. */
  function Pruned(seen: map<string, int>, now: int): map<string, int> {
    map n | n in seen && now - seen[n] <= NONCE_WINDOW_MS :: seen[n]
  }

  /** Whether a nonce is recorded, and the cache afterwards. */
  function Recorded(seen: map<string, int>, nonce: string, timestamp: int, now: int): (map<string, int>, bool) {
    var kept := Pruned(seen, now);
    if nonce in kept || |kept| >= MAX_NONCES then (kept, false) else (kept[nonce := timestamp], true)
  }

  class SessionStore {
    var sessions: map<string, Session>
    /** For each session, the requests that reached it since it was opened. */
    ghost var requests: map<string, seq<Request>>

    /** Every cache is the one its own session's requests lead to, whatever
      * other sessions did in between. */
    ghost predicate Valid()
      reads this
    {
      && requests.Keys == sessions.Keys
      && forall id :: id in sessions ==> sessions[id].seen == Cache(requests[id])
    }

    constructor ()
      ensures Valid() && sessions == map[]
    {
      sessions := map[];
      requests := map[];
    }

    /** Drops a session that was used least recently. */
    method EvictOldest() returns (victim: string)
      requires Valid() && sessions != map[]
      modifies this
      ensures Valid() && requests == old(requests) - {victim}
      ensures victim in old(sessions) && sessions == old(sessions) - {victim}
      ensures forall id :: id in old(sessions) ==> old(sessions)[victim].lastUsedAt <= old(sessions)[id].lastUsedAt
    {
      victim :| victim in sessions;
      var todo := sessions.Keys - {victim};
      while todo != {}
        invariant todo <= sessions.Keys && victim in sessions
        invariant forall id :: id in sessions && id !in todo ==> sessions[victim].lastUsedAt <= sessions[id].lastUsedAt
        decreases todo
      {
        var id :| id in todo;
        if sessions[id].lastUsedAt < sessions[victim].lastUsedAt {
          victim := id;
        }
        todo := todo - {id};
      }
      sessions := sessions - {victim};
      requests := requests - {victim};
    }

    /** Opens a session with an empty cache unless the id is taken; when the
      * store is full the least recently used session makes room. */
    method SetSessionKey(id: string, now: int) returns (ok: bool)
      requires Valid()
      modifies this
      ensures Valid()
      ensures ok <==> id !in old(sessions)
      ensures !ok ==> sessions == old(sessions)
      ensures ok && |old(sessions)| < MAX_SESSIONS ==> sessions == old(sessions)[id := Session(now, now, map[])]
      ensures ok && |old(sessions)| >= MAX_SESSIONS ==>
                exists v :: v in old(sessions)
                            && (forall k :: k in old(sessions) ==>
                                  old(sessions)[v].lastUsedAt <= old(sessions)[k].lastUsedAt)
                            && sessions == (old(sessions) - {v})[id := Session(now, now, map[])]
    {
      if id in sessions {
        return false;
      }
      if |sessions| >= MAX_SESSIONS {
        var victim := EvictOldest();
      }
      sessions := sessions[id := Session(now, now, map[])];
      requests := requests[id := []];
      return true;
    }

    /** Marks a live session as used; an expired one is deleted with its cache. */
    method GetSessionKey(id: string, now: int) returns (ok: bool)
      requires Valid()
      modifies this
      ensures Valid()
      ensures requests == if ok then old(requests) else old(requests) - {id}
      ensures ok <==> id in old(sessions) && !Expired(old(sessions)[id], now)
      ensures ok ==> sessions == old(sessions)[id := old(sessions)[id].(lastUsedAt := now)]
      ensures !ok ==> sessions == old(sessions) - {id}
    {
      if id !in sessions {
        assert sessions - {id} == sessions && requests - {id} == requests;
        return false;
      }
      if Expired(sessions[id], now) {
        sessions := sessions - {id};
        requests := requests - {id};
        return false;
      }
      sessions := sessions[id := sessions[id].(lastUsedAt := now)];
      return true;
    }

    /** Prunes entry by entry, then records the nonce unless it is present or the cache is full. */
    method RecordNonce(id: string, nonce: string, timestamp: int, now: int) returns (ok: bool)
      modifies this`sessions
      ensures id !in old(sessions) ==> !ok && sessions == old(sessions)
      ensures id in old(sessions) ==>
                && var r := Recorded(old(sessions)[id].seen, nonce, timestamp, now);
                && ok == r.1
                && sessions == old(sessions)[id := old(sessions)[id].(seen := r.0)]
    {
      if id !in sessions {
        return false;
      }
      var entry := sessions[id];
      var seen := entry.seen;
      var todo := seen.Keys;
      while todo != {}
        invariant todo <= entry.seen.Keys
        invariant seen == map n | n in entry.seen
                  && (n in todo || now - entry.seen[n] <= NONCE_WINDOW_MS) :: entry.seen[n]
        decreases todo
      {
        var n :| n in todo;
        if now - entry.seen[n] > NONCE_WINDOW_MS {
          seen := seen - {n};
        }
        todo := todo - {n};
      }
      assert seen == Pruned(entry.seen, now);
      ok := nonce !in seen && |seen| < MAX_NONCES;
      if ok {
        seen := seen[nonce := timestamp];
      }
      sessions := sessions[id := entry.(seen := seen)];
    }

    /** The timestamp window, then the nonce. */
    method CheckRequest(id: string, nonce: string, timestamp: int, now: int) returns (ok: bool)
      requires id in sessions
      modifies this`sessions
      ensures var r := Step(old(sessions)[id].seen, Request(nonce, timestamp, now));
              ok == r.1 && sessions == old(sessions)[id := old(sessions)[id].(seen := r.0)]
    {
      hide Recorded;
      if now - timestamp > TIMESTAMP_WINDOW_MS || timestamp - now > TIMESTAMP_WINDOW_MS {
        return false;
      }
      ok := RecordNonce(id, nonce, timestamp, now);
    }

    /** The same of a live session, as one more request of its life. */
    method Admit(id: string, nonce: string, timestamp: int, now: int) returns (ok: bool)
      requires Valid() && id in sessions
      modifies this
      ensures Valid()
      ensures var r := Step(old(sessions)[id].seen, Request(nonce, timestamp, now));
              ok == r.1 && sessions == old(sessions)[id := old(sessions)[id].(seen := r.0)]
      ensures var earlier := old(requests)[id];
              && requests == old(requests)[id := earlier + [Request(nonce, timestamp, now)]]
              && (ok <==> Accepted(requests[id], |earlier|))
              && (ok && Increasing(requests[id]) ==> FirstAccepted(requests[id], |earlier|))
    {
      hide Cache, Step, Accepted, Increasing, FirstAccepted;
      ghost var log := requests[id] + [Request(nonce, timestamp, now)];
      NextRequest(requests[id], Request(nonce, timestamp, now));
      requests := requests[id := log];
      ok := CheckRequest(id, nonce, timestamp, now);
    }

    /** A request of a session is accepted: live session, fresh timestamp, new
      * nonce. No pair is accepted twice in one session's life. */
    method Accept(id: string, nonce: string, timestamp: int, now: int) returns (ok: bool)
      requires Valid()
      modifies this
      ensures Valid()
      ensures id in old(sessions) && !Expired(old(sessions)[id], now) ==>
                && var r := Step(old(sessions)[id].seen, Request(nonce, timestamp, now));
                && ok == r.1
                && sessions == old(sessions)[id := old(sessions)[id].(lastUsedAt := now, seen := r.0)]
      ensures !(id in old(sessions) && !Expired(old(sessions)[id], now)) ==>
                !ok && sessions == old(sessions) - {id} && requests == old(requests) - {id}
      ensures id in old(sessions) && !Expired(old(sessions)[id], now) ==>
                var earlier := old(requests)[id];
                && requests == old(requests)[id := earlier + [Request(nonce, timestamp, now)]]
                && (ok <==> Accepted(requests[id], |earlier|))
                && (ok && Increasing(requests[id]) ==> FirstAccepted(requests[id], |earlier|))
    {
      hide Cache, Step, Accepted, Increasing, FirstAccepted, Expired;
      ok := GetSessionKey(id, now);
      if ok {
        ok := Admit(id, nonce, timestamp, now);
      }
    }
  }

  // ---------- the life of one session ----------

  datatype Request = Request(nonce: string, timestamp: int, now: int)

  /** The cache after one request to a live session, and whether it was accepted. */
  function Step(seen: map<string, int>, r: Request): (map<string, int>, bool) {
    if !Fresh(r.timestamp, r.now) then (seen, false) else Recorded(seen, r.nonce, r.timestamp, r.now)
  }

  /** The cache after a sequence of requests, empty at first. */
  function Cache(requests: seq<Request>): map<string, int> {
    if |requests| == 0 then map[] else Step(Cache(requests[..|requests| - 1]), requests[|requests| - 1]).0
  }

  predicate Accepted(requests: seq<Request>, k: nat)
    requires k < |requests|
  {
    Step(Cache(requests[..k]), requests[k]).1
  }

  /** No earlier request with the same pair was accepted. */
  predicate FirstAccepted(requests: seq<Request>, k: nat)
    requires k < |requests|
  {
    forall i ::
      0 <= i < k && requests[i].nonce == requests[k].nonce && requests[i].timestamp == requests[k].timestamp ==>
      !Accepted(requests, i)
  }

  /** One request more; accepted only if its pair never was. */
  lemma NextRequest(requests: seq<Request>, r: Request)
    ensures var more := requests + [r];
            && Cache(more) == Step(Cache(requests), r).0
            && (Accepted(more, |requests|) <==> Step(Cache(requests), r).1)
            && (Accepted(more, |requests|) && Increasing(more) ==> FirstAccepted(more, |requests|))
  {
    var more := requests + [r];
    assert more[..|requests|] == requests;
    if Accepted(more, |requests|) && Increasing(more) {
      forall i | 0 <= i < |requests| && requests[i].nonce == r.nonce && requests[i].timestamp == r.timestamp
        ensures !Accepted(more, i)
      {
        ReplayRejected(more, i, |requests|);
      }
    }
  }

  predicate Increasing(requests: seq<Request>) {
    forall i, j :: 0 <= i < j < |requests| ==> requests[i].now <= requests[j].now
  }

  /** What was accepted is still cached, or too old ever to be accepted again. */
  lemma {:induction false} RememberedOrStale(requests: seq<Request>, i: nat)
    requires Increasing(requests) && i < |requests| && Accepted(requests, i)
    ensures var r := requests[i];
            || (r.nonce in Cache(requests) && Cache(requests)[r.nonce] == r.timestamp)
            || requests[|requests| - 1].now - r.timestamp > NONCE_WINDOW_MS
    decreases |requests|
  {
    var n := |requests| - 1;
    if i < n {
      assert requests[..n][..i] == requests[..i];
      RememberedOrStale(requests[..n], i);
    }
  }

  /** Within one session's life a (nonce, timestamp) pair is accepted at most
    * once, however long the run and however much is pruned in between. */
  lemma ReplayRejected(requests: seq<Request>, i: nat, j: nat)
    requires Increasing(requests) && i < j < |requests|
    requires requests[i].nonce == requests[j].nonce && requests[i].timestamp == requests[j].timestamp
    ensures !(Accepted(requests, i) && Accepted(requests, j))
  {
    if Accepted(requests, i) {
      assert requests[..j][..i] == requests[..i];
      RememberedOrStale(requests[..j], i);
    }
  }

  /** The nonces of the accepted requests whose timestamps are at most a minute
    * before `now`. */
  function LiveNonces(requests: seq<Request>, now: int): set<string> {
    set i | 0 <= i < |requests| && Accepted(requests, i) && now - requests[i].timestamp <= 60_000 :: requests[i].nonce
  }

  lemma OneMoreLive(requests: seq<Request>, r: Request, now: int)
    ensures LiveNonces(requests + [r], now)
            == LiveNonces(requests, now)
               + (if Step(Cache(requests), r).1 && now - r.timestamp <= 60_000 then {r.nonce} else {})
  {
    var more := requests + [r];
    NextRequest(requests, r);
    hide Step, Cache, Accepted;
    forall i | 0 <= i < |requests| ensures Accepted(more, i) == Accepted(requests, i) && more[i] == requests[i] {
      EarlierAccepted(requests, r, i);
    }
    forall n ensures n in LiveNonces(more, now) <==>
                       n in LiveNonces(requests, now) || (Accepted(more, |requests|) && now - r.timestamp <= 60_000
                                                          && n == r.nonce)
    {
      if n in LiveNonces(requests, now) {
        var i :| 0 <= i < |requests| && Accepted(requests, i) && now - requests[i].timestamp <= 60_000
                 && requests[i].nonce == n;
        assert Accepted(more, i) && more[i].nonce == n;
      }
      if Accepted(more, |requests|) && now - r.timestamp <= 60_000 && n == r.nonce {
        assert more[|requests|].nonce == n;
      }
    }
  }

  lemma EarlierAccepted(requests: seq<Request>, r: Request, i: nat)
    requires i < |requests|
    ensures Accepted(requests + [r], i) == Accepted(requests, i)
  {
    assert (requests + [r])[..i] == requests[..i];
  }

  /** What the cache remembers, once pruned: exactly the live nonces. */
  lemma {:induction false} CacheIsLive(requests: seq<Request>, now: int)
    requires Increasing(requests) && (|requests| > 0 ==> requests[|requests| - 1].now <= now)
    ensures Pruned(Cache(requests), now).Keys == LiveNonces(requests, now)
  {
    if |requests| > 0 {
      var earlier, r := requests[..|requests| - 1], requests[|requests| - 1];
      CacheIsLive(earlier, now);
      assert requests == earlier + [r];
      hide Cache, Step, Pruned, LiveNonces, Accepted, Increasing;
      NextRequest(earlier, r);
      OneMoreLive(earlier, r, now);
      StepPruned(Cache(earlier), r, now);
    }
  }

  lemma StepPruned(seen: map<string, int>, r: Request, now: int)
    requires r.now <= now
    ensures var (after, accepted) := Step(seen, r);
            Pruned(after, now).Keys
            == Pruned(seen, now).Keys + (if accepted && now - r.timestamp <= 60_000 then {r.nonce} else {})
  {
  }

  /** A request is accepted exactly when its timestamp is within a minute of the
    * clock, no accepted request with its nonce is still live, and fewer than ten
    * thousand nonces are. */
  lemma AcceptedExactlyWhen(requests: seq<Request>, k: nat)
    requires Increasing(requests) && k < |requests|
    ensures var r := requests[k];
            Accepted(requests, k) <==>
              && -60_000 <= r.now - r.timestamp <= 60_000
              && r.nonce !in LiveNonces(requests[..k], r.now) && |LiveNonces(requests[..k], r.now)| < 10_000
  {
    CacheIsLive(requests[..k], requests[k].now);
    KeysCount(Pruned(Cache(requests[..k]), requests[k].now));
    hide Cache, LiveNonces, Increasing, Pruned;
  }

  lemma KeysCount(m: map<string, int>)
    ensures |m| == |m.Keys|
  {
  }

  lemma PruningShrinks(seen: map<string, int>, now: int)
    ensures |Pruned(seen, now)| <= |seen|
  {
    KeysBound(Pruned(seen, now), seen);
  }

  lemma {:induction false} KeysBound(a: map<string, int>, b: map<string, int>)
    requires a.Keys <= b.Keys
    ensures |a| <= |b|
    decreases |a|
  {
    if a != map[] {
      var k :| k in a;
      KeysBound(a - {k}, b - {k});
    }
  }

  /** The cache never outgrows its cap. */
  lemma {:induction false} CacheBounded(requests: seq<Request>)
    ensures |Cache(requests)| <= MAX_NONCES
  {
    if |requests| > 0 {
      var n := |requests| - 1;
      CacheBounded(requests[..n]);
      PruningShrinks(Cache(requests[..n]), requests[n].now);
    }
  }
}
