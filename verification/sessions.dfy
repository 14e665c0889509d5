/** The session store of `OAuthState`: session id (the cookie value) to the
    signed-in user, an optional expiry instant and the raw provider profile.
    Its two read paths differ on purpose: the snapshot ignores expiry, the
    user-id lookup that authorises requests enforces it. Time is an integer
    number of seconds; each operation is one atomic transition of the map. */
module Sessions {
  import opened Wrappers
  import opened Identity
  import Json
  import opened Chrono

  datatype AuthSession = AuthSession(user: OAuthUser, expiresAt: Option<int>, rawProfile: Json.Value)

  /** What `/auth/me` reports (`SessionSnapshot`). */
  datatype SessionSnapshot = SessionSnapshot(user: OAuthUser, expiresAt: Option<int>, profile: Json.Value)

  type SessionMap = map<string, AuthSession>

  /** `session_user_id`'s test: no expiry, or `now` not past it (`now > expires_at`
      rejects, so the expiry instant itself is still accepted). */
  predicate Accepted(s: AuthSession, now: int) {
    s.expiresAt.None? || now <= s.expiresAt.value
  }

  /** `cleanup_expired`'s test: no expiry, or an expiry strictly after `now`. */
  predicate Unexpired(s: AuthSession, now: int) {
    s.expiresAt.None? || s.expiresAt.value > now
  }

  /** The expiry `create_session` computes from the token lifetime: `now + d`
      when a lifetime is given and chrono can represent it, else no expiry. */
  function ExpiryFor(expiresIn: Option<nat>, now: int): (r: Option<int>)
    ensures r.Some? <==> expiresIn.Some? && expiresIn.value <= MaxDeltaSeconds
    ensures r.Some? ==> r.value - now == expiresIn.value
  {
    match expiresIn
    case Some(d) => if d <= MaxDeltaSeconds then Some(now + d) else None
    case None => None
  }

  /** `create_session` under a fresh id: exactly one new entry, all others kept. */
  function Create(m: SessionMap, id: string, user: OAuthUser, expiresIn: Option<nat>, profile: Json.Value, now: int)
    : (r: SessionMap)
    requires id !in m
    ensures id in r && r[id].user == user && r[id].rawProfile == profile
    ensures r[id].expiresAt == ExpiryFor(expiresIn, now)
    ensures |r| == |m| + 1
    ensures forall k :: k in r <==> k == id || k in m
    ensures forall k :: k in m ==> r[k] == m[k]
  {
    m[id := AuthSession(user, ExpiryFor(expiresIn, now), profile)]
  }

  /** `remove_session`: delete that key; an unknown key is not an error. */
  function Remove(m: SessionMap, id: string): (r: SessionMap)
    ensures id !in r
    ensures forall k :: k != id ==> (k in r <==> k in m)
    ensures forall k :: k != id && k in m ==> r[k] == m[k]
  {
    map k | k in m && k != id :: m[k]
  }

  /** `session_snapshot`: the stored record, with no expiry check. */
  function Snapshot(m: SessionMap, id: string): (r: Option<SessionSnapshot>)
    ensures r.Some? <==> id in m
    ensures r.Some? ==> r.value.user == m[id].user
    ensures r.Some? ==> r.value.expiresAt == m[id].expiresAt && r.value.profile == m[id].rawProfile
  {
    if id in m then Some(SessionSnapshot(m[id].user, m[id].expiresAt, m[id].rawProfile)) else None
  }

  /** `session_user_id` once the cookie has been read: nothing without a
      cookie, for an unknown id, or after the expiry instant; the user id otherwise. */
  function UserId(m: SessionMap, cookie: Option<string>, now: int): (r: Option<string>)
    ensures r.Some? <==> cookie.Some? && cookie.value in m && Accepted(m[cookie.value], now)
    ensures r.Some? ==> r.value == m[cookie.value].user.id
  {
    match cookie
    case None => None
    case Some(id) =>
      if id in m && Accepted(m[id], now) then Some(m[id].user.id) else None
  }

  /** The session half of `cleanup_expired`: keep a session iff it has no
      expiry or expires strictly after `now`. */
  function Sweep(m: SessionMap, now: int): (r: SessionMap)
    ensures forall k :: k in r <==> k in m && Unexpired(m[k], now)
    ensures forall k :: k in r ==> r[k] == m[k]
  {
    map k | k in m && Unexpired(m[k], now) :: m[k]
  }

  /** Removing is idempotent. */
  lemma RemoveIdempotent(m: SessionMap, id: string)
    ensures Remove(Remove(m, id), id) == Remove(m, id)
  {
  }

  /** A second sweep at the same instant removes nothing. */
  lemma SweepIdempotent(m: SessionMap, now: int)
    ensures Sweep(Sweep(m, now), now) == Sweep(m, now)
  {
  }

  /** A session created without a lifetime (or with one chrono cannot hold)
      is accepted at every instant until it is removed. */
  lemma UnboundedSessionNeverExpires(m: SessionMap, id: string, user: OAuthUser, expiresIn: Option<nat>,
                                     profile: Json.Value, created: int, now: int)
    requires id !in m
    requires expiresIn.None? || expiresIn.value > MaxDeltaSeconds
    ensures UserId(Create(m, id, user, expiresIn, profile, created), Some(id), now) == Some(user.id)
  {
  }

  /** A session created at `created` with lifetime `d` is accepted at every
      instant up to and including `created + d` and refused at every later one. */
  lemma BoundedSessionLifetime(m: SessionMap, id: string, user: OAuthUser, d: nat,
                               profile: Json.Value, created: int, now: int)
    requires id !in m && d <= MaxDeltaSeconds
    ensures now <= created + d ==> UserId(Create(m, id, user, Some(d), profile, created), Some(id), now) == Some(user.id)
    ensures now > created + d ==> UserId(Create(m, id, user, Some(d), profile, created), Some(id), now).None?
  {
  }

  /** The snapshot still shows a session the user-id lookup refuses as expired. */
  lemma SnapshotIgnoresExpiry(m: SessionMap, id: string, now: int)
    requires id in m && !Accepted(m[id], now)
    ensures UserId(m, Some(id), now).None?
    ensures Snapshot(m, id).Some?
  {
  }

  /** The boundary instant: at `now == expires_at` the lookup still accepts
      the session, yet the sweep removes it. */
  lemma ExpiryInstantAsymmetry(m: SessionMap, id: string, now: int)
    requires id in m && m[id].expiresAt == Some(now)
    ensures UserId(m, Some(id), now) == Some(m[id].user.id)
    ensures id !in Sweep(m, now)
  {
  }

  /** Away from the boundary instant the sweep and the lookup agree: sweeping
      changes no lookup answer unless some session expires exactly at `now`. */
  lemma SweepPreservesLookups(m: SessionMap, cookie: Option<string>, now: int)
    requires forall k :: k in m ==> m[k].expiresAt != Some(now)
    ensures UserId(Sweep(m, now), cookie, now) == UserId(m, cookie, now)
  {
  }
}
