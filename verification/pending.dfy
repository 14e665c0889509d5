/** The pending-authorization store of `OAuthState`: CSRF `state` value to the
    PKCE verifier and nonce issued with it (the anti-CSRF `state` of section
    10.12 of RFC 6749, paired with a code verifier of RFC 7636). Entries are
    consumed by a check-and-remove and are honoured for ten minutes. Time is
    an integer number of seconds; each operation is one atomic transition of
    the map. */
module Pending {
  import opened Wrappers

  /** `ChronoDuration::minutes(10)`, in seconds. */
  const MaxAge: int := 10 * 60

  datatype PendingAuth = PendingAuth(verifier: string, nonce: string, createdAt: int)

  type PendingMap = map<string, PendingAuth>

  /** The age test shared by `take_pending` and `cleanup_expired`: an entry
      exactly ten minutes old is still honoured. */
  predicate WithinMaxAge(p: PendingAuth, now: int) {
    now - p.createdAt <= MaxAge
  }

  /** `store_pending`: insert or overwrite the entry for `state`, stamped `now`. */
  function Store(m: PendingMap, state: string, verifier: string, nonce: string, now: int): (r: PendingMap)
    ensures state in r && r[state] == PendingAuth(verifier, nonce, now)
    ensures forall k :: k != state ==> (k in r <==> k in m)
    ensures forall k :: k != state && k in m ==> r[k] == m[k]
  {
    m[state := PendingAuth(verifier, nonce, now)]
  }

  /** `take_pending`: always remove the entry for `state`; hand back its
      verifier and nonce only when it existed and is at most ten minutes old. */
  function Take(m: PendingMap, state: string, now: int): (r: (PendingMap, Option<(string, string)>))
    ensures state !in r.0
    ensures forall k :: k != state ==> (k in r.0 <==> k in m)
    ensures forall k :: k != state && k in m ==> r.0[k] == m[k]
    ensures r.1.Some? <==> state in m && WithinMaxAge(m[state], now)
    ensures r.1.Some? ==> r.1.value == (m[state].verifier, m[state].nonce)
  {
    var rest := map k | k in m && k != state :: m[k];
    if state in m && WithinMaxAge(m[state], now) then (rest, Some((m[state].verifier, m[state].nonce)))
    else (rest, None)
  }

  /** The pending half of `cleanup_expired`: keep exactly the entries at most
      ten minutes old. */
  function Sweep(m: PendingMap, now: int): (r: PendingMap)
    ensures forall k :: k in r <==> k in m && WithinMaxAge(m[k], now)
    ensures forall k :: k in r ==> r[k] == m[k]
  {
    map k | k in m && WithinMaxAge(m[k], now) :: m[k]
  }

  /** A state is single-use: once taken, any later take of it fails, at any time. */
  lemma TakeIsSingleUse(m: PendingMap, state: string, now: int, later: int)
    ensures Take(Take(m, state, now).0, state, later).1.None?
  {
  }

  /** Storing and then taking within ten minutes returns what was stored and
      leaves the rest of the store as it was before the store. */
  lemma StoreThenTake(m: PendingMap, state: string, verifier: string, nonce: string, issued: int, now: int)
    requires now - issued <= MaxAge
    ensures Take(Store(m, state, verifier, nonce, issued), state, now).1 == Some((verifier, nonce))
    ensures Take(Store(m, state, verifier, nonce, issued), state, now).0 == map k | k in m && k != state :: m[k]
  {
  }

  /** An entry older than ten minutes is never honoured, even if no sweep has
      run, and the failed take still removes it. */
  lemma StaleEntryRefused(m: PendingMap, state: string, verifier: string, nonce: string, issued: int, now: int)
    requires now - issued > MaxAge
    ensures Take(Store(m, state, verifier, nonce, issued), state, now).1.None?
    ensures state !in Take(Store(m, state, verifier, nonce, issued), state, now).0
  {
  }

  /** A second sweep at the same instant removes nothing. */
  lemma SweepIdempotent(m: PendingMap, now: int)
    ensures Sweep(Sweep(m, now), now) == Sweep(m, now)
  {
  }

  /** Sweeping first never changes what a take at the same instant answers:
      the sweep and the at-use age check apply the same limit. */
  lemma SweepAgreesWithTake(m: PendingMap, state: string, now: int)
    ensures Take(Sweep(m, now), state, now).1 == Take(m, state, now).1
  {
  }
}
