/** The time-limited authorization gate of `src/utils/auth.js`.

    Each purpose owns two entries of the browser's key/value store:
    `<purpose>Auth`, which is `"true"` while a grant exists, and
    `<purpose>AuthTime`, the decimal text of the grant's time in
    milliseconds. The clock is the explicit parameter `now`. */
module Auth {
  import opened Wrappers
  import opened Decimal

  /** The two purposes the gate knows: opening the `best` bucket and deleting. */
  datatype Purpose = Gallery | Delete

  /** The text the source uses for a purpose (the `type` argument). */
  function Name(p: Purpose): string {
    match p
    case Gallery => "gallery"
    case Delete => "delete"
  }

  /** The configured secret of each purpose (the `PASSWORDS` table). */
  function Secret(p: Purpose): string {
    match p
    case Gallery => "password"
    case Delete => "delete123"
  }

  /** How long a grant lasts, in milliseconds (the `EXPIRATION_TIMES` table). */
  function Ttl(p: Purpose): (ms: int)
    ensures p == Gallery ==> ms == 15 * 60 * 1000
    ensures p == Delete ==> ms == 5 * 60 * 1000
  {
    match p
    case Gallery => 900 * 1000
    case Delete => 300 * 1000
  }

  /** `verifyPassword`: the exact comparison with the configured secret. */
  function VerifyPassword(p: Purpose, password: string): bool {
    password == Secret(p)
  }

  function FlagKey(p: Purpose): string {
    Name(p) + "Auth"
  }

  function TimeKey(p: Purpose): string {
    Name(p) + "AuthTime"
  }

  /** The entries a purpose owns. */
  function Keys(p: Purpose): set<string> {
    {FlagKey(p), TimeKey(p)}
  }

  type Storage = map<string, string>

  /** The text `parseInt` is applied to: the stored time, or `"0"` when the
      entry is missing or empty. */
  function TimeText(s: Storage, p: Purpose): string {
    if TimeKey(p) in s && s[TimeKey(p)] != "" then s[TimeKey(p)] else "0"
  }

  predicate Flagged(s: Storage, p: Purpose) {
    FlagKey(p) in s && s[FlagKey(p)] == "true"
  }

  /** `currentTime - authTime > expirationTime`. A stored time that does not
      parse is `NaN`, and every comparison with `NaN` is false. */
  predicate Expired(s: Storage, p: Purpose, now: int) {
    match ParseInt(TimeText(s, p))
    case None => false
    case Some(t) => now - t > Ttl(p)
  }

  /** What `checkAuth` answers. */
  predicate Authorized(s: Storage, p: Purpose, now: int) {
    Flagged(s, p) && !Expired(s, p, now)
  }

  /** The store after `checkAuth`: an expired grant is purged. */
  function AfterCheck(s: Storage, p: Purpose, now: int): Storage {
    if Flagged(s, p) && Expired(s, p, now) then s - Keys(p) else s
  }

  /** The store after `setAuth` at time `now`. */
  function Granted(s: Storage, p: Purpose, now: int): Storage {
    s[FlagKey(p) := "true"][TimeKey(p) := IntToString(now)]
  }

  /** The store after `clearAuth`. */
  function Revoked(s: Storage, p: Purpose): Storage {
    s - Keys(p)
  }

  /** The browser store (`localStorage`) as far as the gate uses it. */
  class Store {
    var items: Storage

    constructor (initial: Storage)
      ensures items == initial
    {
      items := initial;
    }

    /** `checkAuth(type)` at time `now`. */
    method CheckAuth(p: Purpose, now: int) returns (ok: bool)
      modifies this
      ensures ok == Authorized(old(items), p, now)
      ensures items == AfterCheck(old(items), p, now)
      ensures !Flagged(old(items), p) ==> !ok && items == old(items)
      ensures ok ==> items == old(items)
    {
      var isAuthenticated := FlagKey(p) in items && items[FlagKey(p)] == "true";
      if !isAuthenticated {
        return false;
      }
      var authTime := ParseInt(TimeText(items, p));
      if authTime.Some? && now - authTime.value > Ttl(p) {
        items := items - {FlagKey(p)};
        items := items - {TimeKey(p)};
        return false;
      }
      return true;
    }

    /** `setAuth(type)` at time `now`. */
    method SetAuth(p: Purpose, now: int)
      modifies this
      ensures items == Granted(old(items), p, now)
    {
      items := items[FlagKey(p) := "true"];
      items := items[TimeKey(p) := IntToString(now)];
    }

    /** `clearAuth(type)`. */
    method ClearAuth(p: Purpose)
      modifies this
      ensures items == Revoked(old(items), p)
    {
      items := items - {FlagKey(p)};
      items := items - {TimeKey(p)};
    }
  }

  /** A secret unlocks its own purpose and no other. */
  lemma SecretUnlocksOnlyItsPurpose(p: Purpose, q: Purpose)
    ensures VerifyPassword(p, Secret(q)) <==> p == q
  {
    if p != q {
      assert |Secret(p)| != |Secret(q)|;
    }
  }

  /** What a grant's stored time reads back as. */
  lemma {:induction false} GrantedTime(s: Storage, p: Purpose, t: int)
    ensures ParseInt(TimeText(Granted(s, p, t), p)) == Some(t)
  {
    ParseIntOfIntToString(t);
  }

  /** After `setAuth` at `t`, `checkAuth` at `now` succeeds exactly while
      `now - t <= Ttl(p)`, and a successful check leaves the store as it was. */
  lemma GrantThenCheck(s: Storage, p: Purpose, t: int, now: int)
    ensures Authorized(Granted(s, p, t), p, now) <==> now - t <= Ttl(p)
    ensures now - t <= Ttl(p) ==> AfterCheck(Granted(s, p, t), p, now) == Granted(s, p, t)
  {
    GrantedTime(s, p, t);
  }

  /** The limit itself is still inside the window; one millisecond later is not. */
  lemma GrantBoundary(s: Storage, p: Purpose, t: int)
    ensures Authorized(Granted(s, p, t), p, t + Ttl(p))
    ensures !Authorized(Granted(s, p, t), p, t + Ttl(p) + 1)
    ensures AfterCheck(Granted(s, p, t), p, t + Ttl(p) + 1) == Granted(s, p, t) - Keys(p)
  {
    GrantThenCheck(s, p, t, t + Ttl(p));
    GrantThenCheck(s, p, t, t + Ttl(p) + 1);
  }

  /** An expired check removes both entries, so every later check fails
      and leaves the store alone. */
  lemma ExpiredCheckPurges(s: Storage, p: Purpose, now: int, later: int)
    requires Flagged(s, p) && Expired(s, p, now)
    ensures !Authorized(s, p, now)
    ensures FlagKey(p) !in AfterCheck(s, p, now) && TimeKey(p) !in AfterCheck(s, p, now)
    ensures !Authorized(AfterCheck(s, p, now), p, later)
    ensures AfterCheck(AfterCheck(s, p, now), p, later) == AfterCheck(s, p, now)
  {
  }

  /** Repeating a check at the same time gives the same answer and the same store. */
  lemma CheckIdempotent(s: Storage, p: Purpose, now: int)
    ensures Authorized(AfterCheck(s, p, now), p, now) == Authorized(s, p, now)
    ensures AfterCheck(AfterCheck(s, p, now), p, now) == AfterCheck(s, p, now)
  {
  }

  /** After `clearAuth`, no check succeeds, at any time. */
  lemma RevokedNeverAuthorized(s: Storage, p: Purpose, now: int)
    ensures !Authorized(Revoked(s, p), p, now)
    ensures AfterCheck(Revoked(s, p), p, now) == Revoked(s, p)
  {
  }

  /** The two purposes own disjoint entries. */
  lemma KeysDisjoint(p: Purpose, q: Purpose)
    requires p != q
    ensures Keys(p) !! Keys(q)
    ensures FlagKey(p) != TimeKey(p) && FlagKey(q) != TimeKey(q)
  {
    assert |FlagKey(Gallery)| == 11 && |TimeKey(Gallery)| == 15;
    assert |FlagKey(Delete)| == 10 && |TimeKey(Delete)| == 14;
  }

  /** Two stores that agree on a purpose's entries give that purpose the same answer. */
  predicate SameEntries(s: Storage, s': Storage, p: Purpose) {
    forall k :: k in Keys(p) ==> (k in s <==> k in s') && (k in s ==> s[k] == s'[k])
  }

  lemma {:induction false} SameEntriesSameAnswer(s: Storage, s': Storage, p: Purpose, now: int)
    requires SameEntries(s, s', p)
    ensures Authorized(s, p, now) == Authorized(s', p, now)
  {
    assert FlagKey(p) in Keys(p) && TimeKey(p) in Keys(p);
    assert TimeText(s, p) == TimeText(s', p);
  }

  /** `setAuth`, `clearAuth` and `checkAuth` on one purpose leave the other
      purpose's entries, and hence its answer, as they were. */
  lemma OtherPurposeUntouched(s: Storage, p: Purpose, q: Purpose, t: int, now: int)
    requires p != q
    ensures SameEntries(s, Granted(s, p, t), q)
    ensures SameEntries(s, Revoked(s, p), q)
    ensures SameEntries(s, AfterCheck(s, p, t), q)
    ensures Authorized(Granted(s, p, t), q, now) == Authorized(s, q, now)
    ensures Authorized(Revoked(s, p), q, now) == Authorized(s, q, now)
    ensures Authorized(AfterCheck(s, p, t), q, now) == Authorized(s, q, now)
  {
    KeysDisjoint(p, q);
    SameEntriesSameAnswer(s, Granted(s, p, t), q, now);
    SameEntriesSameAnswer(s, Revoked(s, p), q, now);
    SameEntriesSameAnswer(s, AfterCheck(s, p, t), q, now);
  }

  /** A flag whose time entry is missing or empty reads as granted at time 0. */
  lemma MissingTimeReadsAsZero(s: Storage, p: Purpose, now: int)
    requires Flagged(s, p)
    requires TimeKey(p) !in s || s[TimeKey(p)] == ""
    ensures Authorized(s, p, now) <==> now <= Ttl(p)
  {
    ParseIntOfIntToString(0);
  }

  /** A flag whose time entry does not start with a number never expires:
      `NaN` compares false with everything. */
  lemma UnparsableTimeNeverExpires(s: Storage, p: Purpose, now: int)
    requires Flagged(s, p)
    requires ParseInt(TimeText(s, p)) == None
    ensures Authorized(s, p, now)
    ensures AfterCheck(s, p, now) == s
  {
  }
}
