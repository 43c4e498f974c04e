/** Access-token revocation, refresh tokens, and the cleanup that runs beside them. */
module Tokens {
  import opened Wrappers
  import LoginLimiter

  const REFRESH_TTL: int := 30 * 24 * 3600

  /** The claims of a signed access token; a token may carry no jti. */
  datatype Token = Token(jti: string, user: string, exp: int)

  datatype Refresh = Refresh(user: string, expires: int, revokedAt: Option<int>)

  /** The two tables: revoked jtis with their expiry, and refresh tokens by hash. */
  datatype Tables = Tables(revoked: map<string, int>, refresh: map<string, Refresh>)

  // ---- Single statements -----------------------------------------------------------------------------------

  /** `INSERT ... ON CONFLICT DO NOTHING`. */
  function Revoked(s: Tables, jti: string, expires: int): Tables {
    if jti in s.revoked then s else s.(revoked := s.revoked[jti := expires])
  }

  /** The hash is unique: a second insert fails. */
  function Created(s: Tables, hash: string, user: string, expires: int): Tables {
    if hash in s.refresh then s else s.(refresh := s.refresh[hash := Refresh(user, expires, None)])
  }

  function Mark(r: Refresh, now: int): Refresh { if r.revokedAt.None? then r.(revokedAt := Some(now)) else r }

  function RefreshRevoked(s: Tables, hash: string, now: int): Tables {
    if hash in s.refresh then s.(refresh := s.refresh[hash := Mark(s.refresh[hash], now)]) else s
  }

  function AllRevoked(s: Tables, user: string, now: int): Tables {
    s.(refresh := map h | h in s.refresh :: if s.refresh[h].user == user then Mark(s.refresh[h], now) else s.refresh[h])
  }

  /** The two DELETEs of `Cleanup`; a failing first one skips the second. */
  function Cleaned(s: Tables, now: int, deletes: nat): Tables {
    Tables(
      if deletes == 0 then s.revoked else map j | j in s.revoked && s.revoked[j] >= now :: s.revoked[j],
      if deletes <= 1 then s.refresh else map h | h in s.refresh && s.refresh[h].expires >= now :: s.refresh[h])
  }

  /** `ValidateRefreshToken`: the owner of a token that exists, has not expired and is not revoked. */
  function Validate(s: Tables, hash: string, now: int): Option<string> {
    if hash in s.refresh && s.refresh[hash].expires > now && s.refresh[hash].revokedAt.None? then Some(s.refresh[hash].user)
    else None
  }

  /** `JWTAuth` for a token whose signature is good; lookups that fail or find no user refuse it. */
  function Authorize(s: Tables, tok: Token, now: int, revocationsUp: bool, userFound: bool): Option<string> {
    if now >= tok.exp then None
    else if tok.jti != "" && (!revocationsUp || tok.jti in s.revoked) then None
    else if userFound then Some(tok.user)
    else None
  }

  // ---- The store and the handlers --------------------------------------------------------------------------

  class TokenStore {
    var revoked: map<string, int>
    var refresh: map<string, Refresh>

    function State(): Tables
      reads this
    {
      Tables(revoked, refresh)
    }

    constructor ()
      ensures State() == Tables(map[], map[])
    {
      revoked, refresh := map[], map[];
    }

    method Revoke(jti: string, expires: int, up: bool) returns (ok: bool)
      modifies this
      ensures ok == up && State() == if ok then Revoked(old(State()), jti, expires) else old(State())
      ensures revoked == if up && jti !in old(revoked) then old(revoked)[jti := expires] else old(revoked)
    {
      if up && jti !in revoked { revoked := revoked[jti := expires]; }
      ok := up;
    }

    method Cleanup(now: int, firstUp: bool, secondUp: bool) returns (ok: bool)
      modifies this
      ensures ok == (firstUp && secondUp)
      ensures State() == Cleaned(old(State()), now, if !firstUp then 0 else if !secondUp then 1 else 2)
      ensures forall j :: j in revoked <==> j in old(revoked) && (firstUp ==> old(revoked)[j] >= now)
      ensures forall h :: h in refresh <==> h in old(refresh) && (firstUp && secondUp ==> old(refresh)[h].expires >= now)
      ensures (forall j :: j in revoked ==> revoked[j] == old(revoked)[j]) && forall h :: h in refresh ==> refresh[h] == old(refresh)[h]
    {
      if !firstUp { return false; }
      revoked := map j | j in revoked && revoked[j] >= now :: revoked[j];
      if !secondUp { return false; }
      refresh := map h | h in refresh && refresh[h].expires >= now :: refresh[h];
      ok := true;
    }

    method CreateRefreshToken(user: string, hash: string, expires: int, up: bool) returns (ok: bool)
      modifies this
      ensures ok == (up && hash !in old(refresh))
      ensures State() == if up then Created(old(State()), hash, user, expires) else old(State())
      ensures refresh == if ok then old(refresh)[hash := Refresh(user, expires, None)] else old(refresh)
    {
      ok := up && hash !in refresh;
      if ok { refresh := refresh[hash := Refresh(user, expires, None)]; }
    }

    method ValidateRefreshToken(hash: string, now: int) returns (user: Option<string>)
      ensures user == Validate(State(), hash, now)
      ensures user.Some? <==> hash in refresh && refresh[hash].expires > now && refresh[hash].revokedAt.None?
      ensures user.Some? ==> user.value == refresh[hash].user
    {
      user := None;
      if hash in refresh {
        var row := refresh[hash];
        if row.expires > now && row.revokedAt.None? { user := Some(row.user); }
      }
    }

    method RevokeRefreshToken(hash: string, now: int, up: bool)
      modifies this
      ensures State() == if up then RefreshRevoked(old(State()), hash, now) else old(State())
      ensures refresh == if up && hash in old(refresh) && old(refresh)[hash].revokedAt.None?
        then old(refresh)[hash := old(refresh)[hash].(revokedAt := Some(now))] else old(refresh)
    {
      if up && hash in refresh && refresh[hash].revokedAt.None? {
        refresh := refresh[hash := refresh[hash].(revokedAt := Some(now))];
      }
      assert refresh == if up then RefreshRevoked(old(State()), hash, now).refresh else old(refresh);
    }

    method RevokeAllUserRefreshTokens(user: string, now: int, up: bool)
      modifies this
      ensures State() == if up then AllRevoked(old(State()), user, now) else old(State())
      ensures refresh.Keys == old(refresh).Keys
      ensures forall h :: h in refresh && !(up && old(refresh)[h].user == user && old(refresh)[h].revokedAt.None?) ==> refresh[h] == old(refresh)[h]
      ensures forall h :: h in refresh && up && old(refresh)[h].user == user && old(refresh)[h].revokedAt.None? ==>
        refresh[h] == old(refresh)[h].(revokedAt := Some(now))
    {
      if up {
        refresh := map h | h in refresh :: if refresh[h].user == user then Mark(refresh[h], now) else refresh[h];
      }
    }
  }

  /** The parts of a session handler that touch the tables; `up` values say which store calls succeed, and
      `hash` is the hash of a freshly generated refresh token. */
  class Sessions {
    const store: TokenStore

    constructor (store: TokenStore)
      ensures this.store == store
    {
      this.store := store;
    }

    /** Everything after the old password was accepted: a failed revocation is logged and ignored. After it
        the user's only valid refresh token is the new one, exactly when the revocation went through or there
        was nothing to revoke. */
    method ChangePassword(user: string, hash: string, now: int, passwordUp: bool, revokeUp: bool, signUp: bool, createUp: bool)
      returns (ok: bool)
      requires hash !in store.refresh
      modifies store
      ensures ok == (passwordUp && signUp && createUp)
      ensures !passwordUp ==> store.State() == old(store.State())
      ensures passwordUp && revokeUp ==> forall h :: h != hash ==> Validate(store.State(), h, now) != Some(user)
      ensures ok ==> ((forall h :: Validate(store.State(), h, now) == Some(user) <==> h == hash)
        <==> revokeUp || forall h :: Validate(old(store.State()), h, now) != Some(user))
      ensures forall h, other :: other != user ==>
        (Validate(store.State(), h, now) == Some(other) <==> Validate(old(store.State()), h, now) == Some(other))
    {
      if !passwordUp { return false; }
      store.RevokeAllUserRefreshTokens(user, now, revokeUp);
      ghost var mid := store.State();
      if !signUp { return false; }
      ok := store.CreateRefreshToken(user, hash, now + REFRESH_TTL, createUp);
      if createUp { NewTokenAlone(old(store.State()), user, hash, now, revokeUp); }
    }

    /** Rotation: with every call up, the presented token is dead, the new one valid for the same user, and
        every other token is as before. */
    method RefreshSession(presented: string, hash: string, now: int, revokeUp: bool, userFound: bool, signUp: bool, createUp: bool)
      returns (user: Option<string>)
      requires hash !in store.refresh
      modifies store
      ensures user == if userFound && signUp && createUp then Validate(old(store.State()), presented, now) else None
      ensures user.Some? ==> Validate(store.State(), hash, now) == user
      ensures Validate(old(store.State()), presented, now).Some? ==> (Validate(store.State(), presented, now) == None <==> revokeUp)
      ensures forall h :: h != presented && h != hash ==> Validate(store.State(), h, now) == Validate(old(store.State()), h, now)
      ensures Validate(old(store.State()), presented, now).None? ==> store.State() == old(store.State())
    {
      var owner := store.ValidateRefreshToken(presented, now);
      if owner.None? { return None; }
      store.RevokeRefreshToken(presented, now, revokeUp);
      if !userFound || !signUp { return None; }
      var ok := store.CreateRefreshToken(owner.value, hash, now + REFRESH_TTL, createUp);
      user := if ok then owner else None;
    }

    /** The access token and, if presented, the refresh token; a failing statement is logged and ignored. */
    method Logout(tok: Token, presented: Option<string>, now: int, revokeUp: bool, refreshUp: bool)
      modifies store
      ensures store.revoked == if tok.jti != "" && now < tok.exp && revokeUp && tok.jti !in old(store.revoked)
        then old(store.revoked)[tok.jti := tok.exp] else old(store.revoked)
      ensures presented.Some? && refreshUp ==> Validate(store.State(), presented.value, now) == None
      ensures forall h :: presented != Some(h) ==> Validate(store.State(), h, now) == Validate(old(store.State()), h, now)
      ensures forall j :: j in old(store.revoked) ==> j in store.revoked && store.revoked[j] == old(store.revoked[j])
      ensures forall j :: j in store.revoked && j !in old(store.revoked) ==> j == tok.jti && store.revoked[j] == tok.exp
    {
      if now < tok.exp && tok.jti != "" {
        var _ := store.Revoke(tok.jti, tok.exp, revokeUp);
      }
      if presented.Some? {
        store.RevokeRefreshToken(presented.value, now, refreshUp);
      }
    }
  }

  /** The janitor's pass: the limiter is swept whether or not the database answered. */
  method CleanOnce(store: TokenStore, limiter: LoginLimiter.Limiter, now: int, firstUp: bool, secondUp: bool)
    requires limiter.Valid() && now >= limiter.clock
    modifies store, limiter
    ensures store.State() == Cleaned(old(store.State()), now, if !firstUp then 0 else if !secondUp then 1 else 2)
    ensures limiter.Valid() && limiter.history == old(limiter.history) && limiter.evicted == old(limiter.evicted)
    ensures limiter.entries == LoginLimiter.Unexpired(old(limiter.entries), now)
    ensures forall k :: k in limiter.entries <==> k in old(limiter.entries) && now - old(limiter.entries)[k].lastFail <= LoginLimiter.LOGIN_LIMIT_WINDOW
    ensures forall j :: j in store.revoked <==> j in old(store.revoked) && (firstUp ==> old(store.revoked)[j] >= now)
    ensures forall h :: h in store.refresh <==> h in old(store.refresh) && (firstUp && secondUp ==> old(store.refresh)[h].expires >= now)
  {
    var _ := store.Cleanup(now, firstUp, secondUp);
    var _ := limiter.Sweep(now);
  }

  lemma NewTokenAlone(s: Tables, user: string, hash: string, now: int, revokeUp: bool)
    requires hash !in s.refresh
    ensures var t := Created(if revokeUp then AllRevoked(s, user, now) else s, hash, user, now + REFRESH_TTL);
      (forall h :: Validate(t, h, now) == Some(user) <==> h == hash)
      <==> revokeUp || forall h :: Validate(s, h, now) != Some(user)
  {
    var t := Created(if revokeUp then AllRevoked(s, user, now) else s, hash, user, now + REFRESH_TTL);
    if !revokeUp {
      forall h | h != hash ensures Validate(t, h, now) == Validate(s, h, now) {}
      assert Validate(t, hash, now) == Some(user) && Validate(s, hash, now) == None;
      if h :| Validate(s, h, now) == Some(user) {
        assert Validate(t, h, now) == Some(user) && h != hash;
      }
    }
  }

  // ---- Runs ------------------------------------------------------------------------------------------------

  datatype Action =
    | Revoke(tok: Token)
    | CreateRefresh(hash: string, user: string, expires: int)
    | RevokeRefresh(hash: string)
    | RevokeAll(user: string)
    | Cleanup(deletes: nat)

  /** A statement that succeeded, and when. */
  datatype Event = At(now: int, action: Action)

  function Step(s: Tables, e: Event): Tables {
    match e.action
    case Revoke(tok) => Revoked(s, tok.jti, tok.exp)
    case CreateRefresh(hash, user, expires) => Created(s, hash, user, expires)
    case RevokeRefresh(hash) => RefreshRevoked(s, hash, e.now)
    case RevokeAll(user) => AllRevoked(s, user, e.now)
    case Cleanup(deletes) => Cleaned(s, e.now, deletes)
  }

  function Run(s: Tables, es: seq<Event>): Tables
    decreases |es|
  {
    if es == [] then s else Run(Step(s, es[0]), es[1..])
  }

  /** One monotone clock: nothing happens before `from` or after `until`. */
  ghost predicate Timed(es: seq<Event>, from: int, until: int)
    decreases |es|
  {
    if es == [] then from <= until else from <= es[0].now && Timed(es[1..], es[0].now, until)
  }

  /** Each jti belongs to one signed token, and revocations carry that token's own expiry. */
  ghost predicate Issued(issued: map<string, Token>, es: seq<Event>) {
    forall i :: 0 <= i < |es| && es[i].action.Revoke? ==>
      es[i].action.tok.jti in issued && issued[es[i].action.tok.jti] == es[i].action.tok
  }

  ghost predicate RowsIssued(issued: map<string, Token>, s: Tables) {
    forall j :: j in s.revoked ==> j in issued && s.revoked[j] == issued[j].exp
  }

  /** The token is listed until it has expired. */
  ghost predicate Dead(s: Tables, tok: Token, now: int) {
    (tok.jti in s.revoked && s.revoked[tok.jti] == tok.exp) || tok.exp < now
  }

  lemma {:induction false} DeadStaysDead(s: Tables, es: seq<Event>, tok: Token, from: int, until: int)
    requires Timed(es, from, until) && Dead(s, tok, from)
    ensures Dead(Run(s, es), tok, until)
    decreases |es|
  {
    if es != [] {
      DeadStaysDead(Step(s, es[0]), es[1..], tok, es[0].now, until);
    }
  }

  lemma {:induction false} RowsStayIssued(issued: map<string, Token>, s: Tables, es: seq<Event>)
    requires RowsIssued(issued, s) && Issued(issued, es)
    ensures RowsIssued(issued, Run(s, es))
    decreases |es|
  {
    if es != [] {
      assert Issued(issued, es[1..]) by {
        forall i | 0 <= i < |es[1..]| && es[1..][i].action.Revoke?
          ensures es[1..][i].action.tok.jti in issued && issued[es[1..][i].action.tok.jti] == es[1..][i].action.tok
        {
          assert es[1..][i] == es[i + 1];
        }
      }
      RowsStayIssued(issued, Step(s, es[0]), es[1..]);
    }
  }

  /** Once a server-issued token has been revoked no later request with it is let through, whatever cleanups
      and other statements come before and after, although its row may be gone. */
  lemma RevokedIsRefusedForGood(issued: map<string, Token>, before: seq<Event>, tok: Token, at: int, later: seq<Event>, now: int,
      revocationsUp: bool, userFound: bool)
    requires tok.jti != "" && tok.jti in issued && issued[tok.jti] == tok
    requires Issued(issued, before) && Timed(later, at, now)
    ensures var s := Run(Run(Tables(map[], map[]), before), [At(at, Revoke(tok))] + later);
      Authorize(s, tok, now, revocationsUp, userFound) == None
  {
    var s := Run(Tables(map[], map[]), before);
    RowsStayIssued(issued, Tables(map[], map[]), before);
    var es := [At(at, Revoke(tok))] + later;
    assert es[1..] == later;
    DeadStaysDead(Step(s, es[0]), later, tok, at, now);
  }

  /** Some event of the run revoked the jti. */
  ghost predicate RevokedIn(es: seq<Event>, jti: string) {
    exists i :: 0 <= i < |es| && es[i].action.Revoke? && es[i].action.tok.jti == jti
  }

  lemma RevokedInStep(es: seq<Event>, jti: string)
    requires es != []
    ensures RevokedIn(es, jti) <==> (es[0].action.Revoke? && es[0].action.tok.jti == jti) || RevokedIn(es[1..], jti)
  {
    if RevokedIn(es, jti) {
      var i :| 0 <= i < |es| && es[i].action.Revoke? && es[i].action.tok.jti == jti;
      if i > 0 { assert es[1..][i - 1] == es[i]; }
    }
    if RevokedIn(es[1..], jti) {
      var i :| 0 <= i < |es[1..]| && es[1..][i].action.Revoke? && es[1..][i].action.tok.jti == jti;
      assert es[i + 1] == es[1..][i];
    }
  }

  /** While a token has not expired, its jti is listed exactly if it was, or if an event of the run revoked it. */
  lemma {:induction false} ListedIffRevoked(issued: map<string, Token>, s: Tables, es: seq<Event>, tok: Token, from: int, until: int)
    requires Timed(es, from, until) && until < tok.exp
    requires RowsIssued(issued, s) && Issued(issued, es) && tok.jti in issued && issued[tok.jti] == tok
    ensures tok.jti in Run(s, es).revoked <==> tok.jti in s.revoked || RevokedIn(es, tok.jti)
    decreases |es|
  {
    if es != [] {
      assert forall i :: 0 <= i < |es[1..]| ==> es[1..][i] == es[i + 1];
      RowsStayIssued(issued, s, [es[0]]);
      assert [es[0]][1..] == [];
      NotLater(es, from, until);
      ListedIffRevoked(issued, Step(s, es[0]), es[1..], tok, es[0].now, until);
      RevokedInStep(es, tok.jti);
    }
  }

  lemma {:induction false} NotLater(es: seq<Event>, from: int, until: int)
    requires Timed(es, from, until)
    ensures from <= until && (es != [] ==> es[0].now <= until)
    decreases |es|
  {
    if es != [] { NotLater(es[1..], es[0].now, until); }
  }

  /** Who is let through: after any run, with cleanups anywhere, a server-issued token is accepted for its own user, if
      that user is found, until it expires, and, when it has a jti, if the lookup works and no event of the run has
      revoked it; and in no other case. */
  lemma AcceptedIff(issued: map<string, Token>, es: seq<Event>, from: int, tok: Token, now: int, revocationsUp: bool, userFound: bool, user: string)
    requires Timed(es, from, now) && Issued(issued, es)
    requires tok.jti != "" ==> tok.jti in issued && issued[tok.jti] == tok
    ensures Authorize(Run(Tables(map[], map[]), es), tok, now, revocationsUp, userFound) == Some(user)
      <==> user == tok.user && userFound && now < tok.exp && (tok.jti == "" || (revocationsUp && !RevokedIn(es, tok.jti)))
  {
    if now < tok.exp && tok.jti != "" {
      ListedIffRevoked(issued, Tables(map[], map[]), es, tok, from, now);
    }
  }

  // ---- which refresh tokens are valid ----------------------------------------------------------------------

  predicate Creates(e: Event, hash: string) { e.action.CreateRefresh? && e.action.hash == hash }

  /** The event revokes the token, alone or with all of its user's. */
  predicate Kills(e: Event, hash: string, user: string) {
    (e.action.RevokeRefresh? && e.action.hash == hash) || (e.action.RevokeAll? && e.action.user == user)
  }

  lemma {:induction false} NeverCreated(s: Tables, es: seq<Event>, hash: string)
    requires hash !in s.refresh && forall i :: 0 <= i < |es| ==> !Creates(es[i], hash)
    ensures hash !in Run(s, es).refresh
    decreases |es|
  {
    if es != [] {
      assert !Creates(es[0], hash);
      assert forall i :: 0 <= i < |es[1..]| ==> es[1..][i] == es[i + 1];
      NeverCreated(Step(s, es[0]), es[1..], hash);
    }
  }

  /** A row that has not expired by the end stays, with its owner and expiry, unrevoked exactly if nothing kills it. */
  lemma {:induction false} RowLives(s: Tables, es: seq<Event>, hash: string, from: int, until: int)
    requires Timed(es, from, until) && hash in s.refresh && s.refresh[hash].expires > until
    requires forall i :: 0 <= i < |es| ==> !Creates(es[i], hash)
    ensures var r, r' := s.refresh[hash], Run(s, es).refresh;
      && hash in r' && r'[hash].user == r.user && r'[hash].expires == r.expires
      && (r'[hash].revokedAt.None? <==> r.revokedAt.None? && forall i :: 0 <= i < |es| ==> !Kills(es[i], hash, r.user))
    decreases |es|
  {
    if es != [] {
      NotLater(es, from, until);
      assert !Creates(es[0], hash);
      assert forall i :: 0 <= i < |es[1..]| ==> es[1..][i] == es[i + 1];
      StepKeepsRow(s, es[0], hash);
      RowLives(Step(s, es[0]), es[1..], hash, es[0].now, until);
      if forall i :: 0 <= i < |es[1..]| ==> !Kills(es[1..][i], hash, s.refresh[hash].user) {
        forall i | 0 < i < |es| ensures !Kills(es[i], hash, s.refresh[hash].user) { assert es[1..][i - 1] == es[i]; }
      }
    }
  }

  lemma StepKeepsRow(s: Tables, e: Event, hash: string)
    requires hash in s.refresh && s.refresh[hash].expires > e.now && !Creates(e, hash)
    ensures var r, r' := s.refresh[hash], Step(s, e).refresh;
      && hash in r' && r'[hash].user == r.user && r'[hash].expires == r.expires
      && (r'[hash].revokedAt.None? <==> r.revokedAt.None? && !Kills(e, hash, r.user))
  {
  }

  /** A refresh token that the run created once is valid for exactly its own user, until it expires, unless an event since
      has revoked it or all of that user's; one that no event created is never valid. */
  lemma ValidIff(before: seq<Event>, at: int, hash: string, owner: string, expires: int, later: seq<Event>, now: int, user: string)
    requires Timed(later, at, now)
    requires forall i :: 0 <= i < |before| ==> !Creates(before[i], hash)
    requires forall i :: 0 <= i < |later| ==> !Creates(later[i], hash)
    ensures Validate(Run(Run(Tables(map[], map[]), before), [At(at, CreateRefresh(hash, owner, expires))] + later), hash, now) == Some(user)
      <==> user == owner && expires > now && forall i :: 0 <= i < |later| ==> !Kills(later[i], hash, owner)
    ensures Validate(Run(Tables(map[], map[]), before), hash, now) == None
  {
    var s := Run(Tables(map[], map[]), before);
    NeverCreated(Tables(map[], map[]), before, hash);
    var es := [At(at, CreateRefresh(hash, owner, expires))] + later;
    assert es[1..] == later;
    var s1 := Step(s, es[0]);
    assert s1.refresh[hash] == Refresh(owner, expires, None);
    if expires > now {
      RowLives(s1, later, hash, at, now);
    } else {
      NeverLater(s1, later, hash, expires);
    }
  }

  /** No event puts off an expiry. */
  lemma {:induction false} NeverLater(s: Tables, es: seq<Event>, hash: string, expires: int)
    requires forall i :: 0 <= i < |es| ==> !Creates(es[i], hash)
    requires hash in s.refresh ==> s.refresh[hash].expires == expires
    ensures hash in Run(s, es).refresh ==> Run(s, es).refresh[hash].expires == expires
    decreases |es|
  {
    if es != [] {
      assert !Creates(es[0], hash);
      assert forall i :: 0 <= i < |es[1..]| ==> es[1..][i] == es[i + 1];
      NeverLater(Step(s, es[0]), es[1..], hash, expires);
    }
  }

  // ---- Cleanup is invisible --------------------------------------------------------------------------------

  function WithoutCleanups(es: seq<Event>): seq<Event>
    decreases |es|
  {
    if es == [] then [] else (if es[0].action.Cleanup? then [] else [es[0]]) + WithoutCleanups(es[1..])
  }

  /** `s` is `t` without some rows that have expired by `now`. */
  ghost predicate Trimmed(s: Tables, t: Tables, now: int) {
    && (forall j :: j in s.revoked ==> j in t.revoked && s.revoked[j] == t.revoked[j])
    && (forall j :: j in t.revoked && j !in s.revoked ==> t.revoked[j] < now)
    && (forall h :: h in s.refresh ==> h in t.refresh && s.refresh[h] == t.refresh[h])
    && (forall h :: h in t.refresh && h !in s.refresh ==> t.refresh[h].expires < now)
  }

  /** Generated refresh tokens are new: no hash is inserted twice. */
  ghost predicate NewHashes(t: Tables, es: seq<Event>)
    decreases |es|
  {
    es != [] ==>
      && (es[0].action.CreateRefresh? ==> es[0].action.hash !in t.refresh)
      && NewHashes(if es[0].action.Cleanup? then t else Step(t, es[0]), es[1..])
  }

  lemma TrimmedStep(issued: map<string, Token>, s: Tables, t: Tables, e: Event, from: int)
    requires Trimmed(s, t, from) && from <= e.now
    requires RowsIssued(issued, t)
    requires e.action.Revoke? ==> e.action.tok.jti in issued && issued[e.action.tok.jti] == e.action.tok
    requires e.action.CreateRefresh? ==> e.action.hash !in t.refresh
    ensures Trimmed(Step(s, e), if e.action.Cleanup? then t else Step(t, e), e.now)
  {
    match e.action
    case Revoke(tok) => TrimmedRevoke(s, t, tok, e.now);
    case CreateRefresh(_, _, _) =>
    case RevokeRefresh(hash) => TrimmedMark(s, t, hash, e.now);
    case RevokeAll(user) => TrimmedMarks(s, t, user, e.now);
    case Cleanup(deletes) => TrimmedCleanup(s, t, deletes, from, e.now);
    hide Revoked, RefreshRevoked, AllRevoked, Cleaned;
  }

  lemma TrimmedRevoke(s: Tables, t: Tables, tok: Token, now: int)
    requires Trimmed(s, t, now) && (tok.jti in t.revoked ==> t.revoked[tok.jti] == tok.exp)
    ensures Trimmed(Revoked(s, tok.jti, tok.exp), Revoked(t, tok.jti, tok.exp), now)
  {
  }

  lemma TrimmedMark(s: Tables, t: Tables, hash: string, now: int)
    requires Trimmed(s, t, now)
    ensures Trimmed(RefreshRevoked(s, hash, now), RefreshRevoked(t, hash, now), now)
  {
  }

  lemma TrimmedMarks(s: Tables, t: Tables, user: string, now: int)
    requires Trimmed(s, t, now)
    ensures Trimmed(AllRevoked(s, user, now), AllRevoked(t, user, now), now)
  {
  }

  lemma TrimmedCleanup(s: Tables, t: Tables, deletes: nat, from: int, now: int)
    requires Trimmed(s, t, from) && from <= now
    ensures Trimmed(Cleaned(s, now, deletes), t, now)
  {
  }

  lemma {:induction false} CleanupsTrim(issued: map<string, Token>, s: Tables, t: Tables, es: seq<Event>, from: int, until: int)
    requires Trimmed(s, t, from) && Timed(es, from, until)
    requires RowsIssued(issued, t) && Issued(issued, es) && NewHashes(t, es)
    ensures Trimmed(Run(s, es), Run(t, WithoutCleanups(es)), until)
    decreases |es|
  {
    if es != [] {
      var t' := if es[0].action.Cleanup? then t else Step(t, es[0]);
      TrimmedStep(issued, s, t, es[0], from);
      assert forall i :: 0 <= i < |es[1..]| ==> es[1..][i] == es[i + 1];
      CleanupsTrim(issued, Step(s, es[0]), t', es[1..], es[0].now, until);
      var rest := WithoutCleanups(es[1..]);
      if es[0].action.Cleanup? {
        assert [] + rest == rest;
      } else {
        assert ([es[0]] + rest)[1..] == rest;
      }
    }
  }

  /** On any run from empty tables, removing the cleanups changes no answer: neither which refresh tokens are
      valid, nor which access tokens are let through. */
  lemma CleanupIsInvisible(issued: map<string, Token>, es: seq<Event>, until: int, now: int, hash: string, tok: Token,
      revocationsUp: bool, userFound: bool)
    requires es != [] && Timed(es, es[0].now, until) && until <= now
    requires Issued(issued, es) && NewHashes(Tables(map[], map[]), es)
    requires tok.jti in issued && issued[tok.jti] == tok
    ensures var cleaned, kept := Run(Tables(map[], map[]), es), Run(Tables(map[], map[]), WithoutCleanups(es));
      && Validate(cleaned, hash, now) == Validate(kept, hash, now)
      && Authorize(cleaned, tok, now, revocationsUp, userFound) == Authorize(kept, tok, now, revocationsUp, userFound)
  {
    var empty := Tables(map[], map[]);
    CleanupsTrim(issued, empty, empty, es, es[0].now, until);
    var kept := WithoutCleanups(es);
    WithoutIssued(issued, es);
    RowsStayIssued(issued, empty, kept);
  }

  lemma {:induction false} WithoutIssued(issued: map<string, Token>, es: seq<Event>)
    requires Issued(issued, es)
    ensures Issued(issued, WithoutCleanups(es))
    decreases |es|
  {
    if es != [] {
      assert forall i :: 0 <= i < |es[1..]| ==> es[1..][i] == es[i + 1];
      WithoutIssued(issued, es[1..]);
    }
  }
}
