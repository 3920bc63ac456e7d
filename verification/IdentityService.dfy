/** The identity service over any session store: refresh rotation, revocation on reuse, and expiry. */
module IdentityService {
  import opened IdentityStores

  /** Token lifetimes; the token manager accepts positive ones only. */
  datatype Lifetimes = Lifetimes(accessTtl: int, refreshTtl: int)
  type Config = c: Lifetimes | c.accessTtl > 0 && c.refreshTtl > 0 witness Lifetimes(15, 10080)

  /** The store's state, the tokens handed out so far (no other text verifies), and the next unique number. */
  datatype Service<S> = Service(store: S, issued: set<Token>, serial: nat)

  /** `LateExpiry` is the expiry an earlier authentication of the session decided on and writes only now. */
  datatype Request =
    | Issue(identity: Identity, now: Time)
    | RefreshWith(token: Token, now: Time)
    | Authenticate(token: Token, now: Time)
    | Deactivate(session: SessionId)
    | LateExpiry(session: SessionId)

  datatype Reply =
    | Tokens(access: Token, refresh: Token)
    | Allowed(identity: Identity)
    | Acknowledged
    | Denied
    | BadLifetimes

  function AccessToken(cfg: Config, session: SessionId, identity: Identity, now: Time): Token {
    Token(Access, session, identity, 0, now, now + cfg.accessTtl)
  }

  function RefreshToken(cfg: Config, session: SessionId, identity: Identity, serial: nat, now: Time): Token {
    Token(Refresh, session, identity, serial, now, now + cfg.refreshTtl)
  }

  predicate Verifies(issued: set<Token>, t: Token, kind: TokenKind, now: Time) {
    t in issued && t.kind == kind && t.issued <= now < t.expires
  }

  function Serve<S>(cfg: Config, step: (S, Command) -> (Answer, S), s: Service<S>, q: Request): (Reply, Service<S>) {
    match q
    case Issue(identity, now) =>
      var access, refresh := AccessToken(cfg, s.serial, identity, now), RefreshToken(cfg, s.serial, identity, s.serial, now);
      if access.expires >= refresh.expires then (BadLifetimes, s)
      else
        var (answer, store) := step(s.store, Create(Session(s.serial, identity, now, refresh.expires, Active), Digest(refresh)));
        if answer == Created then (Tokens(access, refresh), Service(store, s.issued + {access, refresh}, s.serial + 1))
        else (Denied, Service(store, s.issued, s.serial + 1))
    case RefreshWith(token, now) =>
      if !Verifies(s.issued, token, Refresh, now) then (Denied, s)
      else
        var access := AccessToken(cfg, token.session, token.identity, now);
        var refresh := RefreshToken(cfg, token.session, token.identity, s.serial, now);
        if access.expires >= refresh.expires then (BadLifetimes, s) else
        var (answer, store) := step(s.store, Rotate(token.session, Digest(token), Digest(refresh), refresh.expires));
        if answer == Rotated(true) then (Tokens(access, refresh), Service(store, s.issued + {access, refresh}, s.serial + 1))
        else (Denied, Service(store, s.issued, s.serial + 1))
    case Authenticate(token, now) =>
      if !Verifies(s.issued, token, Access, now) then (Denied, s)
      else
        var (answer, store) := step(s.store, Get(token.session));
        if !answer.Found? then (Denied, s.(store := store))
        else if answer.session.status == Active && answer.session.expires <= now then
          (Denied, s.(store := step(store, SetStatus(token.session, Expired)).1))
        else if answer.session.status != Active || answer.session.identity != token.identity then (Denied, s.(store := store))
        else (Allowed(token.identity), s.(store := store))
    case Deactivate(session) =>
      var (answer, store) := step(s.store, SetStatus(session, Revoked));
      (if answer.Found? then Acknowledged else Denied, s.(store := store))
    case LateExpiry(session) =>
      (Acknowledged, s.(store := step(s.store, SetStatus(session, Expired)).1))
  }

  // ---- the invariant ----

  ghost predicate TokenOk(s: Service<Memory>, t: Token) {
    && t.serial < s.serial
    && t.session in s.store
    && s.store[t.session].0.created <= t.issued
    && s.store[t.session].0.identity == t.identity
  }

  ghost predicate SessionOk(s: Service<Memory>, id: SessionId)
    requires id in s.store
  {
    && id < s.serial
    && ValidLifetime(s.store[id].0)
    && (s.store[id].0.status == Active ==> s.store[id].1.Digest?)
    && (s.store[id].1.Digest? ==>
          s.store[id].1.token in s.issued && s.store[id].1.token.kind == Refresh && s.store[id].1.token.session == id)
  }

  ghost predicate Inv(s: Service<Memory>) {
    && (forall t | t in s.issued :: TokenOk(s, t))
    && (forall id | id in s.store :: SessionOk(s, id))
  }

  /** Nothing issued and nothing stored. */
  function Fresh<S>(store: S): Service<S> {
    Service(store, {}, 0)
  }

  // ---- the service object ----

  class EnterpriseIdentityService {
    const cfg: Config
    const store: InMemoryIdentityStore
    var issued: set<Token>
    var serial: nat

    function View(): Service<Memory>
      reads this, store
    {
      Service(store.sessions, issued, serial)
    }

    /** A service over a store, with the tokens that its secret already verifies: none when both are new, those of
        the earlier services when it takes over their store. */
    constructor (cfg: Config, store: InMemoryIdentityStore, issued: set<Token>, serial: nat)
      ensures this.cfg == cfg && this.store == store && View() == Service(store.sessions, issued, serial)
      ensures View() == Fresh(map[]) ==> Inv(View())
    {
      this.cfg := cfg;
      this.store := store;
      this.issued := issued;
      this.serial := serial;
    }

    method IssueSession(identity: Identity, now: Time) returns (r: Reply)
      modifies this, store
      ensures (r, View()) == Serve(cfg, MemoryStep, old(View()), Issue(identity, now))
    {
      var session := serial;
      var access, refresh := AccessToken(cfg, session, identity, now), RefreshToken(cfg, session, identity, serial, now);
      if access.expires >= refresh.expires {
        return BadLifetimes;
      }
      var answer := store.CreateSession(Session(session, identity, now, refresh.expires, Active), Digest(refresh));
      serial := serial + 1;
      if answer != Created {
        return Denied;
      }
      issued := issued + {access, refresh};
      return Tokens(access, refresh);
    }

    method RefreshSession(token: Token, now: Time) returns (r: Reply)
      modifies this, store
      ensures (r, View()) == Serve(cfg, MemoryStep, old(View()), RefreshWith(token, now))
    {
      if !Verifies(issued, token, Refresh, now) {
        return Denied;
      }
      var access := AccessToken(cfg, token.session, token.identity, now);
      var refresh := RefreshToken(cfg, token.session, token.identity, serial, now);
      if access.expires >= refresh.expires {
        return BadLifetimes;
      }
      var rotated := store.RotateRefresh(token.session, Digest(token), Digest(refresh), refresh.expires);
      serial := serial + 1;
      if rotated != Rotated(true) {
        return Denied;
      }
      issued := issued + {access, refresh};
      return Tokens(access, refresh);
    }

    method AuthenticateAccessToken(token: Token, now: Time) returns (r: Reply)
      modifies store
      ensures (r, View()) == Serve(cfg, MemoryStep, old(View()), Authenticate(token, now))
    {
      if !Verifies(issued, token, Access, now) {
        return Denied;
      }
      var found := store.GetSession(token.session);
      if !found.Found? {
        return Denied;
      }
      if found.session.status == Active && found.session.expires <= now {
        found := store.SetSessionStatus(token.session, Expired);
      }
      if !found.Found? || found.session.status != Active || found.session.identity != token.identity {
        return Denied;
      }
      return Allowed(token.identity);
    }

    /** Logout and revocation. */
    method DeactivateSession(session: SessionId) returns (r: Reply)
      modifies store
      ensures (r, View()) == Serve(cfg, MemoryStep, old(View()), Deactivate(session))
    {
      var answer := store.SetSessionStatus(session, Revoked);
      return if answer.Found? then Acknowledged else Denied;
    }
  }

  // ---- runs ----

  function After(cfg: Config, s: Service<Memory>, q: Request): Service<Memory> {
    Serve(cfg, MemoryStep, s, q).1
  }

  lemma ServeKeepsInv(cfg: Config, s: Service<Memory>, q: Request)
    requires Inv(s)
    ensures Inv(After(cfg, s, q))
  {
  }

  function Run(cfg: Config, s: Service<Memory>, requests: seq<Request>): Service<Memory>
    decreases |requests|
  {
    if requests == [] then s else Run(cfg, After(cfg, s, requests[0]), requests[1..])
  }

  /** Whatever a new service is asked, the invariant holds afterwards. */
  lemma NewServiceKeepsInv(cfg: Config, requests: seq<Request>)
    ensures Inv(Run(cfg, Fresh(map[]), requests))
  {
    RunKeepsInv(cfg, Fresh(map[]), requests);
  }

  lemma {:induction false} RunKeepsInv(cfg: Config, s: Service<Memory>, requests: seq<Request>)
    requires Inv(s)
    ensures Inv(Run(cfg, s, requests))
    decreases |requests|
  {
    if requests != [] {
      ServeKeepsInv(cfg, s, requests[0]);
      RunKeepsInv(cfg, After(cfg, s, requests[0]), requests[1..]);
    }
  }

  ghost predicate Accepts(cfg: Config, s: Service<Memory>, t: Token, now: Time) {
    Serve(cfg, MemoryStep, s, RefreshWith(t, now)).0.Tokens?
  }

  // ---- rotation ----

  /** The token can no longer be accepted: its session is inactive, or expects a token issued later. */
  ghost predicate Spent(s: Service<Memory>, t: Token) {
    && t.session in s.store
    && (s.store[t.session].0.status != Active || s.store[t.session].1.NoHash? || s.store[t.session].1.token.serial > t.serial)
  }

  lemma {:induction false} SpentForEver(cfg: Config, s: Service<Memory>, requests: seq<Request>, t: Token)
    requires Inv(s) && Spent(s, t) && t.serial < s.serial
    ensures Spent(Run(cfg, s, requests), t)
    decreases |requests|
  {
    if requests != [] {
      ServeKeepsInv(cfg, s, requests[0]);
      SpentForEver(cfg, After(cfg, s, requests[0]), requests[1..], t);
    }
  }

  /** A refresh token is accepted at most once: after its acceptance no run makes it acceptable again. */
  lemma AcceptedOnce(cfg: Config, s: Service<Memory>, t: Token, now: Time, requests: seq<Request>, later: Time)
    requires Inv(s) && Accepts(cfg, s, t, now)
    ensures !Accepts(cfg, Run(cfg, After(cfg, s, RefreshWith(t, now)), requests), t, later)
  {
    var accepted := After(cfg, s, RefreshWith(t, now));
    assert TokenOk(s, t);
    ServeKeepsInv(cfg, s, RefreshWith(t, now));
    SpentForEver(cfg, accepted, requests, t);
  }

  /** At any moment at most one token of a session is acceptable. */
  lemma OneAcceptable(cfg: Config, s: Service<Memory>, t: Token, u: Token, now: Time, later: Time)
    requires t.session == u.session && Accepts(cfg, s, t, now) && Accepts(cfg, s, u, later)
    ensures t == u
  {
    assert s.store[t.session].1 == Digest(t) && s.store[t.session].1 == Digest(u);
  }

  /** A valid token of an active session that is not the acceptable one is refused, and the session revoked. */
  lemma ReuseRevokes(cfg: Config, s: Service<Memory>, t: Token, now: Time)
    requires Inv(s) && Verifies(s.issued, t, Refresh, now)
    requires s.store[t.session].0.status == Active && !Accepts(cfg, s, t, now) && cfg.accessTtl < cfg.refreshTtl
    ensures t.session in s.store
    ensures Serve(cfg, MemoryStep, s, RefreshWith(t, now)).0 == Denied
    ensures After(cfg, s, RefreshWith(t, now)).store[t.session].0.status == Revoked
  {
    assert TokenOk(s, t);
  }

  /** The session named by a request's token. */
  predicate Concerns(q: Request, session: SessionId) {
    (q.RefreshWith? || q.Authenticate?) && q.token.session == session
  }

  lemma StaysInactive(cfg: Config, s: Service<Memory>, session: SessionId, q: Request)
    requires Inv(s) && session in s.store && s.store[session].0.status != Active
    ensures session in After(cfg, s, q).store && After(cfg, s, q).store[session].0.status != Active
  {
  }

  lemma InactiveIsRefused(cfg: Config, s: Service<Memory>, session: SessionId, q: Request)
    requires session in s.store && s.store[session].0.status != Active && Concerns(q, session)
    ensures Serve(cfg, MemoryStep, s, q).0 in {Denied, BadLifetimes}
  {
  }

  /** Once a session is not active, no later refresh or authentication with one of its tokens succeeds. */
  lemma {:induction false} InactiveForEver(cfg: Config, s: Service<Memory>, requests: seq<Request>, session: SessionId, q: Request)
    requires Inv(s) && session in s.store && s.store[session].0.status != Active && Concerns(q, session)
    ensures Serve(cfg, MemoryStep, Run(cfg, s, requests), q).0 in {Denied, BadLifetimes}
    decreases |requests|
  {
    if requests == [] {
      InactiveIsRefused(cfg, s, session, q);
    } else {
      ServeKeepsInv(cfg, s, requests[0]);
      StaysInactive(cfg, s, session, requests[0]);
      InactiveForEver(cfg, After(cfg, s, requests[0]), requests[1..], session, q);
    }
  }

  // ---- what is handed out works ----

  /** A refresh token is accepted exactly while it is valid and the one that its active session expects. */
  lemma AcceptedExactly(cfg: Config, s: Service<Memory>, t: Token, now: Time)
    requires Inv(s)
    ensures Accepts(cfg, s, t, now) <==>
              && t in s.issued && t.kind == Refresh && t.issued <= now < t.expires && cfg.accessTtl < cfg.refreshTtl
              && s.store[t.session].0.status == Active && s.store[t.session].1 == Digest(t)
  {
    if t in s.issued {
      assert TokenOk(s, t);
    }
  }

  /** The tokens of a pair handed out at `now`, for a session and an identity. */
  predicate Pair(cfg: Config, a: Token, r: Token, session: SessionId, identity: Identity, now: Time) {
    && a.kind == Access && r.kind == Refresh
    && a.session == r.session == session && a.identity == r.identity == identity
    && a.issued == r.issued == now && a.expires == now + cfg.accessTtl && r.expires == now + cfg.refreshTtl
  }

  /** A refresh token that no earlier pair holds and that the service accepts from then on, as long as it is valid. */
  ghost predicate Works(cfg: Config, before: Service<Memory>, after: Service<Memory>, r: Token) {
    r !in before.issued && forall later | r.issued <= later < r.expires :: Accepts(cfg, after, r, later)
  }

  /** The pair of a new session is usable: its refresh token is new and accepted, and its access token authenticates the
      identity, each throughout its validity. */
  lemma IssuedPairWorks(cfg: Config, s: Service<Memory>, identity: Identity, now: Time)
    requires Inv(s) && cfg.accessTtl < cfg.refreshTtl
    ensures var reply, after := Serve(cfg, MemoryStep, s, Issue(identity, now)).0, After(cfg, s, Issue(identity, now));
            && reply.Tokens? && Pair(cfg, reply.access, reply.refresh, reply.refresh.session, identity, now)
            && reply.refresh.session !in s.store && Works(cfg, s, after, reply.refresh)
            && AccessWorks(cfg, after, reply.access)
            && after.store == s.store[reply.refresh.session :=
                                        (Session(reply.refresh.session, identity, now, now + cfg.refreshTtl, Active), Digest(reply.refresh))]
  {
    NewSession(s);
    ServeKeepsInv(cfg, s, Issue(identity, now));
    var reply, after := Serve(cfg, MemoryStep, s, Issue(identity, now)).0, After(cfg, s, Issue(identity, now));
    forall later: Time
      ensures Accepts(cfg, after, reply.refresh, later) <==> now <= later < now + cfg.refreshTtl
    {
      AcceptedExactly(cfg, after, reply.refresh, later);
    }
  }

  /** With an access token that would outlive its refresh token nothing is handed out or changed. */
  lemma BadLifetimesExactly(cfg: Config, s: Service<Memory>, q: Request)
    requires Inv(s)
    ensures Serve(cfg, MemoryStep, s, q) == (BadLifetimes, s) <==>
            cfg.accessTtl >= cfg.refreshTtl && (q.Issue? || (q.RefreshWith? && Verifies(s.issued, q.token, Refresh, q.now)))
  {
  }

  lemma NewSession(s: Service<Memory>)
    requires Inv(s)
    ensures s.serial !in s.store && forall t | t in s.issued :: t.serial < s.serial
  {
    assert s.serial in s.store ==> SessionOk(s, s.serial);
    assert forall t | t in s.issued :: TokenOk(s, t);
  }

  /** The pair of an accepted refresh is usable in the same way and belongs to the same session and identity. */
  lemma RefreshedPairWorks(cfg: Config, s: Service<Memory>, t: Token, now: Time)
    requires Inv(s) && Accepts(cfg, s, t, now)
    ensures var reply, after := Serve(cfg, MemoryStep, s, RefreshWith(t, now)).0, After(cfg, s, RefreshWith(t, now));
            && Pair(cfg, reply.access, reply.refresh, t.session, t.identity, now)
            && reply.refresh != t && Works(cfg, s, after, reply.refresh)
            && AccessWorks(cfg, after, reply.access)
            && after.store == s.store[t.session := (s.store[t.session].0.(expires := now + cfg.refreshTtl), Digest(reply.refresh))]
  {
    NewSession(s);
    ServeKeepsInv(cfg, s, RefreshWith(t, now));
    var reply, after := Serve(cfg, MemoryStep, s, RefreshWith(t, now)).0, After(cfg, s, RefreshWith(t, now));
    assert TokenOk(s, t);
    forall later: Time
      ensures Accepts(cfg, after, reply.refresh, later) <==> now <= later < now + cfg.refreshTtl
    {
      AcceptedExactly(cfg, after, reply.refresh, later);
    }
  }

  /** An access token authenticates its own identity exactly while it is valid and its session active and not overdue. */
  lemma AuthenticatedExactly(cfg: Config, s: Service<Memory>, a: Token, now: Time)
    requires Inv(s)
    ensures Serve(cfg, MemoryStep, s, Authenticate(a, now)).0 ==
            if a in s.issued && a.kind == Access && a.issued <= now < a.expires
               && s.store[a.session].0.status == Active && now < s.store[a.session].0.expires
            then Allowed(a.identity) else Denied
  {
    if a in s.issued {
      assert TokenOk(s, a);
    }
  }

  /** The access token authenticates its identity throughout its validity. */
  ghost predicate AccessWorks(cfg: Config, s: Service<Memory>, a: Token) {
    forall now | a.issued <= now < a.expires :: Serve(cfg, MemoryStep, s, Authenticate(a, now)).0 == Allowed(a.identity)
  }

  /** Refreshing over and over, each time with the token last handed out. */
  predicate AllRefreshed(cfg: Config, s: Service<Memory>, t: Token, times: seq<Time>)
    decreases |times|
  {
    times == []
    || (var reply := Serve(cfg, MemoryStep, s, RefreshWith(t, times[0])).0;
        reply.Tokens? && AllRefreshed(cfg, After(cfg, s, RefreshWith(t, times[0])), reply.refresh, times[1..]))
  }

  /** A client that refreshes in time, always with the token it was last given, is never refused. */
  lemma {:induction false} RefreshingInTimeNeverFails(cfg: Config, s: Service<Memory>, t: Token, times: seq<Time>)
    requires Inv(s) && (times != [] ==> Accepts(cfg, s, t, times[0]))
    requires forall i | 0 < i < |times| :: times[i - 1] <= times[i] < times[i - 1] + cfg.refreshTtl
    ensures AllRefreshed(cfg, s, t, times)
    decreases |times|
  {
    if times != [] {
      var q := RefreshWith(t, times[0]);
      RefreshedPairWorks(cfg, s, t, times[0]);
      ServeKeepsInv(cfg, s, q);
      if |times| > 1 {
        assert times[1..][0] == times[1];
      }
      RefreshingInTimeNeverFails(cfg, After(cfg, s, q), Serve(cfg, MemoryStep, s, q).0.refresh, times[1..]);
    }
  }

  // ---- the end of a session ----

  /** The session is over for every token and every continuation. */
  ghost predicate Over(cfg: Config, s: Service<Memory>, session: SessionId) {
    forall requests, q | Concerns(q, session) :: Serve(cfg, MemoryStep, Run(cfg, s, requests), q).0 in {Denied, BadLifetimes}
  }

  lemma InactiveIsOver(cfg: Config, s: Service<Memory>, session: SessionId)
    requires Inv(s) && session in s.store && s.store[session].0.status != Active
    ensures Over(cfg, s, session)
  {
    forall requests, q | Concerns(q, session)
      ensures Serve(cfg, MemoryStep, Run(cfg, s, requests), q).0 in {Denied, BadLifetimes}
    {
      InactiveForEver(cfg, s, requests, session, q);
    }
  }

  /** A logout of a known session is acknowledged and ends it for good, and leaves the others alone. */
  lemma LogoutIsFinal(cfg: Config, s: Service<Memory>, session: SessionId)
    requires Inv(s)
    ensures var (reply, after) := Serve(cfg, MemoryStep, s, Deactivate(session));
            if session in s.store then
              && reply == Acknowledged && Over(cfg, after, session) && after.store - {session} == s.store - {session}
              && session in after.store && after.store[session].0 == s.store[session].0.(status := Revoked)
            else reply == Denied && after == s
  {
    ServeKeepsInv(cfg, s, Deactivate(session));
    if session in s.store {
      InactiveIsOver(cfg, After(cfg, s, Deactivate(session)), session);
    }
  }

  /** An expiry that is written late ends the session in the same way. */
  lemma LateExpiryIsFinal(cfg: Config, s: Service<Memory>, session: SessionId)
    requires Inv(s)
    ensures var after := After(cfg, s, LateExpiry(session));
            if session in s.store then
              Over(cfg, after, session) && after.store == s.store[session := (s.store[session].0.(status := Expired), s.store[session].1)]
            else after == s
  {
    ServeKeepsInv(cfg, s, LateExpiry(session));
    if session in s.store {
      InactiveIsOver(cfg, After(cfg, s, LateExpiry(session)), session);
    }
  }

  /** Presenting a valid access token of an overdue session ends the session. */
  lemma OverdueIsFinal(cfg: Config, s: Service<Memory>, a: Token, now: Time)
    requires Inv(s) && Verifies(s.issued, a, Access, now) && a.session in s.store && s.store[a.session].0.expires <= now
    ensures var (reply, after) := Serve(cfg, MemoryStep, s, Authenticate(a, now));
            && reply == Denied && Over(cfg, after, a.session) && a.session in after.store
            && (s.store[a.session].0.status == Active ==> after.store[a.session].0 == s.store[a.session].0.(status := Expired))
  {
    ServeKeepsInv(cfg, s, Authenticate(a, now));
    InactiveIsOver(cfg, After(cfg, s, Authenticate(a, now)), a.session);
  }

  // ---- the service on Redis ----

  ghost predicate SameService(s: Service<Memory>, r: Service<Redis>) {
    Related(s.store, r.store) && s.issued == r.issued && s.serial == r.serial
  }

  /** The service only issues commands on which the stores agree, so it behaves alike on both. */
  lemma SameReply(cfg: Config, s: Service<Memory>, r: Service<Redis>, q: Request)
    requires Inv(s) && SameService(s, r)
    ensures Serve(cfg, MemoryStep, s, q).0 == Serve(cfg, RedisStep, r, q).0
    ensures SameService(After(cfg, s, q), Serve(cfg, RedisStep, r, q).1)
  {
    match q
    case Issue(identity, now) =>
      var refresh := RefreshToken(cfg, s.serial, identity, s.serial, now);
      if now + cfg.accessTtl < refresh.expires {
        OrderlyStep(s.store, r.store, Create(Session(s.serial, identity, now, refresh.expires, Active), Digest(refresh)));
      }
    case RefreshWith(token, now) =>
      if Verifies(s.issued, token, Refresh, now) {
        var refresh := RefreshToken(cfg, token.session, token.identity, s.serial, now);
        assert TokenOk(s, token);
        OrderlyStep(s.store, r.store, Rotate(token.session, Digest(token), Digest(refresh), refresh.expires));
      }
    case Authenticate(token, now) =>
      OrderlyStep(s.store, r.store, Get(token.session));
      OrderlyStep(s.store, r.store, SetStatus(token.session, Expired));
    case Deactivate(session) =>
      OrderlyStep(s.store, r.store, SetStatus(session, Revoked));
    case LateExpiry(session) =>
      OrderlyStep(s.store, r.store, SetStatus(session, Expired));
  }

  function Replies<S>(cfg: Config, step: (S, Command) -> (Answer, S), s: Service<S>, requests: seq<Request>): seq<Reply>
    decreases |requests|
  {
    if requests == [] then []
    else [Serve(cfg, step, s, requests[0]).0] + Replies(cfg, step, Serve(cfg, step, s, requests[0]).1, requests[1..])
  }

  /** Every run of the service gets the same replies from the in-memory store and from Redis. */
  lemma {:induction false} StoresInterchangeable(cfg: Config, s: Service<Memory>, r: Service<Redis>, requests: seq<Request>)
    requires Inv(s) && SameService(s, r)
    ensures Replies(cfg, MemoryStep, s, requests) == Replies(cfg, RedisStep, r, requests)
    decreases |requests|
  {
    if requests != [] {
      SameReply(cfg, s, r, requests[0]);
      ServeKeepsInv(cfg, s, requests[0]);
      StoresInterchangeable(cfg, After(cfg, s, requests[0]), Serve(cfg, RedisStep, r, requests[0]).1, requests[1..]);
    }
  }

  /** So does every run of a new service. */
  lemma NewServicesAgree(cfg: Config, requests: seq<Request>)
    ensures Replies(cfg, MemoryStep, Fresh(map[]), requests) == Replies(cfg, RedisStep, Fresh(Redis(map[], map[])), requests)
  {
    StoresInterchangeable(cfg, Fresh(map[]), Fresh(Redis(map[], map[])), requests);
  }
}
