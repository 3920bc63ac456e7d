/** Session stores: the in-memory one, the Redis one with its atomic rotation script, and when they agree. */
module IdentityStores {
  import opened Outcomes

  type Time = int
  type SessionId = nat
  type Identity = string

  datatype Status = Active | Revoked | Expired

  datatype Session = Session(id: SessionId, identity: Identity, created: Time, expires: Time, status: Status)

  datatype TokenKind = Access | Refresh

  /** The claims of a signed token; `serial` stands for its unique identifier. */
  datatype Token = Token(kind: TokenKind, session: SessionId, identity: Identity, serial: nat, issued: Time, expires: Time)

  /** A stored digest: the empty text, or the digest of one token (digests do not collide). */
  datatype Hash = NoHash | Digest(token: Token)

  datatype Command =
    | Create(session: Session, hash: Hash)
    | Get(id: SessionId)
    | Rotate(id: SessionId, expected: Hash, replacement: Hash, expires: Time)
    | SetStatus(id: SessionId, status: Status)

  datatype Answer =
    | Created
    | AlreadyExists
    | Found(session: Session)
    | Missing
    | Invalid  // the stored fields do not form a session
    | Rotated(ok: bool)

  predicate ValidLifetime(s: Session) {
    s.expires > s.created
  }

  // ---- in memory ----

  type Memory = map<SessionId, (Session, Hash)>

  function MemoryStep(m: Memory, c: Command): (Answer, Memory) {
    match c
    case Create(s, h) => if s.id in m then (AlreadyExists, m) else (Created, m[s.id := (s, h)])
    case Get(id) => if id in m then (Found(m[id].0), m) else (Missing, m)
    case Rotate(id, expected, replacement, expires) =>
      if id !in m || m[id].0.status != Active then (Rotated(false), m)
      else if m[id].1 != expected then (Rotated(false), m[id := (m[id].0.(status := Revoked), NoHash)])
      else (Rotated(true), m[id := (m[id].0.(expires := expires), replacement)])
    case SetStatus(id, status) =>
      if id !in m then (Missing, m)
      else (Found(m[id].0.(status := status)), m[id := (m[id].0.(status := status), m[id].1)])
  }

  class InMemoryIdentityStore {
    var sessions: Memory

    constructor ()
      ensures sessions == map[]
    {
      sessions := map[];
    }

    method CreateSession(s: Session, h: Hash) returns (a: Answer)
      modifies this
      ensures (a, sessions) == MemoryStep(old(sessions), Create(s, h))
    {
      if s.id in sessions {
        return AlreadyExists;
      }
      sessions := sessions[s.id := (s, h)];
      return Created;
    }

    method GetSession(id: SessionId) returns (a: Answer)
      ensures (a, sessions) == MemoryStep(sessions, Get(id))
    {
      if id !in sessions {
        return Missing;
      }
      return Found(sessions[id].0);
    }

    method RotateRefresh(id: SessionId, expected: Hash, replacement: Hash, expires: Time) returns (a: Answer)
      modifies this
      ensures (a, sessions) == MemoryStep(old(sessions), Rotate(id, expected, replacement, expires))
    {
      if id !in sessions || sessions[id].0.status != Active {
        return Rotated(false);
      }
      var (session, current) := sessions[id];
      if current != expected {
        sessions := sessions[id := (session.(status := Revoked), NoHash)];
        return Rotated(false);
      }
      sessions := sessions[id := (session.(expires := expires), replacement)];
      return Rotated(true);
    }

    method SetSessionStatus(id: SessionId, status: Status) returns (a: Answer)
      modifies this
      ensures (a, sessions) == MemoryStep(old(sessions), SetStatus(id, status))
    {
      if id !in sessions {
        return Missing;
      }
      var (session, hash) := sessions[id];
      var updated := session.(status := status);
      sessions := sessions[id := (updated, hash)];
      return Found(updated);
    }
  }

  // ---- Redis ----

  /** The two keys of each session: its hash of fields and its refresh digest. */
  datatype Redis = Redis(fields: map<SessionId, Session>, refresh: map<SessionId, Hash>)

  /** Reading the fields back checks them as a session. */
  function Decoded(r: Redis, id: SessionId): Answer {
    if id !in r.fields then Missing
    else if ValidLifetime(r.fields[id]) then Found(r.fields[id])
    else Invalid
  }

  function RedisStep(r: Redis, c: Command): (Answer, Redis) {
    match c
    case Create(s, h) =>
      if s.id in r.fields then (AlreadyExists, r)
      else (Created, Redis(r.fields[s.id := s], r.refresh[s.id := h]))
    case Get(id) => (Decoded(r, id), r)
    case Rotate(id, expected, replacement, expires) =>
      if id !in r.fields || r.fields[id].status != Active || id !in r.refresh then (Rotated(false), r)
      else if r.refresh[id] != expected then
        (Rotated(false), Redis(r.fields[id := r.fields[id].(status := Revoked)], r.refresh - {id}))
      else
        (Rotated(true), Redis(r.fields[id := r.fields[id].(expires := expires)], r.refresh[id := replacement]))
    case SetStatus(id, status) =>
      if id !in r.fields then (Missing, r)
      else
        var updated := Redis(r.fields[id := r.fields[id].(status := status)], if status != Active then r.refresh - {id} else r.refresh);
        (Decoded(updated, id), updated)
  }

  class RedisIdentityStore {
    var db: Redis

    constructor ()
      ensures db == Redis(map[], map[])
    {
      db := Redis(map[], map[]);
    }

    method CreateSession(s: Session, h: Hash) returns (a: Answer)
      modifies this
      ensures (a, db) == RedisStep(old(db), Create(s, h))
    {
      if s.id in db.fields {
        return AlreadyExists;
      }
      db := db.(fields := db.fields[s.id := s]);
      db := db.(refresh := db.refresh[s.id := h]);
      return Created;
    }

    method GetSession(id: SessionId) returns (a: Answer)
      ensures (a, db) == RedisStep(db, Get(id))
    {
      return Decoded(db, id);
    }

    /** The rotation script, one atomic step; its negative and zero codes all mean that nothing was rotated. */
    method RotateRefresh(id: SessionId, expected: Hash, replacement: Hash, expires: Time) returns (a: Answer)
      modifies this
      ensures (a, db) == RedisStep(old(db), Rotate(id, expected, replacement, expires))
    {
      var code := 1;
      if id !in db.fields {
        code := -1;
      } else if db.fields[id].status != Active {
        code := -2;
      } else if id !in db.refresh {
        code := -3;
      } else if db.refresh[id] != expected {
        db := db.(fields := db.fields[id := db.fields[id].(status := Revoked)]);
        db := db.(refresh := db.refresh - {id});
        code := 0;
      } else {
        db := db.(fields := db.fields[id := db.fields[id].(expires := expires)]);
        db := db.(refresh := db.refresh[id := replacement]);
      }
      return Rotated(code == 1);
    }

    method SetSessionStatus(id: SessionId, status: Status) returns (a: Answer)
      modifies this
      ensures (a, db) == RedisStep(old(db), SetStatus(id, status))
    {
      if id !in db.fields {
        return Missing;
      }
      db := db.(fields := db.fields[id := db.fields[id].(status := status)]);
      if status != Active {
        db := db.(refresh := db.refresh - {id});
      }
      a := GetSession(id);
    }
  }

  // ---- what a store reads back ----

  /** What a store answers about a session. */
  function Reading(m: Memory, id: SessionId): Answer {
    MemoryStep(m, Get(id)).0
  }

  /** After a command a session reads as it was left by the commands about it: created, with another status, with a later
      end after a rotation, revoked after one with a wrong digest; and otherwise as before. */
  lemma ReadsBack(m: Memory, c: Command, id: SessionId)
    ensures var before, answer, now := Reading(m, id), MemoryStep(m, c).0, Reading(MemoryStep(m, c).1, id);
            match c
            case Create(s, _) =>
              && (answer == if Reading(m, s.id) == Missing then Created else AlreadyExists)
              && now == if id == s.id && before == Missing then Found(s) else before
            case Get(_) => now == before
            case SetStatus(i, status) =>
              && now == (if id == i && before.Found? then Found(before.session.(status := status)) else before)
              && (i == id ==> answer == now)
            case Rotate(i, _, _, expires) =>
              if id != i || !before.Found? || before.session.status != Active then now == before && (i == id ==> answer == Rotated(false))
              else if answer == Rotated(true) then now == Found(before.session.(expires := expires))
              else answer == Rotated(false) && now == Found(before.session.(status := Revoked))
  {
  }

  /** Whether the session would rotate for this digest. */
  predicate Rotates(m: Memory, id: SessionId, expected: Hash) {
    MemoryStep(m, Rotate(id, expected, NoHash, 0)).0 == Rotated(true)
  }

  /** The digest a session rotates for is the one it was created with or the one that its last rotation put there; it
      rotates for none while it is not active. */
  lemma RotatesForTheLast(m: Memory, c: Command, id: SessionId, expected: Hash)
    ensures var after := MemoryStep(m, c).1;
            match c
            case Create(s, h) =>
              if id == s.id && Reading(m, id) == Missing then Rotates(after, id, expected) <==> s.status == Active && expected == h
              else Rotates(after, id, expected) <==> Rotates(m, id, expected)
            case Get(_) => after == m
            case SetStatus(i, status) =>
              if id == i && (status != Active || Reading(m, id) == Missing) then !Rotates(after, id, expected)
              else id != i || Reading(m, id) == Found(Reading(m, id).session.(status := Active)) ==>
                     (Rotates(after, id, expected) <==> Rotates(m, id, expected))
            case Rotate(i, tried, replacement, _) =>
              if id != i then Rotates(after, id, expected) <==> Rotates(m, id, expected)
              else Rotates(after, id, expected) <==> Rotates(m, id, tried) && expected == replacement
  {
  }

  // ---- agreement ----

  /** Same sessions, all with a valid lifetime; the same digest for every active session; an inactive session
      keeps its refresh key only while nothing has been done to it since its creation. */
  ghost predicate Related(m: Memory, r: Redis) {
    && m.Keys == r.fields.Keys
    && forall id | id in m ::
         && r.fields[id] == m[id].0 && ValidLifetime(m[id].0)
         && (m[id].0.status == Active ==> id in r.refresh)
         && (id in r.refresh ==> r.refresh[id] == m[id].1)
  }

  /** The commands both stores answer alike for ever after: no session that lost its refresh key is set back
      to active, and no session gets an end that does not follow its creation. */
  predicate Orderly(r: Redis, c: Command) {
    match c
    case Create(s, _) => s.id !in r.fields ==> ValidLifetime(s)
    case Get(_) => true
    case Rotate(id, expected, _, expires) => RedisStep(r, c).0 == Rotated(true) ==> expires > r.fields[id].created
    case SetStatus(id, status) => id in r.fields && status == Active ==> id in r.refresh
  }

  lemma OrderlyStep(m: Memory, r: Redis, c: Command)
    requires Related(m, r) && Orderly(r, c)
    ensures MemoryStep(m, c).0 == RedisStep(r, c).0
    ensures Related(MemoryStep(m, c).1, RedisStep(r, c).1)
  {
  }

  function MemoryAnswers(m: Memory, commands: seq<Command>): seq<Answer>
    decreases |commands|
  {
    if commands == [] then [] else [MemoryStep(m, commands[0]).0] + MemoryAnswers(MemoryStep(m, commands[0]).1, commands[1..])
  }

  function RedisAnswers(r: Redis, commands: seq<Command>): seq<Answer>
    decreases |commands|
  {
    if commands == [] then [] else [RedisStep(r, commands[0]).0] + RedisAnswers(RedisStep(r, commands[0]).1, commands[1..])
  }

  ghost predicate AllOrderly(r: Redis, commands: seq<Command>)
    decreases |commands|
  {
    commands == [] || (Orderly(r, commands[0]) && AllOrderly(RedisStep(r, commands[0]).1, commands[1..]))
  }

  /** On every orderly sequence of commands the two stores give the same answers. */
  lemma {:induction false} StoresAgree(m: Memory, r: Redis, commands: seq<Command>)
    requires Related(m, r) && AllOrderly(r, commands)
    ensures MemoryAnswers(m, commands) == RedisAnswers(r, commands)
    decreases |commands|
  {
    if commands != [] {
      OrderlyStep(m, r, commands[0]);
      StoresAgree(MemoryStep(m, commands[0]).1, RedisStep(r, commands[0]).1, commands[1..]);
    }
  }

  /** How to tell the stores apart after a command that is not orderly. */
  function Probe(r: Redis, c: Command): seq<Command> {
    match c
    case Create(s, _) => [Get(s.id)]
    case Get(_) => []
    case Rotate(id, _, _, _) => [Get(id)]
    case SetStatus(id, _) =>
      if id in r.fields then [Rotate(id, NoHash, NoHash, r.fields[id].created + 1), Get(id)] else []
  }

  /** From related stores a command is safe for every continuation exactly when it is orderly: otherwise the
      stores' answers to it and one or two more commands differ. */
  lemma OrderlyIsExact(m: Memory, r: Redis, c: Command)
    requires Related(m, r)
    ensures Orderly(r, c) ==> forall rest | AllOrderly(RedisStep(r, c).1, rest) ::
                                MemoryAnswers(m, [c] + rest) == RedisAnswers(r, [c] + rest)
    ensures !Orderly(r, c) ==> MemoryAnswers(m, [c] + Probe(r, c)) != RedisAnswers(r, [c] + Probe(r, c))
  {
    if Orderly(r, c) {
      forall rest | AllOrderly(RedisStep(r, c).1, rest)
        ensures MemoryAnswers(m, [c] + rest) == RedisAnswers(r, [c] + rest)
      {
        OrderlyStep(m, r, c);
        AnswersOfTwo(m, r, c, rest);
        StoresAgree(MemoryStep(m, c).1, RedisStep(r, c).1, rest);
      }
    } else if c.SetStatus? {
      ReactivationTold(m, r, c);
    } else {
      var probe := Probe(r, c)[0];
      assert Probe(r, c) == [probe] + [];
      AnswersDiffer(MemoryStep(m, c).1, RedisStep(r, c).1, probe, []);
      AnswersDiffer(m, r, c, Probe(r, c));
    }
  }

  /** A session set back to active works again in memory but not in Redis, where its digest is gone: one
      rotation and a look at the session tell the difference. */
  lemma ReactivationTold(m: Memory, r: Redis, c: Command)
    requires Related(m, r) && c.SetStatus? && !Orderly(r, c)
    ensures MemoryAnswers(m, [c] + Probe(r, c)) != RedisAnswers(r, [c] + Probe(r, c))
  {
    var m', r', rotate := MemoryStep(m, c).1, RedisStep(r, c).1, Probe(r, c)[0];
    assert Probe(r, c) == [rotate] + [Get(c.id)] && [Get(c.id)] == [Get(c.id)] + [];
    AnswersDiffer(MemoryStep(m', rotate).1, RedisStep(r', rotate).1, Get(c.id), []);
    AnswersDiffer(m', r', rotate, [Get(c.id)]);
    AnswersDiffer(m, r, c, Probe(r, c));
  }

  lemma AnswersOfTwo(m: Memory, r: Redis, c: Command, rest: seq<Command>)
    ensures MemoryAnswers(m, [c] + rest) == [MemoryStep(m, c).0] + MemoryAnswers(MemoryStep(m, c).1, rest)
    ensures RedisAnswers(r, [c] + rest) == [RedisStep(r, c).0] + RedisAnswers(RedisStep(r, c).1, rest)
  {
    assert ([c] + rest)[1..] == rest;
  }

  /** A difference now or later is a difference. */
  lemma AnswersDiffer(m: Memory, r: Redis, c: Command, rest: seq<Command>)
    ensures MemoryStep(m, c).0 != RedisStep(r, c).0
            || MemoryAnswers(MemoryStep(m, c).1, rest) != RedisAnswers(RedisStep(r, c).1, rest)
            ==> MemoryAnswers(m, [c] + rest) != RedisAnswers(r, [c] + rest)
  {
    AnswersOfTwo(m, r, c, rest);
    var a, b := MemoryAnswers(m, [c] + rest), RedisAnswers(r, [c] + rest);
    assert a[0] == MemoryStep(m, c).0 && b[0] == RedisStep(r, c).0;
    assert a[1..] == MemoryAnswers(MemoryStep(m, c).1, rest) && b[1..] == RedisAnswers(RedisStep(r, c).1, rest);
  }
}
