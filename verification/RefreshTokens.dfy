/** Refresh tokens: a compare-and-set on `revokedAt`, raced by consumers and revokers. */
module RefreshTokens {
  import opened Options

  datatype Token = Token(userId: string, organizationId: string, tokenHash: string, expiresAt: int,
      revokedAt: Option<int>)

  type Tokens = map<string, Token>

  /** A `consume` call: `now` is read once, before the transaction starts. */
  datatype Phase = Reading | Holding(id: string) | Succeeded(id: string) | Refused

  datatype Consumer = Consumer(tokenHash: string, now: int, phase: Phase)

  datatype State = State(tokens: Tokens, consumers: seq<Consumer>)

  datatype Step =
    | Issue(id: string, userId: string, organizationId: string, tokenHash: string, expiresAt: int)
    | Begin(tokenHash: string, now: int)
    | Find(consumer: nat, found: Option<string>)   // what `findFirst` answers
    | Update(consumer: nat)                        // the conditional `updateMany`
    | Revoke(tokenHash: string, at: int)
    | RevokeAllForUser(userId: string, at: int)
    | RevokeForUser(userId: string, id: string, at: int)

  predicate Usable(t: Token, tokenHash: string, now: int) {
    t.tokenHash == tokenHash && t.revokedAt.None? && t.expiresAt > now
  }

  /** What `findFirst` may answer: a usable row, or none when there is none. */
  predicate Answers(tokens: Tokens, tokenHash: string, now: int, found: Option<string>) {
    match found
    case Some(id) => id in tokens && Usable(tokens[id], tokenHash, now)
    case None => forall id | id in tokens :: !Usable(tokens[id], tokenHash, now)
  }

  /** `updateMany` of the selected rows that are not revoked yet. */
  function RevokeWhere(tokens: Tokens, ids: set<string>, at: int): (r: Tokens)
    ensures r.Keys == tokens.Keys
    ensures forall id | id in tokens ::
      r[id] == if id in ids && tokens[id].revokedAt.None? then tokens[id].(revokedAt := Some(at)) else tokens[id]
  {
    map id | id in tokens ::
      if id in ids && tokens[id].revokedAt.None? then tokens[id].(revokedAt := Some(at)) else tokens[id]
  }

  function WithHash(tokens: Tokens, tokenHash: string): set<string> {
    set id | id in tokens && tokens[id].tokenHash == tokenHash
  }

  function OfUser(tokens: Tokens, userId: string): set<string> {
    set id | id in tokens && tokens[id].userId == userId
  }

  function Create(tokens: Tokens, id: string, token: Token): Tokens {
    if id in tokens || exists other | other in tokens :: tokens[other].tokenHash == token.tokenHash then tokens
    else tokens[id := token]
  }

  function Goto(s: State, c: nat, phase: Phase): State
    requires c < |s.consumers|
  {
    s.(consumers := s.consumers[c := s.consumers[c].(phase := phase)])
  }

  function Take(s: State, step: Step): State {
    match step
    case Issue(id, userId, organizationId, tokenHash, expiresAt) =>
      s.(tokens := Create(s.tokens, id, Token(userId, organizationId, tokenHash, expiresAt, None)))
    case Begin(tokenHash, now) => s.(consumers := s.consumers + [Consumer(tokenHash, now, Reading)])
    case Find(c, found) =>
      if c < |s.consumers| && s.consumers[c].phase.Reading?
        && Answers(s.tokens, s.consumers[c].tokenHash, s.consumers[c].now, found)
      then Goto(s, c, if found.Some? then Holding(found.value) else Refused) else s
    case Update(c) =>
      if c < |s.consumers| && s.consumers[c].phase.Holding? then
        var id := s.consumers[c].phase.id;
        if id in s.tokens && s.tokens[id].revokedAt.None? then
          Goto(s, c, Succeeded(id)).(tokens := RevokeWhere(s.tokens, {id}, s.consumers[c].now))
        else Goto(s, c, Refused)
      else s
    case Revoke(tokenHash, at) =>
      s.(tokens := RevokeWhere(s.tokens, WithHash(s.tokens, tokenHash), at))
    case RevokeAllForUser(userId, at) =>
      s.(tokens := RevokeWhere(s.tokens, OfUser(s.tokens, userId), at))
    case RevokeForUser(userId, id, at) =>
      s.(tokens := RevokeWhere(s.tokens, OfUser(s.tokens, userId) * {id}, at))
  }

  function After(s: State, steps: seq<Step>): State
    decreases |steps|
  {
    if steps == [] then s else Take(After(s, steps[..|steps| - 1]), steps[|steps| - 1])
  }

  const EMPTY := State(map[], [])

  // ---------------------------------------------------------------- invariant

  ghost predicate ConsumerOk(s: State, c: Consumer) {
    match c.phase
    case Holding(id) => id in s.tokens && s.tokens[id].tokenHash == c.tokenHash && s.tokens[id].expiresAt > c.now
    case Succeeded(id) =>
      id in s.tokens && s.tokens[id].tokenHash == c.tokenHash && s.tokens[id].expiresAt > c.now
        && s.tokens[id].revokedAt == Some(c.now)
    case _ => true
  }

  ghost predicate Inv(s: State) {
    && (forall c | 0 <= c < |s.consumers| :: ConsumerOk(s, s.consumers[c]))
    && (forall c, d | 0 <= c < d < |s.consumers| ::
      !(s.consumers[c].phase.Succeeded? && s.consumers[c].phase == s.consumers[d].phase))
    && (forall i, j | i in s.tokens && j in s.tokens && s.tokens[i].tokenHash == s.tokens[j].tokenHash :: i == j)
  }

  /** Rows are only added, and only an unset `revokedAt` is ever written. */
  ghost predicate TokensGrow(t: Tokens, t': Tokens) {
    forall id | id in t :: id in t' && t'[id] == t[id].(revokedAt := t'[id].revokedAt)
      && (t[id].revokedAt.Some? ==> t'[id] == t[id])
  }

  lemma TakeGrows(s: State, step: Step)
    ensures TokensGrow(s.tokens, Take(s, step).tokens)
  {
  }

  lemma ConsumersKept(s: State, s': State)
    requires Inv(s) && TokensGrow(s.tokens, s'.tokens)
    ensures forall c | 0 <= c < |s.consumers| :: ConsumerOk(s', s.consumers[c])
  {
    forall c | 0 <= c < |s.consumers| ensures ConsumerOk(s', s.consumers[c]) {
      assert ConsumerOk(s, s.consumers[c]);
    }
  }

  lemma UpdateKeepsInv(s: State, c: nat)
    requires Inv(s)
    ensures Inv(Take(s, Update(c)))
  {
    var s' := Take(s, Update(c));
    TakeGrows(s, Update(c));
    ConsumersKept(s, s');
    if c < |s.consumers| { assert ConsumerOk(s, s.consumers[c]); }
    forall d | 0 <= d < |s.consumers| && s.consumers[d].phase.Succeeded?
      ensures s.consumers[d].phase.id in s.tokens && s.tokens[s.consumers[d].phase.id].revokedAt.Some?
    {
      assert ConsumerOk(s, s.consumers[d]);
    }
  }

  lemma TakeKeepsInv(s: State, step: Step)
    requires Inv(s)
    ensures Inv(Take(s, step))
  {
    if step.Update? {
      UpdateKeepsInv(s, step.consumer);
    } else {
      TakeGrows(s, step);
      ConsumersKept(s, Take(s, step));
    }
  }

  lemma {:induction false} AfterInv(s: State, steps: seq<Step>)
    requires Inv(s)
    ensures Inv(After(s, steps))
    decreases |steps|
  {
    if steps != [] {
      AfterInv(s, steps[..|steps| - 1]);
      TakeKeepsInv(After(s, steps[..|steps| - 1]), steps[|steps| - 1]);
    }
  }

  // ---------------------------------------------------------------- main results

  /** Each token is consumed successfully at most once. */
  lemma ConsumedAtMostOnce(steps: seq<Step>, c: nat, d: nat)
    requires var s := After(EMPTY, steps);
             && c < |s.consumers| && d < |s.consumers|
             && s.consumers[c].phase.Succeeded? && s.consumers[d].phase.Succeeded?
             && s.consumers[c].tokenHash == s.consumers[d].tokenHash
    ensures c == d
  {
    AfterInv(EMPTY, steps);
    var s := After(EMPTY, steps);
    assert ConsumerOk(s, s.consumers[c]) && ConsumerOk(s, s.consumers[d]);
  }

  /** A consumption that succeeded is recorded in the row, at a time when the token had not expired. */
  lemma SuccessIsRecorded(steps: seq<Step>, c: nat)
    requires c < |After(EMPTY, steps).consumers| && After(EMPTY, steps).consumers[c].phase.Succeeded?
    ensures var s := After(EMPTY, steps);
            var me := s.consumers[c];
            me.phase.id in s.tokens && s.tokens[me.phase.id].revokedAt == Some(me.now)
              && me.now < s.tokens[me.phase.id].expiresAt
  {
    AfterInv(EMPTY, steps);
    assert ConsumerOk(After(EMPTY, steps), After(EMPTY, steps).consumers[c]);
  }

  /** A revoked token stays revoked, with the time of its first revocation, and is never consumed again:
      whoever holds it already is refused too. */
  lemma {:induction false} RevokedForGood(s: State, steps: seq<Step>, id: string)
    requires Inv(s) && id in s.tokens && s.tokens[id].revokedAt.Some?
    ensures var s' := After(s, steps);
      && id in s'.tokens && s'.tokens[id] == s.tokens[id] && |s.consumers| <= |s'.consumers|
      && forall c | 0 <= c < |s'.consumers| && s'.consumers[c].phase == Succeeded(id) ::
           c < |s.consumers| && s.consumers[c].phase == Succeeded(id)
    decreases |steps|
  {
    if steps != [] {
      var mid := After(s, steps[..|steps| - 1]);
      RevokedForGood(s, steps[..|steps| - 1], id);
      TakeGrows(mid, steps[|steps| - 1]);
    }
  }

  /** Who revokes a token, row by row: its holder's update, a revocation of its hash, of all its user's tokens, or of
      itself by its user. A time once set stays. */
  lemma RevokedByWhom(steps: seq<Step>, step: Step, id: string)
    requires id in After(EMPTY, steps).tokens
    ensures var s := After(EMPTY, steps);
            var t := s.tokens[id];
            id in Take(s, step).tokens && Take(s, step).tokens[id] ==
              if t.revokedAt.Some? then t
              else if (step.Revoke? && step.tokenHash == t.tokenHash)
                   || (step.RevokeAllForUser? && step.userId == t.userId)
                   || (step.RevokeForUser? && step.userId == t.userId && step.id == id)
              then t.(revokedAt := Some(step.at))
              else if step.Update? && step.consumer < |s.consumers| && s.consumers[step.consumer].phase == Holding(id)
              then t.(revokedAt := Some(s.consumers[step.consumer].now))
              else t
  {
  }

  /** A caller who is not disturbed consumes a token exactly when it is not revoked and its expiry lies ahead. */
  lemma UndisturbedConsume(steps: seq<Step>, id: string, now: int)
    requires id in After(EMPTY, steps).tokens
    ensures var s := After(EMPTY, steps);
            var t, c := s.tokens[id], |s.consumers|;
            var s' := Take(Take(Take(s, Begin(t.tokenHash, now)), Find(c, Some(id))), Update(c));
            (c < |s'.consumers| && s'.consumers[c].phase == Succeeded(id)) <==> t.revokedAt.None? && now < t.expiresAt
  {
    var s := After(EMPTY, steps);
    var t, c := s.tokens[id], |s.consumers|;
    var s1 := Take(s, Begin(t.tokenHash, now));
    assert s1.consumers[c] == Consumer(t.tokenHash, now, Reading);
    var s2 := Take(s1, Find(c, Some(id)));
    assert s2.tokens == s.tokens;
    assert s2.consumers[c].phase == if t.revokedAt.None? && now < t.expiresAt then Holding(id) else Reading;
  }

  /** A new token has the columns it was issued with, unless its id or hash is taken: then nothing changes. */
  lemma IssuedToken(steps: seq<Step>, id: string, userId: string, organizationId: string, tokenHash: string,
      expiresAt: int)
    ensures var s := After(EMPTY, steps);
            var s' := Take(s, Issue(id, userId, organizationId, tokenHash, expiresAt));
            if id in s.tokens || exists other | other in s.tokens :: s.tokens[other].tokenHash == tokenHash then s' == s
            else && id in s'.tokens && s'.tokens == s.tokens[id := s'.tokens[id]]
                 && s'.tokens[id].userId == userId && s'.tokens[id].organizationId == organizationId
                 && s'.tokens[id].tokenHash == tokenHash && s'.tokens[id].expiresAt == expiresAt
                 && s'.tokens[id].revokedAt.None?
  {
  }

  // ---------------------------------------------------------------- the service

  class RefreshTokenService {
    var tokens: Tokens

    constructor ()
      ensures tokens == map[]
    {
      tokens := map[];
    }

    method Issue(id: string, userId: string, organizationId: string, tokenHash: string, now: int)
        returns (created: bool)
      modifies this
      ensures tokens == Create(old(tokens), id,
          Token(userId, organizationId, tokenHash, now + 30 * 24 * 60 * 60 * 1000, None))
      ensures created == (tokens != old(tokens))
    {
      var ttlSeconds := 30 * 24 * 60 * 60;
      if id in tokens || exists other | other in tokens :: tokens[other].tokenHash == tokenHash {
        return false;
      }
      tokens := tokens[id := Token(userId, organizationId, tokenHash, now + ttlSeconds * 1000, None)];
      assert id !in old(tokens) && id in tokens;
      return true;
    }

    /** The read inside `consume`. */
    method FindUsable(tokenHash: string, now: int) returns (found: Option<string>)
      ensures Answers(tokens, tokenHash, now, found)
    {
      if id :| id in tokens && Usable(tokens[id], tokenHash, now) {
        return Some(id);
      }
      return None;
    }

    /** The conditional update inside `consume`: one row, if it is still not revoked. */
    method ConsumeFound(id: string, now: int) returns (count: nat)
      modifies this
      ensures tokens == RevokeWhere(old(tokens), {id}, now)
      ensures count == 1 <==> id in old(tokens) && old(tokens)[id].revokedAt.None?
      ensures count == 0 ==> tokens == old(tokens)
      ensures count <= 1
    {
      if id !in tokens || tokens[id].revokedAt.Some? {
        return 0;
      }
      tokens := tokens[id := tokens[id].(revokedAt := Some(now))];
      return 1;
    }

    /** `consume` with nothing in between: it succeeds exactly when the token is usable, and uses it up. */
    method Consume(tokenHash: string, now: int) returns (consumed: Option<string>)
      modifies this
      ensures consumed.Some? <==> exists id :: id in old(tokens) && Usable(old(tokens)[id], tokenHash, now)
      ensures consumed.Some? ==>
        && consumed.value in old(tokens) && Usable(old(tokens)[consumed.value], tokenHash, now)
        && tokens == RevokeWhere(old(tokens), {consumed.value}, now)
      ensures consumed.None? ==> tokens == old(tokens)
    {
      var stored := FindUsable(tokenHash, now);
      if stored.None? {
        return None;
      }
      var count := ConsumeFound(stored.value, now);
      return if count == 1 then stored else None;
    }

    method Revoke(tokenHash: string, at: int)
      modifies this
      ensures tokens == RevokeWhere(old(tokens), WithHash(old(tokens), tokenHash), at)
    {
      tokens := map id | id in tokens ::
        if tokens[id].tokenHash == tokenHash && tokens[id].revokedAt.None? then tokens[id].(revokedAt := Some(at))
        else tokens[id];
    }

    method RevokeAllForUser(userId: string, at: int)
      modifies this
      ensures tokens == RevokeWhere(old(tokens), OfUser(old(tokens), userId), at)
    {
      tokens := map id | id in tokens ::
        if tokens[id].userId == userId && tokens[id].revokedAt.None? then tokens[id].(revokedAt := Some(at))
        else tokens[id];
    }

    method RevokeForUser(userId: string, id: string, at: int)
      modifies this
      ensures tokens == RevokeWhere(old(tokens), OfUser(old(tokens), userId) * {id}, at)
    {
      if id in tokens && tokens[id].userId == userId && tokens[id].revokedAt.None? {
        tokens := tokens[id := tokens[id].(revokedAt := Some(at))];
      }
    }
  }
}
