/** Access tokens: revocations are kept in a map that is pruned of expired entries at every use. */
module AccessTokens {
  import opened Options

  const TTL_SECONDS := 15 * 60
  const ISSUER := "aegisweb-api"
  const AUDIENCE := "aegisweb-dashboard"

  /** What the service reads of a payload whose signature it has checked. */
  datatype Payload = Payload(typ: string, iss: string, aud: string, jti: string, exp: int)

  type Revocations = map<string, int>

  function Seconds(nowMs: nat): nat {
    nowMs / 1000
  }

  function Signed(jti: string, nowMs: nat): Payload {
    Payload("access", ISSUER, AUDIENCE, jti, Seconds(nowMs) + TTL_SECONDS)
  }

  predicate Current(p: Payload, nowMs: nat) {
    p.typ == "access" && p.iss == ISSUER && p.aud == AUDIENCE && p.exp > Seconds(nowMs)
  }

  function Pruned(revoked: Revocations, nowMs: nat): Revocations {
    map jti | jti in revoked && revoked[jti] > Seconds(nowMs) :: revoked[jti]
  }

  /** The map after a verification, and its answer. */
  function Verify(revoked: Revocations, p: Payload, nowMs: nat): (Revocations, bool) {
    if !Current(p, nowMs) then (revoked, false)
    else
      var pruned := Pruned(revoked, nowMs);
      (pruned, p.jti !in pruned)
  }

  function Revoke(revoked: Revocations, p: Payload, nowMs: nat): (Revocations, bool) {
    var (checked, accepted) := Verify(revoked, p, nowMs);
    if accepted then (Pruned(checked[p.jti := p.exp], nowMs), true) else (checked, false)
  }

  // ---------------------------------------------------------------- the service

  class TokenService {
    var revoked: Revocations

    constructor ()
      ensures revoked == map[]
    {
      revoked := map[];
    }

    method DeleteExpiredRevocations(nowMs: nat)
      modifies this
      ensures revoked == Pruned(old(revoked), nowMs)
    {
      var now := nowMs / 1000;
      var rest := revoked.Keys;
      while rest != {}
        invariant rest <= revoked.Keys <= old(revoked).Keys
        invariant forall jti | jti in revoked :: revoked[jti] == old(revoked)[jti]
        invariant forall jti | jti in old(revoked) && jti !in rest :: jti in revoked <==> old(revoked)[jti] > now
        decreases rest
      {
        var jti :| jti in rest;
        if revoked[jti] <= now {
          revoked := revoked - {jti};
        }
        rest := rest - {jti};
      }
    }

    /** `signAccessToken` with a random `jti`. */
    method SignAccessToken(jti: string, nowMs: nat) returns (p: Payload)
      ensures p == Signed(jti, nowMs) && Current(p, nowMs) && p.jti == jti && p.exp == nowMs / 1000 + 900
    {
      var issuedAt := nowMs / 1000;
      return Payload("access", ISSUER, AUDIENCE, jti, issuedAt + TTL_SECONDS);
    }

    method VerifyAccessToken(p: Payload, nowMs: nat) returns (accepted: bool)
      modifies this
      ensures (revoked, accepted) == Verify(old(revoked), p, nowMs)
    {
      if p.typ != "access" || p.iss != ISSUER || p.aud != AUDIENCE || p.exp <= nowMs / 1000 {
        return false;
      }
      DeleteExpiredRevocations(nowMs);
      if p.jti in revoked {
        return false;
      }
      return true;
    }

    method RevokeAccessToken(p: Payload, nowMs: nat) returns (accepted: bool)
      modifies this
      ensures (revoked, accepted) == Revoke(old(revoked), p, nowMs)
    {
      accepted := VerifyAccessToken(p, nowMs);
      if !accepted {
        return;
      }
      revoked := revoked[p.jti := p.exp];
      DeleteExpiredRevocations(nowMs);
    }
  }

  // ---------------------------------------------------------------- agreement with a set that is never pruned

  datatype Op = OSign(jti: string, nowMs: nat) | OVerify(p: Payload, nowMs: nat) | ORevoke(p: Payload, nowMs: nat)

  function After(ops: seq<Op>): Revocations {
    if ops == [] then map[]
    else
      var n := |ops| - 1;
      match ops[n]
      case OSign(_, _) => After(ops[..n])
      case OVerify(p, nowMs) => Verify(After(ops[..n]), p, nowMs).0
      case ORevoke(p, nowMs) => Revoke(After(ops[..n]), p, nowMs).0
  }

  predicate UnprunedAccepts(ever: set<string>, p: Payload, nowMs: nat) {
    Current(p, nowMs) && p.jti !in ever
  }

  /** The tokens a service that never forgets has revoked. */
  function EverRevoked(ops: seq<Op>): set<string> {
    if ops == [] then {}
    else
      var n := |ops| - 1;
      var ever := EverRevoked(ops[..n]);
      if ops[n].ORevoke? && UnprunedAccepts(ever, ops[n].p, ops[n].nowMs) then ever + {ops[n].p.jti} else ever
  }

  predicate SignedIn(ops: seq<Op>, p: Payload) {
    exists k | 0 <= k < |ops| :: ops[k].OSign? && p == Signed(ops[k].jti, ops[k].nowMs)
  }

  /** The clock never goes back, every token id is random, and only tokens that were signed come back: others fail
      the signature check. */
  ghost predicate Issued(ops: seq<Op>) {
    && (forall i, j | 0 <= i < j < |ops| :: ops[i].nowMs <= ops[j].nowMs)
    && (forall i, j | 0 <= i < j < |ops| && ops[i].OSign? && ops[j].OSign? :: ops[i].jti != ops[j].jti)
    && (forall i | 0 <= i < |ops| && !ops[i].OSign? :: SignedIn(ops[..i], ops[i].p))
  }

  /** When the token with this id expires. */
  function ExpiryOf(ops: seq<Op>, jti: string): int {
    if ops == [] then 0
    else
      var n := |ops| - 1;
      if ops[n].OSign? && ops[n].jti == jti then Signed(jti, ops[n].nowMs).exp else ExpiryOf(ops[..n], jti)
  }

  lemma {:induction false} SignedExpiry(ops: seq<Op>, k: nat)
    requires Issued(ops) && k < |ops| && ops[k].OSign?
    ensures ExpiryOf(ops, ops[k].jti) == Signed(ops[k].jti, ops[k].nowMs).exp
  {
    var n := |ops| - 1;
    if k < n {
      IssuedPrefix(ops, n);
      SignedExpiry(ops[..n], k);
    }
  }

  lemma IssuedPrefix(ops: seq<Op>, n: nat)
    requires Issued(ops) && n <= |ops|
    ensures Issued(ops[..n])
  {
    forall i | 0 <= i < n && !ops[i].OSign? ensures SignedIn(ops[..n][..i], ops[..n][i].p) {
      assert ops[..n][..i] == ops[..i];
    }
  }

  /** A token that comes back expires when its id says. */
  lemma ExpiryFixed(ops: seq<Op>, i: nat)
    requires Issued(ops) && i < |ops| && !ops[i].OSign?
    ensures ops[i].p.exp == ExpiryOf(ops, ops[i].p.jti)
  {
    var k :| 0 <= k < i && ops[..i][k].OSign? && ops[i].p == Signed(ops[..i][k].jti, ops[..i][k].nowMs);
    SignedExpiry(ops, k);
  }

  /** The clock never goes back, and a token id belongs to one token: `exp` is fixed when it is signed. */
  predicate Genuine(ops: seq<Op>, expOf: string -> int) {
    && (forall i | 0 <= i < |ops| && !ops[i].OSign? :: ops[i].p.exp == expOf(ops[i].p.jti))
    && (forall i, j | 0 <= i < j < |ops| :: ops[i].nowMs <= ops[j].nowMs)
  }

  lemma IssuedIsGenuine(ops: seq<Op>)
    requires Issued(ops)
    ensures Genuine(ops, jti => ExpiryOf(ops, jti))
  {
    forall i | 0 <= i < |ops| && !ops[i].OSign? ensures ops[i].p.exp == ExpiryOf(ops, ops[i].p.jti) {
      ExpiryFixed(ops, i);
    }
  }

  lemma {:induction false} PrunedHoldsUnexpired(ops: seq<Op>, expOf: string -> int, nowMs: nat)
    requires Genuine(ops, expOf) && (ops != [] ==> ops[|ops| - 1].nowMs <= nowMs)
    ensures forall jti | jti in After(ops) :: jti in EverRevoked(ops) && After(ops)[jti] == expOf(jti)
    ensures forall jti | jti in EverRevoked(ops) && expOf(jti) > Seconds(nowMs) :: jti in After(ops)
  {
    if ops != [] {
      var n := |ops| - 1;
      PrunedHoldsUnexpired(ops[..n], expOf, ops[n].nowMs);
    }
  }

  /** After any run of calls the pruned map gives every signed token the answer the unpruned set gives. */
  lemma PrunedAgreesWithUnpruned(ops: seq<Op>, p: Payload, nowMs: nat)
    requires Issued(ops + [OVerify(p, nowMs)])
    ensures Verify(After(ops), p, nowMs).1 == UnprunedAccepts(EverRevoked(ops), p, nowMs)
  {
    var all := ops + [OVerify(p, nowMs)];
    var expOf := jti => ExpiryOf(all, jti);
    IssuedIsGenuine(all);
    assert all[|ops|] == OVerify(p, nowMs) && forall i | 0 <= i < |ops| :: ops[i] == all[i];
    PrunedHoldsUnexpired(ops, expOf, nowMs);
  }

  lemma {:induction false} EverRevokedGrows(ops: seq<Op>, later: seq<Op>)
    ensures EverRevoked(ops) <= EverRevoked(ops + later)
  {
    if later == [] {
      assert ops + later == ops;
    } else {
      assert (ops + later)[..|ops + later| - 1] == ops + later[..|later| - 1];
      EverRevokedGrows(ops, later[..|later| - 1]);
    }
  }

  /** A token whose revocation succeeded is rejected for good. */
  lemma RevokedNeverAccepted(ops: seq<Op>, p: Payload, at: nat, later: seq<Op>, nowMs: nat)
    requires Revoke(After(ops), p, at).1
    requires Issued(ops + [ORevoke(p, at)] + later + [OVerify(p, nowMs)])
    ensures !Verify(After(ops + [ORevoke(p, at)] + later), p, nowMs).1
  {
    var upTo := ops + [ORevoke(p, at)];
    var all := upTo + later + [OVerify(p, nowMs)];
    IssuedPrefix(all, |ops| + 1);
    assert all[..|ops| + 1] == upTo && upTo[..|ops|] == ops;
    RevokedIsRecorded(ops, p, at);
    EverRevokedGrows(upTo, later);
    PrunedAgreesWithUnpruned(upTo + later, p, nowMs);
  }

  lemma RevokedIsRecorded(ops: seq<Op>, p: Payload, at: nat)
    requires Revoke(After(ops), p, at).1 && Issued(ops + [ORevoke(p, at)])
    ensures p.jti in EverRevoked(ops + [ORevoke(p, at)])
  {
    var upTo := ops + [ORevoke(p, at)];
    IssuedIsGenuine(upTo);
    assert upTo[..|ops|] == ops && forall i | 0 <= i < |ops| :: ops[i] == upTo[i];
    assert upTo[|ops|] == ORevoke(p, at);
    PrunedHoldsUnexpired(ops, jti => ExpiryOf(upTo, jti), at);
  }

  /** A signed token is accepted for a quarter of an hour, until it is revoked. */
  lemma SignedTokenLives(ops: seq<Op>, k: nat, nowMs: nat)
    requires k < |ops| && ops[k].OSign?
    requires Issued(ops + [OVerify(Signed(ops[k].jti, ops[k].nowMs), nowMs)])
    ensures Verify(After(ops), Signed(ops[k].jti, ops[k].nowMs), nowMs).1
       <==> nowMs / 1000 < ops[k].nowMs / 1000 + 900 && ops[k].jti !in EverRevoked(ops)
  {
    PrunedAgreesWithUnpruned(ops, Signed(ops[k].jti, ops[k].nowMs), nowMs);
  }

  /** Whatever the payload says: it is accepted exactly when it is an access token of this issuer for this audience,
      its expiry lies after the current second, and no revocation that has not expired names it. */
  lemma VerifyMeans(revoked: Revocations, p: Payload, nowMs: nat)
    ensures Verify(revoked, p, nowMs).1 <==>
              && p.typ == "access" && p.iss == "aegisweb-api" && p.aud == "aegisweb-dashboard"
              && nowMs / 1000 < p.exp && !(p.jti in revoked && nowMs / 1000 < revoked[p.jti])
  {
  }

  /** What a successful call leaves in the map is unexpired. */
  lemma RemainingUnexpired(revoked: Revocations, p: Payload, nowMs: nat)
    ensures var (left, accepted) := Verify(revoked, p, nowMs);
            Current(p, nowMs) ==> forall jti | jti in left :: left[jti] > Seconds(nowMs)
    ensures var (left, accepted) := Revoke(revoked, p, nowMs);
            Current(p, nowMs) ==> forall jti | jti in left :: left[jti] > Seconds(nowMs)
  {
  }
}
