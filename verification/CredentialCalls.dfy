/** The calls of the credential service as steps, and what every one of them keeps. */
module CredentialCalls {
  import opened Options
  import opened Json
  import opened Vault
  import opened Credentials
  import Decimal

  datatype Call =
    | CCreate(w: World, caller: Option<string>, id: string, vendorId: string, title: string, secret: Secret, iv: string)
    | CUpdate(w: World, caller: Option<string>, id: string, changes: Changes, iv: string)
    | CGrant(w: World, caller: Option<string>, id: string, agentId: string, scope: string, newId: string)
    | CRevokeGrant(caller: Option<string>, id: string, grantId: string, now: int)
    | CRevoke(caller: Option<string>, id: string, now: int)
    | CDecrypt(w: World, id: string, runId: string, now: int)

  ghost function Apply(env: Env, call: Call, s: State): Effect {
    match call
    case CCreate(w, caller, id, vendorId, title, secret, iv) =>
      Create(env, w, s, caller, id, vendorId, title, secret, iv)
    case CUpdate(w, caller, id, changes, iv) => Update(env, w, s, caller, id, changes, iv)
    case CGrant(w, caller, id, agentId, scope, newId) => GrantTo(w, s, caller, id, agentId, scope, newId)
    case CRevokeGrant(caller, id, grantId, now) => RevokeGrant(s, caller, id, grantId, now)
    case CRevoke(caller, id, now) => Revoke(s, caller, id, now)
    case CDecrypt(w, id, runId, now) => DecryptForRun(env, w, s, id, runId, now)
  }

  ghost function After(env: Env, calls: seq<Call>): State {
    if calls == [] then EMPTY
    else Apply(env, calls[|calls| - 1], After(env, calls[..|calls| - 1])).state
  }

  /** The secret a call stores for the credential when it succeeds. */
  function Stores(call: Call, id: string): Option<Json> {
    if call.CCreate? && call.id == id then Some(call.secret)
    else if call.CUpdate? && call.id == id && call.changes.secret.Some? then Some(call.changes.secret.value)
    else None
  }

  predicate Revokes(call: Call, id: string) {
    call.CRevoke? && call.id == id
  }

  // ---------------------------------------------------------------- one call, one row

  /** The payload is the secret sealed for this row at its key version. */
  predicate Sealed(env: Env, row: Credential, id: string, secret: Json) {
    && secret.Object? && WellFormed(secret) && ValidMasterKey(env.masterKey)
    && row.payload.keyVersion == row.encryptionVersion
    && Encrypt(env.cipher, secret, env.masterKey, RowContext(row.org, id, row.encryptionVersion), row.payload.iv)
       == Some(row.payload)
  }

  predicate SameSecret(a: Credential, b: Credential) {
    a.org == b.org && a.payload == b.payload && a.encryptionVersion == b.encryptionVersion
  }

  /** From `s` to `s'` the credential gets `stored` sealed under its next key version, or keeps its payload. */
  predicate RowStep(env: Env, s: State, s': State, id: string, stored: Option<Json>, revoked: bool) {
    && (id in s'.credentials <==> id in s.credentials || stored.Some?)
    && (revoked ==> id in s.credentials)
    && (id in s.credentials && id in s'.credentials ==>
        s'.credentials[id].org == s.credentials[id].org
        && (stored.None? ==> SameSecret(s.credentials[id], s'.credentials[id])))
    && (id in s'.credentials && stored.Some? ==>
        && Sealed(env, s'.credentials[id], id, stored.value)
        && s'.credentials[id].encryptionVersion
           == (if id in s.credentials then NextKeyVersion(s.credentials[id].encryptionVersion) else FIRST_VERSION))
    && (id in s'.credentials ==>
        (s'.credentials[id].status == Revoked <==>
         (id in s.credentials && s.credentials[id].status == Revoked) || revoked))
  }

  lemma StoreStep(env: Env, s: State, call: Call, id: string)
    requires call.CCreate? || call.CUpdate?
    ensures var e := Apply(env, call, s);
            RowStep(env, s, e.state, id, if e.outcome == Done then Stores(call, id) else None, false)
  {
  }

  lemma CallStep(env: Env, s: State, call: Call, id: string)
    ensures var e := Apply(env, call, s);
            RowStep(env, s, e.state, id, if e.outcome == Done then Stores(call, id) else None,
                    e.outcome == Done && Revokes(call, id))
  {
    if call.CCreate? || call.CUpdate? {
      StoreStep(env, s, call, id);
    }
  }

  lemma FirstIsOne()
    ensures FIRST_VERSION == Version(1)
  {
    assert Decimal.Print(1) == "1";
  }

  // ---------------------------------------------------------------- grants

  /** From `s` to `s'` grants stay unique, and this pair's grant is set, withdrawn or kept. */
  ghost predicate GrantStep(s: State, s': State, id: string, agentId: string, given: bool, withdrawn: bool) {
    && OneGrantEach(s'.grants)
    && (Granted(s', id, agentId) <==> given || (Granted(s, id, agentId) && !withdrawn))
  }

  lemma GrantCall(w: World, s: State, caller: Option<string>, id: string, agent: string, scope: string, newId: string,
                  credentialId: string, agentId: string)
    requires OneGrantEach(s.grants)
    ensures var e := GrantTo(w, s, caller, id, agent, scope, newId);
            GrantStep(s, e.state, credentialId, agentId,
                      e.outcome == Done && id == credentialId && agent == agentId, false)
  {
    var e := GrantTo(w, s, caller, id, agent, scope, newId);
    if e.outcome == Done {
      var slot := GrantSlot(s.grants, id, agent, newId);
      forall g | g in s.grants && g != slot ensures !For(s.grants[g], id, agent) {
        assert e.state.grants[slot] == Grant(id, agent, scope, None);
      }
      PairSet(s, e.state, slot, credentialId, agentId);
    }
  }

  lemma PairSet(s: State, s': State, slot: string, credentialId: string, agentId: string)
    requires OneGrantEach(s.grants) && slot in s'.grants && s'.grants == s.grants[slot := s'.grants[slot]]
    requires var row := s'.grants[slot];
      && row.revokedAt.None?
      && (slot in s.grants ==> For(s.grants[slot], row.credentialId, row.agentId))
      && forall g | g in s.grants && g != slot :: !For(s.grants[g], row.credentialId, row.agentId)
    ensures GrantStep(s, s', credentialId, agentId, For(s'.grants[slot], credentialId, agentId), false)
  {
    if For(s'.grants[slot], credentialId, agentId) {
      assert Granted(s', credentialId, agentId);
    } else {
      assert forall g | g in s.grants && For(s.grants[g], credentialId, agentId) ::
        g != slot && s'.grants[g] == s.grants[g];
      assert forall g | g in s'.grants && For(s'.grants[g], credentialId, agentId) ::
        g != slot && s'.grants[g] == s.grants[g];
    }
  }

  lemma RevokeGrantCall(s: State, caller: Option<string>, id: string, grantId: string, now: int,
                        credentialId: string, agentId: string)
    requires OneGrantEach(s.grants)
    ensures var e := RevokeGrant(s, caller, id, grantId, now);
            GrantStep(s, e.state, credentialId, agentId, false,
              e.outcome == Done && grantId in s.grants && For(s.grants[grantId], credentialId, agentId))
  {
    var e := RevokeGrant(s, caller, id, grantId, now);
    if e.outcome == Done {
      assert forall g | g in s.grants ::
        (g in e.state.grants
         && e.state.grants[g].credentialId == s.grants[g].credentialId
           && e.state.grants[g].agentId == s.grants[g].agentId
         && (g != grantId ==> e.state.grants[g] == s.grants[g]));
      if Granted(s, credentialId, agentId) && !For(s.grants[grantId], credentialId, agentId) {
        var g :| g in s.grants && For(s.grants[g], credentialId, agentId) && s.grants[g].revokedAt.None?;
        assert g in e.state.grants && e.state.grants[g] == s.grants[g];
      }
    }
  }

  // ---------------------------------------------------------------- sealed payloads

  lemma SealedOpens(env: Env, row: Credential, id: string, secret: Json)
    requires Authenticated(env.cipher) && Sealed(env, row, id, secret)
    ensures Decrypt(env.cipher, row.payload, env.masterKey, RowContext(row.org, id, row.encryptionVersion))
        == Plain(secret)
  {
    var ctx := RowContext(row.org, id, row.encryptionVersion);
    OpensIffSameContext(env.cipher, secret, env.masterKey, ctx, row.payload.iv, ctx);
  }

  lemma SealedPayloadOpens(env: Env, row: Credential, id: string, secret: Json)
    requires Authenticated(env.cipher) && Sealed(env, row, id, secret)
    ensures var p := row.payload;
      && p.aad == Aad(RowContext(row.org, id, row.encryptionVersion))
      && env.cipher.open(env.cipher.derive(env.masterKey), p.iv, p.aad, p.ciphertext, p.tag) == Some(Stringify(secret))
      && ParseObject(Stringify(secret)) == Plain(secret)
  {
    ParseRoundTrip(secret);
  }

  /** A payload copied from another row, or kept from an earlier key version, is never opened. */
  lemma MovedPayloadRefused(env: Env, from: Credential, fromId: string, secret: Json, to: Credential, toId: string)
    requires Authenticated(env.cipher) && Sealed(env, from, fromId, secret) && (from.org != "" || fromId != "")
    requires (from.org, fromId, from.encryptionVersion) != (to.org, toId, to.encryptionVersion)
    ensures Decrypt(env.cipher, from.payload, env.masterKey, RowContext(to.org, toId, to.encryptionVersion))
        == ContextMismatch
  {
    OpensIffSameContext(env.cipher, secret, env.masterKey, RowContext(from.org, fromId, from.encryptionVersion),
                        from.payload.iv, RowContext(to.org, toId, to.encryptionVersion));
  }

  // ---------------------------------------------------------------- what every call keeps

  ghost predicate RowSealed(env: Env, s: State, id: string)
    requires id in s.credentials
  {
    exists secret :: Sealed(env, s.credentials[id], id, secret)
  }

  /** Every row holds a secret sealed for it under its key version, and no pair has two grants. */
  ghost predicate Inv(env: Env, s: State) {
    (forall id | id in s.credentials :: RowSealed(env, s, id)) && OneGrantEach(s.grants)
  }

  lemma CallKeepsInv(env: Env, s: State, call: Call)
    requires Inv(env, s)
    ensures Inv(env, Apply(env, call, s).state)
  {
    var e := Apply(env, call, s);
    forall id | id in e.state.credentials ensures RowSealed(env, e.state, id) {
      CallKeepsSealed(env, s, call, id);
    }
    CallKeepsGrants(env, s, call);
  }

  lemma CallKeepsSealed(env: Env, s: State, call: Call, id: string)
    requires (id in s.credentials ==> RowSealed(env, s, id)) && id in Apply(env, call, s).state.credentials
    ensures RowSealed(env, Apply(env, call, s).state, id)
  {
    CallStep(env, s, call, id);
    var e := Apply(env, call, s);
    if e.outcome == Done && Stores(call, id).Some? {
      assert Sealed(env, e.state.credentials[id], id, Stores(call, id).value);
    } else {
      var secret :| Sealed(env, s.credentials[id], id, secret);
      assert Sealed(env, e.state.credentials[id], id, secret);
    }
  }

  lemma CallKeepsGrants(env: Env, s: State, call: Call)
    requires OneGrantEach(s.grants)
    ensures OneGrantEach(Apply(env, call, s).state.grants)
  {
    if call.CGrant? {
      GrantCall(call.w, s, call.caller, call.id, call.agentId, call.scope, call.newId, "", "");
    } else if call.CRevokeGrant? {
      RevokeGrantCall(s, call.caller, call.id, call.grantId, call.now, "", "");
    }
  }

  /** A stored secret always opens: releasing never fails in the vault. */
  lemma RowOpens(env: Env, s: State, id: string)
    requires Authenticated(env.cipher) && Inv(env, s) && id in s.credentials
    ensures var row := s.credentials[id];
            Decrypt(env.cipher, row.payload, env.masterKey, RowContext(row.org, id, row.encryptionVersion)).Plain?
  {
    assert RowSealed(env, s, id);
    var secret :| Sealed(env, s.credentials[id], id, secret);
    SealedOpens(env, s.credentials[id], id, secret);
  }
}
