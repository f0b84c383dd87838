/** The credential service, statement by statement. */
module CredentialService {
  import opened Options
  import opened Vault
  import opened Credentials
  import opened CredentialCalls

  class CredentialsService {
    const env: Env
    var credentials: map<string, Credential>
    var grants: map<string, Grant>

    ghost function View(): State
      reads this
    {
      State(credentials, grants)
    }

    /** Every row holds a secret sealed for it under its key version, and no pair has two grants. */
    ghost predicate Valid()
      reads this
    {
      Inv(env, View())
    }

    constructor (env: Env)
      ensures this.env == env && Valid() && View() == EMPTY
    {
      this.env := env;
      credentials, grants := map[], map[];
    }

    /** `credential.update`: the row that `call` writes. */
    method SaveCredential(ghost call: Call, id: string, row: Credential)
      requires Valid() && Apply(env, call, View()).state == View().(credentials := credentials[id := row])
      modifies this`credentials
      ensures Valid() && credentials == old(credentials)[id := row]
    {
      CallKeepsInv(env, View(), call);
      credentials := credentials[id := row];
    }

    /** `credentialAgentGrant.create` and `.update`: the row that `call` writes. */
    method SaveGrant(ghost call: Call, id: string, row: Credentials.Grant)
      requires Valid() && Apply(env, call, View()).state == View().(grants := grants[id := row])
      modifies this`grants
      ensures Valid() && grants == old(grants)[id := row]
    {
      CallKeepsInv(env, View(), call);
      grants := grants[id := row];
    }

    method FindCredentialInOrganization(org: string, id: string) returns (found: Outcome)
      ensures found == Find(View(), org, id)
    {
      if org == "" {
        return Error(PermissionDenied);
      }
      if id !in credentials || credentials[id].org != org {
        return Error(NotFound);
      }
      return Done;
    }

    method Create(w: World, caller: Option<string>, id: string, vendorId: string, title: string, secret: Secret,
        iv: string)
      returns (outcome: Outcome)
      requires Valid()
      modifies this
      ensures Valid()
      ensures Effect(View(), outcome)
          == Credentials.Create(env, w, old(View()), caller, id, vendorId, title, secret, iv)
    {
      if caller.None? {
        return Error(PermissionDenied);
      }
      var org := caller.value;
      if !VendorInOrganization(w, org, vendorId) {
        return Error(IsolationViolation);
      }
      if id in credentials {
        return Error(UniqueViolation);
      }
      var before := credentials;
      credentials := credentials[id := Credential(org, vendorId, title, NO_PAYLOAD, "pending", Active, None, None)];
      var sealed := Encrypt(env.cipher, secret, env.masterKey, RowContext(org, id, FIRST_VERSION), iv);
      if sealed.None? {
        credentials := before;
        return Error(VaultFailure(InvalidMasterKey));
      }
      credentials := credentials[id :=
        credentials[id].(payload := sealed.value, encryptionVersion := sealed.value.keyVersion)];
      assert credentials == before[id := credentials[id]];
      CallKeepsInv(env, old(View()), CCreate(w, caller, id, vendorId, title, secret, iv));
      return Done;
    }

    method Update(w: World, caller: Option<string>, id: string, changes: Changes, iv: string) returns (outcome: Outcome)
      requires Valid()
      modifies this
      ensures Valid()
      ensures Effect(View(), outcome) == Credentials.Update(env, w, old(View()), caller, id, changes, iv)
    {
      if caller.None? {
        return Error(PermissionDenied);
      }
      outcome := FindCredentialInOrganization(caller.value, id);
      if outcome != Done {
        return;
      }
      var existing := credentials[id];
      if existing.status == Revoked {
        return Error(ValidationFailed);
      }
      if changes.vendorId.Some? && !VendorInOrganization(w, caller.value, changes.vendorId.value) {
        return Error(IsolationViolation);
      }
      var row := existing;
      if changes.secret.Some? {
        var ctx := RowContext(caller.value, id, NextKeyVersion(existing.encryptionVersion));
        var sealed := Encrypt(env.cipher, changes.secret.value, env.masterKey, ctx, iv);
        if sealed.None? {
          return Error(VaultFailure(InvalidMasterKey));
        }
        row := row.(payload := sealed.value, encryptionVersion := sealed.value.keyVersion, status := Rotated);
      }
      if changes.vendorId.Some? {
        row := row.(vendorId := changes.vendorId.value);
      }
      if changes.title.Some? {
        row := row.(title := changes.title.value);
      }
      SaveCredential(CUpdate(w, caller, id, changes, iv), id, row);
      return Done;
    }

    method Grant(w: World, caller: Option<string>, credentialId: string, agentId: string, scope: string, newId: string)
      returns (outcome: Outcome)
      requires Valid()
      modifies this
      ensures Valid()
      ensures Effect(View(), outcome) == GrantTo(w, old(View()), caller, credentialId, agentId, scope, newId)
    {
      if caller.None? {
        return Error(PermissionDenied);
      }
      outcome := FindCredentialInOrganization(caller.value, credentialId);
      if outcome != Done {
        return;
      }
      if credentials[credentialId].status == Revoked {
        return Error(ValidationFailed);
      }
      if !AgentInOrganization(w, caller.value, agentId) {
        return Error(IsolationViolation);
      }
      var existing := FindGrant(credentialId, agentId);
      if existing.Some? {
        SaveGrant(CGrant(w, caller, credentialId, agentId, scope, newId), existing.value,
          grants[existing.value].(scope := scope, revokedAt := None));
      } else if newId in grants {
        return Error(UniqueViolation);
      } else {
        SaveGrant(CGrant(w, caller, credentialId, agentId, scope, newId), newId,
          Credentials.Grant(credentialId, agentId, scope, None));
      }
      return Done;
    }

    /** `findUnique` on credential and agent. */
    method FindGrant(credentialId: string, agentId: string) returns (found: Option<string>)
      ensures found.Some? ==> found.value in grants && For(grants[found.value], credentialId, agentId)
      ensures found.None? ==> forall g | g in grants :: !For(grants[g], credentialId, agentId)
    {
      if exists g :: g in grants && For(grants[g], credentialId, agentId) {
        var g :| g in grants && For(grants[g], credentialId, agentId);
        return Some(g);
      }
      return None;
    }

    method RevokeGrant(caller: Option<string>, credentialId: string, grantId: string, now: int)
        returns (outcome: Outcome)
      requires Valid()
      modifies this
      ensures Valid()
      ensures Effect(View(), outcome) == Credentials.RevokeGrant(old(View()), caller, credentialId, grantId, now)
    {
      if caller.None? {
        return Error(PermissionDenied);
      }
      outcome := FindCredentialInOrganization(caller.value, credentialId);
      if outcome != Done {
        return;
      }
      if grantId !in grants || grants[grantId].credentialId != credentialId {
        return Error(NotFound);
      }
      var grant := grants[grantId];
      if grant.revokedAt.None? {
        grant := grant.(revokedAt := Some(now));
      }
      SaveGrant(CRevokeGrant(caller, credentialId, grantId, now), grantId, grant);
      return Done;
    }

    method Revoke(caller: Option<string>, id: string, now: int) returns (outcome: Outcome)
      requires Valid()
      modifies this
      ensures Valid()
      ensures Effect(View(), outcome) == Credentials.Revoke(old(View()), caller, id, now)
    {
      if caller.None? {
        return Error(PermissionDenied);
      }
      outcome := FindCredentialInOrganization(caller.value, id);
      if outcome != Done {
        return;
      }
      var row := credentials[id].(status := Revoked);
      if row.revokedAt.None? {
        row := row.(revokedAt := Some(now));
      }
      SaveCredential(CRevoke(caller, id, now), id, row);
      return Done;
    }

    /** `findFirst` for a grant that has not been revoked. */
    method HasGrant(credentialId: string, agentId: string) returns (granted: bool)
      ensures granted == Granted(View(), credentialId, agentId)
    {
      return exists g :: g in grants && For(grants[g], credentialId, agentId) && grants[g].revokedAt.None?;
    }

    method DecryptForRun(w: World, id: string, runId: string, now: int) returns (outcome: Outcome)
      requires Valid()
      modifies this
      ensures Valid()
      ensures Effect(View(), outcome) == Credentials.DecryptForRun(env, w, old(View()), id, runId, now)
      ensures Authenticated(env.cipher) ==> !(outcome.Error? && outcome.reason.VaultFailure?)
    {
      if id !in credentials {
        return Error(NotFound);
      }
      var credential := credentials[id];
      if credential.status == Revoked {
        return Error(PermissionDenied);
      }
      if runId !in w.runs || w.runs[runId].org != credential.org {
        return Error(PermissionDenied);
      }
      var run := w.runs[runId];
      if run.vendorId.Some? && run.vendorId.value != credential.vendorId {
        return Error(PermissionDenied);
      }
      var granted := HasGrant(id, run.agentId);
      if !granted {
        return Error(PermissionDenied);
      }
      var ctx := RowContext(credential.org, id, credential.encryptionVersion);
      var plaintext := Decrypt(env.cipher, credential.payload, env.masterKey, ctx);
      if !plaintext.Plain? {
        if Authenticated(env.cipher) {
          RowOpens(env, View(), id);
        }
        return Error(VaultFailure(plaintext));
      }
      SaveCredential(CDecrypt(w, id, runId, now), id, credential.(lastUsedAt := Some(now)));
      return Released(plaintext.value);
    }
  }
}
