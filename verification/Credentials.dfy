/** Vendor credentials: sealed secrets, grants to agents, rotation, and release of a secret to a workflow run. */
module Credentials {
  import opened Options
  import opened Json
  import opened Vault
  import Decimal

  datatype Status = Active | Rotated | Revoked

  datatype Credential = Credential(
    org: string, vendorId: string, title: string, payload: Payload, encryptionVersion: string,
    status: Status, revokedAt: Option<int>, lastUsedAt: Option<int>)

  datatype Grant = Grant(credentialId: string, agentId: string, scope: string, revokedAt: Option<int>)

  datatype State = State(credentials: map<string, Credential>, grants: map<string, Grant>)

  const EMPTY := State(map[], map[])

  /** The payload of a row between its insertion and the sealing of its secret. */
  const NO_PAYLOAD := Payload("", "", "", "", None)

  datatype Vendor = Vendor(org: string, deleted: bool)

  datatype WorkflowRun = WorkflowRun(org: string, agentId: string, vendorId: Option<string>)

  /** Rows of other services, read only here. */
  datatype World = World(vendors: map<string, Vendor>, agents: map<string, string>, runs: map<string, WorkflowRun>)

  /** The configuration. */
  datatype Env = Env(cipher: Cipher, masterKey: string)

  datatype Changes = Changes(vendorId: Option<string>, title: Option<string>, secret: Option<Secret>)

  datatype Reason =
    | PermissionDenied | NotFound | ValidationFailed | IsolationViolation | UniqueViolation
    | VaultFailure(cause: Opened)

  datatype Outcome = Done | Released(secret: Json) | Error(reason: Reason)

  datatype Effect = Effect(state: State, outcome: Outcome)

  // ---------------------------------------------------------------- key versions

  const VERSION_PREFIX := "local-v"

  function Version(n: nat): string {
    VERSION_PREFIX + Decimal.Print(n)
  }

  /** `nextKeyVersion`. */
  function NextKeyVersion(current: string): string {
    if |current| > |VERSION_PREFIX| && current[..|VERSION_PREFIX|] == VERSION_PREFIX
       && Decimal.AllDigits(current[|VERSION_PREFIX|..])
    then Version(Decimal.Value(current[|VERSION_PREFIX|..]) + 1)
    else "local-v2"
  }

  lemma NextOfVersion(n: nat)
    ensures NextKeyVersion(Version(n)) == Version(n + 1)
  {
    var v := Version(n);
    assert v[..|VERSION_PREFIX|] == VERSION_PREFIX && v[|VERSION_PREFIX|..] == Decimal.Print(n);
    Decimal.ValuePrint(n);
  }

  // ---------------------------------------------------------------- service calls

  /** `findCredentialInOrganization`. */
  function Find(s: State, org: string, id: string): Outcome {
    if org == "" then Error(PermissionDenied)
    else if id !in s.credentials || s.credentials[id].org != org then Error(NotFound)
    else Done
  }

  predicate VendorInOrganization(w: World, org: string, vendorId: string) {
    vendorId in w.vendors && w.vendors[vendorId] == Vendor(org, false)
  }

  predicate AgentInOrganization(w: World, org: string, agentId: string) {
    agentId in w.agents && w.agents[agentId] == org
  }

  function RowContext(org: string, id: string, version: string): Context {
    Context(Some(org), Some(id), Some(version))
  }

  function Create(env: Env, w: World, s: State, caller: Option<string>, id: string, vendorId: string, title: string,
                  secret: Secret, iv: string): Effect
  {
    if caller.None? then Effect(s, Error(PermissionDenied))
    else if !VendorInOrganization(w, caller.value, vendorId) then Effect(s, Error(IsolationViolation))
    else if id in s.credentials then Effect(s, Error(UniqueViolation))
    else
      var sealed := Encrypt(env.cipher, secret, env.masterKey, RowContext(caller.value, id, FIRST_VERSION), iv);
      if sealed.None? then Effect(s, Error(VaultFailure(InvalidMasterKey)))
      else
        var row := Credential(caller.value, vendorId, title, sealed.value, sealed.value.keyVersion, Active, None, None);
        Effect(s.(credentials := s.credentials[id := row]), Done)
  }

  function Update(env: Env, w: World, s: State, caller: Option<string>, id: string, changes: Changes,
      iv: string): Effect {
    if caller.None? then Effect(s, Error(PermissionDenied))
    else if Find(s, caller.value, id) != Done then Effect(s, Find(s, caller.value, id))
    else
      var row := s.credentials[id];
      if row.status == Revoked then Effect(s, Error(ValidationFailed))
      else if changes.vendorId.Some? && !VendorInOrganization(w, caller.value, changes.vendorId.value) then
        Effect(s, Error(IsolationViolation))
      else
        var changed := row.(vendorId := Or(changes.vendorId, row.vendorId), title := Or(changes.title, row.title));
        if changes.secret.None? then Effect(s.(credentials := s.credentials[id := changed]), Done)
        else
          var ctx := RowContext(caller.value, id, NextKeyVersion(row.encryptionVersion));
          var sealed := Encrypt(env.cipher, changes.secret.value, env.masterKey, ctx, iv);
          if sealed.None? then Effect(s, Error(VaultFailure(InvalidMasterKey)))
          else
            var rotated := changed.(payload := sealed.value, encryptionVersion := sealed.value.keyVersion,
              status := Rotated);
            Effect(s.(credentials := s.credentials[id := rotated]), Done)
  }

  predicate For(g: Grant, credentialId: string, agentId: string) {
    g.credentialId == credentialId && g.agentId == agentId
  }

  /** The unique index on credential and agent. */
  ghost predicate OneGrantEach(grants: map<string, Grant>) {
    forall g, h | g in grants && h in grants && For(grants[g], grants[h].credentialId, grants[h].agentId) :: g == h
  }

  /** Where a grant of the credential to the agent is stored: its row, or a new one. */
  ghost function GrantSlot(grants: map<string, Grant>, credentialId: string, agentId: string, newId: string): string {
    if exists g :: g in grants && For(grants[g], credentialId, agentId) then
      var g :| g in grants && For(grants[g], credentialId, agentId); g
    else newId
  }

  ghost function GrantTo(w: World, s: State, caller: Option<string>, credentialId: string, agentId: string,
      scope: string,
                         newId: string): Effect
  {
    if caller.None? then Effect(s, Error(PermissionDenied))
    else if Find(s, caller.value, credentialId) != Done then Effect(s, Find(s, caller.value, credentialId))
    else if s.credentials[credentialId].status == Revoked then Effect(s, Error(ValidationFailed))
    else if !AgentInOrganization(w, caller.value, agentId) then Effect(s, Error(IsolationViolation))
    else
      var slot := GrantSlot(s.grants, credentialId, agentId, newId);
      if slot in s.grants && !For(s.grants[slot], credentialId, agentId) then Effect(s, Error(UniqueViolation))
      else Effect(s.(grants := s.grants[slot := Grant(credentialId, agentId, scope, None)]), Done)
  }

  function OrElse(at: Option<int>, now: int): Option<int> {
    if at.Some? then at else Some(now)
  }

  function RevokeGrant(s: State, caller: Option<string>, credentialId: string, grantId: string, now: int): Effect {
    if caller.None? then Effect(s, Error(PermissionDenied))
    else if Find(s, caller.value, credentialId) != Done then Effect(s, Find(s, caller.value, credentialId))
    else if grantId !in s.grants || s.grants[grantId].credentialId != credentialId then Effect(s, Error(NotFound))
    else
      var grant := s.grants[grantId];
      Effect(s.(grants := s.grants[grantId := grant.(revokedAt := OrElse(grant.revokedAt, now))]), Done)
  }

  function Revoke(s: State, caller: Option<string>, id: string, now: int): Effect {
    if caller.None? then Effect(s, Error(PermissionDenied))
    else if Find(s, caller.value, id) != Done then Effect(s, Find(s, caller.value, id))
    else
      var row := s.credentials[id];
      Effect(s.(credentials :=
        s.credentials[id := row.(status := Revoked, revokedAt := OrElse(row.revokedAt, now))]), Done)
  }

  /** The agent holds a grant that has not been revoked. */
  predicate Granted(s: State, credentialId: string, agentId: string) {
    exists g | g in s.grants :: For(s.grants[g], credentialId, agentId) && s.grants[g].revokedAt.None?
  }

  function DecryptForRun(env: Env, w: World, s: State, id: string, runId: string, now: int): Effect {
    if id !in s.credentials then Effect(s, Error(NotFound))
    else
      var row := s.credentials[id];
      if row.status == Revoked then Effect(s, Error(PermissionDenied))
      else if runId !in w.runs || w.runs[runId].org != row.org then Effect(s, Error(PermissionDenied))
      else if w.runs[runId].vendorId !in {None, Some(row.vendorId)} then Effect(s, Error(PermissionDenied))
      else if !Granted(s, id, w.runs[runId].agentId) then Effect(s, Error(PermissionDenied))
      else
        var secret := Decrypt(env.cipher, row.payload, env.masterKey, RowContext(row.org, id, row.encryptionVersion));
        if !secret.Plain? then Effect(s, Error(VaultFailure(secret)))
        else Effect(s.(credentials := s.credentials[id := row.(lastUsedAt := Some(now))]), Released(secret.value))
  }

}
