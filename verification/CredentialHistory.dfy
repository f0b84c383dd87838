/** What a run of credential calls leaves behind, told from the calls alone. */
module CredentialHistory {
  import opened Options
  import opened Json
  import opened Vault
  import opened Credentials
  import opened CredentialCalls
  import Decimal

  // ---------------------------------------------------------------- the ledger

  /** A credential: whose it is, for which vendor, under which name, all secrets stored for it in turn, and when it was
      revoked. */
  datatype Told = Told(org: string, vendorId: string, title: string, secrets: seq<Json>, revokedAt: Option<int>)

  /** A grant of a credential to an agent, and when it was withdrawn. */
  datatype Pair = Pair(id: string, agentId: string, scope: string, withdrawnAt: Option<int>)

  /** What the calls have said so far, without keys, ciphers, versions and states. */
  datatype Ledger = Ledger(told: map<string, Told>, pairs: map<string, Pair>)

  const BLANK := Ledger(map[], map[])

  /** The caller belongs to an organization, and the credential to the same. */
  predicate Owns(l: Ledger, caller: Option<string>, id: string) {
    caller.Some? && caller.value != "" && id in l.told && l.told[id].org == caller.value
  }

  predicate VendorOf(w: World, org: string, vendorId: string) {
    vendorId in w.vendors && w.vendors[vendorId].org == org && !w.vendors[vendorId].deleted
  }

  predicate IsPair(p: Pair, id: string, agentId: string) {
    p.id == id && p.agentId == agentId
  }

  predicate Paired(l: Ledger, id: string, agentId: string) {
    exists g | g in l.pairs :: IsPair(l.pairs[g], id, agentId)
  }

  /** When a call is accepted, by what has been said before. */
  ghost predicate Guard(env: Env, l: Ledger, call: Call) {
    match call
    case CCreate(w, caller, id, vendorId, _, _, _) =>
      caller.Some? && VendorOf(w, caller.value, vendorId) && id !in l.told && |env.masterKey| >= 32
    case CUpdate(w, caller, id, changes, _) =>
      && Owns(l, caller, id) && l.told[id].revokedAt.None?
      && (changes.vendorId.Some? ==> VendorOf(w, caller.value, changes.vendorId.value))
    case CGrant(w, caller, id, agentId, _, newId) =>
      && Owns(l, caller, id) && l.told[id].revokedAt.None?
      && agentId in w.agents && w.agents[agentId] == caller.value
      && (Paired(l, id, agentId) || newId !in l.pairs)
    case CRevokeGrant(caller, id, grantId, _) =>
      Owns(l, caller, id) && grantId in l.pairs && l.pairs[grantId].id == id
    case CRevoke(caller, id, _) => Owns(l, caller, id)
    case CDecrypt(_, _, _, _) => false
  }

  /** The pair's entry, or a new one. */
  ghost function PairSlot(l: Ledger, id: string, agentId: string, newId: string): string {
    if Paired(l, id, agentId) then
      var g :| g in l.pairs && IsPair(l.pairs[g], id, agentId); g
    else newId
  }

  /** What an accepted call says. */
  ghost function Tell(l: Ledger, call: Call): Ledger {
    match call
    case CCreate(_, caller, id, vendorId, title, secret, _) =>
      if caller.None? then l else l.(told := l.told[id := Told(caller.value, vendorId, title, [secret], None)])
    case CUpdate(_, _, id, changes, _) =>
      if id !in l.told then l
      else
        var t := l.told[id];
        l.(told := l.told[id := t.(
          vendorId := if changes.vendorId.Some? then changes.vendorId.value else t.vendorId,
          title := if changes.title.Some? then changes.title.value else t.title,
          secrets := t.secrets + if changes.secret.Some? then [changes.secret.value] else [])])
    case CGrant(_, _, id, agentId, scope, newId) =>
      l.(pairs := l.pairs[PairSlot(l, id, agentId, newId) := Pair(id, agentId, scope, None)])
    case CRevokeGrant(_, _, grantId, now) =>
      if grantId in l.pairs && l.pairs[grantId].withdrawnAt.None?
      then l.(pairs := l.pairs[grantId := l.pairs[grantId].(withdrawnAt := Some(now))]) else l
    case CRevoke(_, id, now) =>
      if id in l.told && l.told[id].revokedAt.None?
      then l.(told := l.told[id := l.told[id].(revokedAt := Some(now))]) else l
    case CDecrypt(_, _, _, _) => l
  }

  ghost function LedgerOf(env: Env, calls: seq<Call>): Ledger {
    if calls == [] then BLANK
    else
      var before, call := LedgerOf(env, calls[..|calls| - 1]), calls[|calls| - 1];
      if Guard(env, before, call) then Tell(before, call) else before
  }

  // ---------------------------------------------------------------- the rows are what the ledger says

  /** The row belongs to whom the ledger says, holds the secret stored last sealed for it, carries a key version that
      counts the secrets, and the status and time that follow. */
  ghost predicate RowIs(env: Env, row: Credential, id: string, t: Told) {
    && row.org == t.org && row.vendorId == t.vendorId && row.title == t.title
    && t.secrets != [] && Sealed(env, row, id, t.secrets[|t.secrets| - 1])
    && row.encryptionVersion == "local-v" + Decimal.Print(|t.secrets|)
    && row.status == (if t.revokedAt.Some? then Revoked else if |t.secrets| > 1 then Rotated else Active)
    && row.revokedAt == t.revokedAt
  }

  predicate GrantIs(g: Grant, p: Pair) {
    g.credentialId == p.id && g.agentId == p.agentId && g.scope == p.scope && g.revokedAt == p.withdrawnAt
  }

  ghost predicate RowsAre(env: Env, s: State, l: Ledger) {
    && (forall id :: id in s.credentials <==> id in l.told)
    && (forall id | id in l.told && id in s.credentials :: RowIs(env, s.credentials[id], id, l.told[id]))
  }

  ghost predicate GrantsAre(s: State, l: Ledger) {
    && OneGrantEach(s.grants)
    && (forall g :: g in s.grants <==> g in l.pairs)
    && (forall g | g in l.pairs && g in s.grants :: GrantIs(s.grants[g], l.pairs[g]))
  }

  ghost predicate Agree(env: Env, s: State, l: Ledger) {
    RowsAre(env, s, l) && GrantsAre(s, l)
  }

  ghost predicate Accepted(env: Env, s: State, call: Call) {
    Apply(env, call, s).outcome == Done
  }

  lemma FirstRow(env: Env, org: string, id: string, vendorId: string, title: string, secret: Secret, iv: string)
    requires |env.masterKey| >= 32
    ensures var sealed := Encrypt(env.cipher, secret, env.masterKey, RowContext(org, id, FIRST_VERSION), iv);
      && sealed.Some?
      && RowIs(env, Credential(org, vendorId, title, sealed.value, sealed.value.keyVersion, Active, None, None), id,
               Told(org, vendorId, title, [secret], None))
  {
    FirstIsOne();
  }

  lemma RowReplaced(env: Env, s: State, s': State, l: Ledger, l': Ledger, id: string)
    requires RowsAre(env, s, l) && id in s'.credentials && id in l'.told
    requires s'.credentials == s.credentials[id := s'.credentials[id]] && l'.told == l.told[id := l'.told[id]]
    requires RowIs(env, s'.credentials[id], id, l'.told[id])
    ensures RowsAre(env, s', l')
  {
  }

  lemma GrantReplaced(s: State, s': State, l: Ledger, l': Ledger, g: string)
    requires GrantsAre(s, l) && OneGrantEach(s'.grants) && g in s'.grants && g in l'.pairs
    requires s'.grants == s.grants[g := s'.grants[g]] && l'.pairs == l.pairs[g := l'.pairs[g]]
    requires GrantIs(s'.grants[g], l'.pairs[g])
    ensures GrantsAre(s', l')
  {
  }

  /** The call is accepted exactly under its guard, and then what it leaves is what it says. */
  ghost predicate Follows(env: Env, s: State, l: Ledger, call: Call) {
    && (Accepted(env, s, call) <==> Guard(env, l, call))
    && (Accepted(env, s, call) ==> Agree(env, Apply(env, call, s).state, Tell(l, call)))
  }

  lemma CreateFollows(env: Env, s: State, l: Ledger, call: Call)
    requires call.CCreate? && Agree(env, s, l)
    ensures Follows(env, s, l, call)
  {
    if |env.masterKey| >= 32 && call.caller.Some? {
      FirstRow(env, call.caller.value, call.id, call.vendorId, call.title, call.secret, call.iv);
    }
    if Accepted(env, s, call) {
      var s', l' := Apply(env, call, s).state, Tell(l, call);
      assert s'.grants == s.grants && l'.pairs == l.pairs;
      RowReplaced(env, s, s', l, l', call.id);
    }
  }

  /** The row after an update: the columns the call names, and the secret sealed under the next version. */
  lemma UpdatedRow(env: Env, row: Credential, id: string, t: Told, changes: Changes, iv: string)
    requires RowIs(env, row, id, t) && t.revokedAt.None?
    ensures var changed := row.(vendorId := Or(changes.vendorId, row.vendorId), title := Or(changes.title, row.title));
      var told := t.(
        vendorId := if changes.vendorId.Some? then changes.vendorId.value else t.vendorId,
        title := if changes.title.Some? then changes.title.value else t.title,
        secrets := t.secrets + if changes.secret.Some? then [changes.secret.value] else []);
      if changes.secret.None? then RowIs(env, changed, id, told)
      else
        var ctx := RowContext(row.org, id, NextKeyVersion(row.encryptionVersion));
        var sealed := Encrypt(env.cipher, changes.secret.value, env.masterKey, ctx, iv);
        && sealed.Some?
        && RowIs(env, changed.(payload := sealed.value, encryptionVersion := sealed.value.keyVersion,
          status := Rotated),
                 id, told)
  {
    NextOfVersion(|t.secrets|);
    if changes.secret.None? {
      assert t.secrets + [] == t.secrets;
    }
  }

  lemma UpdateAccepted(env: Env, s: State, l: Ledger, call: Call)
    requires call.CUpdate? && RowsAre(env, s, l)
    ensures Accepted(env, s, call) <==> Guard(env, l, call)
  {
    if call.id in l.told {
      assert RowIs(env, s.credentials[call.id], call.id, l.told[call.id]);
    }
  }

  lemma UpdateFollows(env: Env, s: State, l: Ledger, call: Call)
    requires call.CUpdate? && Agree(env, s, l)
    ensures Follows(env, s, l, call)
  {
    UpdateAccepted(env, s, l, call);
    if Guard(env, l, call) {
      var s', l' := Apply(env, call, s).state, Tell(l, call);
      assert RowIs(env, s.credentials[call.id], call.id, l.told[call.id]);
      UpdatedRow(env, s.credentials[call.id], call.id, l.told[call.id], call.changes, call.iv);
      assert s'.grants == s.grants && l'.pairs == l.pairs;
      RowReplaced(env, s, s', l, l', call.id);
    }
  }

  lemma RevokedRow(env: Env, row: Credential, id: string, t: Told, now: int)
    requires RowIs(env, row, id, t)
    ensures RowIs(env, row.(status := Revoked, revokedAt := OrElse(row.revokedAt, now)), id,
                  t.(revokedAt := OrElse(t.revokedAt, now)))
  {
  }

  lemma RevokeAccepted(env: Env, s: State, l: Ledger, call: Call)
    requires call.CRevoke? && RowsAre(env, s, l)
    ensures Accepted(env, s, call) <==> Guard(env, l, call)
  {
    if call.id in l.told {
      assert RowIs(env, s.credentials[call.id], call.id, l.told[call.id]);
    }
  }

  lemma RevokeFollows(env: Env, s: State, l: Ledger, call: Call)
    requires call.CRevoke? && Agree(env, s, l)
    ensures Follows(env, s, l, call)
  {
    RevokeAccepted(env, s, l, call);
    if Guard(env, l, call) {
      var s', l', t := Apply(env, call, s).state, Tell(l, call), l.told[call.id];
      RevokedRow(env, s.credentials[call.id], call.id, t, call.now);
      assert s'.grants == s.grants && l'.pairs == l.pairs;
      assert l.told[call.id := t] == l.told;
      RowReplaced(env, s, s', l, l', call.id);
    }
  }

  lemma SameSlot(s: State, l: Ledger, id: string, agentId: string, newId: string)
    requires GrantsAre(s, l)
    ensures Paired(l, id, agentId) <==> exists g :: g in s.grants && For(s.grants[g], id, agentId)
    ensures PairSlot(l, id, agentId, newId) == GrantSlot(s.grants, id, agentId, newId)
    ensures Paired(l, id, agentId) ==>
              var g := PairSlot(l, id, agentId, newId); g in l.pairs && IsPair(l.pairs[g], id, agentId)
  {
    forall g | g in l.pairs ensures IsPair(l.pairs[g], id, agentId) <==> For(s.grants[g], id, agentId) {
      assert GrantIs(s.grants[g], l.pairs[g]);
    }
    if Paired(l, id, agentId) {
      var g :| g in l.pairs && IsPair(l.pairs[g], id, agentId);
      assert For(s.grants[g], id, agentId);
    }
  }

  lemma GrantAccepted(env: Env, s: State, l: Ledger, call: Call)
    requires call.CGrant? && Agree(env, s, l)
    ensures Accepted(env, s, call) <==> Guard(env, l, call)
  {
    SameSlot(s, l, call.id, call.agentId, call.newId);
    if call.id in l.told {
      assert RowIs(env, s.credentials[call.id], call.id, l.told[call.id]);
    }
    var slot := GrantSlot(s.grants, call.id, call.agentId, call.newId);
    if slot in l.pairs {
      assert GrantIs(s.grants[slot], l.pairs[slot]);
    }
  }

  lemma GrantFollows(env: Env, s: State, l: Ledger, call: Call)
    requires call.CGrant? && Agree(env, s, l)
    ensures Follows(env, s, l, call)
  {
    GrantAccepted(env, s, l, call);
    if Guard(env, l, call) {
      var s', l' := Apply(env, call, s).state, Tell(l, call);
      SameSlot(s, l, call.id, call.agentId, call.newId);
      CallKeepsGrants(env, s, call);
      assert s'.credentials == s.credentials && l'.told == l.told;
      GrantReplaced(s, s', l, l', PairSlot(l, call.id, call.agentId, call.newId));
    }
  }

  lemma WithdrawAccepted(env: Env, s: State, l: Ledger, call: Call)
    requires call.CRevokeGrant? && Agree(env, s, l)
    ensures Accepted(env, s, call) <==> Guard(env, l, call)
  {
    if call.id in l.told {
      assert RowIs(env, s.credentials[call.id], call.id, l.told[call.id]);
    }
    if call.grantId in l.pairs {
      assert GrantIs(s.grants[call.grantId], l.pairs[call.grantId]);
    }
  }

  lemma WithdrawFollows(env: Env, s: State, l: Ledger, call: Call)
    requires call.CRevokeGrant? && Agree(env, s, l)
    ensures Follows(env, s, l, call)
  {
    WithdrawAccepted(env, s, l, call);
    if Guard(env, l, call) {
      var s', l' := Apply(env, call, s).state, Tell(l, call);
      assert GrantIs(s.grants[call.grantId], l.pairs[call.grantId]);
      CallKeepsGrants(env, s, call);
      assert s'.credentials == s.credentials && l'.told == l.told;
      assert l'.pairs == l.pairs[call.grantId := l'.pairs[call.grantId]];
      GrantReplaced(s, s', l, l', call.grantId);
    }
  }

  /** A release leaves the time of the last use, and nothing else. */
  lemma DecryptLeaves(env: Env, w: World, s: State, id: string, runId: string, now: int)
    ensures var e := DecryptForRun(env, w, s, id, runId, now);
      && e.outcome != Done
      && (e.state == s || (id in s.credentials
            && e.state == s.(credentials := s.credentials[id := s.credentials[id].(lastUsedAt := Some(now))])))
  {
  }

  lemma DecryptFollows(env: Env, s: State, l: Ledger, call: Call)
    requires call.CDecrypt? && Agree(env, s, l)
    ensures !Accepted(env, s, call) && Agree(env, Apply(env, call, s).state, l)
  {
    var s' := Apply(env, call, s).state;
    DecryptLeaves(env, call.w, s, call.id, call.runId, call.now);
    if s' != s {
      assert RowIs(env, s.credentials[call.id], call.id, l.told[call.id]);
      RowReplaced(env, s, s', l, l, call.id);
    }
  }

  lemma RefusedChangesNothing(env: Env, s: State, call: Call)
    requires !call.CDecrypt? && !Accepted(env, s, call)
    ensures Apply(env, call, s).state == s
  {
  }

  lemma CallFollows(env: Env, s: State, l: Ledger, call: Call)
    requires Agree(env, s, l) && !call.CDecrypt?
    ensures Follows(env, s, l, call)
  {
    if call.CCreate? {
      CreateFollows(env, s, l, call);
    } else if call.CUpdate? {
      UpdateFollows(env, s, l, call);
    } else if call.CRevoke? {
      RevokeFollows(env, s, l, call);
    } else if call.CGrant? {
      GrantFollows(env, s, l, call);
    } else {
      WithdrawFollows(env, s, l, call);
    }
  }

  lemma StepAgrees(env: Env, s: State, l: Ledger, call: Call)
    requires Agree(env, s, l)
    ensures Accepted(env, s, call) <==> Guard(env, l, call)
    ensures Agree(env, Apply(env, call, s).state, if Guard(env, l, call) then Tell(l, call) else l)
  {
    if call.CDecrypt? {
      DecryptFollows(env, s, l, call);
    } else {
      CallFollows(env, s, l, call);
      if !Accepted(env, s, call) {
        RefusedChangesNothing(env, s, call);
      }
    }
  }

  /** After any calls the rows are what the ledger of the accepted calls says. */
  lemma {:induction false} RowsTellLedger(env: Env, calls: seq<Call>)
    ensures Agree(env, After(env, calls), LedgerOf(env, calls))
  {
    if calls != [] {
      var n := |calls| - 1;
      RowsTellLedger(env, calls[..n]);
      StepAgrees(env, After(env, calls[..n]), LedgerOf(env, calls[..n]), calls[n]);
    }
  }

  /** After any calls, create, update, grant, the withdrawal of a grant and revoke answer Done exactly under their guard
      on what was said before, and otherwise change nothing. */
  lemma DoneIffGuard(env: Env, calls: seq<Call>, call: Call)
    requires !call.CDecrypt?
    ensures var e := Apply(env, call, After(env, calls));
      && (e.outcome == Done <==> Guard(env, LedgerOf(env, calls), call))
      && (e.outcome != Done ==> e.state == After(env, calls))
  {
    RowsTellLedger(env, calls);
    StepAgrees(env, After(env, calls), LedgerOf(env, calls), call);
    if !Accepted(env, After(env, calls), call) {
      RefusedChangesNothing(env, After(env, calls), call);
    }
  }

  /** What is wrong first with a call that is refused. */
  ghost function Refusal(env: Env, l: Ledger, call: Call): Reason
    requires !call.CDecrypt?
  {
    if call.caller.None? || (call.caller.value == "" && !call.CCreate?) then PermissionDenied
    else if call.CCreate? then
      if !VendorOf(call.w, call.caller.value, call.vendorId) then IsolationViolation
      else if call.id in l.told then UniqueViolation else VaultFailure(InvalidMasterKey)
    else if !Owns(l, call.caller, call.id) || call.CRevokeGrant? then NotFound
    else if l.told[call.id].revokedAt.Some? then ValidationFailed
    else if call.CGrant? && call.agentId in call.w.agents && call.w.agents[call.agentId] == call.caller.value
    then UniqueViolation
    else IsolationViolation
  }

  lemma RefusedStores(env: Env, s: State, l: Ledger, call: Call)
    requires (call.CCreate? || call.CUpdate?) && RowsAre(env, s, l) && !Guard(env, l, call)
    ensures Apply(env, call, s).outcome == Error(Refusal(env, l, call))
  {
    if call.id in l.told {
      assert RowIs(env, s.credentials[call.id], call.id, l.told[call.id]);
    }
  }

  lemma RefusedGrant(env: Env, s: State, l: Ledger, call: Call)
    requires call.CGrant? && Agree(env, s, l) && !Guard(env, l, call)
    ensures Apply(env, call, s).outcome == Error(Refusal(env, l, call))
  {
    SameSlot(s, l, call.id, call.agentId, call.newId);
    GrantAccepted(env, s, l, call);
    if call.id in l.told {
      assert RowIs(env, s.credentials[call.id], call.id, l.told[call.id]);
    }
  }

  lemma RefusedWithdrawal(env: Env, s: State, l: Ledger, call: Call)
    requires call.CRevokeGrant? && Agree(env, s, l) && !Guard(env, l, call)
    ensures Apply(env, call, s).outcome == Error(Refusal(env, l, call))
  {
    if call.id in l.told {
      assert RowIs(env, s.credentials[call.id], call.id, l.told[call.id]);
    }
    if call.grantId in l.pairs {
      assert GrantIs(s.grants[call.grantId], l.pairs[call.grantId]);
    }
  }

  lemma RefusedRevocation(env: Env, s: State, l: Ledger, call: Call)
    requires call.CRevoke? && RowsAre(env, s, l) && !Guard(env, l, call)
    ensures Apply(env, call, s).outcome == Error(Refusal(env, l, call))
  {
    if call.id in l.told {
      assert RowIs(env, s.credentials[call.id], call.id, l.told[call.id]);
    }
  }

  /** After any calls, a refused call answers the first thing that is wrong with it. */
  lemma RefusalMeans(env: Env, calls: seq<Call>, call: Call)
    requires !call.CDecrypt? && !Guard(env, LedgerOf(env, calls), call)
    ensures Apply(env, call, After(env, calls)).outcome == Error(Refusal(env, LedgerOf(env, calls), call))
  {
    RowsTellLedger(env, calls);
    if call.CCreate? || call.CUpdate? {
      RefusedStores(env, After(env, calls), LedgerOf(env, calls), call);
    } else if call.CGrant? {
      RefusedGrant(env, After(env, calls), LedgerOf(env, calls), call);
    } else if call.CRevokeGrant? {
      RefusedWithdrawal(env, After(env, calls), LedgerOf(env, calls), call);
    } else {
      RefusedRevocation(env, After(env, calls), LedgerOf(env, calls), call);
    }
  }

  // ---------------------------------------------------------------- release

  /** The agent holds a grant of the credential that was not withdrawn. */
  predicate GrantStands(l: Ledger, id: string, agentId: string) {
    exists g | g in l.pairs :: IsPair(l.pairs[g], id, agentId) && l.pairs[g].withdrawnAt.None?
  }

  /** What entitles a workflow run to the secret of a credential. */
  predicate Entitled(l: Ledger, w: World, id: string, runId: string) {
    && id in l.told && l.told[id].revokedAt.None?
    && runId in w.runs && w.runs[runId].org == l.told[id].org
    && (w.runs[runId].vendorId.Some? ==> w.runs[runId].vendorId.value == l.told[id].vendorId)
    && GrantStands(l, id, w.runs[runId].agentId)
  }

  lemma GrantedIffStands(s: State, l: Ledger, id: string, agentId: string)
    requires GrantsAre(s, l)
    ensures Granted(s, id, agentId) <==> GrantStands(l, id, agentId)
  {
    forall g | g in l.pairs
      ensures For(s.grants[g], id, agentId) && s.grants[g].revokedAt.None? <==>
              IsPair(l.pairs[g], id, agentId) && l.pairs[g].withdrawnAt.None?
    {
      assert GrantIs(s.grants[g], l.pairs[g]);
    }
  }

  /** After any calls a credential is released exactly to a run that is entitled to it; what is released is the secret
      stored last, and the only trace is the time of the last use. */
  lemma ReleasedIffEntitled(env: Env, calls: seq<Call>, w: World, id: string, runId: string, now: int)
    requires Authenticated(env.cipher)
    ensures id in LedgerOf(env, calls).told ==> LedgerOf(env, calls).told[id].secrets != []
    ensures var l, s, e := LedgerOf(env, calls), After(env, calls),
        DecryptForRun(env, w, After(env, calls), id, runId, now);
      && e.outcome == (if id !in l.told then Error(NotFound)
                       else if Entitled(l, w, id, runId) then Released(l.told[id].secrets[|l.told[id].secrets| - 1])
                       else Error(PermissionDenied))
      && e.state == (if id in s.credentials && Entitled(l, w, id, runId)
                     then s.(credentials := s.credentials[id := s.credentials[id].(lastUsedAt := Some(now))]) else s)
  {
    var s, l := After(env, calls), LedgerOf(env, calls);
    RowsTellLedger(env, calls);
    if id in l.told {
      SealedOpens(env, s.credentials[id], id, l.told[id].secrets[|l.told[id].secrets| - 1]);
      if runId in w.runs {
        GrantedIffStands(s, l, id, w.runs[runId].agentId);
      }
    }
  }

  // ---------------------------------------------------------------- payloads put in from outside

  /** The ledger's entry right after call `k`, which stored a secret for its credential. */
  ghost predicate StoredAt(env: Env, calls: seq<Call>, k: nat)
    requires k < |calls|
  {
    && Guard(env, LedgerOf(env, calls[..k]), calls[k]) && Stores(calls[k], calls[k].id).Some?
    && calls[k].id in After(env, calls[..k + 1]).credentials
  }

  ghost function RowAfter(env: Env, calls: seq<Call>, k: nat): Credential
    requires k < |calls| && StoredAt(env, calls, k)
  {
    After(env, calls[..k + 1]).credentials[calls[k].id]
  }

  /** Call `k` stored a secret and sealed it to this. */
  ghost predicate SealedAt(env: Env, calls: seq<Call>, k: nat, iv: string, aad: Option<string>, ciphertext: string,
                           tag: string)
    requires k < |calls|
  {
    StoredAt(env, calls, k) &&
    var p := RowAfter(env, calls, k).payload;
    p.iv == iv && p.aad == aad && p.ciphertext == ciphertext && p.tag == tag
  }

  /** The payload is no forgery: if the cipher opens it under the service's key, one of the calls sealed it so. */
  ghost predicate NotForged(env: Env, calls: seq<Call>, p: Payload) {
    env.cipher.open(env.cipher.derive(env.masterKey), p.iv, CarriedAad(p), p.ciphertext, p.tag).Some? ==>
      exists k | 0 <= k < |calls| :: SealedAt(env, calls, k, p.iv, CarriedAad(p), p.ciphertext, p.tag)
  }

  /** Call `k` stored this secret for this credential, of this organization, as the one with this version number. */
  ghost predicate StoredAs(env: Env, calls: seq<Call>, k: nat, org: string, id: string, version: string, secret: Json)
    requires k < |calls|
  {
    && Guard(env, LedgerOf(env, calls[..k]), calls[k]) && calls[k].id == id && Stores(calls[k], id) == Some(secret)
    && var l := LedgerOf(env, calls[..k + 1]);
    && id in l.told && l.told[id].org == org && l.told[id].secrets != []
    && l.told[id].secrets[|l.told[id].secrets| - 1] == secret
    && version == "local-v" + Decimal.Print(|l.told[id].secrets|)
  }

  lemma StoredIsTold(env: Env, calls: seq<Call>, k: nat)
    requires k < |calls| && StoredAt(env, calls, k)
    ensures var row, secret := RowAfter(env, calls, k), Stores(calls[k], calls[k].id).value;
      && Sealed(env, row, calls[k].id, secret)
      && StoredAs(env, calls, k, row.org, calls[k].id, row.encryptionVersion, secret)
  {
    var upTo := calls[..k + 1];
    assert upTo[..k] == calls[..k];
    RowsTellLedger(env, upTo);
    assert RowIs(env, RowAfter(env, calls, k), calls[k].id, LedgerOf(env, upTo).told[calls[k].id]);
  }

  /** Whatever payload stands in a row, short of a forgery: if it opens for that row and key version, some call stored
      exactly what comes out, for that credential and under that key version. Payloads that were altered, taken from
      another row or kept from an earlier version do not open. */
  lemma SubstitutedPayloadOpens(env: Env, calls: seq<Call>, p: Payload, org: string, id: string, version: string)
    requires Authenticated(env.cipher) && NotForged(env, calls, p)
    requires forall k | 0 <= k < |calls| :: calls[k].id != ""
    requires Decrypt(env.cipher, p, env.masterKey, RowContext(org, id, version)).Plain?
    ensures exists k | 0 <= k < |calls| ::
              StoredAs(env, calls, k, org, id, version,
                       Decrypt(env.cipher, p, env.masterKey, RowContext(org, id, version)).value)
  {
    var ctx := RowContext(org, id, version);
    OpenedUnderAad(env.cipher, p, env.masterKey, ctx);
    var k :| 0 <= k < |calls| && SealedAt(env, calls, k, p.iv, CarriedAad(p), p.ciphertext, p.tag);
    var row, secret := RowAfter(env, calls, k), Stores(calls[k], calls[k].id).value;
    StoredIsTold(env, calls, k);
    SealedPayloadOpens(env, row, calls[k].id, secret);
    AadInjective(RowContext(row.org, calls[k].id, row.encryptionVersion), ctx);
    assert StoredAs(env, calls, k, org, id, version, secret);
  }
}
