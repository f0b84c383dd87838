/** Users, their roles, and the owners of an organization. */
module Users {
  import opened Options

  datatype Role = Owner | Admin | Approver | Auditor | Developer

  datatype Status = Active | Invited | Disabled

  datatype User = User(org: string, email: string, role: Role, status: Status, disabledAt: Option<int>)

  /** Organizations by id, with their domain, and users by id. */
  datatype State = State(orgs: map<string, string>, users: map<string, User>)

  const EMPTY := State(map[], map[])

  /** The user of the request, as the session names them. */
  datatype Caller = Caller(id: string, org: string, role: Option<Role>)

  datatype Reason = PermissionDenied | NotFound | ValidationFailed | UniqueViolation | MissingOrganization

  datatype Outcome = Done | Error(reason: Reason)

  datatype Effect = Effect(state: State, outcome: Outcome)

  // ---------------------------------------------------------------- owners

  /** Owners who are not disabled. */
  function Owners(users: map<string, User>, org: string): set<string> {
    set id | id in users && users[id].org == org && users[id].role == Owner && users[id].status != Disabled
  }

  function ActiveOwners(users: map<string, User>, org: string): set<string> {
    set id | id in users && users[id].org == org && users[id].role == Owner && users[id].status == Active
  }

  /** `assertNotLastOwner`. */
  predicate LastOwner(users: map<string, User>, org: string, id: string) {
    |Owners(users, org) - {id}| == 0
  }

  // ---------------------------------------------------------------- service calls

  predicate EmailTaken(users: map<string, User>, email: string) {
    exists id | id in users :: users[id].email == email
  }

  predicate DomainTaken(orgs: map<string, string>, domain: string) {
    exists org | org in orgs :: orgs[org] == domain
  }

  function Register(s: State, org: string, domain: string, id: string, email: string): Effect {
    if DomainTaken(s.orgs, domain) || EmailTaken(s.users, email) then Effect(s, Error(ValidationFailed))
    else if org in s.orgs || id in s.users then Effect(s, Error(UniqueViolation))
    else Effect(State(s.orgs[org := domain], s.users[id := User(org, email, Owner, Active, None)]), Done)
  }

  predicate OwnerOrAdmin(caller: Option<Caller>) {
    caller.Some? && caller.value.role in {Some(Owner), Some(Admin)}
  }

  /** `assertOwnerRoleBoundary`: only owners deal with the owner role. */
  predicate MayTouch(caller: Option<Caller>, role: Role) {
    role == Owner ==> caller.Some? && caller.value.role == Some(Owner)
  }

  function Invite(s: State, caller: Option<Caller>, id: string, email: string, role: Role): Effect {
    if !OwnerOrAdmin(caller) || !MayTouch(caller, role) then Effect(s, Error(PermissionDenied))
    else if id in s.users || EmailTaken(s.users, email) then Effect(s, Error(UniqueViolation))
    else if caller.value.org !in s.orgs then Effect(s, Error(MissingOrganization))
    else Effect(s.(users := s.users[id := User(caller.value.org, email, role, Invited, None)]), Done)
  }

  /** `findUserInOrganization`. */
  function Find(s: State, org: string, id: string): Outcome {
    if org == "" then Error(PermissionDenied)
    else if id !in s.users || s.users[id].org != org then Error(NotFound)
    else Done
  }

  function ChangeRole(s: State, caller: Option<Caller>, id: string, role: Role): Effect {
    if !OwnerOrAdmin(caller) then Effect(s, Error(PermissionDenied))
    else if Find(s, caller.value.org, id) != Done then Effect(s, Find(s, caller.value.org, id))
    else
      var target := s.users[id];
      if !MayTouch(caller, target.role) || !MayTouch(caller, role) then Effect(s, Error(PermissionDenied))
      else if id == caller.value.id && role == Owner then Effect(s, Error(ValidationFailed))
      else if target.role == Owner && role != Owner && LastOwner(s.users, target.org, id) then
        Effect(s, Error(ValidationFailed))
      else Effect(s.(users := s.users[id := target.(role := role)]), Done)
  }

  function OrElse(at: Option<int>, now: int): Option<int> {
    if at.Some? then at else Some(now)
  }

  function Disable(s: State, caller: Option<Caller>, id: string, now: int): Effect {
    if !OwnerOrAdmin(caller) then Effect(s, Error(PermissionDenied))
    else if Find(s, caller.value.org, id) != Done then Effect(s, Find(s, caller.value.org, id))
    else
      var target := s.users[id];
      if !MayTouch(caller, target.role) then Effect(s, Error(PermissionDenied))
      else if target.role == Owner && LastOwner(s.users, target.org, id) then Effect(s, Error(ValidationFailed))
      else
        Effect(s.(users := s.users[id := target.(status := Disabled, disabledAt := OrElse(target.disabledAt, now))]),
          Done)
  }

  function Enable(s: State, caller: Option<Caller>, id: string): Effect {
    if !OwnerOrAdmin(caller) then Effect(s, Error(PermissionDenied))
    else if Find(s, caller.value.org, id) != Done then Effect(s, Find(s, caller.value.org, id))
    else if !MayTouch(caller, s.users[id].role) then Effect(s, Error(PermissionDenied))
    else Effect(s.(users := s.users[id := s.users[id].(status := Active, disabledAt := None)]), Done)
  }

  function DeletedEmail(id: string): string {
    "deleted-" + id + "@deleted.aegisweb.local"
  }

  function DeleteAccount(s: State, caller: Option<Caller>, now: int): Effect {
    if caller.None? then Effect(s, Error(PermissionDenied))
    else if caller.value.id !in s.users then Effect(s, Error(NotFound))
    else
      var id := caller.value.id;
      var user := s.users[id];
      var email := DeletedEmail(id);
      if user.role == Owner && LastOwner(s.users, user.org, id) then Effect(s, Error(ValidationFailed))
      else if EmailTaken(s.users - {id}, email) then Effect(s, Error(UniqueViolation))
      else Effect(s.(users := s.users[id := user.(email := email, status := Disabled, disabledAt := Some(now))]), Done)
  }

  /** Resetting a password with a valid link accepts an invitation. */
  function ResetPassword(s: State, id: string): Effect {
    if id !in s.users || s.users[id].status == Disabled then Effect(s, Error(PermissionDenied))
    else Effect(s.(users := s.users[id := s.users[id].(status := Active)]), Done)
  }

  datatype Call =
    | CRegister(org: string, domain: string, id: string, email: string)
    | CInvite(caller: Option<Caller>, id: string, email: string, role: Role)
    | CChangeRole(caller: Option<Caller>, id: string, role: Role)
    | CDisable(caller: Option<Caller>, id: string, now: int)
    | CEnable(caller: Option<Caller>, id: string)
    | CDelete(caller: Option<Caller>, now: int)
    | CReset(id: string)

  function Apply(call: Call, s: State): Effect {
    match call
    case CRegister(org, domain, id, email) => Register(s, org, domain, id, email)
    case CInvite(caller, id, email, role) => Invite(s, caller, id, email, role)
    case CChangeRole(caller, id, role) => ChangeRole(s, caller, id, role)
    case CDisable(caller, id, now) => Disable(s, caller, id, now)
    case CEnable(caller, id) => Enable(s, caller, id)
    case CDelete(caller, now) => DeleteAccount(s, caller, now)
    case CReset(id) => ResetPassword(s, id)
  }

  function After(calls: seq<Call>): State {
    if calls == [] then EMPTY
    else Apply(calls[|calls| - 1], After(calls[..|calls| - 1])).state
  }

  // ---------------------------------------------------------------- every organization keeps an owner

  ghost predicate Inv(s: State) {
    && (forall org | org in s.orgs :: Owners(s.users, org) != {})
    && (forall id | id in s.users :: s.users[id].org in s.orgs)
    && (forall id | id in s.users :: s.users[id].status == Disabled <==> s.users[id].disabledAt.Some?)
  }

  /** The user a call writes. */
  function Target(call: Call): Option<string> {
    if call.CDelete? then if call.caller.None? then None else Some(call.caller.value.id)
    else Some(call.id)
  }

  /** A call changes at most one user row, never its organization, and leaves an owner when it takes one away. */
  ghost predicate OneRow(s: State, s': State, id: string) {
    && (forall u | u in s.users :: u in s'.users && s'.users[u].org == s.users[u].org)
    && (forall u | u in s'.users && u != id :: u in s.users && s'.users[u] == s.users[u])
    && (id in s.users && id in Owners(s.users, s.users[id].org) && id !in Owners(s'.users, s.users[id].org) ==>
        Owners(s.users, s.users[id].org) != {id})
  }

  lemma CallWritesTarget(call: Call, s: State)
    requires Apply(call, s).outcome == Done
    ensures Target(call).Some? && Target(call).value in Apply(call, s).state.users
    ensures Apply(call, s).state.users == s.users[Target(call).value := Apply(call, s).state.users[Target(call).value]]
    ensures call.CRegister? || Apply(call, s).state.orgs == s.orgs
    ensures Target(call).value in s.users ==>
              s.users[Target(call).value].org == Apply(call, s).state.users[Target(call).value].org
  {
  }

  lemma TargetNotLast(call: Call, s: State, id: string)
    requires Apply(call, s).outcome == Done && Target(call) == Some(id) && id in s.users
    requires id in Owners(s.users, s.users[id].org)
    ensures id !in Owners(Apply(call, s).state.users, s.users[id].org) ==> Owners(s.users, s.users[id].org) != {id}
  {
    LastOwnerIff(s.users, s.users[id].org, id);
  }

  lemma CallChangesOneRow(call: Call, s: State)
    requires Apply(call, s).outcome == Done
    ensures Target(call).Some? && OneRow(s, Apply(call, s).state, Target(call).value)
    ensures Target(call).value in Apply(call, s).state.users
  {
    CallWritesTarget(call, s);
    var id := Target(call).value;
    if id in s.users && id in Owners(s.users, s.users[id].org) {
      TargetNotLast(call, s, id);
    }
  }

  lemma LastOwnerIff(users: map<string, User>, org: string, id: string)
    ensures LastOwner(users, org, id) <==> Owners(users, org) <= {id}
  {
  }

  lemma FailureChangesNothing(call: Call, s: State)
    requires Apply(call, s).outcome != Done
    ensures Apply(call, s).state == s
  {
  }

  lemma OwnerLeft(s: State, s': State, id: string, org: string)
    requires OneRow(s, s', id) && id in s'.users && Owners(s.users, org) != {}
    ensures Owners(s'.users, org) != {}
  {
    var o :| o in Owners(s.users, org);
    if o != id {
      assert o in Owners(s'.users, org);
    } else if id !in Owners(s'.users, org) {
      var p :| p in Owners(s.users, org) && p != id;
      assert p in Owners(s'.users, org);
    }
  }

  lemma OneRowKeepsInv(s: State, s': State, id: string)
    requires Inv(s) && OneRow(s, s', id) && id in s'.users && s'.users[id].org in s'.orgs
    requires s'.users[id].status == Disabled <==> s'.users[id].disabledAt.Some?
    requires forall org | org in s.orgs :: org in s'.orgs
    requires forall org | org in s'.orgs && org !in s.orgs :: id in Owners(s'.users, org)
    ensures Inv(s')
  {
    forall org | org in s'.orgs ensures Owners(s'.users, org) != {} {
      if org in s.orgs {
        OwnerLeft(s, s', id, org);
      }
    }
  }

  lemma CallKeepsInv(call: Call, s: State)
    requires Inv(s)
    ensures Inv(Apply(call, s).state)
  {
    if Apply(call, s).outcome == Done {
      CallChangesOneRow(call, s);
      RowStaysSound(call, s);
      OneRowKeepsInv(s, Apply(call, s).state, Target(call).value);
    } else {
      FailureChangesNothing(call, s);
    }
  }

  lemma RowStaysSound(call: Call, s: State)
    requires Inv(s) && Apply(call, s).outcome == Done && Target(call).Some?
        && Target(call).value in Apply(call, s).state.users
    ensures var row := Apply(call, s).state.users[Target(call).value];
            row.org in Apply(call, s).state.orgs && (row.status == Disabled <==> row.disabledAt.Some?)
    ensures forall org | org in s.orgs :: org in Apply(call, s).state.orgs
    ensures forall org | org in Apply(call, s).state.orgs && org !in s.orgs ::
              Target(call).value in Owners(Apply(call, s).state.users, org)
  {
  }

  /** From an empty database, every run of calls keeps an owner who is not disabled in every organization. */
  lemma {:induction false} AlwaysAnOwner(calls: seq<Call>)
    ensures Inv(After(calls))
  {
    if calls != [] {
      AlwaysAnOwner(calls[..|calls| - 1]);
      CallKeepsInv(calls[|calls| - 1], After(calls[..|calls| - 1]));
    }
  }

  /** The organization a call works in: its owners are the only ones that can change. */
  function Scope(call: Call, s: State): Option<string> {
    match call
    case CRegister(org, _, _, _) => Some(org)
    case CReset(id) => if id in s.users then Some(s.users[id].org) else None
    case CDelete(caller, _) =>
      if caller.Some? && caller.value.id in s.users then Some(s.users[caller.value.id].org) else None
    case _ => if call.caller.Some? then Some(call.caller.value.org) else None
  }

  /** Rows of other organizations are not changed, created or removed. */
  lemma OtherOrganizationsUntouched(call: Call, s: State, org: string)
    requires Inv(s) && Scope(call, s) != Some(org)
    ensures var s' := Apply(call, s).state;
      && (forall u | u in s.users && s.users[u].org == org :: u in s'.users && s'.users[u] == s.users[u])
      && (forall u | u in s'.users && s'.users[u].org == org :: u in s.users)
  {
    if Apply(call, s).outcome == Done {
      CallChangesOneRow(call, s);
      ScopeIsTargets(call, s);
    } else {
      FailureChangesNothing(call, s);
    }
  }

  lemma ScopeIsTargets(call: Call, s: State)
    requires Apply(call, s).outcome == Done && Target(call).Some? && Target(call).value in Apply(call, s).state.users
    ensures Scope(call, s) == Some(Apply(call, s).state.users[Target(call).value].org)
  {
  }

  // ---------------------------------------------------------------- when a call is refused, and who may do what

  /** Asked by an owner of the organization, disabling an owner fails exactly when no other owner is left. */
  lemma DisableRefusedIffOnlyOwner(s: State, caller: Caller, id: string, now: int)
    requires Inv(s) && caller.role == Some(Owner) && caller.org != ""
    requires id in s.users && s.users[id].org == caller.org && s.users[id].role == Owner
    ensures Disable(s, Some(caller), id, now).outcome == Error(ValidationFailed)
        <==> Owners(s.users, caller.org) == {id}
  {
    LastOwnerIff(s.users, caller.org, id);
  }

  /** A call that makes `id` an owner: registration, or a call by somebody whose session has the owner role. */
  predicate MayMakeOwner(call: Call) {
    || call.CRegister?
    || ((call.CInvite? || call.CChangeRole?) && call.caller.Some? && call.caller.value.role == Some(Owner))
  }

  predicate IsOwner(s: State, id: string) {
    id in s.users && s.users[id].role == Owner
  }

  lemma OwnersComeFromOwners(call: Call, s: State, id: string)
    requires IsOwner(Apply(call, s).state, id) && !IsOwner(s, id)
    ensures MayMakeOwner(call) && Target(call) == Some(id)
  {
  }

  ghost predicate MadeOwnerAt(calls: seq<Call>, k: nat, id: string)
    requires k < |calls|
  {
    && !IsOwner(After(calls[..k]), id) && IsOwner(Apply(calls[k], After(calls[..k])).state, id)
    && MayMakeOwner(calls[k]) && Target(calls[k]) == Some(id)
  }

  /** Over every run: whoever is an owner was made one by registration or by the call of an owner. */
  lemma {:induction false} OwnersDescendFromOwners(calls: seq<Call>, id: string)
    requires IsOwner(After(calls), id)
    ensures exists k | 0 <= k < |calls| :: MadeOwnerAt(calls, k, id)
  {
    var n := |calls| - 1;
    var before := calls[..n];
    if IsOwner(After(before), id) {
      OwnersDescendFromOwners(before, id);
      var k :| 0 <= k < n && MadeOwnerAt(before, k, id);
      assert before[..k] == calls[..k] && MadeOwnerAt(calls, k, id);
    } else {
      OwnersComeFromOwners(calls[n], After(before), id);
      assert MadeOwnerAt(calls, n, id);
    }
  }

  /** The call comes from an owner's session, or from that user. */
  predicate MayTouchOwner(call: Call, id: string) {
    match call
    case CRegister(_, _, _, _) => false
    case CReset(target) => target == id
    case CDelete(caller, _) => caller.Some? && caller.value.id == id
    case _ => call.caller.Some? && call.caller.value.role == Some(Owner)
  }

  lemma OwnerRowsGuarded(call: Call, s: State, id: string)
    requires IsOwner(s, id) && !MayTouchOwner(call, id)
    ensures id in Apply(call, s).state.users && Apply(call, s).state.users[id] == s.users[id]
  {
  }

  /** Over every run of calls that come neither from an owner's session nor from the owner, an owner's row stays. */
  lemma {:induction false} OwnerRowSurvives(calls: seq<Call>, later: seq<Call>, id: string)
    requires IsOwner(After(calls), id) && forall k | 0 <= k < |later| :: !MayTouchOwner(later[k], id)
    ensures id in After(calls + later).users && After(calls + later).users[id] == After(calls).users[id]
  {
    if later == [] {
      assert calls + later == calls;
    } else {
      var n := |later| - 1;
      OwnerRowSurvives(calls, later[..n], id);
      assert (calls + later)[..|calls + later| - 1] == calls + later[..n];
      OwnerRowsGuarded(later[n], After(calls + later[..n]), id);
    }
  }

  /** Enabling a user who was just disabled always succeeds and restores the state exactly for those who were active
      before: an invited user comes back active, without having accepted. */
  lemma EnableAfterDisable(s: State, caller: Option<Caller>, id: string, now: int)
    requires Inv(s) && id in s.users && Disable(s, caller, id, now).outcome == Done
    ensures var e := Enable(Disable(s, caller, id, now).state, caller, id);
            e.outcome == Done && (e.state == s <==> s.users[id].status == Active)
  {
    var users := Enable(Disable(s, caller, id, now).state, caller, id).state.users;
    assert users == s.users[id := s.users[id].(status := Active, disabledAt := None)];
    if users == s.users { assert users[id] == s.users[id]; }
  }

  /** A second role change by the same caller undoes the first, save that nobody takes back their own owner role:
      owners who stepped down themselves are refused. */
  lemma RoleChangedBack(s: State, caller: Option<Caller>, id: string, role: Role)
    requires Inv(s) && ChangeRole(s, caller, id, role).outcome == Done
    ensures id in s.users && caller.Some?
    ensures var back := ChangeRole(ChangeRole(s, caller, id, role).state, caller, id, s.users[id].role);
            if id == caller.value.id && s.users[id].role == Owner then back.outcome == Error(ValidationFailed)
            else back == Effect(s, Done)
  {
    var s' := ChangeRole(s, caller, id, role).state;
    var org := s.users[id].org;
    assert s'.users[id := s.users[id]] == s.users;
    if role == Owner && s.users[id].role != Owner {
      var other :| other in Owners(s.users, org);
      assert other != id && other in Owners(s'.users, org) - {id};
    }
  }

  // ---------------------------------------------------------------- active owners

  predicate TakesOwner(call: Call) {
    call.CDisable? || call.CDelete? || (call.CChangeRole? && call.role != Owner)
  }

  /** The caller is an owner of the organization, or deletes an account whose anonymous e-mail address is free. */
  predicate Entitled(call: Call, s: State, org: string)
    requires TakesOwner(call)
  {
    call.caller.Some? &&
    if call.CDelete? then !EmailTaken(s.users - {call.caller.value.id}, DeletedEmail(call.caller.value.id))
    else org != "" && call.caller.value.org == org && call.caller.value.role == Some(Owner)
  }

  predicate InvitedOwner(users: map<string, User>, org: string, id: string) {
    id in users && users[id].org == org && users[id].role == Owner && users[id].status == Invited
  }

  /** The call disables, demotes or deletes the only active owner of the organization, and another owner has been
      invited: for the guard that counts, though nobody may ever accept the invitation. */
  predicate TakesLastActive(call: Call, s: State, org: string) {
    && TakesOwner(call) && Entitled(call, s, org)
    && Target(call).Some? && ActiveOwners(s.users, org) == {Target(call).value}
    && exists other | other in s.users :: InvitedOwner(s.users, org, other)
  }

  /** With one active owner, the guard sees another owner exactly when one has been invited. */
  lemma LastUnlessInvited(users: map<string, User>, org: string, id: string)
    requires ActiveOwners(users, org) == {id}
    ensures !LastOwner(users, org, id) <==> exists other | other in users :: InvitedOwner(users, org, other)
  {
    if other :| other in Owners(users, org) - {id} {
      assert other !in ActiveOwners(users, org);
      assert InvitedOwner(users, org, other);
    }
    if other :| other in users && InvitedOwner(users, org, other) {
      assert id in ActiveOwners(users, org);
      assert other in Owners(users, org) - {id};
    }
  }

  lemma TakingSucceedsIff(call: Call, s: State, org: string)
    requires TakesOwner(call) && Target(call).Some? && ActiveOwners(s.users, org) == {Target(call).value}
    ensures Apply(call, s).outcome == Done <==> TakesLastActive(call, s, org)
  {
    var id := Target(call).value;
    assert id in ActiveOwners(s.users, org);
    LastUnlessInvited(s.users, org, id);
  }

  /** An organization with an active owner is left without one by exactly these calls. */
  lemma ActiveOwnerLostIff(call: Call, s: State, org: string)
    requires ActiveOwners(s.users, org) != {}
    ensures ActiveOwners(Apply(call, s).state.users, org) == {} <==> TakesLastActive(call, s, org)
  {
    if TakesOwner(call) && Target(call).Some? && ActiveOwners(s.users, org) == {Target(call).value} {
      TakingSucceedsIff(call, s, org);
    }
    ActiveOwnerLost(call, s, org);
  }

  lemma ActiveOwnerLost(call: Call, s: State, org: string)
    requires ActiveOwners(s.users, org) != {}
    ensures ActiveOwners(Apply(call, s).state.users, org) == {} <==>
            TakesOwner(call) && Apply(call, s).outcome == Done
            && Target(call).Some? && ActiveOwners(s.users, org) == {Target(call).value}
  {
    if Apply(call, s).outcome != Done {
      FailureChangesNothing(call, s);
    } else {
      TargetSome(call, s);
      var id := Target(call).value;
      OthersStayActive(s, Apply(call, s).state, id, org) by { CallChangesOneRow(call, s); }
      if id in ActiveOwners(s.users, org) {
        TargetLosesActive(call, s, org);
      }
      EmptiedIff(ActiveOwners(s.users, org), ActiveOwners(Apply(call, s).state.users, org), id, TakesOwner(call));
    }
  }

  lemma EmptiedIff(before: set<string>, after: set<string>, id: string, loses: bool)
    requires before != {} && after - {id} == before - {id}
    requires id in before ==> (id !in after <==> loses)
    ensures after == {} <==> loses && before == {id}
  {
    if before != {id} {
      var other :| other in before && other != id;
      assert other in after - {id};
    } else if loses {
      assert after - {id} == {} && after == after - {id};
    }
  }

  lemma TargetSome(call: Call, s: State)
    requires Apply(call, s).outcome == Done
    ensures Target(call).Some?
  {
  }

  lemma TargetLosesActive(call: Call, s: State, org: string)
    requires Apply(call, s).outcome == Done && Target(call).Some? && Target(call).value in ActiveOwners(s.users, org)
    ensures Target(call).value !in ActiveOwners(Apply(call, s).state.users, org) <==>
            TakesOwner(call)
  {
  }

  lemma OthersStayActive(s: State, s': State, id: string, org: string)
    requires OneRow(s, s', id)
    ensures ActiveOwners(s'.users, org) - {id} == ActiveOwners(s.users, org) - {id}
  {
  }

  const ANN := Some(Caller("ann", "org", Some(Owner)))
  const ANN_REGISTERS := CRegister("org", "acme.test", "ann", "ann@acme.test")
  const ANN_INVITES := CInvite(ANN, "bob", "bob@acme.test", Owner)
  const ANN_LEAVES := CDelete(ANN, 0)

  lemma AnnInvitesBob()
    ensures After([ANN_REGISTERS, ANN_INVITES]) == State(map["org" := "acme.test"], map[
              "ann" := User("org", "ann@acme.test", Owner, Active, None),
              "bob" := User("org", "bob@acme.test", Owner, Invited, None)])
  {
    assert [ANN_REGISTERS][..0] == [] && [ANN_REGISTERS, ANN_INVITES][..1] == [ANN_REGISTERS];
    assert After([ANN_REGISTERS]) == Apply(ANN_REGISTERS, EMPTY).state;
    assert After([ANN_REGISTERS])
      == State(map["org" := "acme.test"], map["ann" := User("org", "ann@acme.test", Owner, Active, None)]);
    assert "bob@acme.test"[0] != "ann@acme.test"[0];
  }

  lemma AnnMayLeave(users: map<string, User>)
    requires users == map["ann" := User("org", "ann@acme.test", Owner, Active, None),
                          "bob" := User("org", "bob@acme.test", Owner, Invited, None)]
    ensures !LastOwner(users, "org", "ann") && !EmailTaken(users - {"ann"}, DeletedEmail("ann"))
  {
    assert "bob" in Owners(users, "org") - {"ann"};
    assert DeletedEmail("ann")[0] == 'd' && users["bob"].email[0] == 'b';
  }

  /** It happens: an owner invites a second owner and deletes the account; the invitation is then the only way in. */
  lemma InvitedOwnerLeftAlone()
    ensures var s := After([ANN_REGISTERS, ANN_INVITES, ANN_LEAVES]);
            "org" in s.orgs && Owners(s.users, "org") == {"bob"} && ActiveOwners(s.users, "org") == {}
  {
    var calls := [ANN_REGISTERS, ANN_INVITES, ANN_LEAVES];
    assert calls[..2] == [ANN_REGISTERS, ANN_INVITES];
    AnnInvitesBob();
    var s := After(calls[..2]);
    AnnMayLeave(s.users);
    assert After(calls) == DeleteAccount(s, ANN, 0).state;
  }
}
