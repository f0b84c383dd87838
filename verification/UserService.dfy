/** The calls that write users, statement by statement. */
module UserService {
  import opened Options
  import opened Users

  class UsersService {
    var orgs: map<string, string>
    var users: map<string, User>

    ghost function View(): State
      reads this
    {
      State(orgs, users)
    }

    /** Every organization has an owner who is not disabled, every user an organization, and `disabledAt` is set
        exactly for the disabled ones. */
    ghost predicate Valid()
      reads this
    {
      Inv(View())
    }

    constructor ()
      ensures Valid() && View() == EMPTY
    {
      orgs, users := map[], map[];
    }

    method Register(org: string, domain: string, id: string, email: string) returns (outcome: Outcome)
      requires Valid()
      modifies this
      ensures Valid()
      ensures Effect(View(), outcome) == Users.Register(old(View()), org, domain, id, email)
    {
      if DomainTaken(orgs, domain) {
        return Error(ValidationFailed);
      }
      if EmailTaken(users, email) {
        return Error(ValidationFailed);
      }
      if org in orgs || id in users {
        return Error(UniqueViolation);
      }
      CallKeepsInv(CRegister(org, domain, id, email), View());
      orgs := orgs[org := domain];
      users := users[id := User(org, email, Owner, Active, None)];
      return Done;
    }

    /** `user.create` and `user.update`: the row that `call` writes. */
    method Save(ghost call: Call, id: string, row: User)
      requires Valid() && Apply(call, View()).state == View().(users := users[id := row])
      modifies this`users
      ensures Valid() && users == old(users)[id := row]
    {
      CallKeepsInv(call, View());
      users := users[id := row];
    }

    method FindUserInOrganization(org: string, id: string) returns (found: Outcome)
      ensures found == Find(View(), org, id)
    {
      if org == "" {
        return Error(PermissionDenied);
      }
      if id !in users || users[id].org != org {
        return Error(NotFound);
      }
      return Done;
    }

    method OtherOwnerCount(org: string, id: string) returns (count: nat)
      ensures count == 0 <==> LastOwner(users, org, id)
    {
      var others := set u | u in users && users[u].org == org && users[u].role == Owner
        && users[u].status != Disabled && u != id;
      assert others == Owners(users, org) - {id};
      return |others|;
    }

    method InviteUser(caller: Option<Caller>, id: string, email: string, role: Role) returns (outcome: Outcome)
      requires Valid()
      modifies this`users
      ensures Valid()
      ensures Effect(View(), outcome) == Invite(old(View()), caller, id, email, role)
    {
      if !OwnerOrAdmin(caller) {
        return Error(PermissionDenied);
      }
      if !MayTouch(caller, role) {
        return Error(PermissionDenied);
      }
      if id in users || EmailTaken(users, email) {
        return Error(UniqueViolation);
      }
      if caller.value.org !in orgs {
        return Error(MissingOrganization);
      }
      Save(CInvite(caller, id, email, role), id, User(caller.value.org, email, role, Invited, None));
      return Done;
    }

    method ChangeUserRole(caller: Option<Caller>, id: string, role: Role) returns (outcome: Outcome)
      requires Valid()
      modifies this`users
      ensures Valid()
      ensures Effect(View(), outcome) == ChangeRole(old(View()), caller, id, role)
    {
      if !OwnerOrAdmin(caller) {
        return Error(PermissionDenied);
      }
      outcome := FindUserInOrganization(caller.value.org, id);
      if outcome != Done {
        return;
      }
      var target := users[id];
      if !MayTouch(caller, target.role) {
        return Error(PermissionDenied);
      }
      if !MayTouch(caller, role) {
        return Error(PermissionDenied);
      }
      if id == caller.value.id && role == Owner {
        return Error(ValidationFailed);
      }
      if target.role == Owner && role != Owner {
        var count := OtherOwnerCount(target.org, id);
        if count == 0 {
          return Error(ValidationFailed);
        }
      }
      Save(CChangeRole(caller, id, role), id, target.(role := role));
      return Done;
    }

    method DisableUser(caller: Option<Caller>, id: string, now: int) returns (outcome: Outcome)
      requires Valid()
      modifies this`users
      ensures Valid()
      ensures Effect(View(), outcome) == Disable(old(View()), caller, id, now)
    {
      if !OwnerOrAdmin(caller) {
        return Error(PermissionDenied);
      }
      outcome := FindUserInOrganization(caller.value.org, id);
      if outcome != Done {
        return;
      }
      var target := users[id];
      if !MayTouch(caller, target.role) {
        return Error(PermissionDenied);
      }
      if target.role == Owner {
        var count := OtherOwnerCount(target.org, id);
        if count == 0 {
          return Error(ValidationFailed);
        }
      }
      Save(CDisable(caller, id, now), id, target.(status := Disabled, disabledAt := OrElse(target.disabledAt, now)));
      return Done;
    }

    method EnableUser(caller: Option<Caller>, id: string) returns (outcome: Outcome)
      requires Valid()
      modifies this`users
      ensures Valid()
      ensures Effect(View(), outcome) == Enable(old(View()), caller, id)
    {
      if !OwnerOrAdmin(caller) {
        return Error(PermissionDenied);
      }
      outcome := FindUserInOrganization(caller.value.org, id);
      if outcome != Done {
        return;
      }
      if !MayTouch(caller, users[id].role) {
        return Error(PermissionDenied);
      }
      Save(CEnable(caller, id), id, users[id].(status := Active, disabledAt := None));
      return Done;
    }

    method DeleteAccount(caller: Option<Caller>, now: int) returns (outcome: Outcome)
      requires Valid()
      modifies this`users
      ensures Valid()
      ensures Effect(View(), outcome) == Users.DeleteAccount(old(View()), caller, now)
    {
      if caller.None? {
        return Error(PermissionDenied);
      }
      var id := caller.value.id;
      if id !in users {
        return Error(NotFound);
      }
      var user := users[id];
      if user.role == Owner {
        var count := OtherOwnerCount(user.org, id);
        if count == 0 {
          return Error(ValidationFailed);
        }
      }
      if EmailTaken(users - {id}, DeletedEmail(id)) {
        return Error(UniqueViolation);
      }
      Save(CDelete(caller, now), id, user.(email := DeletedEmail(id), status := Disabled, disabledAt := Some(now)));
      return Done;
    }

    method ResetPassword(id: string) returns (outcome: Outcome)
      requires Valid()
      modifies this`users
      ensures Valid()
      ensures Effect(View(), outcome) == Users.ResetPassword(old(View()), id)
    {
      if id !in users || users[id].status == Disabled {
        return Error(PermissionDenied);
      }
      Save(CReset(id), id, users[id].(status := Active));
      return Done;
    }
  }
}
