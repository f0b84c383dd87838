/** What each call on a user answers after any calls before it, and what it leaves, column by column. */
module UserAnswers {
  import opened Options
  import opened Users

  // ---------------------------------------------------------------- addresses

  /** No two users share an e-mail address, and no two organizations a domain. */
  ghost predicate Unique(s: State) {
    && (forall i, j | i in s.users && j in s.users && s.users[i].email == s.users[j].email :: i == j)
    && (forall o, p | o in s.orgs && p in s.orgs && s.orgs[o] == s.orgs[p] :: o == p)
  }

  lemma CallKeepsUnique(call: Call, s: State)
    requires Unique(s)
    ensures Unique(Apply(call, s).state)
  {
    var s' := Apply(call, s).state;
    if call.CDelete? && Apply(call, s).outcome == Done {
      var id := call.caller.value.id;
      forall i | i in s'.users && i != id ensures s'.users[i].email != s'.users[id].email {
        assert i in s.users - {id};
      }
    }
  }

  /** Over every run. */
  lemma {:induction false} AlwaysUnique(calls: seq<Call>)
    ensures Unique(After(calls))
  {
    if calls != [] {
      AlwaysUnique(calls[..|calls| - 1]);
      CallKeepsUnique(calls[|calls| - 1], After(calls[..|calls| - 1]));
    }
  }

  // ---------------------------------------------------------------- who may do what to whom

  /** The session is an owner's or an admin's of this organization. */
  predicate Manages(caller: Option<Caller>, org: string) {
    caller.Some? && caller.value.org == org && (caller.value.role == Some(Owner) || caller.value.role == Some(Admin))
  }

  /** The user is in an organization, and the caller manages it; owners are dealt with by owners only. */
  predicate MayManage(s: State, caller: Option<Caller>, id: string) {
    && id in s.users && s.users[id].org != "" && Manages(caller, s.users[id].org)
    && (s.users[id].role == Owner ==> caller.value.role == Some(Owner))
  }

  /** No other owner of the organization is left who is not disabled. */
  predicate NoOtherOwner(s: State, id: string)
    requires id in s.users
  {
    forall other | other in s.users && other != id ::
      !(s.users[other].org == s.users[id].org && s.users[other].role == Owner && s.users[other].status != Disabled)
  }

  lemma LastOwnerMeans(s: State, id: string)
    requires id in s.users
    ensures LastOwner(s.users, s.users[id].org, id) <==> NoOtherOwner(s, id)
  {
    if other :| other in s.users && other != id && s.users[other].org == s.users[id].org
                && s.users[other].role == Owner && s.users[other].status != Disabled {
      assert other in Owners(s.users, s.users[id].org) - {id};
    }
  }

  /** One user's row is replaced, all else is as before. */
  predicate RowSet(s: State, s': State, id: string, row: User) {
    s' == s.(users := s.users[id := row])
  }

  // ---------------------------------------------------------------- the calls

  /** Registration needs a new domain, a new address and new ids, and makes an organization with one active owner. */
  lemma RegisterAnswers(s: State, org: string, domain: string, id: string, email: string)
    ensures var e := Register(s, org, domain, id, email);
      && (e.outcome == Done <==>
            && org !in s.orgs && id !in s.users && (forall o | o in s.orgs :: s.orgs[o] != domain)
            && (forall i | i in s.users :: s.users[i].email != email))
      && (e.outcome == Done ==>
            e.state == State(s.orgs[org := domain], s.users[id := User(org, email, Owner, Active, None)]))
      && (e.outcome != Done ==> e.state == s)
  {
  }

  /** Owners and admins invite to their own organization, owners only by owners, with a new address. */
  lemma InviteAnswers(s: State, caller: Option<Caller>, id: string, email: string, role: Role)
    ensures var e := Invite(s, caller, id, email, role);
      && (e.outcome == Done <==>
            && caller.Some? && caller.value.org in s.orgs && Manages(caller, caller.value.org)
            && (role == Owner ==> caller.value.role == Some(Owner))
            && id !in s.users && (forall i | i in s.users :: s.users[i].email != email))
      && if e.outcome == Done then RowSet(s, e.state, id, User(caller.value.org, email, role, Invited, None))
         else e.state == s
  {
  }

  /** A role is changed exactly by those who may manage the user and may give the role; nobody makes themselves owner,
      and an owner is demoted only when another is left. Only the role changes. */
  lemma RoleAnswers(s: State, caller: Option<Caller>, id: string, role: Role)
    ensures var e := ChangeRole(s, caller, id, role);
      && (e.outcome == Done <==>
            && MayManage(s, caller, id)
            && (role == Owner ==> caller.value.role == Some(Owner) && caller.value.id != id)
            && (s.users[id].role == Owner && role != Owner ==> !NoOtherOwner(s, id)))
      && if e.outcome == Done
         then RowSet(s, e.state, id,
           User(s.users[id].org, s.users[id].email, role, s.users[id].status, s.users[id].disabledAt))
         else e.state == s
  {
    if id in s.users {
      LastOwnerMeans(s, id);
    }
  }

  /** A user is disabled exactly by those who may manage the user, an owner only when another is left; the time of the
      first disabling stays. */
  lemma DisableAnswers(s: State, caller: Option<Caller>, id: string, now: int)
    ensures var e := Disable(s, caller, id, now);
      && (e.outcome == Done <==>
            MayManage(s, caller, id) && (s.users[id].role == Owner ==> !NoOtherOwner(s, id)))
      && if e.outcome == Done
         then RowSet(s, e.state, id, User(s.users[id].org, s.users[id].email, s.users[id].role, Disabled,
                Some(if s.users[id].disabledAt.Some? then s.users[id].disabledAt.value else now)))
         else e.state == s
  {
    if id in s.users {
      LastOwnerMeans(s, id);
    }
  }

  /** A user is enabled exactly by those who may manage the user. */
  lemma EnableAnswers(s: State, caller: Option<Caller>, id: string)
    ensures var e := Enable(s, caller, id);
      && (e.outcome == Done <==> MayManage(s, caller, id))
      && if e.outcome == Done
         then RowSet(s, e.state, id, User(s.users[id].org, s.users[id].email, s.users[id].role, Active, None))
         else e.state == s
  {
  }

  function AnonymousEmail(id: string): string {
    "deleted-" + id + "@deleted.aegisweb.local"
  }

  /** An account is deleted exactly by its user, an owner's only when another owner is left, unless somebody else has
      taken the anonymous address; the user is disabled under that address. */
  lemma DeleteAnswers(s: State, caller: Option<Caller>, now: int)
    ensures var e := DeleteAccount(s, caller, now);
      && (e.outcome == Done <==>
            && caller.Some? && caller.value.id in s.users
            && (s.users[caller.value.id].role == Owner ==> !NoOtherOwner(s, caller.value.id))
            && (forall i | i in s.users && i != caller.value.id :: s.users[i].email != AnonymousEmail(caller.value.id)))
      && if e.outcome == Done
         then
           var id := caller.value.id;
           RowSet(s, e.state, id, User(s.users[id].org, AnonymousEmail(id), s.users[id].role, Disabled, Some(now)))
         else e.state == s
  {
    if caller.Some? && caller.value.id in s.users {
      var id := caller.value.id;
      LastOwnerMeans(s, id);
      if EmailTaken(s.users - {id}, DeletedEmail(id)) {
        var i :| i in s.users - {id} && s.users[i].email == DeletedEmail(id);
        assert i in s.users && i != id;
      } else {
        forall i | i in s.users && i != id ensures s.users[i].email != AnonymousEmail(id) {
          assert i in s.users - {id};
        }
      }
    }
  }

  /** A password is reset exactly for users who are not disabled; an invited user becomes active. */
  lemma ResetAnswers(s: State, id: string)
    ensures var e := ResetPassword(s, id);
      && (e.outcome == Done <==> id in s.users && s.users[id].status != Disabled)
      && if e.outcome == Done
         then RowSet(s, e.state, id,
           User(s.users[id].org, s.users[id].email, s.users[id].role, Active, s.users[id].disabledAt))
         else e.state == s
  {
  }

  /** After any calls: a deleted account frees its address, which anyone may register or be invited with again. */
  lemma DeletedAddressIsFree(calls: seq<Call>, caller: Caller, now: int)
    requires DeleteAccount(After(calls), Some(caller), now).outcome == Done
    requires After(calls).users[caller.id].email != AnonymousEmail(caller.id)
    ensures var s' := DeleteAccount(After(calls), Some(caller), now).state;
            forall i | i in s'.users :: s'.users[i].email != After(calls).users[caller.id].email
  {
    AlwaysUnique(calls);
    DeleteAnswers(After(calls), Some(caller), now);
  }
}
