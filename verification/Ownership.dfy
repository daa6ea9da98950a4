/** Roles and ownership across organisations (apps/orgs/views.py, apps/orgs/services.py,
    core/saasmint_core/services/orgs.py) over a members table with its two database constraints
    (apps/orgs/models.py). */
module Ownership {
  import opened Prelude

  datatype Role = Owner | Admin | Member

  datatype Row = Row(role: Role, isBilling: bool)

  /** The members table is keyed by its unique pair of organisation and user. */
  datatype Key = Key(org: nat, user: nat)

  /** `customers` maps a Stripe customer id to its organisation, or to nothing for a personal customer; `everOrgs` holds
      every organisation id ever used. */
  datatype State = State(users: set<nat>, everOrgs: set<nat>, orgs: set<nat>, members: map<Key, Row>,
                         customers: map<string, Option<nat>>)

  datatype Action =
    | CreateOrg(user: nat, org: nat, customer: Option<string>)
    | AcceptInvite(org: nat, user: nat, role: Role)              // the invitee's account is created with the membership
    | PatchMember(caller: nat, org: nat, target: nat, newRole: Option<Role>, isBilling: Option<bool>)
    | Transfer(caller: nat, org: nat, target: nat)
    | Remove(caller: nat, org: nat, target: nat)
    | DeleteUser(user: nat)
    | DeleteOrg(org: nat, victims: set<nat>)

  const Empty: State := State({}, {}, {}, map[], map[])

  function Rank(role: Role): nat {
    match role case Owner => 3 case Admin => 2 case Member => 1
  }

  predicate CanManage(caller: Role, target: Role) {
    Rank(target) < Rank(caller)
  }

  predicate CanAssign(caller: Role, role: Role) {
    Rank(role) < Rank(caller)
  }

  predicate Owns(members: map<Key, Row>, org: nat, user: nat) {
    Key(org, user) in members && members[Key(org, user)].role.Owner?
  }

  predicate OwnsSome(members: map<Key, Row>, user: nat) {
    exists k :: k in members && k.user == user && members[k].role.Owner?
  }

  predicate OwnsAnother(members: map<Key, Row>, org: nat, user: nat) {
    exists k :: k in members && k.user == user && k.org != org && members[k].role.Owner?
  }

  /** uniq_org_owner_per_user and ck_org_owner_must_be_billing. */
  ghost predicate Constraints(members: map<Key, Row>) {
    && (forall j, k ::
          j in members && k in members && j.user == k.user && members[j].role.Owner? && members[k].role.Owner? ==>
            j == k)
    && (forall k :: k in members && members[k].role.Owner? ==> members[k].isBilling)
  }

  predicate AdminOrAbove(members: map<Key, Row>, org: nat, user: nat) {
    Key(org, user) in members && !members[Key(org, user)].role.Member?
  }

  function WithoutUsers(members: map<Key, Row>, users: set<nat>): map<Key, Row> {
    map k | k in members && k.user !in users :: members[k]
  }

  function Patched(row: Row, role: Option<Role>, isBilling: Option<bool>): Row {
    Row(if role.Some? then role.value else row.role, if isBilling.Some? then isBilling.value else row.isBilling)
  }

  /** A write that the database would reject leaves everything as it was. */
  ghost function Commit(st: State, next: State): State {
    if Constraints(next.members) then next else st
  }

  /** The membership the webhook's earlier delivery created. */
  predicate AlreadyCreated(st: State, user: nat, customer: Option<string>) {
    && customer.Some? && customer.value in st.customers && st.customers[customer.value].Some?
    && st.customers[customer.value].value in st.orgs && Key(st.customers[customer.value].value, user) in st.members
  }

  function Created(st: State, user: nat, org: nat, customer: Option<string>): State {
    st.(everOrgs := st.everOrgs + {org}, orgs := st.orgs + {org},
        members := st.members[Key(org, user) := Row(Owner, true)],
        customers := if customer.Some? then st.customers[customer.value := Some(org)] else st.customers)
  }

  predicate MayPatch(st: State, caller: nat, org: nat, target: nat, role: Option<Role>) {
    && AdminOrAbove(st.members, org, caller) && Key(org, target) in st.members
    && CanManage(st.members[Key(org, caller)].role, st.members[Key(org, target)].role)
    && (role.Some? ==> !role.value.Owner? && CanAssign(st.members[Key(org, caller)].role, role.value))
  }

  predicate MayTransfer(st: State, caller: nat, org: nat, target: nat) {
    Owns(st.members, org, caller) && Key(org, target) in st.members && st.members[Key(org, target)].role.Admin?
  }

  predicate MayRemove(st: State, caller: nat, org: nat, target: nat) {
    && AdminOrAbove(st.members, org, caller) && Key(org, target) in st.members
       && !st.members[Key(org, target)].role.Owner?
    && CanManage(st.members[Key(org, caller)].role, st.members[Key(org, target)].role)
  }

  function Transferred(members: map<Key, Row>, org: nat, caller: nat, target: nat): map<Key, Row> {
    members[Key(org, target) := Row(Owner, true)][Key(org, caller) := Row(Admin, false)]
  }

  ghost function Step(st: State, a: Action): State {
    match a
    case CreateOrg(user, org, customer) =>
      if user !in st.users || org in st.everOrgs || AlreadyCreated(st, user, customer) then st
      else if customer.Some? && customer.value in st.customers then st   // the customer id is unique
      else Commit(st, Created(st, user, org, customer))
    case AcceptInvite(org, user, role) =>
      if org !in st.orgs || user in st.users || role.Owner? then st
      else Commit(st, st.(users := st.users + {user}, members := st.members[Key(org, user) := Row(role, false)]))
    case PatchMember(caller, org, target, role, isBilling) =>
      if MayPatch(st, caller, org, target, role) then
        Commit(st, st.(members :=
                       st.members[Key(org, target) := Patched(st.members[Key(org, target)], role, isBilling)]))
      else st
    case Transfer(caller, org, target) =>
      if MayTransfer(st, caller, org, target)
        then Commit(st, st.(members := Transferred(st.members, org, caller, target))) else st
    case Remove(caller, org, target) =>
      if MayRemove(st, caller, org, target) then
        st.(users := st.users - {target}, members := WithoutUsers(st.members, {target}))
      else st
    case DeleteUser(user) => st.(users := st.users - {user}, members := WithoutUsers(st.members, {user}))
    case DeleteOrg(org, victims) =>
      State(st.users - victims, st.everOrgs, st.orgs - {org},
            (map k | k in WithoutUsers(st.members, victims) && k.org != org :: st.members[k]),
            (map c | c in st.customers && st.customers[c] != Some(org) :: st.customers[c]))
  }

  ghost function Run(st: State, actions: seq<Action>): State {
    if actions == [] then st else Step(Run(st, actions[..|actions| - 1]), actions[|actions| - 1])
  }

  ghost predicate OneOwnerPerOrg(members: map<Key, Row>) {
    forall o, u, v :: Owns(members, o, u) && Owns(members, o, v) ==> u == v
  }

  ghost predicate Referential(st: State) {
    st.orgs <= st.everOrgs && forall k :: k in st.members ==> k.org in st.orgs && k.user in st.users
  }

  ghost predicate Invariant(st: State) {
    Referential(st) && Constraints(st.members) && OneOwnerPerOrg(st.members)
  }

  /** The whole story of who owns what after a step: a fresh organisation's creator, the target of a transfer by the
      owner, and otherwise nobody who did not own it before. */
  lemma OwnersAfter(st: State, a: Action, org: nat, user: nat)
    requires Invariant(st) && Owns(Step(st, a).members, org, user) && !Owns(st.members, org, user)
    ensures || (a.CreateOrg? && a.org == org && a.user == user && org !in st.everOrgs)
            || (a.Transfer? && a.org == org && a.target == user && Owns(st.members, org, a.caller)
                && !Owns(Step(st, a).members, org, a.caller))
  {
    hide Constraints, OneOwnerPerOrg;
  }

  lemma TransferStep(st: State, caller: nat, org: nat, target: nat)
    requires Invariant(st)
    ensures Invariant(Step(st, Transfer(caller, org, target)))
  {
    var next := Step(st, Transfer(caller, org, target));
    if next != st {
      forall o, u | Owns(next.members, o, u) ensures if o == org then u == target else Owns(st.members, o, u) {
        if o == org && u != target {
          assert u != caller && Owns(st.members, org, u);
          assert false;
        }
      }
    }
  }

  lemma StepInvariant(st: State, a: Action)
    requires Invariant(st)
    ensures Invariant(Step(st, a))
  {
    var next := Step(st, a);
    if a.Transfer? {
      TransferStep(st, a.caller, a.org, a.target);
    } else if a.CreateOrg? {
      forall u ensures !Owns(st.members, a.org, u) || a.org in st.everOrgs {}
      forall o, u | Owns(next.members, o, u) && !Owns(st.members, o, u)
        ensures o == a.org && u == a.user && a.org !in st.everOrgs {}
    } else {
      forall o, u | Owns(next.members, o, u) ensures Owns(st.members, o, u) {
        if !Owns(st.members, o, u) {
          OwnersAfter(st, a, o, u);
        }
      }
    }
  }

  /** Over every run an organisation has at most one owner, a user owns at most one organisation, and owners are billing
      members. */
  lemma {:induction false} OwnershipHolds(st: State, actions: seq<Action>)
    requires Invariant(st)
    ensures Invariant(Run(st, actions))
  {
    hide Step, Invariant;
    if actions != [] {
      OwnershipHolds(st, actions[..|actions| - 1]);
      StepInvariant(Run(st, actions[..|actions| - 1]), actions[|actions| - 1]);
    } else {
      assert Run(st, actions) == st;
    }
  }

  /** Whoever owns an organisation that existed at the start either owned it then or was handed it by its owner of the
      moment. */
  lemma {:induction false} OwnershipIsHandedOver(st: State, actions: seq<Action>, org: nat, user: nat)
    requires Invariant(st) && org in st.everOrgs
    requires Owns(Run(st, actions).members, org, user) && !Owns(st.members, org, user)
    ensures exists i :: 0 <= i < |actions| && HandsOver(Run(st, actions[..i]), actions[i], org, user)
  {
    hide Step, Invariant, Owns, HandsOver;
    if actions != [] {
      var n := |actions| - 1;
      var before := Run(st, actions[..n]);
      OwnershipHolds(st, actions[..n]);
      if Owns(before.members, org, user) {
        OwnershipIsHandedOver(st, actions[..n], org, user);
        var i :| 0 <= i < n && HandsOver(Run(st, actions[..n][..i]), actions[..n][i], org, user);
        assert actions[..n][..i] == actions[..i];
      } else {
        EverOrgsGrow(st, actions[..n], org);
        HandedOverStep(before, actions[n], org, user);
        assert HandsOver(before, actions[n], org, user);
      }
    }
  }

  /** A transfer to the user, asked for by the owner of the moment, that goes through. */
  ghost predicate HandsOver(st: State, a: Action, org: nat, user: nat) {
    && a.Transfer? && a.org == org && a.target == user && Owns(st.members, org, a.caller)
    && !Owns(st.members, org, user)
    && Owns(Step(st, a).members, org, user) && !Owns(Step(st, a).members, org, a.caller)
  }

  lemma HandedOverStep(st: State, a: Action, org: nat, user: nat)
    requires Invariant(st) && org in st.everOrgs && Owns(Step(st, a).members, org, user) && !Owns(st.members, org, user)
    ensures HandsOver(st, a, org, user)
  {
    OwnersAfter(st, a, org, user);
  }

  lemma {:induction false} EverOrgsGrow(st: State, actions: seq<Action>, org: nat)
    requires org in st.everOrgs
    ensures org in Run(st, actions).everOrgs
  {
    if actions != [] {
      EverOrgsGrow(st, actions[..|actions| - 1], org);
    }
  }

  /** An organisation that lost its owner (the account was deleted) never gets one again. */
  lemma {:induction false} OwnerlessForever(st: State, actions: seq<Action>, org: nat, user: nat)
    requires Invariant(st) && org in st.everOrgs && forall u :: !Owns(st.members, org, u)
    ensures !Owns(Run(st, actions).members, org, user)
  {
    hide Step, Invariant, Owns;
    if actions != [] {
      var n := |actions| - 1;
      var before := Run(st, actions[..n]);
      OwnershipHolds(st, actions[..n]);
      EverOrgsGrow(st, actions[..n], org);
      forall u ensures !Owns(before.members, org, u) {
        OwnerlessForever(st, actions[..n], org, u);
      }
      if Owns(Run(st, actions).members, org, user) {
        HandedOverStep(before, actions[n], org, user);
      }
    }
  }

  /** The database refuses a permitted transfer exactly when the target owns another organisation. */
  lemma TransferCommitsIff(st: State, caller: nat, org: nat, target: nat)
    requires Invariant(st) && MayTransfer(st, caller, org, target)
    ensures Constraints(Transferred(st.members, org, caller, target)) <==> !OwnsAnother(st.members, org, target)
    ensures Step(st, Transfer(caller, org, target)) ==
            if OwnsAnother(st.members, org, target) then st
              else st.(members := Transferred(st.members, org, caller, target))
  {
    var after := Transferred(st.members, org, caller, target);
    if OwnsAnother(st.members, org, target) {
      var k :| k in st.members && k.user == target && k.org != org && st.members[k].role.Owner?;
      assert k in after && after[k].role.Owner? && after[Key(org, target)].role.Owner?;
    } else {
      forall j, k | j in after && k in after && j.user == k.user && after[j].role.Owner? && after[k].role.Owner?
        ensures j == k
      {
        if j.user != target {
          assert st.members[j].role.Owner? && st.members[k].role.Owner?;
        }
      }
    }
  }

  /** It refuses a new organisation exactly when the creator owns one already. */
  lemma CreateCommitsIff(st: State, user: nat, org: nat, customer: Option<string>)
    requires Invariant(st) && org !in st.everOrgs
    ensures Constraints(Created(st, user, org, customer).members) <==> !OwnsSome(st.members, user)
  {
    var after := Created(st, user, org, customer).members;
    assert Key(org, user) in after && after[Key(org, user)].role.Owner?;
    if OwnsSome(st.members, user) {
      var k :| k in st.members && k.user == user && st.members[k].role.Owner?;
      assert k in after && k != Key(org, user) && after[k].role.Owner?;
    }
  }

  /** It never refuses an invited member: the account is new and no owner. */
  lemma AcceptCommits(st: State, org: nat, user: nat, role: Role)
    requires Invariant(st) && org in st.orgs && user !in st.users && !role.Owner?
    ensures var next := Step(st, AcceptInvite(org, user, role));
            && next.members.Keys == st.members.Keys + {Key(org, user)}
               && next.members[Key(org, user)] == Row(role, false)
            && (forall k :: k in st.members ==> next.members[k] == st.members[k])
            && forall k :: k in next.members && k.user == user ==> k.org == org
  {
    assert Key(org, user) !in st.members;
  }

  /** It never refuses a role change. */
  lemma PatchCommits(st: State, caller: nat, org: nat, target: nat, role: Option<Role>, isBilling: Option<bool>)
    requires Invariant(st) && MayPatch(st, caller, org, target, role)
    ensures var next := Step(st, PatchMember(caller, org, target, role, isBilling));
            && next == st.(members :=
                           st.members[Key(org, target) := Patched(st.members[Key(org, target)], role, isBilling)])
            // nobody is lifted to the caller's own rank, and nobody at that rank is touched
            && Rank(next.members[Key(org, target)].role) < Rank(next.members[Key(org, caller)].role)
            && next.members[Key(org, caller)] == st.members[Key(org, caller)]
  {
  }

  /** Replaying a transfer changes nothing: the former owner is no longer permitted to ask. */
  lemma TransferIdempotent(st: State, caller: nat, org: nat, target: nat)
    requires Invariant(st)
    ensures var t := Transfer(caller, org, target);
            && Step(Step(st, t), t) == Step(st, t)
            && (Step(st, t) != st ==> !MayTransfer(Step(st, t), caller, org, target))
  {
    if MayTransfer(st, caller, org, target) {
      TransferCommitsIff(st, caller, org, target);
      hide Constraints, Commit;
      var next := Step(st, Transfer(caller, org, target));
      assert next != st ==> !Owns(next.members, org, caller);
    }
  }

  /** A transfer and its reverse restore the table exactly when the target had no billing right to lose. */
  lemma ThereAndBack(st: State, caller: nat, org: nat, target: nat)
    requires Invariant(st) && MayTransfer(st, caller, org, target) && !OwnsAnother(st.members, org, target)
    ensures Step(Step(st, Transfer(caller, org, target)), Transfer(target, org, caller)) == st
            <==> !st.members[Key(org, target)].isBilling
  {
    TransferCommitsIff(st, caller, org, target);
    StepInvariant(st, Transfer(caller, org, target));
    var next := Step(st, Transfer(caller, org, target));
    assert MayTransfer(next, target, org, caller);
    assert !OwnsAnother(next.members, org, caller) by {
      assert st.members[Key(org, caller)].role.Owner?;
      assert forall k :: k in next.members ==> k in st.members;
    }
    TransferCommitsIff(next, target, org, caller);
    var last := Step(next, Transfer(target, org, caller));
    assert last.members == Transferred(next.members, org, target, caller);
    assert last.members[Key(org, target)] == Row(Admin, false);
    if !st.members[Key(org, target)].isBilling {
      assert last.members == st.members;
    }
  }

  /** A second delivery of the webhook that created an organisation, with whatever fresh id it picked, changes
      nothing. */
  lemma CreateRedelivered(st: State, user: nat, org: nat, again: nat, customer: string)
    requires Invariant(st) && Step(st, CreateOrg(user, org, Some(customer))) != st
    ensures var next := Step(st, CreateOrg(user, org, Some(customer)));
            AlreadyCreated(next, user, Some(customer)) && Step(next, CreateOrg(user, again, Some(customer))) == next
  {
  }

  datatype Refusal = AccessDenied | NotFound | InsufficientPermission | InvalidRole | IntegrityError

  /** Owners stand above admins and members, admins above members. */
  predicate Outranks(caller: Role, other: Role) {
    (caller == Owner && other != Owner) || (caller == Admin && other == Member)
  }

  /** An acceptance is for somebody without an account, and makes the account with its one membership. */
  lemma AcceptMeans(st: State, org: nat, user: nat, role: Role)
    requires Invariant(st)
    ensures Step(st, AcceptInvite(org, user, role)) ==
            if org in st.orgs && user !in st.users && role != Owner
            then st.(users := st.users + {user}, members := st.members[Key(org, user) := Row(role, false)])
            else st
  {
    if org in st.orgs && user !in st.users && role != Owner {
      AcceptCommits(st, org, user, role);
    }
  }

  /** What a deleted account and a deleted organisation take with them. */
  lemma DeletionMeans(st: State, user: nat, org: nat, victims: set<nat>)
    ensures var after := Step(st, DeleteUser(user));
            && after.users == st.users - {user} && after.orgs == st.orgs && after.customers == st.customers
            && (forall k :: k in after.members <==> k in st.members && k.user != user)
            && forall k :: k in after.members ==> after.members[k] == st.members[k]
    ensures var after := Step(st, DeleteOrg(org, victims));
            && after.users == st.users - victims && after.orgs == st.orgs - {org} && after.everOrgs == st.everOrgs
            && (forall k :: k in after.members <==> k in st.members && k.org != org && k.user !in victims)
            && (forall k :: k in after.members ==> after.members[k] == st.members[k])
            && (forall c :: c in after.customers <==> c in st.customers && st.customers[c] != Some(org))
            && forall c :: c in after.customers ==> after.customers[c] == st.customers[c]
  {
  }

  class MemberTable {
    var users: set<nat>
    var everOrgs: set<nat>
    var orgs: set<nat>
    var members: map<Key, Row>
    var customers: map<string, Option<nat>>

    ghost function Abstract(): State
      reads this
    {
      State(users, everOrgs, orgs, members, customers)
    }

    constructor ()
      ensures Abstract() == Empty && Invariant(Abstract())
    {
      users, everOrgs, orgs, members, customers := {}, {}, {}, map[], map[];
    }

    method CreateOrgWithOwner(user: nat, org: nat, customer: Option<string>) returns (r: Option<nat>)
      requires Invariant(Abstract()) && user in users && org !in everOrgs
      modifies this
      ensures Abstract() == Step(old(Abstract()), CreateOrg(user, org, customer))
      ensures r.None? <==> !AlreadyCreated(old(Abstract()), user, customer)
                           && (OwnsSome(old(members), user) || (customer.Some? && customer.value in old(customers)))
      ensures r.Some? ==> Key(r.value, user) in members
      ensures r.Some? && !AlreadyCreated(old(Abstract()), user, customer) ==>
                && r == Some(org) && members == old(members)[Key(org, user) := Row(Owner, true)] && org in orgs
                && (customer.Some? ==> customer.value in customers && customers[customer.value] == Some(org))
      ensures r.None? || AlreadyCreated(old(Abstract()), user, customer) ==> members == old(members)
      ensures r.None? ==>
                && (customer.Some? && customer.value in old(customers) ==>
                      forall o :: o in old(orgs) && old(customers)[customer.value] == Some(o) ==>
                        Key(o, user) !in old(members))
                && ((exists k :: k in old(members) && k.user == user && old(members)[k].role == Owner)
                    || (customer.Some? && customer.value in old(customers)))
      ensures r.Some? ==>
                || (customer.Some? && customer.value in old(customers) && old(customers)[customer.value] == r
                    && r.value in old(orgs) && Key(r.value, user) in old(members) && orgs == old(orgs))
                || (r == Some(org) && orgs == old(orgs) + {org}
                    && (customer.Some? ==> customer.value !in old(customers))
                    && forall k :: k in old(members) && k.user == user ==> old(members)[k].role != Owner)
    {
      if customer.Some? && customer.value in customers && customers[customer.value].Some? {
        var existing := customers[customer.value].value;
        if existing in orgs && Key(existing, user) in members {
          return Some(existing);
        }
      }
      CreateCommitsIff(Abstract(), user, org, customer);
      if exists k :: k in members.Keys && k.user == user && members[k].role.Owner? {
        return None;   // uniq_org_owner_per_user
      }
      if customer.Some? && customer.value in customers {
        return None;   // the customer row's id is unique, and the transaction rolls back
      }
      everOrgs, orgs := everOrgs + {org}, orgs + {org};
      members := members[Key(org, user) := Row(Owner, true)];
      if customer.Some? {
        customers := customers[customer.value := Some(org)];
      }
      return Some(org);
    }

    method CallerRole(caller: nat, org: nat) returns (role: Option<Role>)
      ensures role == if AdminOrAbove(members, org, caller) then Some(members[Key(org, caller)].role) else None
    {
      if Key(org, caller) !in members { return None; }
      role := if members[Key(org, caller)].role.Member? then None else Some(members[Key(org, caller)].role);
    }

    method UpdateMember(caller: nat, org: nat, target: nat, role: Option<Role>, isBilling: Option<bool>)
      returns (refusal: Option<Refusal>)
      requires Invariant(Abstract())
      modifies this`members
      ensures Abstract() == Step(old(Abstract()), PatchMember(caller, org, target, role, isBilling))
      ensures refusal.None? <==> MayPatch(old(Abstract()), caller, org, target, role)
      ensures refusal.None? <==>
                && Key(org, caller) in old(members) && Key(org, target) in old(members)
                && Outranks(old(members)[Key(org, caller)].role, old(members)[Key(org, target)].role)
                && (role.Some? ==> Outranks(old(members)[Key(org, caller)].role, role.value))
      ensures refusal.None? ==>
                && members.Keys == old(members).Keys
                && (role.Some? ==> members[Key(org, target)].role == role.value)
                && (role.None? ==> members[Key(org, target)].role == old(members)[Key(org, target)].role)
                && (isBilling.Some? ==> members[Key(org, target)].isBilling == isBilling.value)
                && (isBilling.None? ==> members[Key(org, target)].isBilling == old(members)[Key(org, target)].isBilling)
                && forall k :: k in members && k != Key(org, target) ==> members[k] == old(members)[k]
      ensures refusal.Some? ==> members == old(members)
      ensures refusal == Some(AccessDenied) <==> !AdminOrAbove(old(members), org, caller)
      ensures refusal == Some(NotFound)
              <==> AdminOrAbove(old(members), org, caller) && Key(org, target) !in old(members)
      ensures refusal == Some(InvalidRole) ==> role == Some(Owner)
    {
      var callerRole := CallerRole(caller, org);
      if callerRole.None? { return Some(AccessDenied); }
      if Key(org, target) !in members { return Some(NotFound); }
      if !CanManage(callerRole.value, members[Key(org, target)].role) { return Some(InsufficientPermission); }
      if role == Some(Owner) { return Some(InvalidRole); }
      if role.Some? && !CanAssign(callerRole.value, role.value) { return Some(InsufficientPermission); }
      PatchCommits(Abstract(), caller, org, target, role, isBilling);
      members := members[Key(org, target) := Patched(members[Key(org, target)], role, isBilling)];
      refusal := None;
    }

    method TransferOwnership(caller: nat, org: nat, target: nat) returns (refusal: Option<Refusal>)
      requires Invariant(Abstract())
      modifies this`members
      ensures Abstract() == Step(old(Abstract()), Transfer(caller, org, target))
      ensures refusal.None?
              <==> MayTransfer(old(Abstract()), caller, org, target) && !OwnsAnother(old(members), org, target)
      ensures refusal.None? ==>
                && Key(org, target) in members && members[Key(org, target)] == Row(Owner, true)
                && Key(org, caller) in members && members[Key(org, caller)] == Row(Admin, false)
                && Key(org, caller) in old(members) && old(members)[Key(org, caller)].role == Owner
                && Key(org, target) in old(members) && old(members)[Key(org, target)].role == Admin
                && members.Keys == old(members).Keys
                && forall k :: k in members && k != Key(org, target) && k != Key(org, caller) ==>
                     members[k] == old(members)[k]
      ensures refusal.Some? ==> members == old(members)
      ensures refusal.None? <==>
                && Key(org, caller) in old(members) && old(members)[Key(org, caller)].role == Owner
                && Key(org, target) in old(members) && old(members)[Key(org, target)].role == Admin
                && forall k :: k in old(members) && k.user == target && k.org != org ==> old(members)[k].role != Owner
      ensures refusal == Some(IntegrityError)
              <==> MayTransfer(old(Abstract()), caller, org, target) && OwnsAnother(old(members), org, target)
    {
      if Key(org, caller) !in members || !members[Key(org, caller)].role.Owner? { return Some(AccessDenied); }
      if Key(org, target) !in members { return Some(NotFound); }
      if !members[Key(org, target)].role.Admin? { return Some(InsufficientPermission); }
      TransferCommitsIff(Abstract(), caller, org, target);
      if exists k :: k in members.Keys && k.user == target && k.org != org && members[k].role.Owner? {
        return Some(IntegrityError);
      }
      members := members[Key(org, target) := Row(Owner, true)];
      members := members[Key(org, caller) := Row(Admin, false)];
      refusal := None;
    }

    method RemoveMember(caller: nat, org: nat, target: nat) returns (refusal: Option<Refusal>)
      modifies this`members, this`users
      ensures Abstract() == Step(old(Abstract()), Remove(caller, org, target))
      ensures refusal.None? <==> MayRemove(old(Abstract()), caller, org, target)
      ensures refusal.None? <==>
                && Key(org, caller) in old(members) && Key(org, target) in old(members)
                && Outranks(old(members)[Key(org, caller)].role, old(members)[Key(org, target)].role)
      ensures refusal.None? ==>
                && users == old(users) - {target}
                && (forall k :: k in members <==> k in old(members) && k.user != target)
                && forall k :: k in members ==> members[k] == old(members)[k]
      ensures refusal.Some? ==> members == old(members) && users == old(users)
    {
      var callerRole := CallerRole(caller, org);
      if callerRole.None? { return Some(AccessDenied); }
      if Key(org, target) !in members { return Some(NotFound); }
      if members[Key(org, target)].role.Owner? { return Some(InsufficientPermission); }
      if !CanManage(callerRole.value, members[Key(org, target)].role) { return Some(InsufficientPermission); }
      users := users - {target};
      members := WithoutUsers(members, {target});
      refusal := None;
    }
  }
}
