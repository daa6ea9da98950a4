/** The organisation delete cascades (apps/orgs/services.py) over the tables they reach. */
module OrgDeletion {
  import opened Prelude

  datatype InvitationStatus = Pending | Accepted | Expired | Cancelled | Declined

  datatype Invitation = Invitation(org: nat, invitedBy: Option<nat>, status: InvitationStatus)

  /** A Stripe customer belongs to a user or to an org, never to both. */
  datatype Customer = Customer(user: Option<nat>, org: Option<nat>)

  datatype Subscription = Subscription(customer: Option<nat>, user: Option<nat>, active: bool,
                                       stripeId: Option<string>, createdAt: int)

  datatype Db = Db(users: set<nat>,
                   orgs: map<nat, Option<nat>>,        // created_by
                   members: set<(nat, nat)>,           // (org, user), unique
                   invitations: map<nat, Invitation>,
                   customers: map<nat, Customer>,
                   subs: map<nat, Subscription>)

  /** The declared check constraint on customers. */
  ghost predicate Owned(db: Db) {
    forall c :: c in db.customers ==> db.customers[c].user.None? != db.customers[c].org.None?
  }

  /** The mirror's rule that a subscription repeats its customer's user. */
  ghost predicate Mirrored(db: Db) {
    forall s :: s in db.subs && db.subs[s].customer.Some? && db.subs[s].customer.value in db.customers ==>
      db.subs[s].user == db.customers[db.subs[s].customer.value].user
  }

  // ---------------------------------------------------------------- the statements

  function Unset(link: Option<nat>, gone: set<nat>): Option<nat> {
    if link.Some? && link.value in gone then None else link
  }

  function CancelPending(db: Db, orgs: set<nat>): Db {
    db.(invitations := map i | i in db.invitations ::
          if db.invitations[i].org in orgs && db.invitations[i].status == Pending
          then db.invitations[i].(status := Cancelled) else db.invitations[i])
  }

  predicate Refers(link: Option<nat>, ids: set<nat>) {
    link.Some? && link.value in ids
  }

  /** DELETE of customers, with the subscriptions on them. */
  function DropCustomers(db: Db, gone: set<nat>): Db {
    db.(customers := db.customers - gone,
        subs := map s | s in db.subs && !Refers(db.subs[s].customer, gone) :: db.subs[s])
  }

  /** DELETE of users: memberships, customers and subscriptions go with them, other links to them are nulled. */
  function DropUsers(db: Db, gone: set<nat>): Db {
    var d := DropCustomers(db, set c | c in db.customers && Refers(db.customers[c].user, gone));
    d.(users := db.users - gone,
       members := (set m | m in db.members && m.1 !in gone),
       subs := (map s | s in d.subs && !Refers(d.subs[s].user, gone) :: d.subs[s]),
       orgs := (map o | o in db.orgs :: Unset(db.orgs[o], gone)),
       invitations := map i | i in db.invitations ::
         db.invitations[i].(invitedBy := Unset(db.invitations[i].invitedBy, gone)))
  }

  function DropMembers(db: Db, orgs: set<nat>): Db {
    db.(members := set m | m in db.members && m.0 !in orgs)
  }

  /** DELETE of orgs: memberships, invitations and customers (so subscriptions) go with them. */
  function DropOrgs(db: Db, gone: set<nat>): Db {
    var d := DropMembers(DropCustomers(db, set c | c in db.customers && Refers(db.customers[c].org, gone)), gone);
    d.(orgs := db.orgs - gone,
       invitations := map i | i in db.invitations && db.invitations[i].org !in gone :: db.invitations[i])
  }

  /** An active subscription on the user's own Stripe customer. */
  predicate HasPersonalSub(db: Db, u: nat) {
    exists s :: s in db.subs && db.subs[s].active && db.subs[s].user == Some(u)
                && db.subs[s].customer.Some? && db.subs[s].customer.value in db.customers
                && db.customers[db.subs[s].customer.value].user == Some(u)
  }

  // ---------------------------------------------------------------- the two cascades

  predicate HasOtherMembership(db: Db, org: nat, u: nat) {
    exists m :: m in db.members && m.1 == u && m.0 != org
  }

  function SingleVictims(db: Db, org: nat): set<nat> {
    set m | m in db.members && m.0 == org && !HasOtherMembership(db, org, m.1) && !HasPersonalSub(db, m.1) :: m.1
  }

  function Single(db: Db, org: nat): Db {
    var d := CancelPending(db, {org});
    DropOrgs(DropMembers(DropUsers(d, SingleVictims(d, org)), {org}), {org})
  }

  predicate HasMembershipOutside(db: Db, orgs: set<nat>, u: nat) {
    exists m :: m in db.members && m.1 == u && m.0 !in orgs
  }

  function BatchVictims(db: Db, orgs: set<nat>): set<nat> {
    set m | m in db.members && m.0 in orgs && !HasMembershipOutside(db, orgs, m.1) && !HasPersonalSub(db, m.1) :: m.1
  }

  function Batch(db: Db, orgs: set<nat>): Db {
    var d := CancelPending(db, orgs);
    DropOrgs(DropMembers(DropUsers(d, BatchVictims(d, orgs)), orgs), orgs)
  }

  function Fold(db: Db, orgs: seq<nat>): Db {
    if orgs == [] then db else Single(Fold(db, orgs[..|orgs| - 1]), orgs[|orgs| - 1])
  }

  // ---------------------------------------------------------------- what survives a cascade

  /** A subscription dies with its user or with its customer, which dies with its user or org. */
  predicate SubGone(db: Db, s: nat, users: set<nat>, orgs: set<nat>)
    requires s in db.subs
  {
    var sub := db.subs[s];
    || Refers(sub.user, users)
    || (sub.customer.Some? && sub.customer.value in db.customers
        && CustomerGone(db.customers[sub.customer.value], users, orgs))
  }

  predicate CustomerGone(c: Customer, users: set<nat>, orgs: set<nat>) {
    Refers(c.user, users) || Refers(c.org, orgs)
  }

  /** The rows left when some users and some orgs have gone, table by table. */
  function Survivors(db: Db, users: set<nat>, orgs: set<nat>): Db {
    Db(db.users - users,
       (map o | o in db.orgs && o !in orgs :: Unset(db.orgs[o], users)),
       (set m | m in db.members && m.1 !in users && m.0 !in orgs),
       (map i | i in db.invitations && db.invitations[i].org !in orgs ::
          db.invitations[i].(invitedBy := Unset(db.invitations[i].invitedBy, users))),
       (map c | c in db.customers && !CustomerGone(db.customers[c], users, orgs) :: db.customers[c]),
       (map s | s in db.subs && !SubGone(db, s, users, orgs) :: db.subs[s]))
  }

  lemma DropUsersSurvivors(db: Db, users: set<nat>)
    ensures DropUsers(db, users) == Survivors(db, users, {})
  {
    var d, e := DropUsers(db, users), Survivors(db, users, {});
    assert d.customers == e.customers;
    assert d.subs == e.subs;
    assert d.members == e.members;
    assert d.orgs == e.orgs;
    assert d.invitations == e.invitations;
  }

  lemma DropOrgsSurvivors(db: Db, orgs: set<nat>)
    ensures DropOrgs(DropMembers(db, orgs), orgs) == Survivors(db, {}, orgs)
  {
    var d, e := DropOrgs(DropMembers(db, orgs), orgs), Survivors(db, {}, orgs);
    assert d.customers == e.customers;
    assert d.subs == e.subs;
    assert d.members == e.members;
    assert forall o :: o in db.orgs ==> Unset(db.orgs[o], {}) == db.orgs[o];
    assert d.orgs == e.orgs;
    assert forall i :: i in db.invitations ==>
           db.invitations[i].(invitedBy := Unset(db.invitations[i].invitedBy, {})) == db.invitations[i];
    assert d.invitations == e.invitations;
  }

  lemma SubGoneCompose(db: Db, u1: set<nat>, o1: set<nat>, u2: set<nat>, o2: set<nat>, s: nat)
    requires s in db.subs
    ensures SubGone(db, s, u1 + u2, o1 + o2) <==>
            SubGone(db, s, u1, o1) || (s in Survivors(db, u1, o1).subs && SubGone(Survivors(db, u1, o1), s, u2, o2))
  {
  }

  lemma SubsCompose(db: Db, u1: set<nat>, o1: set<nat>, u2: set<nat>, o2: set<nat>)
    ensures Survivors(Survivors(db, u1, o1), u2, o2).subs == Survivors(db, u1 + u2, o1 + o2).subs
  {
    forall s | s in db.subs
      ensures SubGone(db, s, u1 + u2, o1 + o2) <==>
              SubGone(db, s, u1, o1) || (s in Survivors(db, u1, o1).subs && SubGone(Survivors(db, u1, o1), s, u2, o2))
    {
      SubGoneCompose(db, u1, o1, u2, o2, s);
    }
    hide SubGone;
  }

  lemma LinksCompose(u1: set<nat>, o1: set<nat>, u2: set<nat>, o2: set<nat>)
    ensures forall c :: CustomerGone(c, u1 + u2, o1 + o2) <==> CustomerGone(c, u1, o1) || CustomerGone(c, u2, o2)
    ensures forall link :: Unset(Unset(link, u1), u2) == Unset(link, u1 + u2)
  {
  }

  lemma SurvivorsCompose(db: Db, u1: set<nat>, o1: set<nat>, u2: set<nat>, o2: set<nat>)
    ensures Survivors(Survivors(db, u1, o1), u2, o2) == Survivors(db, u1 + u2, o1 + o2)
  {
    LinksCompose(u1, o1, u2, o2);
    hide SubGone, CustomerGone, Unset;
    var e, f := Survivors(Survivors(db, u1, o1), u2, o2), Survivors(db, u1 + u2, o1 + o2);
    SubsCompose(db, u1, o1, u2, o2);
    assert e.users == f.users;
    assert e.orgs == f.orgs;
    assert e.members == f.members;
    assert e.invitations == f.invitations;
    assert e.customers == f.customers;
  }

  /** Cancelling invitations that the cascade then deletes leaves no trace. */
  lemma CancelPendingLost(db: Db, users: set<nat>, orgs: set<nat>)
    ensures Survivors(CancelPending(db, orgs), users, orgs) == Survivors(db, users, orgs)
  {
    assert Survivors(CancelPending(db, orgs), users, orgs).invitations == Survivors(db, users, orgs).invitations;
    assert Survivors(CancelPending(db, orgs), users, orgs).subs == Survivors(db, users, orgs).subs;
    assert Survivors(CancelPending(db, orgs), users, orgs).customers == Survivors(db, users, orgs).customers;
  }

  lemma CascadeSurvivors(db: Db, users: set<nat>, orgs: set<nat>)
    ensures DropOrgs(DropMembers(DropUsers(CancelPending(db, orgs), users), orgs), orgs) == Survivors(db, users, orgs)
  {
    hide Survivors, DropOrgs, DropMembers, DropUsers, CancelPending;
    var d := CancelPending(db, orgs);
    DropUsersSurvivors(d, users);
    DropOrgsSurvivors(DropUsers(d, users), orgs);
    SurvivorsCompose(d, users, {}, {}, orgs);
    assert users + {} == users && {} + orgs == orgs;
    CancelPendingLost(db, users, orgs);
  }

  lemma BatchSurvivors(db: Db, orgs: set<nat>)
    ensures Batch(db, orgs) == Survivors(db, BatchVictims(db, orgs), orgs)
  {
    hide Survivors, DropOrgs, DropMembers, DropUsers;
    var d := CancelPending(db, orgs);
    assert forall u :: HasPersonalSub(d, u) <==> HasPersonalSub(db, u);
    assert forall u :: HasMembershipOutside(d, orgs, u) <==> HasMembershipOutside(db, orgs, u);
    assert BatchVictims(d, orgs) == BatchVictims(db, orgs);
    CascadeSurvivors(db, BatchVictims(db, orgs), orgs);
  }

  lemma SingleSurvivors(db: Db, org: nat)
    ensures Single(db, org) == Survivors(db, BatchVictims(db, {org}), {org})
  {
    hide Survivors, DropOrgs, DropMembers, DropUsers;
    var d := CancelPending(db, {org});
    assert forall u :: HasPersonalSub(d, u) <==> HasPersonalSub(db, u);
    assert forall u :: HasOtherMembership(d, org, u) <==> HasMembershipOutside(db, {org}, u);
    assert SingleVictims(d, org) == BatchVictims(db, {org});
    CascadeSurvivors(db, BatchVictims(db, {org}), {org});
  }

  // ---------------------------------------------------------------- the batch is the fold, in any order

  /** Deleting users and orgs never takes away a surviving user's own subscription. */
  lemma PersonalSubSurvives(db: Db, users: set<nat>, orgs: set<nat>, u: nat)
    requires Owned(db) && u !in users
    ensures HasPersonalSub(Survivors(db, users, orgs), u) <==> HasPersonalSub(db, u)
  {
    if HasPersonalSub(db, u) {
      var s :| s in db.subs && db.subs[s].active && db.subs[s].user == Some(u)
               && db.subs[s].customer.Some? && db.subs[s].customer.value in db.customers
               && db.customers[db.subs[s].customer.value].user == Some(u);
      assert !SubGone(db, s, users, orgs);
      assert s in Survivors(db, users, orgs).subs;
    }
  }

  /** The victims of one more org, after a batch, are the users whose last membership it holds. */
  lemma VictimsStep(db: Db, orgs: set<nat>, org: nat)
    requires Owned(db)
    ensures BatchVictims(db, orgs) + BatchVictims(Survivors(db, BatchVictims(db, orgs), orgs), {org})
            == BatchVictims(db, orgs + {org})
  {
    var gone := BatchVictims(db, orgs);
    var d := Survivors(db, gone, orgs);
    forall u | u !in gone
      ensures u in BatchVictims(d, {org}) <==> u in BatchVictims(db, orgs + {org})
    {
      PersonalSubSurvives(db, gone, orgs, u);
      assert HasMembershipOutside(d, {org}, u) <==> HasMembershipOutside(db, orgs + {org}, u);
      if u in BatchVictims(db, orgs + {org}) {
        var m :| m in db.members && m.1 == u && m.0 in orgs + {org};
        assert HasMembershipOutside(db, orgs, u);
      }
    }
  }

  lemma ConstraintsSurvive(db: Db, users: set<nat>, orgs: set<nat>)
    ensures Owned(db) ==> Owned(Survivors(db, users, orgs))
    ensures Mirrored(db) ==> Mirrored(Survivors(db, users, orgs))
  {
  }

  function Elements(orgs: seq<nat>): set<nat> {
    set o | o in orgs
  }

  /** Deleting the orgs one by one, in any order and with repeats, is the one-transaction batch. */
  lemma {:induction false} FoldIsBatch(db: Db, orgs: seq<nat>)
    requires Owned(db)
    ensures Fold(db, orgs) == Batch(db, Elements(orgs))
  {
    hide Survivors, Owned, Batch, BatchVictims, Single;
    BatchSurvivors(db, Elements(orgs));
    if orgs == [] {
      assert Elements(orgs) == {};
      NothingGone(db);
    } else {
      var n := |orgs| - 1;
      var before, org := Elements(orgs[..n]), orgs[n];
      FoldIsBatch(db, orgs[..n]);
      BatchSurvivors(db, before);
      SingleSurvivors(Fold(db, orgs[..n]), org);
      VictimsStep(db, before, org);
      SurvivorsCompose(db, BatchVictims(db, before), before, BatchVictims(Fold(db, orgs[..n]), {org}), {org});
      assert orgs == orgs[..n] + [org];
      assert Elements(orgs) == before + {org};
    }
  }

  /** No sequence of deletes violates either rule. */
  lemma FoldKeepsConstraints(db: Db, orgs: seq<nat>)
    requires Owned(db)
    ensures Owned(Fold(db, orgs)) && (Mirrored(db) ==> Mirrored(Fold(db, orgs)))
  {
    hide Survivors, Batch, Owned, Mirrored;
    FoldIsBatch(db, orgs);
    BatchSurvivors(db, Elements(orgs));
    ConstraintsSurvive(db, BatchVictims(db, Elements(orgs)), Elements(orgs));
  }

  lemma NothingGone(db: Db)
    ensures BatchVictims(db, {}) == {} && Survivors(db, {}, {}) == db
  {
    var d := Survivors(db, {}, {});
    assert forall o :: o in db.orgs ==> Unset(db.orgs[o], {}) == db.orgs[o];
    assert d.orgs == db.orgs;
    assert d.members == db.members;
    assert forall i :: i in db.invitations ==>
           db.invitations[i].(invitedBy := Unset(db.invitations[i].invitedBy, {})) == db.invitations[i];
    assert d.invitations == db.invitations;
    assert d.customers == db.customers;
    assert d.subs == db.subs;
  }

  // ---------------------------------------------------------------- what is left, told from the tables before

  /** An active subscription of the user's own, on a customer of the user's own. */
  predicate PaysPersonally(db: Db, u: nat) {
    exists s, c ::
      && s in db.subs && db.subs[s].active && db.subs[s].user == Some(u) && db.subs[s].customer == Some(c)
      && c in db.customers && db.customers[c].user == Some(u)
  }

  /** Every organisation the user belongs to is deleted, there is one, and nothing personal is being paid for. */
  predicate Dies(db: Db, orgs: seq<nat>, u: nat) {
    && (exists m :: m in db.members && m.1 == u)
    && (forall m :: m in db.members && m.1 == u ==> m.0 in orgs)
    && !PaysPersonally(db, u)
  }

  lemma PersonalSubMeans(db: Db, u: nat)
    ensures HasPersonalSub(db, u) <==> PaysPersonally(db, u)
  {
    if HasPersonalSub(db, u) {
      var s :| s in db.subs && db.subs[s].active && db.subs[s].user == Some(u)
               && db.subs[s].customer.Some? && db.subs[s].customer.value in db.customers
               && db.customers[db.subs[s].customer.value].user == Some(u);
      assert db.subs[s].customer == Some(db.subs[s].customer.value);
    }
    if PaysPersonally(db, u) {
      var s, c :| s in db.subs && db.subs[s].active && db.subs[s].user == Some(u) && db.subs[s].customer == Some(c)
                  && c in db.customers && db.customers[c].user == Some(u);
      assert db.subs[s].customer.value == c;
    }
  }

  lemma VictimsDie(db: Db, orgs: seq<nat>, u: nat)
    ensures u in BatchVictims(db, Elements(orgs)) <==> Dies(db, orgs, u)
  {
    PersonalSubMeans(db, u);
    hide HasPersonalSub, PaysPersonally;
    assert forall o :: o in Elements(orgs) <==> o in orgs;
  }

  lemma FoldSurvivors(db: Db, orgs: seq<nat>)
    requires Owned(db)
    ensures Fold(db, orgs) == Survivors(db, BatchVictims(db, Elements(orgs)), Elements(orgs))
  {
    hide Survivors, Batch, Owned;
    FoldIsBatch(db, orgs);
    BatchSurvivors(db, Elements(orgs));
  }

  /** Who dies when the orgs are deleted one by one, told from the tables before the first delete. */
  lemma FoldSurvivalRule(db: Db, orgs: seq<nat>, u: nat)
    requires Owned(db) && u in db.users
    ensures u !in Fold(db, orgs).users <==>
            && (exists m :: m in db.members && m.1 == u)
            && (forall m :: m in db.members && m.1 == u ==> m.0 in orgs)
            && !(exists s, c ::
                   && s in db.subs && db.subs[s].active && db.subs[s].user == Some(u) && db.subs[s].customer == Some(c)
                   && c in db.customers && db.customers[c].user == Some(u))
  {
    FoldSurvivors(db, orgs);
    VictimsDie(db, orgs, u);
  }

  /** What becomes of users, orgs and memberships: the rows of what is deleted go, and a creator who dies leaves a
      null. */
  lemma FoldLeavesOrgs(db: Db, orgs: seq<nat>)
    requires Owned(db)
    ensures var end := Fold(db, orgs);
            && (forall u :: u in end.users <==> u in db.users && !Dies(db, orgs, u))
            && (forall o :: o in end.orgs <==> o in db.orgs && o !in orgs)
            && (forall o :: o in end.orgs && db.orgs[o].Some? && Dies(db, orgs, db.orgs[o].value) ==>
                end.orgs[o] == None)
            && (forall o :: o in end.orgs && !(db.orgs[o].Some? && Dies(db, orgs, db.orgs[o].value)) ==>
                  end.orgs[o] == db.orgs[o])
            && (forall m :: m in end.members <==> m in db.members && m.0 !in orgs && !Dies(db, orgs, m.1))
  {
    FoldSurvivors(db, orgs);
    forall u ensures u in BatchVictims(db, Elements(orgs)) <==> Dies(db, orgs, u) { VictimsDie(db, orgs, u); }
    hide Fold, BatchVictims, Dies, SubGone, CustomerGone;
    assert forall o :: o in Elements(orgs) <==> o in orgs;
  }

  /** What becomes of invitations: those of a deleted org go; one sent by somebody who dies stays, with its sender
      nulled and otherwise unchanged. */
  lemma FoldLeavesInvitations(db: Db, orgs: seq<nat>)
    requires Owned(db)
    ensures var end := Fold(db, orgs);
            && (forall i :: i in end.invitations <==> i in db.invitations && db.invitations[i].org !in orgs)
            && (forall i :: i in end.invitations ==>
                  var sender := db.invitations[i].invitedBy;
                  if sender.Some? && Dies(db, orgs, sender.value) then
                    end.invitations[i] == Invitation(db.invitations[i].org, None, db.invitations[i].status)
                  else end.invitations[i] == db.invitations[i])
  {
    FoldSurvivors(db, orgs);
    forall u ensures u in BatchVictims(db, Elements(orgs)) <==> Dies(db, orgs, u) { VictimsDie(db, orgs, u); }
    hide Fold, BatchVictims, Dies, SubGone, CustomerGone;
    assert forall o :: o in Elements(orgs) <==> o in orgs;
  }

  /** A customer goes with its user or its org. */
  predicate Closes(db: Db, orgs: seq<nat>, c: nat)
    requires c in db.customers
  {
    || (db.customers[c].user.Some? && Dies(db, orgs, db.customers[c].user.value))
    || (db.customers[c].org.Some? && db.customers[c].org.value in orgs)
  }

  /** What becomes of customers and subscriptions: a subscription goes with its user or its customer; whatever stays is
      unchanged. */
  lemma FoldLeavesBilling(db: Db, orgs: seq<nat>)
    requires Owned(db)
    ensures var end := Fold(db, orgs);
            && (forall c :: c in end.customers <==> c in db.customers && !Closes(db, orgs, c))
            && (forall c :: c in end.customers ==> end.customers[c] == db.customers[c])
            && (forall s :: s in end.subs <==>
                  && s in db.subs && !(db.subs[s].user.Some? && Dies(db, orgs, db.subs[s].user.value))
                  && !(db.subs[s].customer.Some? && db.subs[s].customer.value in db.customers
                       && Closes(db, orgs, db.subs[s].customer.value)))
            && (forall s :: s in end.subs ==> end.subs[s] == db.subs[s])
  {
    FoldSurvivors(db, orgs);
    forall u ensures u in BatchVictims(db, Elements(orgs)) <==> Dies(db, orgs, u) { VictimsDie(db, orgs, u); }
    hide Fold, BatchVictims, Dies;
    assert forall o :: o in Elements(orgs) <==> o in orgs;
  }

  // ---------------------------------------------------------------- which Stripe subscriptions get cancelled

  /** An active Stripe-backed subscription on the org's customer. */
  predicate Billable(db: Db, org: nat, s: nat) {
    && s in db.subs && db.subs[s].active && db.subs[s].stripeId.Some?
    && db.subs[s].customer.Some? && db.subs[s].customer.value in db.customers
    && db.customers[db.subs[s].customer.value].org == Some(org)
  }

  ghost predicate Newest(db: Db, org: nat, s: nat) {
    Billable(db, org, s) && forall t :: Billable(db, org, t) ==> db.subs[t].createdAt <= db.subs[s].createdAt
  }

  /** What deleting one org cancels: a newest billable subscription, or nothing when there is none. */
  ghost predicate CancelFor(db: Db, org: nat, cancels: seq<string>) {
    if exists s :: Billable(db, org, s)
    then exists s :: Newest(db, org, s) && cancels == [db.subs[s].stripeId.value]
    else cancels == []
  }

  /** An active subscription known to Stripe, on a customer of the org's own. */
  predicate OnOrgCustomer(db: Db, org: nat, s: nat) {
    && s in db.subs && db.subs[s].active && db.subs[s].stripeId.Some?
    && exists c :: c in db.customers && db.subs[s].customer == Some(c) && db.customers[c].org == Some(org)
  }

  /** What is cancelled for one org: the id of such a subscription that no other is younger than, or nothing when there
      is none. */
  lemma CancelForMeans(db: Db, org: nat, cancels: seq<string>)
    requires CancelFor(db, org, cancels)
    ensures cancels == [] <==> forall s :: !OnOrgCustomer(db, org, s)
    ensures cancels != [] ==>
              exists s :: OnOrgCustomer(db, org, s) && cancels == [db.subs[s].stripeId.value]
                          && forall t :: OnOrgCustomer(db, org, t) ==> db.subs[t].createdAt <= db.subs[s].createdAt
  {
    forall s ensures Billable(db, org, s) <==> OnOrgCustomer(db, org, s) {}
    hide Billable, OnOrgCustomer;
    if exists s :: Billable(db, org, s) {
      var s :| Newest(db, org, s) && cancels == [db.subs[s].stripeId.value];
      assert OnOrgCustomer(db, org, s);
    }
  }

  /** One entry per org that has one, in org order, all chosen from the same tables. */
  ghost predicate CancelsFor(db: Db, orgs: seq<nat>, cancels: seq<string>) {
    if orgs == [] then cancels == []
    else
      var n := |orgs| - 1;
      exists k :: 0 <= k <= |cancels| && CancelsFor(db, orgs[..n], cancels[..k]) && CancelFor(db, orgs[n], cancels[k..])
  }

  /** What deleting the orgs one by one cancels, each choice made from the tables the earlier deletes left. */
  ghost predicate FoldCancels(db: Db, orgs: seq<nat>, cancels: seq<string>) {
    if orgs == [] then cancels == []
    else
      var n := |orgs| - 1;
      exists k :: 0 <= k <= |cancels| && FoldCancels(db, orgs[..n], cancels[..k])
        && CancelFor(Fold(db, orgs[..n]), orgs[n], cancels[k..])
  }

  lemma BillableSurvives(db: Db, users: set<nat>, orgs: set<nat>, org: nat, s: nat)
    requires Owned(db) && Mirrored(db) && org !in orgs
    ensures Billable(Survivors(db, users, orgs), org, s) <==> Billable(db, org, s)
    ensures Billable(db, org, s) ==> Survivors(db, users, orgs).subs[s] == db.subs[s]
  {
  }

  lemma CancelForSurvives(db: Db, users: set<nat>, orgs: set<nat>, org: nat, cancels: seq<string>)
    requires Owned(db) && Mirrored(db) && org !in orgs
    ensures CancelFor(Survivors(db, users, orgs), org, cancels) <==> CancelFor(db, org, cancels)
  {
    hide Owned, Mirrored, Survivors;
    var d := Survivors(db, users, orgs);
    forall s
      ensures Billable(d, org, s) <==> Billable(db, org, s)
      ensures Billable(db, org, s) ==> s in d.subs && s in db.subs && d.subs[s] == db.subs[s]
    {
      BillableSurvives(db, users, orgs, org, s);
    }
    assert forall s :: Newest(d, org, s) <==> Newest(db, org, s);
  }

  /** Looking every subscription up before the first delete cancels what the single deletes would. */
  lemma {:induction false} CancelsMatchFold(db: Db, orgs: seq<nat>, cancels: seq<string>)
    requires Owned(db) && Mirrored(db)
    requires forall i, j :: 0 <= i < j < |orgs| ==> orgs[i] != orgs[j]
    ensures CancelsFor(db, orgs, cancels) <==> FoldCancels(db, orgs, cancels)
  {
    hide Owned, Mirrored, Batch, Survivors, CancelFor;
    if orgs != [] {
      var n := |orgs| - 1;
      var before := Elements(orgs[..n]);
      FoldIsBatch(db, orgs[..n]);
      BatchSurvivors(db, before);
      forall k | 0 <= k <= |cancels|
        ensures CancelsFor(db, orgs[..n], cancels[..k]) <==> FoldCancels(db, orgs[..n], cancels[..k])
        ensures CancelFor(Fold(db, orgs[..n]), orgs[n], cancels[k..]) <==> CancelFor(db, orgs[n], cancels[k..])
      {
        CancelsMatchFold(db, orgs[..n], cancels[..k]);
        CancelForSurvives(db, BatchVictims(db, before), before, orgs[n], cancels[k..]);
      }
    }
  }

  /** Every id of the list is that of an active subscription on the customer of a listed org. */
  lemma {:induction false} CancelledIsActive(db: Db, orgs: seq<nat>, cancels: seq<string>, id: string)
    requires CancelsFor(db, orgs, cancels) && id in cancels
    ensures exists o, s :: o in orgs && OnOrgCustomer(db, o, s) && db.subs[s].stripeId == Some(id)
  {
    var n := |orgs| - 1;
    var k :| 0 <= k <= |cancels| && CancelsFor(db, orgs[..n], cancels[..k]) && CancelFor(db, orgs[n], cancels[k..]);
    hide CancelsFor, CancelFor;
    assert cancels == cancels[..k] + cancels[k..];
    if id in cancels[..k] {
      CancelledIsActive(db, orgs[..n], cancels[..k], id);
      var o, s :| o in orgs[..n] && OnOrgCustomer(db, o, s) && db.subs[s].stripeId == Some(id);
      assert o in orgs;
    } else {
      CancelForMeans(db, orgs[n], cancels[k..]);
      var s :| OnOrgCustomer(db, orgs[n], s) && cancels[k..] == [db.subs[s].stripeId.value];
      assert orgs[n] in orgs;
    }
  }

  /** Every listed org that has an active subscription finds a youngest of its own in the list. */
  lemma {:induction false} ActiveIsCancelled(db: Db, orgs: seq<nat>, cancels: seq<string>, o: nat, t: nat)
    requires CancelsFor(db, orgs, cancels) && o in orgs && OnOrgCustomer(db, o, t)
    ensures exists s :: OnOrgCustomer(db, o, s) && db.subs[s].stripeId.value in cancels
                        && db.subs[t].createdAt <= db.subs[s].createdAt
  {
    var n := |orgs| - 1;
    var k :| 0 <= k <= |cancels| && CancelsFor(db, orgs[..n], cancels[..k]) && CancelFor(db, orgs[n], cancels[k..]);
    hide CancelsFor, CancelFor;
    assert cancels == cancels[..k] + cancels[k..];
    if o in orgs[..n] {
      ActiveIsCancelled(db, orgs[..n], cancels[..k], o, t);
    } else {
      CancelForMeans(db, orgs[n], cancels[k..]);
      assert cancels[k..] != [];
      var s :| OnOrgCustomer(db, orgs[n], s) && cancels[k..] == [db.subs[s].stripeId.value]
               && forall t :: OnOrgCustomer(db, orgs[n], t) ==> db.subs[t].createdAt <= db.subs[s].createdAt;
      assert db.subs[s].stripeId.value in cancels[k..];
    }
  }

  /** No two billable subscriptions of one org were created at the same instant. */
  ghost predicate NoTies(db: Db) {
    forall o, s, t :: Billable(db, o, s) && Billable(db, o, t) && db.subs[s].createdAt == db.subs[t].createdAt ==>
      s == t
  }

  lemma CancelForDetermined(db: Db, org: nat, a: seq<string>, b: seq<string>)
    requires NoTies(db) && CancelFor(db, org, a) && CancelFor(db, org, b)
    ensures a == b
  {
  }

  /** Without ties the cancel list is determined, so both ways of deleting give the same list. */
  lemma {:induction false} CancelsDetermined(db: Db, orgs: seq<nat>, a: seq<string>, b: seq<string>)
    requires NoTies(db) && CancelsFor(db, orgs, a) && CancelsFor(db, orgs, b)
    ensures a == b
  {
    hide NoTies, CancelFor;
    if orgs != [] {
      var n := |orgs| - 1;
      var j :| 0 <= j <= |a| && CancelsFor(db, orgs[..n], a[..j]) && CancelFor(db, orgs[n], a[j..]);
      var k :| 0 <= k <= |b| && CancelsFor(db, orgs[..n], b[..k]) && CancelFor(db, orgs[n], b[k..]);
      CancelsDetermined(db, orgs[..n], a[..j], b[..k]);
      CancelForDetermined(db, orgs[n], a[j..], b[k..]);
      assert a == a[..j] + a[j..] && b == b[..k] + b[k..];
    }
  }

  /** The list built from a choice of subscription per org, as the batched delete builds it. */
  function Collect(db: Db, orgs: seq<nat>, subByOrg: map<nat, nat>): seq<string> {
    if orgs == [] then []
    else
      var o := orgs[|orgs| - 1];
      Collect(db, orgs[..|orgs| - 1], subByOrg) +
      if o in subByOrg && subByOrg[o] in db.subs && db.subs[subByOrg[o]].stripeId.Some?
      then [db.subs[subByOrg[o]].stripeId.value] else []
  }

  /** The scan's map: for each listed org with a billable subscription, a newest one. */
  ghost predicate ChoosesNewest(db: Db, orgs: set<nat>, subByOrg: map<nat, nat>) {
    && (forall o :: o in subByOrg ==> o in orgs && Newest(db, o, subByOrg[o]))
    && (forall o, s :: o in orgs && Billable(db, o, s) ==> o in subByOrg)
  }

  lemma {:induction false} CollectCancels(db: Db, all: set<nat>, orgs: seq<nat>, subByOrg: map<nat, nat>)
    requires ChoosesNewest(db, all, subByOrg) && Elements(orgs) <= all
    ensures CancelsFor(db, orgs, Collect(db, orgs, subByOrg))
  {
    if orgs != [] {
      var n := |orgs| - 1;
      assert orgs[n] in Elements(orgs);
      assert Elements(orgs[..n]) <= Elements(orgs);
      CollectCancels(db, all, orgs[..n], subByOrg);
      var c := Collect(db, orgs, subByOrg);
      var k := |Collect(db, orgs[..n], subByOrg)|;
      assert c[..k] == Collect(db, orgs[..n], subByOrg);
      if orgs[n] in subByOrg {
        assert Newest(db, orgs[n], subByOrg[orgs[n]]);
        assert c[k..] == [db.subs[subByOrg[orgs[n]]].stripeId.value];
      }
      assert CancelFor(db, orgs[n], c[k..]);
    }
  }

  lemma {:induction false} NewestAmong(db: Db, ids: set<nat>) returns (s: nat)
    requires ids != {} && ids <= db.subs.Keys
    ensures s in ids && forall t :: t in ids ==> db.subs[t].createdAt <= db.subs[s].createdAt
  {
    s :| s in ids;
    if ids != {s} {
      var t := NewestAmong(db, ids - {s});
      if db.subs[t].createdAt > db.subs[s].createdAt { s := t; }
    }
  }

  predicate BillableAmong(db: Db, among: set<nat>, s: nat) {
    exists o :: o in among && Billable(db, o, s)
  }

  lemma AmongAreRows(db: Db, among: set<nat>)
    ensures forall s :: BillableAmong(db, among, s) ==> s in db.subs
  {
  }

  class OrgTables {
    var users: set<nat>
    var orgs: map<nat, Option<nat>>
    var members: set<(nat, nat)>
    var invitations: map<nat, Invitation>
    var customers: map<nat, Customer>
    var subs: map<nat, Subscription>

    function Contents(): Db reads this {
      Db(users, orgs, members, invitations, customers, subs)
    }

    constructor (db: Db)
      ensures Contents() == db
    {
      users, orgs, members := db.users, db.orgs, db.members;
      invitations, customers, subs := db.invitations, db.customers, db.subs;
    }

    method UpdatePendingToCancelled(gone: set<nat>)
      modifies this
      ensures Contents() == CancelPending(old(Contents()), gone)
      ensures invitations.Keys == old(invitations).Keys
      ensures forall i :: i in invitations && invitations[i].org in gone ==> invitations[i].status != Pending
      ensures forall i :: i in invitations && old(invitations)[i].status == Pending && invitations[i].org in gone ==>
                invitations[i] == Invitation(old(invitations)[i].org, old(invitations)[i].invitedBy, Cancelled)
      ensures forall i :: i in invitations && !(old(invitations)[i].status == Pending && invitations[i].org in gone) ==>
                invitations[i] == old(invitations)[i]
    {
      invitations := map i | i in invitations ::
        if invitations[i].org in gone && invitations[i].status == Pending then invitations[i].(status := Cancelled)
          else invitations[i];
    }

    method DeleteCustomers(gone: set<nat>)
      modifies this
      ensures Contents() == DropCustomers(old(Contents()), gone)
    {
      customers := customers - gone;
      subs := map s | s in subs && !Refers(subs[s].customer, gone) :: subs[s];
    }

    method DeleteUsers(gone: set<nat>)
      modifies this
      ensures Contents() == DropUsers(old(Contents()), gone)
    {
      DeleteCustomers(set c | c in customers && Refers(customers[c].user, gone));
      users := users - gone;
      members := set m | m in members && m.1 !in gone;
      subs := map s | s in subs && !Refers(subs[s].user, gone) :: subs[s];
      orgs := map o | o in orgs :: Unset(orgs[o], gone);
      invitations := map i | i in invitations :: invitations[i].(invitedBy := Unset(invitations[i].invitedBy, gone));
    }

    method DeleteMembers(gone: set<nat>)
      modifies this
      ensures Contents() == DropMembers(old(Contents()), gone)
    {
      members := set m | m in members && m.0 !in gone;
    }

    method DeleteOrgs(gone: set<nat>)
      modifies this
      ensures Contents() == DropOrgs(old(Contents()), gone)
    {
      DeleteCustomers(set c | c in customers && Refers(customers[c].org, gone));
      DeleteMembers(gone);
      orgs := orgs - gone;
      invitations := map i | i in invitations && invitations[i].org !in gone :: invitations[i];
    }

    method DeleteOrgDbOnly(org: nat)
      modifies this
      ensures Contents() == Single(old(Contents()), org)
    {
      UpdatePendingToCancelled({org});
      DeleteUsers(SingleVictims(Contents(), org));
      DeleteMembers({org});
      DeleteOrgs({org});
    }

    /** ORDER BY -created_at over the billable subscriptions of some orgs; ties come in any order. */
    method OrderedSubs(among: set<nat>) returns (l: seq<nat>)
      ensures forall s :: s in l <==> BillableAmong(Contents(), among, s)
      ensures forall i :: 0 <= i < |l| ==> l[i] in subs && BillableAmong(Contents(), among, l[i])
      ensures forall i, j :: 0 <= i < j < |l| ==> subs[l[j]].createdAt <= subs[l[i]].createdAt
    {
      var rest := set s | s in subs && BillableAmong(Contents(), among, s);
      l := [];
      hide BillableAmong;
      while rest != {}
        invariant rest <= subs.Keys
        invariant forall s :: s in rest ==> BillableAmong(Contents(), among, s)
        invariant forall s :: s in subs && BillableAmong(Contents(), among, s) ==> s in l || s in rest
        invariant forall i :: 0 <= i < |l| ==> l[i] in subs && BillableAmong(Contents(), among, l[i])
        invariant forall i, j :: 0 <= i < j < |l| ==> subs[l[j]].createdAt <= subs[l[i]].createdAt
        invariant forall i, t :: 0 <= i < |l| && t in rest ==> subs[t].createdAt <= subs[l[i]].createdAt
      {
        ghost var _ := NewestAmong(Contents(), rest);
        var s :| s in rest && forall t :: t in rest ==> subs[t].createdAt <= subs[s].createdAt;
        l := l + [s];
        rest := rest - {s};
      }
      AmongAreRows(Contents(), among);
    }

    method GetActiveStripeSub(org: nat) returns (s: Option<nat>)
      ensures s.Some? ==> Newest(Contents(), org, s.value)
      ensures s.None? ==> !exists t :: Billable(Contents(), org, t)
    {
      var l := OrderedSubs({org});
      if l == [] {
        assert forall t :: Billable(Contents(), org, t) ==> t in l;
        return None;
      }
      assert forall t :: Billable(Contents(), org, t) ==> t in l;
      assert Billable(Contents(), org, l[0]);
      return Some(l[0]);
    }

    method DeleteOrg(org: nat) returns (cancels: seq<string>)
      modifies this
      ensures Contents() == Single(old(Contents()), org)
      ensures CancelFor(old(Contents()), org, cancels)
      ensures cancels == [] <==> forall s :: !OnOrgCustomer(old(Contents()), org, s)
      ensures |cancels| <= 1 && forall id :: id in cancels ==>
                exists s :: OnOrgCustomer(old(Contents()), org, s) && old(subs)[s].stripeId == Some(id)
    {
      var active := GetActiveStripeSub(org);
      cancels := if active.Some? then [subs[active.value].stripeId.value] else [];
      CancelForMeans(Contents(), org, cancels);
      DeleteOrgDbOnly(org);
    }

    /** First match per org wins; the list is newest first. */
    method ScanSubs(among: set<nat>) returns (subByOrg: map<nat, nat>)
      ensures ChoosesNewest(Contents(), among, subByOrg)
    {
      var l := OrderedSubs(among);
      subByOrg := map[];
      for i := 0 to |l|
        invariant forall j :: 0 <= j < |l| ==> l[j] in subs
        invariant forall o :: o in subByOrg ==> o in among && Billable(Contents(), o, subByOrg[o])
        invariant forall j, o :: 0 <= j < i && Billable(Contents(), o, l[j]) ==>
                    o in subByOrg && subs[l[j]].createdAt <= subs[subByOrg[o]].createdAt
        invariant forall o, j :: o in subByOrg && i <= j < |l| ==> subs[l[j]].createdAt <= subs[subByOrg[o]].createdAt
      {
        var org := customers[subs[l[i]].customer.value].org.value;
        if org !in subByOrg {
          subByOrg := subByOrg[org := l[i]];
        }
      }
      forall o, s | o in among && Billable(Contents(), o, s)
        ensures o in subByOrg && subs[s].createdAt <= subs[subByOrg[o]].createdAt
      {
        assert s in l;
      }
    }

    /** Deletes every org the user created, in one batch; returns the orgs in listing order and the cancel list. */
    method DeleteOrgsCreatedByUser(user: nat) returns (created: seq<nat>, cancels: seq<string>)
      modifies this
      ensures forall i, j :: 0 <= i < j < |created| ==> created[i] != created[j]
      ensures Elements(created) == set o | o in old(orgs) && old(orgs)[o] == Some(user)
      ensures Contents() == if created == [] then old(Contents()) else Batch(old(Contents()), Elements(created))
      ensures CancelsFor(old(Contents()), created, cancels)
    {
      created := ListOrgs(user);
      cancels := [];
      if created == [] {
        return;
      }
      var ids := Elements(created);
      var subByOrg := ScanSubs(ids);
      for i := 0 to |created|
        invariant cancels == Collect(Contents(), created[..i], subByOrg)
      {
        assert created[..i + 1][..i] == created[..i];
        var o := created[i];
        if o in subByOrg && subs[subByOrg[o]].stripeId.Some? {
          cancels := cancels + [subs[subByOrg[o]].stripeId.value];
        }
      }
      assert created[..|created|] == created;
      CollectCancels(Contents(), ids, created, subByOrg);
      UpdatePendingToCancelled(ids);
      DeleteUsers(BatchVictims(Contents(), ids));
      DeleteMembers(ids);
      DeleteOrgs(ids);
    }

    method ListOrgs(user: nat) returns (l: seq<nat>)
      ensures forall i, j :: 0 <= i < j < |l| ==> l[i] != l[j]
      ensures Elements(l) == set o | o in orgs && orgs[o] == Some(user)
    {
      l := [];
      var rest := set o | o in orgs && orgs[o] == Some(user);
      while rest != {}
        invariant forall i, j :: 0 <= i < j < |l| ==> l[i] != l[j]
        invariant rest !! Elements(l)
        invariant Elements(l) + rest == set o | o in orgs && orgs[o] == Some(user)
      {
        var o :| o in rest;
        assert Elements(l + [o]) == Elements(l) + {o};
        l := l + [o];
        rest := rest - {o};
      }
    }
  }

  /** The whole account-deletion batch against the single deletes: same tables, same cancels. */
  lemma BatchRefinesSingles(db: Db, orgs: seq<nat>, cancels: seq<string>)
    requires Owned(db) && Mirrored(db)
    requires forall i, j :: 0 <= i < j < |orgs| ==> orgs[i] != orgs[j]
    ensures Batch(db, Elements(orgs)) == Fold(db, orgs)
    ensures CancelsFor(db, orgs, cancels) <==> FoldCancels(db, orgs, cancels)
  {
    FoldIsBatch(db, orgs);
    CancelsMatchFold(db, orgs, cancels);
  }
}
