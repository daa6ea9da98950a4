/** Seats of one organisation: invitations, their acceptance, members and the paid seat limit (apps/orgs/views.py,
    apps/orgs/services.py, apps/billing/views.py). The commits of an invitation and of an acceptance hold the row lock
    of the team subscription, so each is one step; what a request reads before that is a step of its own. */
module Seats {
  import opened Prelude

  datatype Status = Pending | Accepted | Expired | Cancelled | Declined

  /** Emails are taken in lower case; an email stands for its account. */
  datatype Invitation = Invitation(email: nat, expiresAt: int, status: Status)

  /** What a request that has found its invitation pending will write. */
  datatype Intent = Accepting | Marking(status: Status)

  datatype Request = Request(invitation: nat, intent: Intent)

  /** `sub` is the seat limit of the active team subscription, if there is one; `drafts` holds the emails of the invite
      requests that passed their first checks; `joins` and `left` record the invitations that became members and the
      members that went. */
  datatype State = State(
    sub: Option<nat>, users: set<nat>, members: set<nat>, invitations: map<nat, Invitation>,
    drafts: map<nat, nat>, requests: map<nat, Request>, joins: multiset<nat>, left: nat)

  datatype Action =
    | OpenInvite(request: nat, email: nat)
    | Invite(request: nat, id: nat, expiresAt: int)
    | OpenAccept(request: nat, id: nat, now: int)
    | OpenCancel(request: nat, id: nat)
    | OpenDecline(request: nat, id: nat, email: nat)
    | Finish(request: nat)
    | Register(email: nat)          // somebody signs up
    | Leave(email: nat)             // a member is removed, or deletes the account
    | SetSeats(seats: nat)

  function PendingIds(invitations: map<nat, Invitation>): set<nat> {
    set i | i in invitations && invitations[i].status.Pending?
  }

  function PendingAmong(ids: set<nat>, invitations: map<nat, Invitation>): set<nat>
    requires ids <= invitations.Keys
  {
    set i | i in ids && invitations[i].status.Pending?
  }

  /** Seats taken or promised. */
  function Reserved(st: State): nat {
    |st.members| + |PendingIds(st.invitations)|
  }

  lemma PendingMeans(invitations: map<nat, Invitation>)
    ensures PendingIds(invitations) == set i | i in invitations && invitations[i].status == Pending
  {
  }

  predicate HasPending(st: State, email: nat) {
    exists i :: i in st.invitations && st.invitations[i].status.Pending? && st.invitations[i].email == email
  }

  /** The checks before the transaction. */
  predicate MayInvite(st: State, email: nat) {
    email !in st.users && !HasPending(st, email)
  }

  /** The transaction: a seat neither taken nor promised, and the unique index over pending invitations. Whether the
      email has been registered meanwhile is not read again. */
  predicate Invitable(st: State, id: nat, email: nat) {
    id !in st.invitations && !HasPending(st, email) && (st.sub.Some? ==> Reserved(st) < st.sub.value)
  }

  predicate IsPending(st: State, id: nat) {
    id in st.invitations && st.invitations[id].status.Pending?
  }

  function SetStatus(st: State, id: nat, status: Status): State
    requires id in st.invitations
  {
    st.(invitations := st.invitations[id := st.invitations[id].(status := status)])
  }

  /** The checks of the acceptance transaction: a free seat, and nobody registered under the email. The invitation's
      status is not read again. */
  predicate CanJoin(st: State, id: nat) {
    && id in st.invitations && st.invitations[id].email !in st.users
    && (st.sub.Some? ==> |st.members| + 1 <= st.sub.value)
  }

  function Join(st: State, id: nat): State
    requires id in st.invitations
  {
    var email := st.invitations[id].email;
    SetStatus(st, id, Accepted).(users := st.users + {email}, members := st.members + {email},
                                 joins := st.joins + multiset{id})
  }

  function FinishRequest(st: State, request: nat): State
    requires request in st.requests
  {
    var r := st.requests[request];
    var done := st.(requests := st.requests - {request});
    if r.invitation !in st.invitations then done
    else match r.intent
         case Marking(status) => SetStatus(done, r.invitation, status)
         case Accepting => if CanJoin(done, r.invitation) then Join(done, r.invitation) else done
  }

  function Open(st: State, request: nat, id: nat, intent: Intent): State {
    if request !in st.requests && IsPending(st, id) then st.(requests := st.requests[request := Request(id, intent)])
      else st
  }

  function Step(st: State, a: Action): State {
    match a
    case OpenInvite(request, email) =>
      if request !in st.drafts && MayInvite(st, email) then st.(drafts := st.drafts[request := email]) else st
    case Invite(request, id, expiresAt) =>
      if request !in st.drafts then st
      else
        var email, done := st.drafts[request], st.(drafts := st.drafts - {request});
        if Invitable(st, id, email)
          then done.(invitations := st.invitations[id := Invitation(email, expiresAt, Pending)]) else done
    case OpenAccept(request, id, now) =>
      if !IsPending(st, id) then st
      else if st.invitations[id].expiresAt < now then Open(st, request, id, Marking(Expired))
      else if st.invitations[id].email in st.users then st
      else Open(st, request, id, Accepting)
    case OpenCancel(request, id) => Open(st, request, id, Marking(Cancelled))
    case OpenDecline(request, id, email) =>
      if IsPending(st, id) && st.invitations[id].email == email then Open(st, request, id, Marking(Declined)) else st
    case Finish(request) => if request in st.requests then FinishRequest(st, request) else st
    case Register(email) => st.(users := st.users + {email})
    case Leave(email) =>
      if email in st.members then st.(users := st.users - {email}, members := st.members - {email}, left := st.left + 1)
      else st.(users := st.users - {email})
    case SetSeats(seats) => if st.sub.Some? && |st.members| <= seats then st.(sub := Some(seats)) else st
  }

  function Run(st: State, actions: seq<Action>): State {
    if actions == [] then st else Step(Run(st, actions[..|actions| - 1]), actions[|actions| - 1])
  }

  predicate Valid(st: State) {
    && st.members <= st.users
    && forall r :: r in st.requests ==>
         st.requests[r].invitation in st.invitations && st.requests[r].intent != Marking(Pending)
  }

  predicate WithinSeats(st: State) {
    st.sub.Some? ==> |st.members| <= st.sub.value
  }

  predicate WithinReservations(st: State) {
    st.sub.Some? ==> Reserved(st) <= st.sub.value
  }

  lemma StepValid(st: State, a: Action)
    requires Valid(st)
    ensures Valid(Step(st, a))
  {
  }

  lemma StepWithinSeats(st: State, a: Action)
    requires Valid(st) && WithinSeats(st)
    ensures WithinSeats(Step(st, a))
  {
  }

  /** The paid seats are never overrun, whatever the interleaving of requests. */
  lemma {:induction false} MembersWithinSeats(st: State, actions: seq<Action>)
    requires Valid(st) && WithinSeats(st)
    ensures Valid(Run(st, actions)) && WithinSeats(Run(st, actions))
  {
    hide Step, Valid, WithinSeats;
    if actions != [] {
      MembersWithinSeats(st, actions[..|actions| - 1]);
      StepValid(Run(st, actions[..|actions| - 1]), actions[|actions| - 1]);
      StepWithinSeats(Run(st, actions[..|actions| - 1]), actions[|actions| - 1]);
    } else {
      assert Run(st, actions) == st;
    }
  }

  /** Members are conserved: everyone who is in was there at the start or joined once through an invitation. */
  lemma {:induction false} MembersConserved(st: State, actions: seq<Action>)
    requires Valid(st)
    ensures var end := Run(st, actions);
            Valid(end) && |end.members| + end.left + |st.joins| == |st.members| + st.left + |end.joins|
  {
    hide Step, Valid;
    if actions != [] {
      MembersConserved(st, actions[..|actions| - 1]);
      StepValid(Run(st, actions[..|actions| - 1]), actions[|actions| - 1]);
      StepConserves(Run(st, actions[..|actions| - 1]), actions[|actions| - 1]);
    } else {
      assert Run(st, actions) == st;
    }
  }

  lemma StepConserves(st: State, a: Action)
    requires Valid(st)
    ensures |Step(st, a).members| + Step(st, a).left + |st.joins| == |st.members| + st.left + |Step(st, a).joins|
  {
    hide Open, Invitable, MayInvite, IsPending;
    if a.Finish? && a.request in st.requests {
      FinishConserves(st, a.request);
      hide FinishRequest;
    } else if a.OpenAccept? || a.OpenCancel? || a.OpenDecline? {
      OpenChangesRequests(st, a.request, a.id);
    }
  }

  lemma FinishConserves(st: State, request: nat)
    requires Valid(st) && request in st.requests
    ensures var next := FinishRequest(st, request);
            |next.members| + next.left + |st.joins| == |st.members| + st.left + |next.joins|
  {
  }

  lemma OpenChangesRequests(st: State, request: nat, id: nat)
    ensures forall intent :: Open(st, request, id, intent) == st.(requests := Open(st, request, id, intent).requests)
  {
  }

  /** The request is about to turn an invitation that is no longer pending into a member. */
  predicate Stale(st: State, a: Action) {
    && a.Finish? && a.request in st.requests && st.requests[a.request].intent.Accepting?
    && CanJoin(st, st.requests[a.request].invitation)
    && !IsPending(st, st.requests[a.request].invitation)
  }

  /** Reservations are lost in exactly two ways: the seats are lowered under them, or the last unreserved seat goes to
      an invitation that stopped being pending while its acceptance was under way. */
  predicate BreaksReservations(st: State, a: Action) {
    st.sub.Some? &&
    ((a.SetSeats? && |st.members| <= a.seats < Reserved(st)) || (Stale(st, a) && Reserved(st) == st.sub.value))
  }

  lemma PendingAfter(invitations: map<nat, Invitation>, id: nat, v: Invitation)
    ensures PendingIds(invitations[id := v]) ==
            if v.status.Pending? then PendingIds(invitations) + {id} else PendingIds(invitations) - {id}
  {
  }

  lemma ReservedAfterFinish(st: State, request: nat)
    requires Valid(st) && request in st.requests
    ensures var r := st.requests[request];
            Reserved(FinishRequest(st, request)) ==
            if r.intent.Accepting? && !CanJoin(st, r.invitation) then Reserved(st)
            else Reserved(st) + (if r.intent.Accepting? then 1 else 0) - (if IsPending(st, r.invitation) then 1 else 0)
  {
    var r := st.requests[request];
    var v := st.invitations[r.invitation];
    if r.intent.Accepting? {
      PendingAfter(st.invitations, r.invitation, v.(status := Accepted));
    } else {
      PendingAfter(st.invitations, r.invitation, v.(status := r.intent.status));
    }
  }

  lemma FinishReservations(st: State, request: nat)
    requires Valid(st) && WithinReservations(st) && request in st.requests
    ensures WithinReservations(FinishRequest(st, request)) <==> !BreaksReservations(st, Finish(request))
  {
    ReservedAfterFinish(st, request);
    assert FinishRequest(st, request).sub == st.sub;
    hide FinishRequest, CanJoin, IsPending, Reserved;
  }

  lemma OpenKeepsReservations(st: State, request: nat, id: nat, intent: Intent)
    ensures Reserved(Open(st, request, id, intent)) == Reserved(st) && Open(st, request, id, intent).sub == st.sub
  {
  }

  lemma LeaveReservations(st: State, email: nat)
    ensures Reserved(Step(st, Leave(email))) <= Reserved(st) && Step(st, Leave(email)).sub == st.sub
  {
  }

  lemma InviteReservations(st: State, request: nat, id: nat, expiresAt: int)
    requires WithinReservations(st)
    ensures WithinReservations(Step(st, Invite(request, id, expiresAt)))
  {
    if request in st.drafts {
      PendingAfter(st.invitations, id, Invitation(st.drafts[request], expiresAt, Pending));
    }
  }

  lemma ReservationsStep(st: State, a: Action)
    requires Valid(st) && WithinReservations(st)
    ensures WithinReservations(Step(st, a)) <==> !BreaksReservations(st, a)
  {
    hide PendingIds, Open, FinishRequest, CanJoin, Invitable;
    match a
    case Invite(request, id, expiresAt) => InviteReservations(st, request, id, expiresAt);
    case OpenAccept(request, id, _) =>
      OpenKeepsReservations(st, request, id, Accepting);
      OpenKeepsReservations(st, request, id, Marking(Expired));
    case OpenCancel(request, id) => OpenKeepsReservations(st, request, id, Marking(Cancelled));
    case OpenDecline(request, id, _) => OpenKeepsReservations(st, request, id, Marking(Declined));
    case Finish(request) => if request in st.requests { FinishReservations(st, request); }
    case Leave(email) => LeaveReservations(st, email);
    case _ =>
  }

  ghost predicate Careful(st: State, actions: seq<Action>) {
    forall i | 0 <= i < |actions| :: !BreaksReservations(Run(st, actions[..i]), actions[i])
  }

  /** Members and open invitations together stay within the seats over a run if no step is one of those two. */
  lemma {:induction false} ReservationsHold(st: State, actions: seq<Action>)
    requires Valid(st) && WithinReservations(st) && Careful(st, actions)
    ensures Valid(Run(st, actions)) && WithinReservations(Run(st, actions))
  {
    hide Step, Valid, WithinReservations, BreaksReservations;
    if actions != [] {
      var n := |actions| - 1;
      forall i | 0 <= i < n ensures !BreaksReservations(Run(st, actions[..n][..i]), actions[..n][i]) {
        assert actions[..n][..i] == actions[..i];
      }
      ReservationsHold(st, actions[..n]);
      StepValid(Run(st, actions[..n]), actions[n]);
      ReservationsStep(Run(st, actions[..n]), actions[n]);
    } else {
      assert Run(st, actions) == st;
    }
  }

  /** An invitation is a reservation: after such a run, whoever holds a pending one and has no account yet gets in. */
  lemma PendingInviteeGetsIn(st: State, actions: seq<Action>, id: nat, request: nat, now: int)
    requires Valid(st) && WithinReservations(st) && Careful(st, actions)
    requires IsPending(Run(st, actions), id) && request !in Run(st, actions).requests
    requires now <= Run(st, actions).invitations[id].expiresAt
             && Run(st, actions).invitations[id].email !in Run(st, actions).users
    ensures var end := Run(st, actions);
            var next := Step(Step(end, OpenAccept(request, id, now)), Finish(request));
            next.members == end.members + {end.invitations[id].email} && next.invitations[id].status == Accepted
            && Reserved(next) == Reserved(end)
  {
    ReservationsHold(st, actions);
    hide Careful;
    RoomForPending(Run(st, actions), id, request, now);
  }

  lemma RoomForPending(st: State, id: nat, request: nat, now: int)
    requires Valid(st) && WithinReservations(st)
    requires IsPending(st, id) && request !in st.requests
    requires now <= st.invitations[id].expiresAt && st.invitations[id].email !in st.users
    ensures var next := Step(Step(st, OpenAccept(request, id, now)), Finish(request));
            next.members == st.members + {st.invitations[id].email} && next.invitations[id].status == Accepted
            && Reserved(next) == Reserved(st)
  {
    assert id in PendingIds(st.invitations);
    assert |PendingIds(st.invitations)| >= 1;
    var begun := Step(st, OpenAccept(request, id, now));
    assert CanJoin(begun, id);
    ReservedAfterFinish(begun, request);
  }

  /** How many members an invitation should have made. */
  function Due(st: State, i: nat): nat {
    if i in st.invitations && st.invitations[i].status.Accepted? then 1 else 0
  }

  ghost predicate Accounted(st: State) {
    forall i :: st.joins[i] == Due(st, i)
  }

  /** Some invitation has made more members than its status tells. */
  ghost predicate Overdrawn(st: State) {
    exists i :: st.joins[i] > Due(st, i)
  }

  /** A request that found its invitation pending writes to it after it was accepted: another status, or another
      member. */
  predicate BreaksAccount(st: State, a: Action) {
    && a.Finish? && a.request in st.requests
    && var r := st.requests[a.request];
    && r.invitation in st.invitations && st.invitations[r.invitation].status.Accepted?
    && (r.intent.Marking? || CanJoin(st, r.invitation))
  }

  ghost predicate NoneMarksAccepted(st: State) {
    forall r :: r in st.requests ==> st.requests[r].intent != Marking(Accepted)
  }

  lemma FinishAccounts(st: State, request: nat)
    requires Valid(st) && NoneMarksAccepted(st) && request in st.requests
    ensures var r, next := st.requests[request], FinishRequest(st, request);
            && (forall i :: i != r.invitation ==> next.joins[i] == st.joins[i] && Due(next, i) == Due(st, i))
            && next.joins[r.invitation]
               == st.joins[r.invitation] + (if r.intent.Accepting? && CanJoin(st, r.invitation) then 1 else 0)
            && Due(next, r.invitation) == if r.intent.Marking? then 0 else if CanJoin(st, r.invitation) then 1
               else Due(st, r.invitation)
  {
  }

  lemma OthersAccount(st: State, a: Action, i: nat)
    requires !(a.Finish? && a.request in st.requests)
    ensures Step(st, a).joins == st.joins && Due(Step(st, a), i) == Due(st, i)
  {
  }

  /** Exactly those steps break the account, and they overdraw it. */
  lemma StepAccounted(st: State, a: Action)
    requires Valid(st) && NoneMarksAccepted(st) && Accounted(st)
    ensures Accounted(Step(st, a)) <==> !BreaksAccount(st, a)
    ensures BreaksAccount(st, a) ==> Overdrawn(Step(st, a))
  {
    var next := Step(st, a);
    if a.Finish? && a.request in st.requests {
      FinishAccounts(st, a.request);
      var i := st.requests[a.request].invitation;
      assert st.joins[i] == Due(st, i);
      hide FinishRequest, CanJoin;
      if BreaksAccount(st, a) {
        assert next.joins[i] > Due(next, i);
      }
    } else {
      forall i ensures next.joins[i] == Due(next, i) {
        OthersAccount(st, a, i);
      }
    }
  }

  /** An overdrawn account stays overdrawn. */
  lemma StepOverdrawn(st: State, a: Action)
    requires Valid(st) && NoneMarksAccepted(st) && Overdrawn(st)
    ensures Overdrawn(Step(st, a))
  {
    var next := Step(st, a);
    var i :| st.joins[i] > Due(st, i);
    if a.Finish? && a.request in st.requests {
      FinishAccounts(st, a.request);
      hide FinishRequest, CanJoin;
    } else {
      OthersAccount(st, a, i);
    }
    assert next.joins[i] > Due(next, i);
  }

  lemma StepNoMark(st: State, a: Action)
    requires NoneMarksAccepted(st)
    ensures NoneMarksAccepted(Step(st, a))
  {
  }

  ghost predicate Undisturbed(st: State, actions: seq<Action>) {
    forall i | 0 <= i < |actions| :: !BreaksAccount(Run(st, actions[..i]), actions[i])
  }

  lemma UndisturbedPrefix(st: State, actions: seq<Action>)
    requires actions != []
    ensures var n := |actions| - 1;
            Undisturbed(st, actions) <==>
            Undisturbed(st, actions[..n]) && !BreaksAccount(Run(st, actions[..n]), actions[n])
  {
    hide BreaksAccount, Run;
    var n := |actions| - 1;
    assert forall i :: 0 <= i < n ==> actions[..n][..i] == actions[..i] && actions[..n][i] == actions[i];
    if Undisturbed(st, actions) {
      assert !BreaksAccount(Run(st, actions[..n]), actions[n]);
      forall i | 0 <= i < n ensures !BreaksAccount(Run(st, actions[..n][..i]), actions[..n][i]) {
        assert !BreaksAccount(Run(st, actions[..i]), actions[i]);
      }
    } else {
      var i :| 0 <= i < |actions| && BreaksAccount(Run(st, actions[..i]), actions[i]);
      if i < n {
        assert BreaksAccount(Run(st, actions[..n][..i]), actions[..n][i]);
      }
    }
  }

  /** After a run every accepted invitation has made exactly one member, and no other has made any, if and only if no
      request wrote to an invitation after its acceptance; otherwise some invitation has made too many. */
  lemma {:induction false} AcceptedOnceEach(st: State, actions: seq<Action>)
    requires Valid(st) && Accounted(st) && NoneMarksAccepted(st)
    ensures Valid(Run(st, actions)) && NoneMarksAccepted(Run(st, actions))
    ensures Accounted(Run(st, actions)) <==> Undisturbed(st, actions)
    ensures !Undisturbed(st, actions) ==> Overdrawn(Run(st, actions))
  {
    if actions == [] {
      assert Run(st, actions) == st;
    } else {
      var n := |actions| - 1;
      AcceptedOnceEach(st, actions[..n]);
      UndisturbedPrefix(st, actions);
      var before := Run(st, actions[..n]);
      StepValid(before, actions[n]);
      StepNoMark(before, actions[n]);
      hide Step, Valid, NoneMarksAccepted, Undisturbed, BreaksAccount;
      if Accounted(before) {
        StepAccounted(before, actions[n]);
      } else {
        StepOverdrawn(before, actions[n]);
      }
    }
  }

  /** An organisation with one member, its owner, and two paid seats. */
  const TwoSeats: State := State(Some(2), {0}, {0}, map[], map[], map[], multiset{}, 0)

  lemma Unroll(st: State, a: seq<Action>, n: nat)
    requires 0 < n <= |a|
    ensures Run(st, a[..n]) == Step(Run(st, a[..n - 1]), a[n - 1])
  {
    assert a[..n][..n - 1] == a[..n - 1];
  }

  /** The organisation after its one free seat was offered to 11, with an acceptance under way. */
  function Offered(status: Status, requests: map<nat, Request>): State {
    State(Some(2), {0}, {0}, map[1 := Invitation(11, 100, status)], map[], requests, multiset{}, 0)
  }

  lemma Offer()
    ensures Step(Step(Step(TwoSeats, OpenInvite(7, 11)), Invite(7, 1, 100)), OpenAccept(5, 1, 0)) ==
            Offered(Pending, map[5 := Request(1, Accepting)])
  {
    assert PendingIds(TwoSeats.invitations) == {};
    assert Step(TwoSeats, OpenInvite(7, 11)) == TwoSeats.(drafts := map[7 := 11]);
    assert map[7 := 11] - {7} == map[];
    assert Step(TwoSeats.(drafts := map[7 := 11]), Invite(7, 1, 100)) == Offered(Pending, map[]);
  }

  lemma Cancel()
    ensures var st := Offered(Pending, map[5 := Request(1, Accepting)]);
            Step(Step(st, OpenCancel(6, 1)), Finish(6)) == Offered(Cancelled, map[5 := Request(1, Accepting)])
  {
    var st := Offered(Pending, map[5 := Request(1, Accepting)]);
    assert Step(st, OpenCancel(6, 1))
           == Offered(Pending, map[5 := Request(1, Accepting), 6 := Request(1, Marking(Cancelled))]);
    assert map[5 := Request(1, Accepting), 6 := Request(1, Marking(Cancelled))] - {6}
           == map[5 := Request(1, Accepting)];
  }

  lemma OfferAgain()
    ensures var st := Offered(Cancelled, map[5 := Request(1, Accepting)]);
            Step(Step(st, OpenInvite(8, 12)), Invite(8, 2, 100))
              == st.(invitations := st.invitations[2 := Invitation(12, 100, Pending)])
  {
    var st := Offered(Cancelled, map[5 := Request(1, Accepting)]);
    assert PendingIds(st.invitations) == {};
    assert Step(st, OpenInvite(8, 12)) == st.(drafts := map[8 := 12]);
    assert map[8 := 12] - {8} == map[];
  }

  /** An invitation cancelled while its acceptance is under way: its seat is promised again, and both are spent. */
  lemma CancelledYetAccepted()
    ensures var end := Run(TwoSeats, [OpenInvite(7, 11), Invite(7, 1, 100), OpenAccept(5, 1, 0), OpenCancel(6, 1),
                                      Finish(6), OpenInvite(8, 12), Invite(8, 2, 100), Finish(5)]);
            !WithinReservations(end) && IsPending(end, 2) && !CanJoin(end, 2)
  {
    var a := [OpenInvite(7, 11), Invite(7, 1, 100), OpenAccept(5, 1, 0), OpenCancel(6, 1), Finish(6), OpenInvite(8, 12),
              Invite(8, 2, 100), Finish(5)];
    EightSteps(TwoSeats, a);
    Offer();
    Cancel();
    OfferAgain();
    var st := Offered(Cancelled, map[5 := Request(1, Accepting)]);
    LastAcceptance(st.(invitations := st.invitations[2 := Invitation(12, 100, Pending)]));
    hide Step, Offered, WithinReservations, IsPending, CanJoin;
  }

  lemma LastAcceptance(st: State)
    requires st == State(Some(2), {0}, {0}, map[1 := Invitation(11, 100, Cancelled), 2 := Invitation(12, 100, Pending)],
                         map[], map[5 := Request(1, Accepting)], multiset{}, 0)
    ensures var end := Step(st, Finish(5)); !WithinReservations(end) && IsPending(end, 2) && !CanJoin(end, 2)
  {
    var end := Step(st, Finish(5));
    assert CanJoin(st, 1);
    assert end.members == {0, 11};
    assert 2 in PendingIds(end.invitations);
    assert |PendingIds(end.invitations)| >= 1;
  }

  lemma SevenSteps(st: State, a: seq<Action>)
    requires |a| == 7
    ensures Run(st, a) == Step(Step(Step(Step(Step(Step(Step(st, a[0]), a[1]), a[2]), a[3]), a[4]), a[5]), a[6])
  {
    hide Step;
    Unroll(st, a, 1); Unroll(st, a, 2); Unroll(st, a, 3); Unroll(st, a, 4); Unroll(st, a, 5); Unroll(st, a, 6);
    assert a[..0] == [];
  }

  lemma EightSteps(st: State, a: seq<Action>)
    requires |a| == 8
    ensures Run(st, a)
            == Step(Step(Step(Step(Step(Step(Step(Step(st, a[0]), a[1]), a[2]), a[3]), a[4]), a[5]), a[6]), a[7])
  {
    hide Step;
    SevenSteps(st, a[..7]);
  }

  lemma TwoOpen()
    ensures Step(Offered(Pending, map[5 := Request(1, Accepting)]), OpenAccept(6, 1, 0)) ==
            Offered(Pending, map[5 := Request(1, Accepting), 6 := Request(1, Accepting)])
  {
  }

  lemma FirstJoins() returns (next: State)
    ensures next == Step(Offered(Pending, map[5 := Request(1, Accepting), 6 := Request(1, Accepting)]), Finish(5))
    ensures next
            == State(Some(2), {0, 11}, {0, 11}, map[1 := Invitation(11, 100, Accepted)], map[],
                     map[6 := Request(1, Accepting)],
                          multiset{1}, 0)
  {
    var st := Offered(Pending, map[5 := Request(1, Accepting), 6 := Request(1, Accepting)]);
    next := Step(st, Finish(5));
    assert CanJoin(st, 1);
    assert st.requests - {5} == map[6 := Request(1, Accepting)];
  }

  lemma SecondJoins(st: State)
    requires st == State(Some(2), {0, 11}, {0, 11}, map[1 := Invitation(11, 100, Accepted)], map[],
                         map[6 := Request(1, Accepting)],
                         multiset{1}, 0)
    ensures Step(Step(st, Leave(11)), Finish(6)).joins == multiset{1, 1}
  {
    var next := Step(st, Leave(11));
    assert next.members == {0} && next.users == {0};
    assert CanJoin(next, 1);
  }

  /** A second acceptance left open goes through once the member the first one made is gone. */
  lemma JoinsTwice()
    ensures Run(TwoSeats,
                [OpenInvite(7, 11), Invite(7, 1, 100), OpenAccept(5, 1, 0), OpenAccept(6, 1, 0), Finish(5), Leave(11),
                           Finish(6)]).joins == multiset{1, 1}
  {
    var a := [OpenInvite(7, 11), Invite(7, 1, 100), OpenAccept(5, 1, 0), OpenAccept(6, 1, 0), Finish(5), Leave(11),
              Finish(6)];
    SevenSteps(TwoSeats, a);
    Offer();
    TwoOpen();
    var st := FirstJoins();
    SecondJoins(st);
    hide Offered;
  }

  datatype Refusal = EmailExists | PendingExists | PendingIndex | SeatLimitReached | NotFound | InvitationExpired
    | AddressedToOther
                   | SeatsBelowMembers

  class OrgSeats {
    var sub: Option<nat>
    var users: set<nat>
    var members: set<nat>
    var invitations: map<nat, Invitation>
    ghost var drafts: map<nat, nat>
    ghost var requests: map<nat, Request>
    ghost var joins: multiset<nat>
    ghost var left: nat

    ghost function Abstract(): State
      reads this
    {
      State(sub, users, members, invitations, drafts, requests, joins, left)
    }

    constructor (sub: Option<nat>, users: set<nat>, members: set<nat>)
      requires members <= users
      ensures Abstract() == State(sub, users, members, map[], map[], map[], multiset{}, 0) && Valid(Abstract())
              && Accounted(Abstract())
    {
      this.sub, this.users, this.members, invitations := sub, users, members, map[];
      drafts, requests, joins, left := map[], map[], multiset{}, 0;
    }

    method CountPending() returns (n: nat)
      ensures n == |PendingIds(invitations)|
    {
      n := 0;
      var todo := invitations.Keys;
      ghost var seen: set<nat> := {};
      while todo != {}
        invariant seen + todo == invitations.Keys && seen !! todo
        invariant n == |PendingAmong(seen, invitations)|
        decreases |todo|
      {
        var i :| i in todo;
        ghost var counted := PendingAmong(seen, invitations);
        todo := todo - {i};
        seen := seen + {i};
        assert PendingAmong(seen, invitations) == if invitations[i].status.Pending? then counted + {i} else counted;
        if invitations[i].status.Pending? {
          n := n + 1;
        }
      }
      assert PendingIds(invitations) == PendingAmong(seen, invitations);
    }

    /** The locked part of invite-create: refuses exactly when the seats are all taken or promised. */
    method ValidateSeatLimit() returns (ok: bool)
      ensures ok <==> (sub.Some? ==> Reserved(Abstract()) < sub.value)
      ensures ok <==>
              (sub.Some? ==> |members| + |set i | i in invitations && invitations[i].status == Pending| < sub.value)
    {
      PendingMeans(invitations);
      if sub.None? { return true; }
      var pending := CountPending();
      ok := |members| + pending < sub.value;
    }

    /** The checks that run before the transaction. */
    method CheckInvitee(email: nat, ghost request: nat) returns (refusal: Option<Refusal>)
      requires request !in drafts
      modifies this`drafts
      ensures Abstract() == Step(old(Abstract()), OpenInvite(request, email))
      ensures refusal == if email in users then Some(EmailExists) else if HasPending(Abstract(), email)
              then Some(PendingExists) else None
      ensures refusal.None? <==> request in drafts
      ensures refusal == Some(EmailExists) <==> email in users
      ensures refusal == Some(PendingExists) <==>
              && email !in users
              && exists i :: i in invitations && invitations[i].email == email && invitations[i].status == Pending
    {
      if email in users { return Some(EmailExists); }
      if exists i :: i in invitations.Keys && invitations[i].status.Pending? && invitations[i].email == email {
        return Some(PendingExists);
      }
      drafts := drafts[request := email];
      refusal := None;
    }

    /** The transaction: the seat check under the lock, then the insert. */
    method CommitInvitation(id: nat, email: nat, expiresAt: int, ghost request: nat) returns (refusal: Option<Refusal>)
      requires request in drafts && drafts[request] == email && id !in invitations
      modifies this`drafts, this`invitations
      ensures Abstract() == Step(old(Abstract()), Invite(request, id, expiresAt))
      ensures refusal == if sub.Some? && Reserved(old(Abstract())) >= sub.value then Some(SeatLimitReached)
                         else if HasPending(old(Abstract()), email) then Some(PendingIndex) else None
      ensures invitations == if refusal.None? then old(invitations)[id := Invitation(email, expiresAt, Pending)]
                             else old(invitations)
      ensures refusal == Some(SeatLimitReached) <==>
              && sub.Some?
              && |members| + |set i | i in old(invitations) && old(invitations)[i].status == Pending| >= sub.value
      ensures refusal.None? ==>
                forall i :: i in old(invitations) && old(invitations)[i].email == email ==>
                  old(invitations)[i].status != Pending
    {
      PendingMeans(invitations);
      drafts := drafts - {request};
      var ok := ValidateSeatLimit();
      if !ok { return Some(SeatLimitReached); }
      if exists i :: i in invitations.Keys && invitations[i].status.Pending? && invitations[i].email == email {
        return Some(PendingIndex);
      }
      invitations := invitations[id := Invitation(email, expiresAt, Pending)];
      refusal := None;
    }

    /** An undisturbed request is its two steps in a row, and then the index never has to step in. */
    method CreateInvitation(id: nat, email: nat, expiresAt: int, ghost request: nat) returns (refusal: Option<Refusal>)
      requires id !in invitations && request !in drafts
      modifies this`drafts, this`invitations
      ensures Abstract() == Step(Step(old(Abstract()), OpenInvite(request, email)), Invite(request, id, expiresAt))
      ensures refusal ==
              if email in users then Some(EmailExists)
              else if HasPending(old(Abstract()), email) then Some(PendingExists)
              else if sub.Some? && Reserved(old(Abstract())) >= sub.value then Some(SeatLimitReached) else None
      ensures refusal.None? <==>
              && email !in users
              && (forall i :: i in old(invitations) && old(invitations)[i].email == email ==>
                    old(invitations)[i].status != Pending)
              && (sub.Some? ==>
                    |members| + |set i | i in old(invitations) && old(invitations)[i].status == Pending| < sub.value)
      ensures invitations == if refusal.None? then old(invitations)[id := Invitation(email, expiresAt, Pending)]
                             else old(invitations)
    {
      PendingMeans(invitations);
      refusal := CheckInvitee(email, request);
      if refusal.None? {
        refusal := CommitInvitation(id, email, expiresAt, request);
      }
    }

    /** An undisturbed acceptance is its two steps in a row. */
    method AcceptInvitation(id: nat, now: int, ghost request: nat) returns (refusal: Option<Refusal>)
      requires Valid(Abstract()) && request !in requests
      modifies this
      ensures Abstract() == Step(Step(old(Abstract()), OpenAccept(request, id, now)), Finish(request))
      ensures refusal.None? <==>
              IsPending(old(Abstract()), id) && now <= old(invitations)[id].expiresAt && CanJoin(old(Abstract()), id)
      ensures refusal == Some(NotFound) <==> !IsPending(old(Abstract()), id)
      ensures refusal == Some(InvitationExpired)
              <==> IsPending(old(Abstract()), id) && old(invitations)[id].expiresAt < now
      ensures refusal.None? <==>
              && id in old(invitations) && old(invitations)[id].status == Pending
                 && now <= old(invitations)[id].expiresAt
              && old(invitations)[id].email !in old(users) && (sub.Some? ==> |old(members)| < sub.value)
      ensures refusal == Some(EmailExists) ==> old(invitations)[id].email in users
      ensures refusal.Some? ==> refusal.value in {NotFound, InvitationExpired, EmailExists, SeatLimitReached}
      ensures refusal == Some(SeatLimitReached) ==> sub.Some? && |members| >= sub.value
      ensures refusal.None? ==>
                var email := old(invitations)[id].email;
                && email !in old(users) && (sub.Some? ==> |old(members)| < sub.value)
                && users == old(users) + {email} && members == old(members) + {email}
                && invitations == old(invitations)[id := Invitation(email, old(invitations)[id].expiresAt, Accepted)]
      ensures refusal.Some? ==> users == old(users) && members == old(members)
      ensures refusal == Some(InvitationExpired) ==>
              invitations == old(invitations)[id := old(invitations)[id].(status := Expired)]
      ensures refusal in {Some(NotFound), Some(EmailExists), Some(SeatLimitReached)} ==> invitations == old(invitations)
    {
      if id !in invitations || !invitations[id].status.Pending? { return Some(NotFound); }
      var invitation := invitations[id];
      ghost var start := Abstract();
      assert start.requests[request := Request(id, Accepting)] - {request} == start.requests;
      assert start.requests[request := Request(id, Marking(Expired))] - {request} == start.requests;
      if invitation.expiresAt < now {
        invitations := invitations[id := invitation.(status := Expired)];
        return Some(InvitationExpired);
      }
      if invitation.email in users { return Some(EmailExists); }
      if sub.Some? && |members| + 1 > sub.value { return Some(SeatLimitReached); }
      users := users + {invitation.email};
      members := members + {invitation.email};
      invitations := invitations[id := invitation.(status := Accepted)];
      joins := joins + multiset{id};
      refusal := None;
    }

    method DeclineInvitation(id: nat, email: nat, ghost request: nat) returns (refusal: Option<Refusal>)
      requires request !in requests
      modifies this`invitations
      ensures Abstract() == Step(Step(old(Abstract()), OpenDecline(request, id, email)), Finish(request))
      ensures refusal == if !IsPending(old(Abstract()), id) then Some(NotFound)
                         else if old(invitations)[id].email != email then Some(AddressedToOther) else None
      ensures refusal == Some(NotFound) <==> !(id in old(invitations) && old(invitations)[id].status == Pending)
      ensures refusal.None? ==>
                old(invitations)[id].email == email
                && invitations == old(invitations)[id := Invitation(email, old(invitations)[id].expiresAt, Declined)]
      ensures refusal.Some? ==> invitations == old(invitations)
    {
      if id !in invitations || !invitations[id].status.Pending? { return Some(NotFound); }
      if invitations[id].email != email { return Some(AddressedToOther); }
      ghost var start := Abstract();
      assert start.requests[request := Request(id, Marking(Declined))] - {request} == start.requests;
      invitations := invitations[id := invitations[id].(status := Declined)];
      refusal := None;
    }

    method CancelInvitation(id: nat, ghost request: nat) returns (refusal: Option<Refusal>)
      requires request !in requests
      modifies this`invitations
      ensures Abstract() == Step(Step(old(Abstract()), OpenCancel(request, id)), Finish(request))
      ensures refusal == if id in invitations && old(invitations)[id].status == Pending then None else Some(NotFound)
      ensures refusal.None? ==> invitations == old(invitations)[id := old(invitations)[id].(status := Cancelled)]
      ensures refusal.Some? ==> invitations == old(invitations)
    {
      if id !in invitations || !invitations[id].status.Pending? { return Some(NotFound); }
      ghost var start := Abstract();
      assert start.requests[request := Request(id, Marking(Cancelled))] - {request} == start.requests;
      invitations := invitations[id := invitations[id].(status := Cancelled)];
      refusal := None;
    }

    /** A seat count below the head-count is refused; the promised seats are not looked at. */
    method UpdateSeats(seats: nat) returns (refusal: Option<Refusal>)
      requires sub.Some?
      modifies this`sub
      ensures Abstract() == Step(old(Abstract()), SetSeats(seats))
      ensures refusal.None? <==> |members| <= seats
      ensures sub == if |members| <= seats then Some(seats) else old(sub)
    {
      if seats < |members| { return Some(SeatsBelowMembers); }
      sub := Some(seats);
      refusal := None;
    }

    method RemoveMember(email: nat)
      requires email in members
      modifies this
      ensures Abstract() == Step(old(Abstract()), Leave(email))
      ensures members == old(members) - {email} && users == old(users) - {email}
    {
      users := users - {email};
      members := members - {email};
      left := left + 1;
    }
  }
}
