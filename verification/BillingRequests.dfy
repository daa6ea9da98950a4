/** Cancelling, resuming, re-seating and keeping a plan: the Stripe calls a request makes and what it mirrors at once
    (core/saasmint_core/services/billing.py and subscriptions.py). */
module BillingRequests {
  import opened Prelude
  import Mirror = SubscriptionMirror

  datatype ScheduleStatus = NotStarted | Running | Completed | Released | Canceled

  /** The fields of a Stripe response that are mirrored. */
  datatype Response = Response(cancelAt: Option<int>, canceledAt: Option<int>, status: Option<string>)

  datatype Outcome = Done | NotFound | Refused | InvalidQuantity

  /** The schedule attached to each Stripe subscription that has one. */
  type Schedules = map<string, ScheduleStatus>

  /** A live schedule owns its subscription: Stripe refuses to modify or cancel it. */
  predicate Pinned(schedules: Schedules, sid: string) {
    sid in schedules && schedules[sid] in {NotStarted, Running}
  }

  function Release(schedules: Schedules, sid: string): Schedules {
    if Pinned(schedules, sid) then schedules[sid := Released] else schedules
  }

  /** A cancellation releases the schedule only if the mirror shows one. */
  function ReleasedFor(schedules: Schedules, active: Mirror.Row): Schedules {
    if active.pending.plan.Some? then Release(schedules, active.core.stripeId) else schedules
  }

  function CancelWrite(r: Response): Mirror.Write {
    Mirror.CancelState(r.cancelAt, r.canceledAt, r.status)
  }

  class Billing {
    const mirror: Mirror.MirrorStore
    var schedules: Schedules

    constructor (mirror: Mirror.MirrorStore, schedules: Schedules)
      ensures this.mirror == mirror && this.schedules == schedules
    {
      this.mirror, this.schedules := mirror, schedules;
    }

    method ReleasePendingSchedule(sid: string)
      modifies this
      ensures schedules == Release(old(schedules), sid)
      ensures !Pinned(schedules, sid)
      ensures schedules == if sid in old(schedules)
              && (old(schedules)[sid] == NotStarted || old(schedules)[sid] == Running)
              then old(schedules)[sid := Released] else old(schedules)
    {
      if sid !in schedules { return; }
      if schedules[sid] !in {NotStarted, Running} { return; }
      schedules := schedules[sid := Released];
    }

    method GetActiveForCustomer(customer: nat) returns (active: Option<nat>)
      ensures active.Some? ==> active.value in mirror.rows && Mirror.Alive(mirror.rows[active.value].core.status)
                               && mirror.rows[active.value].core.customer == customer
      ensures active.None? ==> forall i :: i in mirror.rows && mirror.rows[i].core.customer == customer ==>
                                 !Mirror.Alive(mirror.rows[i].core.status)
      ensures active.Some? ==> Mirror.IsLatest(mirror.Contents(), Mirror.ByCustomer(customer), active.value)
      ensures active.None? ==> forall i :: !Mirror.IsLatest(mirror.Contents(), Mirror.ByCustomer(customer), i)
    {
      active := mirror.Latest(Mirror.ByCustomer(customer));
      if active.None? {
        assert forall i :: i in mirror.rows ==> !mirror.Matches(i, Mirror.ByCustomer(customer));
      }
    }

    /** `response` is what Stripe would answer to the modify or cancel call. The call is refused exactly when a live
        schedule is attached that the loaded row does not show. */
    method CancelSubscription(customer: nat, response: Response, now: int)
      returns (outcome: Outcome, active: Option<nat>)
      modifies this, mirror
      ensures outcome == NotFound <==> active.None?
      ensures outcome in {Done, NotFound, Refused}
      ensures active.None? ==> schedules == old(schedules) && mirror.Contents() == old(mirror.Contents())
                               && forall i :: !Mirror.IsLatest(old(mirror.Contents()), Mirror.ByCustomer(customer), i)
      ensures active.Some? ==>
                var st := old(mirror.Contents());
                && Mirror.IsLatest(st, Mirror.ByCustomer(customer), active.value)
                && var row := st.rows[active.value];
                && (outcome == Refused <==> Pinned(old(schedules), row.core.stripeId) && row.pending.plan.None?)
                && schedules == ReleasedFor(old(schedules), row)
                && mirror.Contents() == if outcome == Done then Mirror.Optimistic(st, row, CancelWrite(response), now)
                   else st
      ensures active.Some? ==>
                var row := old(mirror.rows)[active.value];
                var sid, was := row.core.stripeId, old(schedules);
                var live := sid in was && (was[sid] == NotStarted || was[sid] == Running);
                && Mirror.Alive(row.core.status) && row.core.customer == customer
                && (outcome == Refused <==> live && row.pending.plan == None)
                && schedules == (if live && row.pending.plan != None then was[sid := Released] else was)
                && (outcome == Done && row.id == active.value ==>
                      && mirror.rows[active.value].core.cancelAt == response.cancelAt
                      && mirror.rows[active.value].core.canceledAt == response.canceledAt)
    {
      active := GetActiveForCustomer(customer);
      if active.None? { return NotFound, None; }
      var row := mirror.rows[active.value];
      if row.pending.plan.Some? {
        ReleasePendingSchedule(row.core.stripeId);
      }
      if Pinned(schedules, row.core.stripeId) { return Refused, active; }
      mirror.MirrorCancelState(row, response.cancelAt, response.canceledAt, response.status, now);
      outcome := Done;
    }

    /** Resuming releases nothing, so any live schedule makes Stripe refuse it. */
    method ResumeSubscription(customer: nat, response: Response, now: int)
      returns (outcome: Outcome, active: Option<nat>)
      modifies mirror
      ensures outcome == NotFound <==> active.None?
      ensures outcome in {Done, NotFound, Refused}
      ensures active.None? ==> mirror.Contents() == old(mirror.Contents())
                               && forall i :: !Mirror.IsLatest(old(mirror.Contents()), Mirror.ByCustomer(customer), i)
      ensures active.Some? ==>
                var st := old(mirror.Contents());
                && Mirror.IsLatest(st, Mirror.ByCustomer(customer), active.value)
                && (outcome == Refused <==> Pinned(schedules, st.rows[active.value].core.stripeId))
                && mirror.Contents() ==
                   if outcome == Done then Mirror.Optimistic(st, st.rows[active.value], CancelWrite(response), now)
                     else st
      ensures active.Some? ==>
                var row := old(mirror.rows)[active.value];
                var sid := row.core.stripeId;
                && Mirror.Alive(row.core.status) && row.core.customer == customer
                && (outcome == Refused <==>
                    sid in schedules && (schedules[sid] == NotStarted || schedules[sid] == Running))
                && (outcome == Done && row.id == active.value ==>
                      && mirror.rows[active.value].core.cancelAt == response.cancelAt
                      && mirror.rows[active.value].core.canceledAt == response.canceledAt)
    {
      active := GetActiveForCustomer(customer);
      if active.None? { return NotFound, None; }
      var row := mirror.rows[active.value];
      if Pinned(schedules, row.core.stripeId) { return Refused, active; }
      mirror.MirrorCancelState(row, response.cancelAt, response.canceledAt, response.status, now);
      outcome := Done;
    }

    /** Afterwards no schedule is live and the mirror shows none. */
    method ReleasePendingScheduleForCustomer(customer: nat, now: int) returns (outcome: Outcome, active: Option<nat>)
      modifies this, mirror
      ensures outcome == if active.None? then NotFound else Done
      ensures active.None? ==> schedules == old(schedules) && mirror.Contents() == old(mirror.Contents())
                               && forall i :: !Mirror.IsLatest(old(mirror.Contents()), Mirror.ByCustomer(customer), i)
      ensures active.Some? ==>
                var st := old(mirror.Contents());
                && Mirror.IsLatest(st, Mirror.ByCustomer(customer), active.value)
                && var row := st.rows[active.value];
                && schedules == Release(old(schedules), row.core.stripeId) && !Pinned(schedules, row.core.stripeId)
                && mirror.Contents() == Mirror.Optimistic(st, row, Mirror.ReleasePending, now)
      ensures active.Some? ==>
                var row := old(mirror.rows)[active.value];
                var sid, was := row.core.stripeId, old(schedules);
                && Mirror.Alive(row.core.status) && row.core.customer == customer
                && schedules == (if sid in was && (was[sid] == NotStarted || was[sid] == Running)
                                 then was[sid := Released] else was)
                && (row.id == active.value ==> mirror.rows[active.value] == row.(pending := Mirror.Pending(None, None)))
    {
      active := GetActiveForCustomer(customer);
      if active.None? { return NotFound, None; }
      var row := mirror.rows[active.value];
      ReleasePendingSchedule(row.core.stripeId);
      mirror.MirrorRelease(row, now);
      outcome := Done;
    }

    /** `active` was loaded earlier in the request. */
    method UpdateSeatCount(active: Mirror.Row, quantity: int, now: int) returns (outcome: Outcome)
      modifies mirror
      ensures outcome == if quantity < 1 then InvalidQuantity else if Pinned(schedules, active.core.stripeId)
              then Refused else Done
      ensures mirror.Contents() ==
              if outcome == Done then Mirror.Optimistic(old(mirror.Contents()), active, Mirror.SeatCount(quantity), now)
              else old(mirror.Contents())
      ensures outcome == Refused <==>
              quantity >= 1 && active.core.stripeId in schedules
              && (schedules[active.core.stripeId] == NotStarted || schedules[active.core.stripeId] == Running)
      ensures outcome == Done && active.core.seatLimit != quantity ==>
                && active.id in mirror.rows && mirror.rows[active.id].core == active.core.(seatLimit := quantity)
                && mirror.rows[active.id].pending == active.pending
      ensures outcome != Done || active.core.seatLimit == quantity ==> mirror.rows == old(mirror.rows)
    {
      if quantity < 1 { return InvalidQuantity; }
      if Pinned(schedules, active.core.stripeId) { return Refused; }
      mirror.MirrorSeatCount(active, quantity, now);
      return Done;
    }
  }

  /** The next read sees the response, and everything else as it was. */
  lemma CancelIsVisible(st: Mirror.State, i: nat, response: Response, now: int)
    requires i in st.rows && st.rows[i].id == i
    ensures var row := Mirror.Optimistic(st, st.rows[i], CancelWrite(response), now).rows[i];
            && row.core.cancelAt == response.cancelAt && row.core.canceledAt == response.canceledAt
            && (response.status.Some? && Mirror.ParseStatus(response.status.value).Some? ==>
                  Some(row.core.status) == Mirror.ParseStatus(response.status.value))
            && (response.status.None? || Mirror.ParseStatus(response.status.value).None? ==>
                row.core.status == st.rows[i].core.status)
            && row == st.rows[i].(core :=
                                  st.rows[i].core.(cancelAt := row.core.cancelAt, canceledAt := row.core.canceledAt,
                                                           status := row.core.status))
  {
  }

  /** Once the released event and a sync have come, in either order, the row is what they say and shows no pending
      change. */
  lemma CancelSettles(st: Mirror.State, w: Mirror.World, i: nat, response: Response, now: int, sync: Mirror.Delivery,
                      released: Mirror.Delivery)
    requires Mirror.Valid(st) && i in st.rows && st.rows[i].core.stripeId != ""
    requires sync.event.SubscriptionUpserted? && sync.event.sub.id == st.rows[i].core.stripeId
    requires Mirror.BuildCore(w, sync.event.sub).0.Some?
    requires released.event == Mirror.ScheduleCleared(Some(st.rows[i].core.stripeId))
    ensures var next := Mirror.Optimistic(st, st.rows[i], CancelWrite(response), now);
            var a, b := Mirror.Run(next, w, [sync, released]), Mirror.Run(next, w, [released, sync]);
            && i in a.rows && i in b.rows && a.rows[i] == b.rows[i]
            && a.rows[i]
               == Mirror.Row(i, Mirror.BuildCore(w, sync.event.sub).0.value, Mirror.NoPending, st.rows[i].createdAt)
  {
    var sid := st.rows[i].core.stripeId;
    var next := Mirror.Optimistic(st, st.rows[i], CancelWrite(response), now);
    assert Mirror.Valid(next) && Mirror.IsRow(next, sid, i);
    Mirror.RunRow(next, w, [sync, released], sid, i);
    Mirror.RunRow(next, w, [released, sync], sid, i);
    hide Mirror.BuildCore, Mirror.Run;
    assert [sync, released][..1] == [sync] && [released, sync][..1] == [released] && [sync][..0] == []
           && [released][..0] == [];
  }

  // ---------------------------------------------------------------- refusals over runs

  /** A request that has loaded its row, or whose Stripe call has gone through; `seen` is what the loaded row
      reflected. */
  datatype Request =
    | Loaded(row: Mirror.Row, seen: seq<Mirror.Event>)
    | Accepted(row: Mirror.Row, seen: seq<Mirror.Event>, write: Mirror.Write)

  /** One subscription at Stripe and in the mirror: whether a live schedule is attached, every schedule event emitted so
      far, the schedule deliveries its row's pending change reflects, and the requests under way. */
  datatype System = System(mirror: Mirror.State, live: bool, log: seq<Mirror.Event>, seen: seq<Mirror.Event>,
                           requests: map<nat, Request>)

  datatype Action =
    | Attach(schedule: Mirror.ScheduleData)          // a schedule is created or updated
    | End                                            // it is released, canceled or aborted at Stripe
    | Complete                                       // it runs to its end, an event no handler looks at
    // an emitted event is delivered: any, again, in any order, or never
    | Arrive(k: nat, now: int)
    | Other(d: Mirror.Delivery)                      // an event that is no schedule event of this subscription
    | Load(request: nat)
    | Cancel(request: nat, response: Response)
    | Touch(request: nat, write: Mirror.Write)       // resume, or a seat change
    | Keep(request: nat)                             // the pending change is given up
    | Store(request: nat, now: int)                  // the save that ends a request

  /** The stored row. */
  ghost function RowOf(s: System, sid: string): Mirror.Row
    requires Mirror.Find(s.mirror, sid).Some?
  {
    s.mirror.rows[Mirror.Find(s.mirror, sid).value]
  }

  function Emit(s: System, e: Mirror.Event): System {
    if s.live then s.(live := false, log := s.log + [e]) else s
  }

  function Ended(s: System, sid: string): System {
    Emit(s, Mirror.ScheduleCleared(Some(sid)))
  }

  predicate Waits(s: System, q: nat) {
    q in s.requests && s.requests[q].Loaded?
  }

  /** Stripe would refuse the request's cancellation now: a schedule is live, and the loaded row does not show one to
      release first. */
  predicate WouldRefuse(s: System, q: nat)
    requires Waits(s, q)
  {
    s.live && s.requests[q].row.pending.plan.None?
  }

  predicate Foreign(d: Mirror.Delivery, sid: string) {
    && (d.event.ScheduleUpserted? ==> d.event.schedule.subscription != Some(sid))
    && (d.event.ScheduleCleared? ==> d.event.subscription != Some(sid))
  }

  function Accept(s: System, q: nat, write: Mirror.Write): System
    requires Waits(s, q)
  {
    s.(requests := s.requests[q := Accepted(s.requests[q].row, s.requests[q].seen, write)])
  }

  function CancelCall(s: System, sid: string, q: nat, response: Response): System
    requires Waits(s, q)
  {
    if WouldRefuse(s, q) then s.(requests := s.requests - {q})
    else Accept(if s.requests[q].row.pending.plan.Some? then Ended(s, sid) else s, q, CancelWrite(response))
  }

  /** The save of a whole row: its pending change is again what the row reflected when it was loaded. */
  function Saved(s: System, q: nat, now: int): System
    requires q in s.requests && s.requests[q].Accepted?
  {
    var r := s.requests[q];
    s.(mirror := Mirror.Optimistic(s.mirror, r.row, r.write, now),
       seen := if !Mirror.Saves(r.row, r.write) then s.seen else if r.write.ReleasePending? then [] else r.seen,
       requests := s.requests - {q})
  }

  ghost function Step(s: System, w: Mirror.World, sid: string, a: Action): System {
    if Mirror.Find(s.mirror, sid).None? then s else
    match a
    case Attach(schedule) =>
      if schedule.subscription == Some(sid) then s.(live := true, log := s.log + [Mirror.ScheduleUpserted(schedule)])
        else s
    case End => Ended(s, sid)
    case Complete => Emit(s, Mirror.Unhandled)
    case Arrive(k, now) =>
      if k < |s.log| then
        s.(mirror := Mirror.Step(s.mirror, w, Mirror.Delivery(s.log[k], now)), seen := s.seen + [s.log[k]])
      else s
    case Other(d) => if Foreign(d, sid) then s.(mirror := Mirror.Step(s.mirror, w, d)) else s
    case Load(q) => if q in s.requests then s else s.(requests := s.requests[q := Loaded(RowOf(s, sid), s.seen)])
    case Cancel(q, response) => if Waits(s, q) then CancelCall(s, sid, q, response) else s
    case Touch(q, write) =>
      if !Waits(s, q) || write.ReleasePending? then s
      else if s.live then s.(requests := s.requests - {q})
      else Accept(s, q, write)
    case Keep(q) => if Waits(s, q) then Accept(Ended(s, sid), q, Mirror.ReleasePending) else s
    case Store(q, now) => if q in s.requests && s.requests[q].Accepted? then Saved(s, q, now) else s
  }

  /** Stripe refuses a cancellation exactly while a schedule is live that the loaded row does not show; the request is
      then over and nothing has changed. Otherwise no live schedule is left and the request goes on with what it
      loaded. */
  lemma CancelAnswers(s: System, w: Mirror.World, sid: string, q: nat, response: Response)
    requires Mirror.Find(s.mirror, sid).Some? && q in s.requests && s.requests[q].Loaded?
    ensures var loaded, after := s.requests[q], Step(s, w, sid, Cancel(q, response));
            && after.mirror == s.mirror && after.seen == s.seen
            && (if s.live && loaded.row.pending.plan == None then
                  q !in after.requests && after.log == s.log && after.live
                else
                  q in after.requests && !after.live
                  && after.requests[q] == Accepted(loaded.row, loaded.seen, CancelWrite(response))
                  && after.log == if s.live then s.log + [Mirror.ScheduleCleared(Some(sid))] else s.log)
            && after.requests - {q} == s.requests - {q}
  {
  }

  /** A request saves once. */
  lemma StoreEnds(s: System, w: Mirror.World, sid: string, q: nat, now: int)
    requires Mirror.Find(s.mirror, sid).Some? && q in s.requests && s.requests[q].Accepted?
    ensures var after := Step(s, w, sid, Store(q, now));
            after.requests == s.requests - {q} && after.live == s.live && after.log == s.log
  {
  }

  ghost function Run(s: System, w: Mirror.World, sid: string, actions: seq<Action>): System
    decreases |actions|
  {
    if actions == [] then s else Step(Run(s, w, sid, actions[..|actions| - 1]), w, sid, actions[|actions| - 1])
  }

  /** A schedule event the mirror makes a pending change of. */
  predicate Readable(w: Mirror.World, e: Mirror.Event) {
    e.ScheduleUpserted? && Mirror.ParseSchedule(e.schedule).Some?
      && Mirror.ParseSchedule(e.schedule).value.0 in w.prices
  }

  /** Some readable schedule was delivered and no clearing after it. */
  ghost predicate Shows(w: Mirror.World, seen: seq<Mirror.Event>) {
    exists j :: 0 <= j < |seen| && Readable(w, seen[j]) && forall m :: j < m < |seen| ==> !seen[m].ScheduleCleared?
  }

  predicate About(e: Mirror.Event, sid: string) {
    || (e.ScheduleUpserted? && e.schedule.subscription == Some(sid))
    || e == Mirror.ScheduleCleared(Some(sid))
    || e == Mirror.Unhandled
  }

  /** The row's pending change is what those deliveries amount to. */
  ghost predicate Reflects(w: Mirror.World, row: Mirror.Row, seen: seq<Mirror.Event>) {
    && (row.pending.plan.Some? <==> Shows(w, seen))
    && (row.pending == Mirror.NoPending || row.pending.plan.Some?)
  }

  ghost predicate RequestSound(s: System, w: Mirror.World, sid: string, q: nat) {
    q in s.requests ==>
      var r := s.requests[q];
      && Mirror.IsRow(s.mirror, sid, r.row.id) && r.row.core.stripeId == sid && Reflects(w, r.row, r.seen)
  }

  ghost predicate Invariant(s: System, w: Mirror.World, sid: string) {
    && Mirror.Valid(s.mirror) && Mirror.Find(s.mirror, sid).Some?
    && (forall e :: e in s.log ==> About(e, sid))
    && (s.live <==> s.log != [] && s.log[|s.log| - 1].ScheduleUpserted?)
    && Reflects(w, RowOf(s, sid), s.seen)
    && (forall q :: RequestSound(s, w, sid, q))
  }

  lemma ShowsAppend(w: Mirror.World, seen: seq<Mirror.Event>, e: Mirror.Event)
    ensures Shows(w, seen + [e]) <==> Readable(w, e) || (!e.ScheduleCleared? && Shows(w, seen))
  {
    var l := seen + [e];
    hide Readable;
    if Readable(w, e) {
      assert Readable(w, l[|seen|]);
    } else if Shows(w, seen) && !e.ScheduleCleared? {
      var j :| 0 <= j < |seen| && Readable(w, seen[j]) && forall m :: j < m < |seen| ==> !seen[m].ScheduleCleared?;
      assert Readable(w, l[j]);
    }
    if Shows(w, l) && !Readable(w, e) {
      var j :| 0 <= j < |l| && Readable(w, l[j]) && forall m :: j < m < |l| ==> !l[m].ScheduleCleared?;
      assert j < |seen| && Readable(w, seen[j]);
      assert !l[|seen|].ScheduleCleared?;
      forall m | j < m < |seen| ensures !seen[m].ScheduleCleared? {
        assert l[m] == seen[m];
      }
    }
  }

  /** A delivery moves the stored row and nothing else about it. */
  lemma DeliverRow(s: System, w: Mirror.World, sid: string, d: Mirror.Delivery)
    requires Mirror.Valid(s.mirror) && Mirror.Find(s.mirror, sid).Some?
    ensures var next := s.(mirror := Mirror.Step(s.mirror, w, d));
            && Mirror.Valid(next.mirror) && Mirror.Find(next.mirror, sid) == Mirror.Find(s.mirror, sid)
            && RowOf(next, sid).pending == Mirror.PendingStep(RowOf(s, sid).pending, w, sid, d)
  {
    var i := Mirror.Find(s.mirror, sid).value;
    Mirror.StepValid(s.mirror, w, d);
    Mirror.StepRow(s.mirror, w, d, sid, i);
    Mirror.FindRow(Mirror.Step(s.mirror, w, d), sid, i);
  }

  lemma WriteRow(s: System, sid: string, row: Mirror.Row, write: Mirror.Write, now: int)
    requires Mirror.Valid(s.mirror) && Mirror.Find(s.mirror, sid).Some?
    requires Mirror.IsRow(s.mirror, sid, row.id) && row.core.stripeId == sid
    ensures var next := s.(mirror := Mirror.Optimistic(s.mirror, row, write, now));
            && Mirror.Valid(next.mirror) && Mirror.Find(next.mirror, sid) == Mirror.Find(s.mirror, sid)
            && RowOf(next, sid).pending ==
               if Mirror.Saves(row, write) then Mirror.Copy(row, write).pending else RowOf(s, sid).pending
  {
    var i := row.id;
    Mirror.FindRow(s.mirror, sid, i);
    Mirror.ResaveValid(s.mirror, i, Mirror.Copy(row, write), now);
    var next := Mirror.Optimistic(s.mirror, row, write, now);
    assert Mirror.IsRow(next, sid, i);
    Mirror.FindRow(next, sid, i);
  }

  lemma ScheduleEventStep(w: Mirror.World, sid: string, p: Mirror.Pending, d: Mirror.Delivery)
    requires About(d.event, sid) && sid != ""
    ensures var after := Mirror.PendingStep(p, w, sid, d);
            && (Readable(w, d.event) ==> after.plan.Some?)
            && (d.event.ScheduleCleared? ==> after == Mirror.NoPending)
            && (!Readable(w, d.event) && !d.event.ScheduleCleared? ==> after == p)
  {
    hide Mirror.ParseSchedule;
  }

  lemma ForeignEventStep(w: Mirror.World, sid: string, p: Mirror.Pending, d: Mirror.Delivery)
    requires Foreign(d, sid)
    ensures Mirror.PendingStep(p, w, sid, d) == p
  {
  }

  predicate SameLoad(a: Request, b: Request) {
    a.row == b.row && a.seen == b.seen
  }

  /** Requests stay sound while the row keeps its key. */
  lemma RequestsStay(s: System, next: System, w: Mirror.World, sid: string)
    requires Mirror.Valid(s.mirror) && Mirror.Find(s.mirror, sid).Some?
             && Mirror.Find(next.mirror, sid) == Mirror.Find(s.mirror, sid)
    requires forall q :: RequestSound(s, w, sid, q)
    requires forall q :: q in next.requests ==> q in s.requests && SameLoad(next.requests[q], s.requests[q])
    ensures forall q :: RequestSound(next, w, sid, q)
  {
    hide Mirror.Valid, Reflects;
    forall q ensures RequestSound(next, w, sid, q) {
      assert RequestSound(s, w, sid, q);
      if q in next.requests {
        Mirror.FindRow(s.mirror, sid, s.requests[q].row.id);
      }
    }
  }

  lemma EmitInvariant(s: System, w: Mirror.World, sid: string, e: Mirror.Event)
    requires Invariant(s, w, sid) && About(e, sid) && !e.ScheduleUpserted?
    ensures Invariant(Emit(s, e), w, sid) && !Emit(s, e).live
  {
    RequestsStay(s, Emit(s, e), w, sid);
    hide Mirror.Find, Mirror.Valid, Reflects, RequestSound;
  }

  lemma AttachInvariant(s: System, w: Mirror.World, sid: string, schedule: Mirror.ScheduleData)
    requires Invariant(s, w, sid)
    ensures Invariant(Step(s, w, sid, Attach(schedule)), w, sid)
  {
    RequestsStay(s, Step(s, w, sid, Attach(schedule)), w, sid);
    hide Mirror.Find, Mirror.Valid, Reflects, RequestSound;
  }

  lemma ArriveInvariant(s: System, w: Mirror.World, sid: string, k: nat, now: int)
    requires Invariant(s, w, sid) && sid != ""
    ensures Invariant(Step(s, w, sid, Arrive(k, now)), w, sid)
  {
    if k < |s.log| {
      var d := Mirror.Delivery(s.log[k], now);
      assert About(s.log[k], sid);
      DeliverRow(s, w, sid, d);
      ShowsAppend(w, s.seen, s.log[k]);
      ScheduleEventStep(w, sid, RowOf(s, sid).pending, d);
      RequestsStay(s, Step(s, w, sid, Arrive(k, now)), w, sid);
      hide Mirror.Step, Mirror.PendingStep, Mirror.Find, Mirror.Valid, Shows, Readable, RequestSound;
    }
  }

  lemma OtherInvariant(s: System, w: Mirror.World, sid: string, d: Mirror.Delivery)
    requires Invariant(s, w, sid)
    ensures Invariant(Step(s, w, sid, Other(d)), w, sid)
  {
    if Foreign(d, sid) {
      DeliverRow(s, w, sid, d);
      ForeignEventStep(w, sid, RowOf(s, sid).pending, d);
      RequestsStay(s, Step(s, w, sid, Other(d)), w, sid);
      hide Mirror.Step, Mirror.PendingStep, Mirror.Find, Mirror.Valid, Shows, RequestSound;
    }
  }

  lemma LoadInvariant(s: System, w: Mirror.World, sid: string, q: nat)
    requires Invariant(s, w, sid)
    ensures Invariant(Step(s, w, sid, Load(q)), w, sid)
  {
    if q !in s.requests {
      var next := Step(s, w, sid, Load(q));
      Mirror.RowIds(s.mirror, Mirror.Find(s.mirror, sid).value);
      hide Mirror.Find, Mirror.Valid, Reflects;
      forall p ensures RequestSound(next, w, sid, p) {
        assert RequestSound(s, w, sid, p);
      }
    }
  }

  lemma AcceptInvariant(s: System, w: Mirror.World, sid: string, q: nat, write: Mirror.Write)
    requires Invariant(s, w, sid) && Waits(s, q)
    ensures Invariant(Accept(s, q, write), w, sid)
  {
    RequestsStay(s, Accept(s, q, write), w, sid);
    hide Mirror.Find, Mirror.Valid, Reflects, RequestSound;
  }

  lemma DropInvariant(s: System, w: Mirror.World, sid: string, q: nat)
    requires Invariant(s, w, sid)
    ensures Invariant(s.(requests := s.requests - {q}), w, sid)
  {
    RequestsStay(s, s.(requests := s.requests - {q}), w, sid);
    hide Mirror.Find, Mirror.Valid, Reflects, RequestSound;
  }

  lemma StoreInvariant(s: System, w: Mirror.World, sid: string, q: nat, now: int)
    requires Invariant(s, w, sid) && q in s.requests && s.requests[q].Accepted?
    ensures Invariant(Saved(s, q, now), w, sid)
  {
    var r := s.requests[q];
    assert RequestSound(s, w, sid, q);
    WriteRow(s, sid, r.row, r.write, now);
    RequestsStay(s, Saved(s, q, now), w, sid);
    assert !Shows(w, []);
    hide Mirror.Optimistic, Mirror.Find, Mirror.Valid, Shows, RequestSound;
  }

  lemma StepInvariant(s: System, w: Mirror.World, sid: string, a: Action)
    requires Invariant(s, w, sid) && sid != ""
    ensures Invariant(Step(s, w, sid, a), w, sid)
  {
    hide Invariant, Emit, Accept, Saved;
    match a
    case Attach(schedule) => AttachInvariant(s, w, sid, schedule);
    case End => EmitInvariant(s, w, sid, Mirror.ScheduleCleared(Some(sid)));
    case Complete => EmitInvariant(s, w, sid, Mirror.Unhandled);
    case Arrive(k, now) => ArriveInvariant(s, w, sid, k, now);
    case Other(d) => OtherInvariant(s, w, sid, d);
    case Load(q) => LoadInvariant(s, w, sid, q);
    case Cancel(q, response) =>
      if Waits(s, q) {
        DropInvariant(s, w, sid, q);
        EmitInvariant(s, w, sid, Mirror.ScheduleCleared(Some(sid)));
        EmitKeepsRequests(s, Mirror.ScheduleCleared(Some(sid)));
        AcceptInvariant(s, w, sid, q, CancelWrite(response));
        AcceptInvariant(Ended(s, sid), w, sid, q, CancelWrite(response));
      }
    case Touch(q, write) =>
      if Waits(s, q) {
        DropInvariant(s, w, sid, q);
        AcceptInvariant(s, w, sid, q, write);
      }
    case Keep(q) =>
      if Waits(s, q) {
        EmitInvariant(s, w, sid, Mirror.ScheduleCleared(Some(sid)));
        EmitKeepsRequests(s, Mirror.ScheduleCleared(Some(sid)));
        AcceptInvariant(Ended(s, sid), w, sid, q, Mirror.ReleasePending);
      }
    case Store(q, now) => if q in s.requests && s.requests[q].Accepted? { StoreInvariant(s, w, sid, q, now); }
  }

  lemma EmitKeepsRequests(s: System, e: Mirror.Event)
    ensures Emit(s, e).requests == s.requests
  {
  }

  lemma {:induction false} RunInvariant(s: System, w: Mirror.World, sid: string, actions: seq<Action>)
    requires Invariant(s, w, sid) && sid != ""
    ensures Invariant(Run(s, w, sid, actions), w, sid)
  {
    hide Step, Invariant;
    if actions != [] {
      RunInvariant(s, w, sid, actions[..|actions| - 1]);
      StepInvariant(Run(s, w, sid, actions[..|actions| - 1]), w, sid, actions[|actions| - 1]);
    } else {
      assert Run(s, w, sid, actions) == s;
    }
  }

  /** Over every run of schedule changes, deliveries in any order, other events and requests that load, call Stripe and
      save at steps of their own, from a row with nothing pending and no schedule: the row shows a pending change if and
      only if the deliveries it reflects hold a readable schedule and no clearing after it; and a cancellation would be
      refused if and only if the last event emitted set a schedule and the row the request loaded did not show one. */
  lemma RefusedIff(s: System, w: Mirror.World, sid: string, actions: seq<Action>)
    requires Mirror.Valid(s.mirror) && Mirror.Find(s.mirror, sid).Some? && sid != ""
    requires RowOf(s, sid).pending == Mirror.NoPending && !s.live && s.log == s.seen == [] && s.requests == map[]
    ensures var end := Run(s, w, sid, actions);
            && Mirror.Find(end.mirror, sid).Some?
            && (RowOf(end, sid).pending.plan.Some? <==> Shows(w, end.seen))
            && forall q :: Waits(end, q) ==>
                 (WouldRefuse(end, q) <==>
                  end.log != [] && end.log[|end.log| - 1].ScheduleUpserted? && !Shows(w, end.requests[q].seen))
  {
    assert !Shows(w, s.seen);
    assert Invariant(s, w, sid) by { hide Mirror.Find, Mirror.Valid; }
    hide Step, Run, Shows, Mirror.Find, Mirror.Valid;
    RunInvariant(s, w, sid, actions);
    var end := Run(s, w, sid, actions);
    forall q | Waits(end, q) ensures Reflects(w, end.requests[q].row, end.requests[q].seen) {
      assert RequestSound(end, w, sid, q);
    }
  }
}
