/** The local mirror of Stripe subscriptions: webhook dispatch (core/saasmint_core/services/webhooks.py)
    and the optimistic local writes (billing.py and subscriptions.py beside it). */
module SubscriptionMirror {
  import opened Prelude
  import Currency

  datatype Status = Active | Trialing | PastDue | Canceled | Incomplete | IncompleteExpired | Paused | Unpaid

  const ACTIVE_STATUSES: set<Status> := {Active, Trialing, PastDue}

  function ParseStatus(s: string): Option<Status> {
    if s == "active" then Some(Active)
    else if s == "trialing" then Some(Trialing)
    else if s == "past_due" then Some(PastDue)
    else if s == "canceled" then Some(Canceled)
    else if s == "incomplete" then Some(Incomplete)
    else if s == "incomplete_expired" then Some(IncompleteExpired)
    else if s == "paused" then Some(Paused)
    else if s == "unpaid" then Some(Unpaid)
    else None
  }

  // ---------------------------------------------------------------- payloads

  /** A field of a JSON object whose presence and type both matter. */
  datatype Field = Absent | Null | Int(n: int) | NotInt

  datatype Item = Item(priceId: string, priceCurrency: Option<string>, quantity: Option<int>, periodStart: Field,
                       periodEnd: Field)

  datatype SubData = SubData(id: string, customer: string, items: seq<Item>, status: string, periodStart: Field,
                             periodEnd: Field,
                             trialEnd: Option<int>, canceledAt: Option<int>, cancelAt: Option<int>,
                               currency: Option<string>)

  /** A schedule item names its price by id, or embeds the price object. */
  datatype PriceRef = NoPrice | PriceId(id: string) | PriceObject(idField: Option<string>)

  datatype Phase = Phase(items: seq<PriceRef>, startDate: Option<int>, endDate: Option<int>)

  datatype ScheduleData = ScheduleData(subscription: Option<string>, phases: seq<Phase>)

  datatype Event =
    | SubscriptionUpserted(sub: SubData)
    | SubscriptionDeleted(id: string)
    | ScheduleUpserted(schedule: ScheduleData)
    | ScheduleCleared(subscription: Option<string>)
    | Unhandled

  /** An event and the instant its handler runs. */
  datatype Delivery = Delivery(event: Event, now: int)

  // ---------------------------------------------------------------- rows

  /** The fields a subscription event writes. */
  datatype Core = Core(stripeId: string, customer: nat, user: Option<nat>, status: Status, plan: nat, seatLimit: int,
                       trialEndsAt: Option<int>, periodStart: int, periodEnd: int,
                       canceledAt: Option<int>, cancelAt: Option<int>, currency: string)

  /** The pending plan switch a schedule event writes. */
  datatype Pending = Pending(plan: Option<nat>, at: Option<int>)

  datatype Row = Row(id: nat, core: Core, pending: Pending, createdAt: int)

  datatype Customer = Customer(id: nat, user: Option<nat>)

  /** Customers by Stripe id and plan ids by Stripe price id; fixed while events are processed. */
  datatype World = World(customers: map<string, Customer>, prices: map<string, nat>)

  /** Rows by primary key; every key in use lies below `next`, which stands in for uuid4. */
  datatype State = State(rows: map<nat, Row>, next: nat)

  datatype Error = NoItems | MissingPeriod | NonIntegerPeriod | UnknownCustomer | UnknownPrice | BadStatus

  datatype Outcome = Processed | Failed(error: Error)

  const NoPending: Pending := Pending(None, None)

  // ---------------------------------------------------------------- parsing

  /** dict.get with a default: the default stands in only for an absent key. */
  function ItemFirst(item: Field, sub: Field): Field {
    if item == Absent then sub else item
  }

  function PeriodWindow(data: SubData, item: Item): (r: (Option<Error>, int, int)) {
    var s, e := ItemFirst(item.periodStart, data.periodStart), ItemFirst(item.periodEnd, data.periodEnd);
    if s in {Absent, Null} || e in {Absent, Null} then (Some(MissingPeriod), 0, 0)
    else if !s.Int? || !e.Int? then (Some(NonIntegerPeriod), 0, 0)
    else (None, s.n, e.n)
  }

  /** Python's `a or b` on an optional string: empty counts as missing. */
  function OrString(a: Option<string>, b: string): string {
    if a.Some? && a.value != "" then a.value else b
  }

  function Seats(quantity: Option<int>): int {
    if quantity.Some? && quantity.value != 0 then quantity.value else 1
  }

  /** Everything a subscription event would write, or why it fails. */
  function BuildCore(w: World, data: SubData): (Option<Core>, Outcome) {
    if data.items == [] then (None, Failed(NoItems))
    else
      var item := data.items[0];
      var (error, periodStart, periodEnd) := PeriodWindow(data, item);
      if error.Some? then (None, Failed(error.value))
      else if data.customer !in w.customers then (None, Failed(UnknownCustomer))
      else if item.priceId !in w.prices then (None, Failed(UnknownPrice))
      else
        var status := ParseStatus(data.status);
        if status.None? then (None, Failed(BadStatus))
        else
          var customer := w.customers[data.customer];
          (Some(Core(data.id, customer.id, customer.user, status.value, w.prices[item.priceId], Seats(item.quantity),
                     data.trialEnd, periodStart, periodEnd, data.canceledAt, data.cancelAt,
                     Currency.Lower(OrString(data.currency, OrString(item.priceCurrency, "usd"))))), Processed)
  }

  function RefId(p: PriceRef): string {
    match p
    case NoPrice => ""
    case PriceId(id) => id
    case PriceObject(idField) => if idField.Some? then idField.value else ""
  }

  /** The next price id and the instant it takes over, from the first two phases. */
  function ParseSchedule(data: ScheduleData): Option<(string, int)> {
    if |data.phases| < 2 then None
    else
      var current, next := data.phases[0], data.phases[1];
      if next.items == [] then None
      else if RefId(next.items[0]) == "" then None
      else
        var at := if current.endDate.Some? && current.endDate.value != 0 then current.endDate else next.startDate;
        if at.None? then None else Some((RefId(next.items[0]), at.value))
  }

  // ---------------------------------------------------------------- handlers

  ghost predicate Valid(st: State) {
    && (forall i :: i in st.rows ==> i < st.next && st.rows[i].id == i)
    && (forall i, j :: i in st.rows && j in st.rows && st.rows[i].core.stripeId == st.rows[j].core.stripeId ==> i == j)
  }

  ghost predicate IsRow(st: State, sid: string, i: nat) {
    i in st.rows && st.rows[i].core.stripeId == sid
  }

  ghost function Find(st: State, sid: string): (r: Option<nat>)
    ensures r.Some? ==> IsRow(st, sid, r.value)
    ensures r.None? ==> forall i :: !IsRow(st, sid, i)
  {
    if exists i :: IsRow(st, sid, i) then
      var i :| IsRow(st, sid, i);
      Some(i)
    else None
  }

  /** Repository save: update or create by primary key; created_at is set once, by the database. */
  function Save(st: State, row: Row, now: int): State {
    st.(rows := st.rows[row.id := row.(createdAt := if row.id in st.rows then st.rows[row.id].createdAt else now)])
  }

  ghost function SyncSubscription(st: State, w: World, data: SubData, now: int): State {
    var core := BuildCore(w, data).0;
    if core.None? then st
    else
      match Find(st, data.id)
      case Some(i) => Save(st, Row(i, core.value, st.rows[i].pending, st.rows[i].createdAt), now)
      case None => Save(st.(next := st.next + 1), Row(st.next, core.value, NoPending, now), now)
  }

  ghost function DeleteSubscription(st: State, sid: string, now: int): State {
    match Find(st, sid)
    case None => st
    case Some(i) => Save(st, st.rows[i].(core := st.rows[i].core.(status := Canceled, canceledAt := Some(now))), now)
  }

  ghost function UpsertSchedule(st: State, w: World, data: ScheduleData, now: int): State {
    var parsed := ParseSchedule(data);
    if OrString(data.subscription, "") == "" || parsed.None? || parsed.value.0 !in w.prices then st
    else
      match Find(st, data.subscription.value)
      case None => st
      case Some(i) =>
        var pending := Pending(Some(w.prices[parsed.value.0]), Some(parsed.value.1));
        if st.rows[i].pending == pending then st else Save(st, st.rows[i].(pending := pending), now)
  }

  ghost function ClearSchedule(st: State, subscription: Option<string>, now: int): State {
    if OrString(subscription, "") == "" then st
    else
      match Find(st, subscription.value)
      case None => st
      case Some(i) => if st.rows[i].pending == NoPending then st else Save(st, st.rows[i].(pending := NoPending), now)
  }

  ghost function Step(st: State, w: World, d: Delivery): State {
    match d.event
    case SubscriptionUpserted(sub) => SyncSubscription(st, w, sub, d.now)
    case SubscriptionDeleted(id) => DeleteSubscription(st, id, d.now)
    case ScheduleUpserted(schedule) => UpsertSchedule(st, w, schedule, d.now)
    case ScheduleCleared(subscription) => ClearSchedule(st, subscription, d.now)
    case Unhandled => st
  }

  ghost function Run(st: State, w: World, ds: seq<Delivery>): State
    decreases |ds|
  {
    if ds == [] then st else Step(Run(st, w, ds[..|ds| - 1]), w, ds[|ds| - 1])
  }

  // ---------------------------------------------------------------- the two streams of one subscription

  /** What one delivery does to the core fields of the row of `sid`, looking at nothing else. */
  function CoreStep(core: Core, w: World, sid: string, d: Delivery): Core {
    match d.event
    case SubscriptionUpserted(sub) =>
      if sub.id == sid && BuildCore(w, sub).0.Some? then BuildCore(w, sub).0.value else core
    case SubscriptionDeleted(id) => if id == sid then core.(status := Canceled, canceledAt := Some(d.now)) else core
    case _ => core
  }

  /** What one delivery does to the pending change of the row of `sid`, looking at nothing else. */
  function PendingStep(p: Pending, w: World, sid: string, d: Delivery): Pending {
    match d.event
    case ScheduleUpserted(schedule) =>
      var parsed := ParseSchedule(schedule);
      if schedule.subscription == Some(sid) && sid != "" && parsed.Some? && parsed.value.0 in w.prices
      then Pending(Some(w.prices[parsed.value.0]), Some(parsed.value.1)) else p
    case ScheduleCleared(subscription) => if subscription == Some(sid) && sid != "" then NoPending else p
    case _ => p
  }

  function CoreFold(core: Core, w: World, sid: string, ds: seq<Delivery>): Core {
    if ds == [] then core else CoreStep(CoreFold(core, w, sid, ds[..|ds| - 1]), w, sid, ds[|ds| - 1])
  }

  function PendingFold(p: Pending, w: World, sid: string, ds: seq<Delivery>): Pending {
    if ds == [] then p else PendingStep(PendingFold(p, w, sid, ds[..|ds| - 1]), w, sid, ds[|ds| - 1])
  }

  /** The subscription events about `sid`, in order of delivery. */
  function SubscriptionStream(sid: string, ds: seq<Delivery>): seq<Delivery> {
    if ds == [] then []
    else
      var d := ds[|ds| - 1];
      SubscriptionStream(sid, ds[..|ds| - 1]) +
      if (d.event.SubscriptionUpserted? && d.event.sub.id == sid)
        || (d.event.SubscriptionDeleted? && d.event.id == sid) then [d] else []
  }

  /** The schedule events about `sid`, in order of delivery. */
  function ScheduleStream(sid: string, ds: seq<Delivery>): seq<Delivery> {
    if ds == [] then []
    else
      var d := ds[|ds| - 1];
      ScheduleStream(sid, ds[..|ds| - 1]) +
      if (d.event.ScheduleUpserted? && d.event.schedule.subscription == Some(sid))
        || (d.event.ScheduleCleared? && d.event.subscription == Some(sid))
      then [d] else []
  }

  /** Nothing is missing from the two streams, and nothing foreign is in them. */
  lemma {:induction false} StreamMembers(sid: string, ds: seq<Delivery>, d: Delivery)
    ensures d in SubscriptionStream(sid, ds) <==>
            d in ds && match d.event
                       case SubscriptionUpserted(sub) => sub.id == sid
                       case SubscriptionDeleted(id) => id == sid
                       case _ => false
    ensures d in ScheduleStream(sid, ds) <==>
            d in ds && match d.event
                       case ScheduleUpserted(schedule) => schedule.subscription == Some(sid)
                       case ScheduleCleared(subscription) => subscription == Some(sid)
                       case _ => false
  {
    if ds != [] {
      var n := |ds| - 1;
      StreamMembers(sid, ds[..n], d);
      assert ds == ds[..n] + [ds[n]];
    }
  }

  /** A row may be saved under its own key, with a Stripe id no other row has. */
  lemma SaveValid(st: State, row: Row, now: int)
    requires Valid(st) && row.id < st.next
    requires forall i :: IsRow(st, row.core.stripeId, i) ==> i == row.id
    ensures Valid(Save(st, row, now))
  {
    var after := Save(st, row, now);
    forall i, j | i in after.rows && j in after.rows && after.rows[i].core.stripeId == after.rows[j].core.stripeId
      ensures i == j
    {
      assert i != row.id ==> IsRow(st, after.rows[i].core.stripeId, i);
      assert j != row.id ==> IsRow(st, after.rows[j].core.stripeId, j);
    }
  }

  lemma BuiltFor(w: World, data: SubData)
    requires BuildCore(w, data).0.Some?
    ensures BuildCore(w, data).0.value.stripeId == data.id
  {
  }

  lemma FindRow(st: State, sid: string, i: nat)
    requires Valid(st) && IsRow(st, sid, i)
    ensures Find(st, sid) == Some(i)
  {
  }

  lemma SyncValid(st: State, w: World, data: SubData, now: int)
    requires Valid(st)
    ensures Valid(SyncSubscription(st, w, data, now))
  {
    if BuildCore(w, data).0.Some? {
      BuiltFor(w, data);
      hide BuildCore, Save;
      var found := Find(st, data.id);
      if found.Some? {
        forall i | IsRow(st, data.id, i) ensures i == found.value { FindRow(st, data.id, i); }
        SaveValid(st,
                  Row(found.value, BuildCore(w, data).0.value, st.rows[found.value].pending,
                      st.rows[found.value].createdAt), now);
      } else {
        var bumped := st.(next := st.next + 1);
        assert forall i :: IsRow(bumped, data.id, i) <==> IsRow(st, data.id, i);
        SaveValid(bumped, Row(st.next, BuildCore(w, data).0.value, NoPending, now), now);
      }
    }
  }

  /** Rewriting anything but its Stripe id in a stored row. */
  lemma ResaveValid(st: State, i: nat, row: Row, now: int)
    requires Valid(st) && i in st.rows && row.id == i && row.core.stripeId == st.rows[i].core.stripeId
    ensures Valid(Save(st, row, now))
  {
    assert forall j :: IsRow(st, row.core.stripeId, j) ==> st.rows[j].core.stripeId == st.rows[i].core.stripeId;
    SaveValid(st, row, now);
  }

  lemma StepValid(st: State, w: World, d: Delivery)
    requires Valid(st)
    ensures Valid(Step(st, w, d))
  {
    hide Valid, Save, BuildCore, ParseSchedule;
    match d.event
    case SubscriptionUpserted(sub) => SyncValid(st, w, sub, d.now);
    case SubscriptionDeleted(id) =>
      if Find(st, id).Some? {
        var i := Find(st, id).value;
        RowIds(st, i);
        ResaveValid(st, i, st.rows[i].(core := st.rows[i].core.(status := Canceled, canceledAt := Some(d.now))), d.now);
      }
    case ScheduleUpserted(schedule) =>
      var parsed := ParseSchedule(schedule);
      if OrString(schedule.subscription, "") != "" && parsed.Some? && parsed.value.0 in w.prices
        && Find(st, schedule.subscription.value).Some? {
        var i := Find(st, schedule.subscription.value).value;
        RowIds(st, i);
        ResaveValid(st, i, st.rows[i].(pending := Pending(Some(w.prices[parsed.value.0]), Some(parsed.value.1))),
                    d.now);
      }
    case ScheduleCleared(subscription) =>
      if OrString(subscription, "") != "" && Find(st, subscription.value).Some? {
        var i := Find(st, subscription.value).value;
        RowIds(st, i);
        ResaveValid(st, i, st.rows[i].(pending := NoPending), d.now);
      }
    case Unhandled =>
  }

  lemma RowIds(st: State, i: nat)
    requires Valid(st) && i in st.rows
    ensures st.rows[i].id == i
  {
  }

  /** One delivery moves an existing row in its two independent parts and keeps its identity. */
  lemma StepRow(st: State, w: World, d: Delivery, sid: string, i: nat)
    requires Valid(st) && IsRow(st, sid, i)
    ensures IsRow(Step(st, w, d), sid, i)
    ensures Step(st, w, d).rows[i] ==
            Row(i, CoreStep(st.rows[i].core, w, sid, d), PendingStep(st.rows[i].pending, w, sid, d),
                st.rows[i].createdAt)
  {
    FindRow(st, sid, i);
    RowIds(st, i);
    if d.event.SubscriptionUpserted? && BuildCore(w, d.event.sub).0.Some? {
      BuiltFor(w, d.event.sub);
    }
    StepOther(st, w, d, i);
    hide Valid, BuildCore, ParseSchedule;
  }

  /** A new row never lands on an old key. */
  lemma StepOther(st: State, w: World, d: Delivery, i: nat)
    requires Valid(st) && i in st.rows
    ensures i != st.next
  {
  }

  lemma {:induction false} RunValid(st: State, w: World, ds: seq<Delivery>)
    requires Valid(st)
    ensures Valid(Run(st, w, ds))
  {
    if ds != [] {
      RunValid(st, w, ds[..|ds| - 1]);
      StepValid(Run(st, w, ds[..|ds| - 1]), w, ds[|ds| - 1]);
    }
  }

  /** After any run the row of `sid` is its identity, the fold of the subscription events and the fold of the schedule
      events. */
  lemma {:induction false} RunRow(st: State, w: World, ds: seq<Delivery>, sid: string, i: nat)
    requires Valid(st) && IsRow(st, sid, i)
    ensures IsRow(Run(st, w, ds), sid, i)
    ensures Run(st, w, ds).rows[i] ==
            Row(i, CoreFold(st.rows[i].core, w, sid, ds), PendingFold(st.rows[i].pending, w, sid, ds),
                st.rows[i].createdAt)
  {
    if ds != [] {
      var n := |ds| - 1;
      RunRow(st, w, ds[..n], sid, i);
      RunValid(st, w, ds[..n]);
      StepRow(Run(st, w, ds[..n]), w, ds[n], sid, i);
    }
  }

  lemma {:induction false} CoreFoldStream(core: Core, w: World, sid: string, ds: seq<Delivery>)
    ensures CoreFold(core, w, sid, ds) == CoreFold(core, w, sid, SubscriptionStream(sid, ds))
  {
    if ds != [] {
      var n := |ds| - 1;
      CoreFoldStream(core, w, sid, ds[..n]);
      var s := SubscriptionStream(sid, ds[..n]);
      assert (s + [ds[n]])[..|s|] == s;
      assert s + [] == s;
    }
  }

  lemma {:induction false} PendingFoldStream(p: Pending, w: World, sid: string, ds: seq<Delivery>)
    ensures PendingFold(p, w, sid, ds) == PendingFold(p, w, sid, ScheduleStream(sid, ds))
  {
    if ds != [] {
      var n := |ds| - 1;
      PendingFoldStream(p, w, sid, ds[..n]);
      var s := ScheduleStream(sid, ds[..n]);
      assert (s + [ds[n]])[..|s|] == s;
      assert s + [] == s;
    }
  }

  /** Any two interleavings of the same two streams, mixed with events of other subscriptions in any way, end in the
      same row. */
  lemma InterleavingIrrelevant(st: State, w: World, ds: seq<Delivery>, es: seq<Delivery>, sid: string, i: nat)
    requires Valid(st) && IsRow(st, sid, i)
    requires SubscriptionStream(sid, ds) == SubscriptionStream(sid, es)
    requires ScheduleStream(sid, ds) == ScheduleStream(sid, es)
    ensures i in Run(st, w, ds).rows && i in Run(st, w, es).rows
    ensures Run(st, w, ds).rows[i] == Run(st, w, es).rows[i]
    ensures Run(st, w, ds).rows[i].id == i && Run(st, w, ds).rows[i].createdAt == st.rows[i].createdAt
  {
    RunRow(st, w, ds, sid, i);
    RunRow(st, w, es, sid, i);
    CoreFoldStream(st.rows[i].core, w, sid, ds);
    CoreFoldStream(st.rows[i].core, w, sid, es);
    PendingFoldStream(st.rows[i].pending, w, sid, ds);
    PendingFoldStream(st.rows[i].pending, w, sid, es);
  }

  /** An event redelivered at once changes nothing, save that a deletion is stamped anew with the later clock. */
  lemma RedeliveryIdempotent(st: State, w: World, d: Delivery, later: int)
    requires Valid(st)
    ensures Step(Step(st, w, d), w, d.(now := later)) == Step(st, w, d)
            <==> !(d.event.SubscriptionDeleted? && Find(st, d.event.id).Some? && later != d.now)
  {
    StepValid(st, w, d);
    match d.event
    case SubscriptionUpserted(sub) => SyncIdempotent(st, w, sub, d.now, later);
    case SubscriptionDeleted(id) => DeletionStamps(st, id, d.now, later);
    case ScheduleUpserted(schedule) => hide BuildCore, ParseSchedule;
    case ScheduleCleared(subscription) =>
    case Unhandled =>
  }

  lemma {:induction false} FoldsSplit(core: Core, p: Pending, w: World, sid: string, xs: seq<Delivery>,
                                      ys: seq<Delivery>)
    ensures CoreFold(core, w, sid, xs + ys) == CoreFold(CoreFold(core, w, sid, xs), w, sid, ys)
    ensures PendingFold(p, w, sid, xs + ys) == PendingFold(PendingFold(p, w, sid, xs), w, sid, ys)
  {
    hide CoreStep, PendingStep;
    if ys == [] {
      assert xs + ys == xs;
    } else {
      FoldsSplit(core, p, w, sid, xs, ys[..|ys| - 1]);
      assert (xs + ys)[..|xs + ys| - 1] == xs + ys[..|ys| - 1];
    }
  }

  /** What a delivery writes still stands after the ones that followed it. */
  predicate Stands(core: Core, p: Pending, w: World, sid: string, d: Delivery, after: seq<Delivery>, later: int) {
    match d.event
    case SubscriptionUpserted(sub) =>
      sub.id == sid && BuildCore(w, sub).0.Some? ==>
        CoreFold(BuildCore(w, sub).0.value, w, sid, after) == BuildCore(w, sub).0.value
    case SubscriptionDeleted(id) =>
      id == sid ==>
        var now := CoreFold(CoreStep(core, w, sid, d), w, sid, after);
        now.status == Canceled && now.canceledAt == Some(later)
    case ScheduleUpserted(_) =>
      PendingStep(NoPending, w, sid, d) != NoPending ==>
        PendingFold(PendingStep(p, w, sid, d), w, sid, after) == PendingStep(p, w, sid, d)
    case ScheduleCleared(subscription) =>
      subscription == Some(sid) && sid != "" ==> PendingFold(NoPending, w, sid, after) == NoPending
    case Unhandled => true
  }

  /** A delivery of a run redelivered at its end leaves an existing row as it was if and only if what it wrote still
      stands: for a deletion, if the row is cancelled with the very stamp the redelivery would set. */
  lemma LateRedelivery(st: State, w: World, ds: seq<Delivery>, sid: string, i: nat, k: nat, later: int)
    requires Valid(st) && IsRow(st, sid, i) && k < |ds|
    ensures var again := ds + [ds[k].(now := later)];
            && i in Run(st, w, again).rows && i in Run(st, w, ds).rows
            && (Run(st, w, again).rows[i] == Run(st, w, ds).rows[i] <==>
                Stands(CoreFold(st.rows[i].core, w, sid, ds[..k]), PendingFold(st.rows[i].pending, w, sid, ds[..k]),
                       w, sid, ds[k], ds[k + 1..], later))
  {
    var again, d := ds + [ds[k].(now := later)], ds[k];
    RunRow(st, w, ds, sid, i);
    RunRow(st, w, again, sid, i);
    assert again[..|ds|] == ds;
    var core, pending := CoreFold(st.rows[i].core, w, sid, ds), PendingFold(st.rows[i].pending, w, sid, ds);
    var core0, pending0 := CoreFold(st.rows[i].core, w, sid, ds[..k]), PendingFold(st.rows[i].pending, w, sid, ds[..k]);
    assert ds[..k + 1] + ds[k + 1..] == ds && ds[..k + 1][..k] == ds[..k];
    FoldsSplit(st.rows[i].core, st.rows[i].pending, w, sid, ds[..k + 1], ds[k + 1..]);
    assert core == CoreFold(CoreStep(core0, w, sid, d), w, sid, ds[k + 1..]);
    assert pending == PendingFold(PendingStep(pending0, w, sid, d), w, sid, ds[k + 1..]);
    hide Run, CoreFold, PendingFold, Valid, IsRow;
    RestepIff(core0, core, pending0, pending, w, sid, d, ds[k + 1..], later);
  }

  lemma RestepIff(core0: Core, core: Core, pending0: Pending, pending: Pending, w: World, sid: string, d: Delivery,
                  after: seq<Delivery>, later: int)
    requires core == CoreFold(CoreStep(core0, w, sid, d), w, sid, after)
    requires pending == PendingFold(PendingStep(pending0, w, sid, d), w, sid, after)
    ensures CoreStep(core, w, sid, d.(now := later)) == core
            && PendingStep(pending, w, sid, d.(now := later)) == pending
            <==> Stands(core0, pending0, w, sid, d, after, later)
  {
    hide CoreFold, PendingFold, BuildCore, ParseSchedule;
  }

  lemma SyncIdempotent(st: State, w: World, data: SubData, now: int, later: int)
    requires Valid(st) && Valid(SyncSubscription(st, w, data, now))
    ensures SyncSubscription(SyncSubscription(st, w, data, now), w, data, later) == SyncSubscription(st, w, data, now)
  {
    if BuildCore(w, data).0.Some? {
      BuiltFor(w, data);
      hide BuildCore;
      var once := SyncSubscription(st, w, data, now);
      var i := if Find(st, data.id).Some? then Find(st, data.id).value else st.next;
      assert IsRow(once, data.id, i);
      FindRow(once, data.id, i);
      SameRowsSave(once, i, once.rows[i], later);
    }
  }

  lemma DeletionStamps(st: State, sid: string, now: int, later: int)
    requires Valid(st) && Valid(DeleteSubscription(st, sid, now))
    ensures DeleteSubscription(DeleteSubscription(st, sid, now), sid, later) == DeleteSubscription(st, sid, now)
            <==> !(Find(st, sid).Some? && later != now)
  {
    if Find(st, sid).Some? {
      var i, once := Find(st, sid).value, DeleteSubscription(st, sid, now);
      assert IsRow(once, sid, i);
      FindRow(once, sid, i);
      assert once.rows[i].core.canceledAt == Some(now);
      assert DeleteSubscription(once, sid, later).rows[i].core.canceledAt == Some(later);
      if later == now { SameRowsSave(once, i, once.rows[i], later); }
    }
  }

  lemma SameRowsSave(st: State, i: nat, row: Row, now: int)
    requires i in st.rows && st.rows[i] == row && row.id == i
    ensures Save(st, row, now) == st
  {
    assert st.rows[i := row] == st.rows;
  }

  // ---------------------------------------------------------------- what each event writes, field by field

  /** Stripe's name of a status. */
  function StatusName(status: Status): string {
    match status
    case Active => "active"
    case Trialing => "trialing"
    case PastDue => "past_due"
    case Canceled => "canceled"
    case Incomplete => "incomplete"
    case IncompleteExpired => "incomplete_expired"
    case Paused => "paused"
    case Unpaid => "unpaid"
  }

  lemma StatusByName(s: string, status: Status)
    ensures ParseStatus(s) == Some(status) <==> s == StatusName(status)
  {
  }

  /** The item names the instant, or has no such key and the subscription names it. */
  predicate Supplies(item: Field, sub: Field, n: int) {
    item == Int(n) || (item == Absent && sub == Int(n))
  }

  /** Neither names anything: the item has a null, or no such key while the subscription has nothing either. */
  predicate SuppliesNothing(item: Field, sub: Field) {
    item == Null || (item == Absent && (sub == Absent || sub == Null))
  }

  /** The first of three currencies that is given and not empty, in lower case. */
  predicate CurrencyFrom(currency: string, sub: Option<string>, price: Option<string>) {
    var chosen := if sub.Some? && sub.value != "" then sub.value
                  else if price.Some? && price.value != "" then price.value else "usd";
    && |currency| == |chosen|
    && forall k :: 0 <= k < |chosen| ==>
         currency[k] == if 'A' <= chosen[k] <= 'Z' then chosen[k] - 'A' + 'a' else chosen[k]
  }

  /** Column by column, what a row shows of a payload. */
  predicate Shows(core: Core, w: World, sub: SubData)
    requires sub.items != [] && sub.customer in w.customers && sub.items[0].priceId in w.prices
  {
    && core.stripeId == sub.id
    && core.customer == w.customers[sub.customer].id && core.user == w.customers[sub.customer].user
    && StatusName(core.status) == sub.status
    && core.plan == w.prices[sub.items[0].priceId]
    && (sub.items[0].quantity.None? || sub.items[0].quantity == Some(0) ==> core.seatLimit == 1)
    && (sub.items[0].quantity.Some? && sub.items[0].quantity != Some(0) ==>
        Some(core.seatLimit) == sub.items[0].quantity)
    && core.trialEndsAt == sub.trialEnd
    && Supplies(sub.items[0].periodStart, sub.periodStart, core.periodStart)
    && Supplies(sub.items[0].periodEnd, sub.periodEnd, core.periodEnd)
    && core.canceledAt == sub.canceledAt && core.cancelAt == sub.cancelAt
    && CurrencyFrom(core.currency, sub.currency, sub.items[0].priceCurrency)
  }

  /** The payload can be turned into a row. */
  predicate Usable(w: World, sub: SubData) {
    && sub.items != []
    && (sub.items[0].periodStart.Int? || (sub.items[0].periodStart == Absent && sub.periodStart.Int?))
    && (sub.items[0].periodEnd.Int? || (sub.items[0].periodEnd == Absent && sub.periodEnd.Int?))
    && sub.customer in w.customers && sub.items[0].priceId in w.prices
    && exists status :: StatusName(status) == sub.status
  }

  /** Which payload fails with which error: the first thing missing, in this order. */
  predicate FailsWith(w: World, sub: SubData, error: Error) {
    if sub.items == [] then error == NoItems
    else
      var item := sub.items[0];
      if SuppliesNothing(item.periodStart, sub.periodStart) || SuppliesNothing(item.periodEnd, sub.periodEnd)
      then error == MissingPeriod
      else if (item.periodStart == NotInt || (item.periodStart == Absent && sub.periodStart == NotInt))
              || (item.periodEnd == NotInt || (item.periodEnd == Absent && sub.periodEnd == NotInt))
      then error == NonIntegerPeriod
      else if sub.customer !in w.customers then error == UnknownCustomer
      else if item.priceId !in w.prices then error == UnknownPrice
      else error == BadStatus && forall status :: StatusName(status) != sub.status
  }

  lemma BuildMeans(w: World, sub: SubData)
    ensures BuildCore(w, sub).0.Some? <==> Usable(w, sub)
    ensures Usable(w, sub) ==> Shows(BuildCore(w, sub).0.value, w, sub) && BuildCore(w, sub).1 == Processed
    ensures !Usable(w, sub) ==> BuildCore(w, sub).1.Failed? && FailsWith(w, sub, BuildCore(w, sub).1.error)
  {
    if Usable(w, sub) {
      BuildShows(w, sub);
    } else {
      BuildFails(w, sub);
    }
    hide BuildCore, Usable, Shows, FailsWith;
  }

  lemma StatusRead(name: string)
    ensures forall status :: ParseStatus(name) == Some(status) <==> StatusName(status) == name
  {
    forall status ensures ParseStatus(name) == Some(status) <==> name == StatusName(status) {
      StatusByName(name, status);
    }
    hide StatusName, ParseStatus;
  }

  lemma BuildShows(w: World, sub: SubData)
    requires Usable(w, sub)
    ensures BuildCore(w, sub).0.Some? && Shows(BuildCore(w, sub).0.value, w, sub) && BuildCore(w, sub).1 == Processed
  {
    StatusRead(sub.status);
    hide StatusName, ParseStatus;
  }

  lemma BuildFails(w: World, sub: SubData)
    requires !Usable(w, sub)
    ensures BuildCore(w, sub).0.None? && BuildCore(w, sub).1.Failed? && FailsWith(w, sub, BuildCore(w, sub).1.error)
  {
    StatusRead(sub.status);
    hide StatusName, ParseStatus;
  }

  /** One row shows the payload in every column, and no other row has changed. */
  ghost predicate Synced(before: map<nat, Row>, after: map<nat, Row>, w: World, sub: SubData) {
    Usable(w, sub) &&
    exists i :: i in after && after[i].id == i && Shows(after[i].core, w, sub)
      && forall j :: j in before && j != i ==> j in after && after[j] == before[j]
  }

  lemma SyncShows(st: State, w: World, sub: SubData, now: int)
    requires Valid(st) && Usable(w, sub)
    ensures Synced(st.rows, SyncSubscription(st, w, sub, now).rows, w, sub)
  {
    SyncWrites(st, w, sub, now);
    hide Shows, SyncSubscription;
  }

  /** A sync of a usable payload leaves a row that shows it in every column, with the pending change, key and creation
      time of the row that was there, or none, a new key and now; it changes no other row. An unusable one changes
      nothing. */
  lemma SyncWrites(st: State, w: World, sub: SubData, now: int)
    requires Valid(st)
    ensures !Usable(w, sub) ==> Step(st, w, Delivery(SubscriptionUpserted(sub), now)) == st
    ensures Usable(w, sub) ==>
              var after := Step(st, w, Delivery(SubscriptionUpserted(sub), now));
              exists i :: i in after.rows && Shows(after.rows[i].core, w, sub) && after.rows[i].id == i
                && (forall j :: j in st.rows && j != i ==> j in after.rows && after.rows[j] == st.rows[j])
                && (i in st.rows ==>
                      st.rows[i].core.stripeId == sub.id && after.rows[i].pending == st.rows[i].pending
                      && after.rows[i].createdAt == st.rows[i].createdAt)
                && (i !in st.rows ==>
                      after.rows[i].pending == Pending(None, None) && after.rows[i].createdAt == now
                      && forall j :: j in st.rows ==> st.rows[j].core.stripeId != sub.id)
  {
    BuildMeans(w, sub);
    if Usable(w, sub) {
      BuiltFor(w, sub);
      hide BuildCore, Shows, Usable;
      var after := Step(st, w, Delivery(SubscriptionUpserted(sub), now));
      var found := Find(st, sub.id);
      var i := if found.Some? then found.value else st.next;
      assert found.None? ==> forall j :: j in st.rows ==> !IsRow(st, sub.id, j);
      assert i in after.rows && Shows(after.rows[i].core, w, sub);
    }
  }

  /** A deletion marks the known row cancelled at the handler's clock and leaves all its other columns. */
  lemma DeletionWrites(st: State, w: World, sid: string, i: nat, now: int)
    requires Valid(st) && IsRow(st, sid, i)
    ensures var was, row := st.rows[i], Step(st, w, Delivery(SubscriptionDeleted(sid), now)).rows[i];
            && row.core.status == Canceled && row.core.canceledAt == Some(now)
            && row.core.(status := was.core.status, canceledAt := was.core.canceledAt) == was.core
            && row.pending == was.pending && row.id == i && row.createdAt == was.createdAt
  {
    StepRow(st, w, Delivery(SubscriptionDeleted(sid), now), sid, i);
  }

  /** The price a phase's first item refers to. */
  predicate Names(phase: Phase, price: string) {
    phase.items != [] && price != "" && (phase.items[0] == PriceId(price) || phase.items[0] == PriceObject(Some(price)))
  }

  /** The instant the second phase takes over: the end of the first if given, else the start of the second. */
  predicate TakesOverAt(first: Phase, second: Phase, at: int) {
    if first.endDate.Some? && first.endDate != Some(0) then first.endDate == Some(at) else second.startDate == Some(at)
  }

  /** A schedule names a plan switch if it has a second phase for a price, and an instant for it. */
  lemma ScheduleMeans(data: ScheduleData, price: string, at: int)
    ensures ParseSchedule(data) == Some((price, at)) <==>
            |data.phases| >= 2 && Names(data.phases[1], price) && TakesOverAt(data.phases[0], data.phases[1], at)
  {
  }

  /** A schedule event sets the pending change it names, if the price is known, and otherwise nothing; a clearing
      empties it. No other column changes. */
  lemma ScheduleWrites(st: State, w: World, data: ScheduleData, sid: string, i: nat, price: string, at: int, now: int)
    requires Valid(st) && IsRow(st, sid, i) && sid != "" && data.subscription == Some(sid)
    ensures var upserted, cleared := Step(st, w, Delivery(ScheduleUpserted(data), now)).rows[i],
                                 Step(st, w, Delivery(ScheduleCleared(Some(sid)), now)).rows[i];
            && (|data.phases| >= 2 && Names(data.phases[1], price)
                && TakesOverAt(data.phases[0], data.phases[1], at) ==>
                  upserted.pending == if price in w.prices then Pending(Some(w.prices[price]), Some(at))
                    else st.rows[i].pending)
            && (ParseSchedule(data).None? ==> upserted == st.rows[i])
            && upserted.(pending := st.rows[i].pending) == st.rows[i]
            && cleared == st.rows[i].(pending := Pending(None, None))
  {
    ScheduleMeans(data, price, at);
    StepRow(st, w, Delivery(ScheduleUpserted(data), now), sid, i);
    StepRow(st, w, Delivery(ScheduleCleared(Some(sid)), now), sid, i);
    RowIds(st, i);
    hide Step, ParseSchedule, Names, TakesOverAt;
  }

  // ---------------------------------------------------------------- before the row exists

  /** The delivery creates the row of `sid` if there is none. */
  predicate Creates(w: World, sid: string, d: Delivery) {
    d.event.SubscriptionUpserted? && d.event.sub.id == sid && BuildCore(w, d.event.sub).0.Some?
  }

  lemma {:induction false} RunSplit(st: State, w: World, xs: seq<Delivery>, ys: seq<Delivery>)
    ensures Run(st, w, xs + ys) == Run(Run(st, w, xs), w, ys)
    decreases |ys|
  {
    hide Step;
    if ys == [] {
      assert xs + ys == xs;
    } else {
      RunSplit(st, w, xs, ys[..|ys| - 1]);
      assert (xs + ys)[..|xs + ys| - 1] == xs + ys[..|ys| - 1];
    }
  }

  lemma StepWithoutRow(st: State, w: World, d: Delivery, sid: string)
    requires Valid(st) && Find(st, sid) == None
    ensures !Creates(w, sid, d) ==> Find(Step(st, w, d), sid) == None
    ensures Creates(w, sid, d) ==> IsRow(Step(st, w, d), sid, st.next)
                                   && Step(st, w, d).rows[st.next]
                                      == Row(st.next, BuildCore(w, d.event.sub).0.value, NoPending, d.now)
  {
    if d.event.SubscriptionUpserted? && BuildCore(w, d.event.sub).0.Some? {
      BuiltFor(w, d.event.sub);
    }
    hide BuildCore, ParseSchedule;
    var after := Step(st, w, d);
    if !Creates(w, sid, d) {
      forall i ensures !IsRow(after, sid, i) {
        assert !IsRow(st, sid, i);
      }
    }
  }

  lemma {:induction false} RunWithoutRow(st: State, w: World, ds: seq<Delivery>, sid: string)
    requires Valid(st) && Find(st, sid) == None
    requires forall j :: 0 <= j < |ds| ==> !Creates(w, sid, ds[j])
    ensures Valid(Run(st, w, ds)) && Find(Run(st, w, ds), sid) == None
  {
    hide Step, Find, Valid, Creates;
    if ds != [] {
      var n := |ds| - 1;
      assert !Creates(w, sid, ds[n]);
      forall j | 0 <= j < n ensures !Creates(w, sid, ds[..n][j]) { assert !Creates(w, sid, ds[j]); }
      RunWithoutRow(st, w, ds[..n], sid);
      StepValid(Run(st, w, ds[..n]), w, ds[n]);
      StepWithoutRow(Run(st, w, ds[..n]), w, ds[n], sid);
    }
  }

  /** Where the row does not exist yet, the first delivery that creates it decides: it starts from that delivery's
      fields with nothing pending, and everything delivered before it, schedule events included, is lost. */
  lemma RunFromNothing(st: State, w: World, ds: seq<Delivery>, sid: string, k: nat)
    requires Valid(st) && Find(st, sid) == None && k < |ds| && Creates(w, sid, ds[k])
    requires forall j :: 0 <= j < k ==> !Creates(w, sid, ds[j])
    ensures var i := Run(st, w, ds[..k]).next;
            && IsRow(Run(st, w, ds), sid, i)
            && Run(st, w, ds).rows[i] == Row(i, CoreFold(BuildCore(w, ds[k].event.sub).0.value, w, sid, ds[k + 1..]),
                                             PendingFold(NoPending, w, sid, ds[k + 1..]), ds[k].now)
  {
    var before, first := ds[..k], [ds[k]];
    RunWithoutRow(st, w, before, sid);
    var created := Step(Run(st, w, before), w, ds[k]);
    StepWithoutRow(Run(st, w, before), w, ds[k], sid);
    StepValid(Run(st, w, before), w, ds[k]);
    assert ds[..k + 1][..k] == before;
    assert ds[..k + 1] + ds[k + 1..] == ds;
    RunSplit(st, w, ds[..k + 1], ds[k + 1..]);
    assert Run(st, w, ds[..k + 1]) == created;
    hide Step, BuildCore, Find, Valid;
    RunRow(created, w, ds[k + 1..], sid, Run(st, w, before).next);
  }

  /** A run makes the row if and only if it holds a delivery that creates it. */
  lemma RowAppearsIff(st: State, w: World, ds: seq<Delivery>, sid: string)
    requires Valid(st) && Find(st, sid) == None
    ensures Find(Run(st, w, ds), sid).Some? <==> exists k :: 0 <= k < |ds| && Creates(w, sid, ds[k])
  {
    if exists k :: 0 <= k < |ds| && Creates(w, sid, ds[k]) {
      var k := FirstCreating(w, ds, sid);
      RunFromNothing(st, w, ds, sid, k);
    } else {
      RunWithoutRow(st, w, ds, sid);
    }
  }

  lemma FirstCreating(w: World, ds: seq<Delivery>, sid: string) returns (k: nat)
    requires exists j :: 0 <= j < |ds| && Creates(w, sid, ds[j])
    ensures k < |ds| && Creates(w, sid, ds[k]) && forall j :: 0 <= j < k ==> !Creates(w, sid, ds[j])
  {
    hide Creates;
    k := 0;
    while !Creates(w, sid, ds[k])
      invariant k < |ds| && forall j :: 0 <= j < k ==> !Creates(w, sid, ds[j])
      invariant exists j :: k <= j < |ds| && Creates(w, sid, ds[j])
      decreases |ds| - k
    {
      k := k + 1;
    }
  }

  /** So the order of the creating event and a schedule event matters exactly when the schedule event would set
      something: delivered first, it is lost. */
  lemma ScheduleBeforeRowIsLost(st: State, w: World, create: Delivery, schedule: Delivery, sid: string)
    requires Valid(st) && Find(st, sid) == None && Creates(w, sid, create) && schedule.event.ScheduleUpserted?
    requires schedule.event.schedule.subscription == Some(sid)
    ensures Run(st, w, [create, schedule]) == Run(st, w, [schedule, create])
            <==> PendingStep(NoPending, w, sid, schedule) == NoPending
  {
    TwoSteps(st, w, create, schedule);
    TwoSteps(st, w, schedule, create);
    var a := Step(st, w, create);
    StepValid(st, w, create);
    StepWithoutRow(st, w, create, sid);
    StepRow(a, w, schedule, sid, st.next);
    FindRow(a, sid, st.next);
    assert Step(st, w, schedule) == st by { hide BuildCore, ParseSchedule; }
    hide BuildCore, ParseSchedule, Valid;
  }

  lemma TwoSteps(st: State, w: World, d: Delivery, e: Delivery)
    ensures Run(st, w, [d, e]) == Step(Step(st, w, d), w, e)
  {
    hide Step;
    assert [d, e][..1] == [d] && [d][..0] == [];
    assert Run(st, w, [d]) == Step(Run(st, w, []), w, d);
  }

  // ---------------------------------------------------------------- optimistic local writes

  /** What a request copies into the local row ahead of the webhook. */
  datatype Write =
    | CancelState(cancelAt: Option<int>, canceledAt: Option<int>, status: Option<string>)   // cancel and resume
    | SeatCount(quantity: int)
    | ReleasePending

  /** A seat or release write is skipped when the loaded row already says so. */
  predicate Saves(active: Row, w: Write) {
    match w
    case CancelState(_, _, _) => true
    case SeatCount(quantity) => active.core.seatLimit != quantity
    case ReleasePending => active.pending.plan.Some? || active.pending.at.Some?
  }

  /** The copy of the loaded row that is saved. */
  function Copy(active: Row, w: Write): Row {
    match w
    case CancelState(cancelAt, canceledAt, status) =>
      var parsed := if status.Some? then ParseStatus(status.value) else None;
      active.(core := active.core.(cancelAt := cancelAt, canceledAt := canceledAt,
                                   status := if parsed.Some? then parsed.value else active.core.status))
    case SeatCount(quantity) => active.(core := active.core.(seatLimit := quantity))
    case ReleasePending => active.(pending := NoPending)
  }

  /** Saves every column of the loaded row, as it was when it was loaded. */
  function Optimistic(st: State, active: Row, w: Write, now: int): State {
    if Saves(active, w) then Save(st, Copy(active, w), now) else st
  }

  /** Saving a loaded row and then syncing gives what the sync alone gives exactly when the save
      leaves the pending change as the stored row has it. */
  lemma SyncAbsorbs(st: State, world: World, i: nat, active: Row, w: Write, saved: int, d: Delivery)
    requires Valid(st) && i in st.rows && active.id == i && active.core.stripeId == st.rows[i].core.stripeId
    requires d.event.SubscriptionUpserted? && d.event.sub.id == st.rows[i].core.stripeId
    requires BuildCore(world, d.event.sub).0.Some?
    ensures i in Step(Optimistic(st, active, w, saved), world, d).rows && i in Step(st, world, d).rows
    ensures Step(Optimistic(st, active, w, saved), world, d).rows[i] == Step(st, world, d).rows[i]
            <==> (Saves(active, w) ==> Copy(active, w).pending == st.rows[i].pending)
  {
    var sid, next := st.rows[i].core.stripeId, Optimistic(st, active, w, saved);
    assert Valid(next);
    assert IsRow(st, sid, i) && IsRow(next, sid, i);
    StepRow(st, world, d, sid, i);
    StepRow(next, world, d, sid, i);
  }

  /** A seat write shows the new count and a release nothing pending; each leaves every other column. */
  lemma WriteIsVisible(st: State, i: nat, quantity: int, saved: int)
    requires i in st.rows && st.rows[i].id == i
    ensures var was := st.rows[i];
            var seated := Optimistic(st, was, SeatCount(quantity), saved).rows[i];
            var released := Optimistic(st, was, ReleasePending, saved).rows[i];
            && seated.core.seatLimit == quantity
            && seated.(core := seated.core.(seatLimit := was.core.seatLimit)) == was
            && released == was.(pending := Pending(None, None))
  {
  }

  /** With the row loaded in the same step, every cancel, resume and seat write is absorbed; a release is when nothing
      was pending. */
  lemma FreshWriteAbsorbed(st: State, world: World, i: nat, w: Write, saved: int, d: Delivery)
    requires Valid(st) && i in st.rows
    requires d.event.SubscriptionUpserted? && d.event.sub.id == st.rows[i].core.stripeId
    requires BuildCore(world, d.event.sub).0.Some?
    ensures i in Step(Optimistic(st, st.rows[i], w, saved), world, d).rows && i in Step(st, world, d).rows
    ensures Step(Optimistic(st, st.rows[i], w, saved), world, d).rows[i] == Step(st, world, d).rows[i]
            <==> w.ReleasePending? ==> st.rows[i].pending == NoPending
  {
    SyncAbsorbs(st, world, i, st.rows[i], w, saved, d);
  }

  lemma {:induction false} NoScheduleNoChange(p: Pending, w: World, sid: string, ds: seq<Delivery>)
    requires ScheduleStream(sid, ds) == []
    ensures PendingFold(p, w, sid, ds) == p
  {
    PendingFoldStream(p, w, sid, ds);
  }

  /** A cancel, resume or seat write from a row loaded before its schedule was released brings the pending change back,
      and no number of subscription events takes it away again. */
  lemma StaleSaveSticks(st: State, world: World, i: nat, active: Row, w: Write, saved: int, ds: seq<Delivery>)
    requires Valid(st) && i in st.rows && active.id == i && active.core.stripeId == st.rows[i].core.stripeId
    requires st.rows[i].pending == NoPending && !w.ReleasePending? && Saves(active, w)
    requires ScheduleStream(st.rows[i].core.stripeId, ds) == []
    ensures i in Run(Optimistic(st, active, w, saved), world, ds).rows && i in Run(st, world, ds).rows
    ensures Run(Optimistic(st, active, w, saved), world, ds).rows[i].pending == active.pending
    ensures Run(st, world, ds).rows[i].pending == NoPending
  {
    var sid, next := st.rows[i].core.stripeId, Optimistic(st, active, w, saved);
    assert Valid(next);
    RunRow(next, world, ds, sid, i);
    RunRow(st, world, ds, sid, i);
    NoScheduleNoChange(active.pending, world, sid, ds);
    NoScheduleNoChange(NoPending, world, sid, ds);
  }

  // ---------------------------------------------------------------- every writer, over every run

  /** Webhooks, and requests that load a row and save a copy at some later step. */
  datatype Action = Deliver(d: Delivery) | Load(request: nat, row: nat) | Write(request: nat, write: Write, now: int)

  datatype System = System(mirror: State, loaded: map<nat, Row>)

  ghost function Act(s: System, w: World, a: Action): System {
    match a
    case Deliver(d) => s.(mirror := Step(s.mirror, w, d))
    case Load(request, row) =>
      if row in s.mirror.rows then s.(loaded := s.loaded[request := s.mirror.rows[row]]) else s
    case Write(request, write, now) =>
      if request in s.loaded then s.(mirror := Optimistic(s.mirror, s.loaded[request], write, now)) else s
  }

  ghost function ActAll(s: System, w: World, actions: seq<Action>): System
    decreases |actions|
  {
    if actions == [] then s else Act(ActAll(s, w, actions[..|actions| - 1]), w, actions[|actions| - 1])
  }

  predicate Paired(p: Pending) {
    p.plan.None? <==> p.at.None?
  }

  /** The pending fields come and go together in every stored and every loaded row; a loaded row is still its row. */
  ghost predicate Consistent(s: System) {
    && Valid(s.mirror)
    && (forall i :: i in s.mirror.rows ==> Paired(s.mirror.rows[i].pending))
    && (forall q :: q in s.loaded ==>
          Paired(s.loaded[q].pending) && IsRow(s.mirror, s.loaded[q].core.stripeId, s.loaded[q].id))
  }

  lemma NewRowNoPending(st: State, w: World, d: Delivery, i: nat)
    requires Valid(st) && i in Step(st, w, d).rows && i !in st.rows
    ensures Step(st, w, d).rows[i].pending == NoPending
  {
  }

  lemma DeliverConsistent(s: System, w: World, d: Delivery)
    requires Consistent(s)
    ensures Consistent(s.(mirror := Step(s.mirror, w, d)))
  {
    StepValid(s.mirror, w, d);
    hide Step, Valid;
    var after := Step(s.mirror, w, d);
    forall i | i in s.mirror.rows
      ensures IsRow(after, s.mirror.rows[i].core.stripeId, i) && Paired(after.rows[i].pending)
    {
      StepRow(s.mirror, w, d, s.mirror.rows[i].core.stripeId, i);
    }
    forall i | i in after.rows && i !in s.mirror.rows ensures Paired(after.rows[i].pending) {
      NewRowNoPending(s.mirror, w, d, i);
    }
  }

  lemma WriteConsistent(s: System, active: Row, w: Write, now: int)
    requires Consistent(s)
    requires Paired(active.pending) && IsRow(s.mirror, active.core.stripeId, active.id)
    ensures Consistent(s.(mirror := Optimistic(s.mirror, active, w, now)))
  {
    assert Copy(active, w).id == active.id && Copy(active, w).core.stripeId == active.core.stripeId;
  }

  lemma ActConsistent(s: System, w: World, a: Action)
    requires Consistent(s)
    ensures Consistent(Act(s, w, a))
  {
    match a
    case Deliver(d) => DeliverConsistent(s, w, d);
    case Load(request, row) =>
    case Write(request, write, now) =>
      if request in s.loaded { WriteConsistent(s, s.loaded[request], write, now); }
  }

  /** Starting from an empty mirror, no run of any mix of writers unpairs the two pending fields. */
  lemma {:induction false} AlwaysConsistent(w: World, actions: seq<Action>)
    ensures Consistent(ActAll(System(State(map[], 0), map[]), w, actions))
  {
    if actions != [] {
      AlwaysConsistent(w, actions[..|actions| - 1]);
      ActConsistent(ActAll(System(State(map[], 0), map[]), w, actions[..|actions| - 1]), w, actions[|actions| - 1]);
    }
  }

  /** A sync of the row's own subscription makes everything before it irrelevant to the core fields. */
  lemma {:induction false} SyncForgets(a: Core, b: Core, w: World, sid: string, ds: seq<Delivery>, k: nat)
    requires k < |ds| && ds[k].event.SubscriptionUpserted? && ds[k].event.sub.id == sid
             && BuildCore(w, ds[k].event.sub).0.Some?
    ensures CoreFold(a, w, sid, ds) == CoreFold(b, w, sid, ds)
  {
    hide BuildCore;
    var n := |ds| - 1;
    if k < n {
      SyncForgets(a, b, w, sid, ds[..n], k);
    }
  }

  /** However stale the copy it saved, an optimistic write is gone from the core fields once any later run of deliveries
      contains a successful sync; the whole row is then as if it had never been made, if it left the pending change
      alone. */
  lemma WriteIsTransient(st: State, world: World, i: nat, active: Row, w: Write, saved: int, ds: seq<Delivery>, k: nat)
    requires Valid(st) && i in st.rows && active.id == i && active.core.stripeId == st.rows[i].core.stripeId
    requires k < |ds| && ds[k].event.SubscriptionUpserted? && ds[k].event.sub.id == st.rows[i].core.stripeId
    requires BuildCore(world, ds[k].event.sub).0.Some?
    ensures var next := Optimistic(st, active, w, saved);
            && i in Run(next, world, ds).rows && i in Run(st, world, ds).rows
            && Run(next, world, ds).rows[i].core == Run(st, world, ds).rows[i].core
            && ((Saves(active, w) ==> Copy(active, w).pending == st.rows[i].pending) ==>
                Run(next, world, ds).rows[i] == Run(st, world, ds).rows[i])
  {
    var sid, next := st.rows[i].core.stripeId, Optimistic(st, active, w, saved);
    assert Valid(next) && IsRow(next, sid, i);
    RunRow(next, world, ds, sid, i);
    RunRow(st, world, ds, sid, i);
    SyncForgets(next.rows[i].core, st.rows[i].core, world, sid, ds, k);
  }

  // ---------------------------------------------------------------- the store itself

  /** What is recorded on a stored event. */
  datatype Mark = Mark(processedAt: Option<int>, error: Option<Error>)

  /** By the row's own user, by the user its customer belongs to, or by its customer. */
  datatype Filter = ByUser(user: nat) | ByOwner(user: nat, owners: map<nat, nat>) | ByCustomer(customer: nat)

  predicate Selects(f: Filter, core: Core) {
    match f
    case ByUser(user) => core.user == Some(user)
    case ByOwner(user, owners) => core.customer in owners && owners[core.customer] == user
    case ByCustomer(customer) => core.customer == customer
  }

  /** The row names the user, or its customer is the user's. */
  predicate OfUser(core: Core, user: nat, owners: map<nat, nat>) {
    core.user == Some(user) || (core.customer in owners && owners[core.customer] == user)
  }

  /** Active, on trial, or with a payment overdue. */
  predicate Alive(status: Status) {
    StatusName(status) == "active" || StatusName(status) == "trialing" || StatusName(status) == "past_due"
  }

  lemma AliveStatuses()
    ensures forall status :: Alive(status) <==> status in ACTIVE_STATUSES
  {
  }

  /** An active row of the filter that no other such row is younger than. */
  ghost predicate IsLatest(st: State, f: Filter, i: nat) {
    && i in st.rows && st.rows[i].core.status in ACTIVE_STATUSES && Selects(f, st.rows[i].core)
    && forall j :: j in st.rows && st.rows[j].core.status in ACTIVE_STATUSES && Selects(f, st.rows[j].core) ==>
         st.rows[j].createdAt <= st.rows[i].createdAt
  }

  class MirrorStore {
    var rows: map<nat, Row>
    var next: nat
    var events: map<string, Mark>   // the stored events by Stripe id

    ghost function Contents(): State reads this { State(rows, next) }

    constructor ()
      ensures Contents() == State(map[], 0)
    {
      rows, next, events := map[], 0, map[];
    }

    method GetByStripeId(sid: string) returns (r: Option<nat>)
      requires Valid(Contents())
      ensures r == Find(Contents(), sid)
    {
      var todo := rows.Keys;
      while todo != {}
        invariant todo <= rows.Keys
        invariant forall i :: i in rows.Keys - todo ==> !IsRow(Contents(), sid, i)
      {
        var i :| i in todo;
        if rows[i].core.stripeId == sid {
          assert IsRow(Contents(), sid, i);
          return Some(i);
        }
        todo := todo - {i};
      }
      return None;
    }

    /** Update or create by primary key: every column but created_at, which the database sets once; no other row. */
    method SaveRow(row: Row, now: int)
      modifies this`rows
      ensures rows.Keys == old(rows).Keys + {row.id}
      ensures rows[row.id].id == row.id && rows[row.id].core == row.core && rows[row.id].pending == row.pending
      ensures rows[row.id].createdAt == if row.id in old(rows) then old(rows)[row.id].createdAt else now
      ensures forall i :: i in old(rows) && i != row.id ==> rows[i] == old(rows)[i]
      ensures Contents() == Save(old(Contents()), row, now)
    {
      if row.id in rows {
        rows := rows[row.id := row.(createdAt := rows[row.id].createdAt)];
      } else {
        rows := rows[row.id := row.(createdAt := now)];
      }
    }

    method SyncSubscriptionFromData(w: World, data: SubData, now: int) returns (outcome: Outcome)
      requires Valid(Contents())
      modifies this`rows, this`next
      ensures Contents() == SyncSubscription(old(Contents()), w, data, now)
      ensures outcome == BuildCore(w, data).1
      ensures outcome.Failed? <==> !Usable(w, data)
      ensures outcome.Failed? ==> FailsWith(w, data, outcome.error) && Contents() == old(Contents())
      ensures !outcome.Failed? ==> Synced(old(rows), rows, w, data)
    {
      BuildMeans(w, data);
      if Usable(w, data) {
        SyncShows(Contents(), w, data, now);
      }
      hide Usable, FailsWith, Shows, BuildCore, Synced;
      var (core, result) := BuildCore(w, data);
      if core.None? {
        return result;
      }
      var existing := GetByStripeId(data.id);
      if existing.Some? {
        SaveRow(rows[existing.value].(core := core.value), now);
      } else {
        var id := next;
        next := next + 1;
        SaveRow(Row(id, core.value, NoPending, now), now);
      }
      return Processed;
    }

    method OnSubscriptionDeleted(sid: string, now: int)
      requires Valid(Contents())
      modifies this`rows, this`next
      ensures Contents() == DeleteSubscription(old(Contents()), sid, now)
    {
      var existing := GetByStripeId(sid);
      if existing.Some? {
        var row := rows[existing.value];
        SaveRow(row.(core := row.core.(status := Canceled, canceledAt := Some(now))), now);
      }
    }

    method OnScheduleUpserted(w: World, data: ScheduleData, now: int)
      requires Valid(Contents())
      modifies this`rows, this`next
      ensures Contents() == UpsertSchedule(old(Contents()), w, data, now)
    {
      if data.subscription.None? || data.subscription.value == "" {
        return;
      }
      var parsed := ParseSchedule(data);
      if parsed.None? || parsed.value.0 !in w.prices {
        return;
      }
      var existing := GetByStripeId(data.subscription.value);
      if existing.None? {
        return;
      }
      var row, plan, at := rows[existing.value], w.prices[parsed.value.0], parsed.value.1;
      if row.pending.plan == Some(plan) && row.pending.at == Some(at) {
        return;
      }
      SaveRow(row.(pending := Pending(Some(plan), Some(at))), now);
    }

    method OnScheduleCleared(subscription: Option<string>, now: int)
      requires Valid(Contents())
      modifies this`rows, this`next
      ensures Contents() == ClearSchedule(old(Contents()), subscription, now)
    {
      if subscription.None? || subscription.value == "" {
        return;
      }
      var existing := GetByStripeId(subscription.value);
      if existing.None? {
        return;
      }
      var row := rows[existing.value];
      if row.pending.plan.None? && row.pending.at.None? {
        return;
      }
      SaveRow(row.(pending := NoPending), now);
    }

    method Dispatch(w: World, d: Delivery) returns (outcome: Outcome)
      requires Valid(Contents())
      modifies this`rows, this`next
      ensures Valid(Contents()) && Contents() == Step(old(Contents()), w, d)
      ensures outcome == if d.event.SubscriptionUpserted? then BuildCore(w, d.event.sub).1 else Processed
      ensures outcome.Failed? ==> Contents() == old(Contents())
      ensures outcome.Failed? <==> d.event.SubscriptionUpserted? && !Usable(w, d.event.sub)
      ensures outcome.Failed? ==> FailsWith(w, d.event.sub, outcome.error)
    {
      hide Usable, FailsWith;
      StepValid(Contents(), w, d);
      outcome := Processed;
      match d.event
      case SubscriptionUpserted(sub) => outcome := SyncSubscriptionFromData(w, sub, d.now);
      case SubscriptionDeleted(id) => OnSubscriptionDeleted(id, d.now);
      case ScheduleUpserted(schedule) => OnScheduleUpserted(w, schedule, d.now);
      case ScheduleCleared(subscription) => OnScheduleCleared(subscription, d.now);
      case Unhandled =>
    }

    /** Dispatch of one stored event: a failed event leaves every row as it was, and only its own mark is written. A
        failure leaves an earlier processed_at standing; a success clears an earlier error. */
    method ProcessStoredEvent(w: World, d: Delivery, eventId: string) returns (outcome: Outcome)
      requires Valid(Contents())
      modifies this
      ensures Valid(Contents()) && Contents() == Step(old(Contents()), w, d)
      ensures outcome.Failed? <==> d.event.SubscriptionUpserted? && !Usable(w, d.event.sub)
      ensures outcome.Failed? ==> FailsWith(w, d.event.sub, outcome.error) && Contents() == old(Contents())
      ensures events.Keys == old(events).Keys && forall e :: e in events && e != eventId ==> events[e] == old(events)[e]
      ensures eventId in events && outcome.Failed? ==>
                events[eventId].error == Some(outcome.error)
                  && events[eventId].processedAt == old(events)[eventId].processedAt
      ensures eventId in events && !outcome.Failed? ==> events[eventId] == Mark(Some(d.now), None)
    {
      hide Usable, FailsWith;
      outcome := Dispatch(w, d);
      if eventId in events {
        events := events[eventId := if outcome.Failed? then events[eventId].(error := Some(outcome.error))
                         else Mark(Some(d.now), None)];
      }
    }

    method MirrorCancelState(active: Row, cancelAt: Option<int>, canceledAt: Option<int>, status: Option<string>,
                             now: int)
      modifies this`rows
      ensures Contents() == Optimistic(old(Contents()), active, CancelState(cancelAt, canceledAt, status), now)
    {
      var update := active.core.(cancelAt := cancelAt, canceledAt := canceledAt);
      if status.Some? {
        var parsed := ParseStatus(status.value);
        if parsed.Some? {
          update := update.(status := parsed.value);
        }
      }
      SaveRow(active.(core := update), now);
    }

    method MirrorSeatCount(active: Row, quantity: int, now: int)
      modifies this`rows
      ensures Contents() == Optimistic(old(Contents()), active, SeatCount(quantity), now)
    {
      if active.core.seatLimit != quantity {
        SaveRow(active.(core := active.core.(seatLimit := quantity)), now);
      }
    }

    method MirrorRelease(active: Row, now: int)
      modifies this`rows
      ensures Contents() == Optimistic(old(Contents()), active, ReleasePending, now)
    {
      if active.pending.plan.Some? || active.pending.at.Some? {
        SaveRow(active.(pending := NoPending), now);
      }
    }

    predicate Matches(i: nat, filter: Filter)
      requires i in rows
      reads this
    {
      rows[i].core.status in ACTIVE_STATUSES && Selects(filter, rows[i].core)
    }

    /** latest("created_at") over the active rows of one filter. */
    method Latest(filter: Filter) returns (r: Option<nat>)
      ensures r.Some? ==> r.value in rows && Alive(rows[r.value].core.status)
      ensures r.None? ==> forall i :: i in rows && Alive(rows[i].core.status) ==> !Selects(filter, rows[i].core)
      ensures r.Some? <==> exists i :: i in rows && Matches(i, filter)
      ensures r.Some? ==> r.value in rows && IsLatest(Contents(), filter, r.value)
    {
      AliveStatuses();
      hide Alive;
      r := None;
      var todo := rows.Keys;
      while todo != {}
        invariant todo <= rows.Keys
        invariant r.Some? ==> r.value in rows && Matches(r.value, filter)
        invariant forall i :: i in rows.Keys - todo && Matches(i, filter) ==>
                    r.Some? && rows[i].createdAt <= rows[r.value].createdAt
      {
        var i :| i in todo;
        todo := todo - {i};
        if Matches(i, filter) && (r.None? || rows[i].createdAt > rows[r.value].createdAt) {
          r := Some(i);
        }
      }
    }

    /** The later of the two indexed lookups is a latest row of the combined query. */
    method GetActiveForUser(user: nat, owners: map<nat, nat>) returns (r: Option<nat>)
      ensures r.Some? ==>
                r.value in rows && Alive(rows[r.value].core.status) && OfUser(rows[r.value].core, user, owners)
      ensures forall i :: i in rows && Alive(rows[i].core.status) && OfUser(rows[i].core, user, owners) ==>
                r.Some? && rows[i].createdAt <= rows[r.value].createdAt
      ensures r.Some? ==> r.value in rows && (Matches(r.value, ByUser(user)) || Matches(r.value, ByOwner(user, owners)))
      ensures forall i :: i in rows && (Matches(i, ByUser(user)) || Matches(i, ByOwner(user, owners))) ==>
                r.Some? && rows[i].createdAt <= rows[r.value].createdAt
    {
      AliveStatuses();
      hide Alive;
      var byUser := Latest(ByUser(user));
      var byCustomer := Latest(ByOwner(user, owners));
      if byUser.None? {
        return byCustomer;
      }
      if byCustomer.Some? && rows[byCustomer.value].createdAt > rows[byUser.value].createdAt {
        return byCustomer;
      }
      return byUser;
    }
  }
}
