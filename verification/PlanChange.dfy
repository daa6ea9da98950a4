/** Plan switches on a Stripe subscription (core/saasmint_core/services/subscriptions.py) and what the
    webhook reads back from the schedules they write. */
module PlanChange {
  import opened Prelude
  import Currency
  import Mirror = SubscriptionMirror

  datatype Price = Price(unitAmount: Option<int>, currency: string)

  type Prices = map<string, Price>

  /** A phase as written: one item, a start, and an end unless it is the last. */
  datatype Phase = Phase(price: string, quantity: int, start: int, end: Option<int>)

  datatype Item = Item(price: string, quantity: Option<int>, periodStart: Mirror.Field, periodEnd: Mirror.Field)

  /** A subscription with its one item; a schedule, when there is one, pins it. */
  datatype Sub = Sub(item: Item, periodStart: Mirror.Field, periodEnd: Mirror.Field, schedule: Option<seq<Phase>>)

  datatype Outcome = Applied | Deferred | NoPeriod | MixedCurrency | Rejected

  function Quantity(item: Item): int {
    if item.quantity.Some? then item.quantity.value else 1
  }

  // ---------------------------------------------------------------- reading the billing period

  /** Item first, then subscription; the fallback also covers an explicit null. */
  function ReadPeriod(item: Mirror.Field, sub: Mirror.Field): Option<int> {
    var value := if item == Mirror.Absent || item == Mirror.Null then sub else item;
    if value.Int? then Some(value.n) else None
  }

  /** The webhook's reader falls back on an absent key only, so the two differ on an item's explicit null. */
  lemma PeriodReadersAgree(item: Mirror.Field, sub: Mirror.Field)
    ensures (ReadPeriod(item, sub) == if Mirror.ItemFirst(item, sub).Int? then Some(Mirror.ItemFirst(item, sub).n)
             else None)
            <==> !(item == Mirror.Null && sub.Int?)
  {
  }

  // ---------------------------------------------------------------- Stripe's rules

  /** Modify is refused on a pinned subscription, for an unknown price, and across currencies. */
  predicate ModifyAllowed(s: Sub, prices: Prices, price: string) {
    s.schedule.None? && SameCurrency(s, prices, price)
  }

  predicate SameCurrency(s: Sub, prices: Prices, price: string) {
    price in prices && s.item.price in prices && prices[price].currency == prices[s.item.price].currency
  }

  function Modified(s: Sub, price: string, quantity: int): Sub {
    s.(item := s.item.(price := price, quantity := Some(quantity)))
  }

  /** The first phase governs the subscription while it lasts. */
  function Scheduled(s: Sub, phases: seq<Phase>): Sub
    requires phases != []
  {
    s.(schedule := Some(phases), item := s.item.(price := phases[0].price, quantity := Some(phases[0].quantity)))
  }

  // ---------------------------------------------------------------- the change

  predicate IsDowngrade(s: Sub, prices: Prices, newAmount: Option<int>) {
    newAmount.Some? && s.item.price in prices && prices[s.item.price].unitAmount.Some?
    && newAmount.value < prices[s.item.price].unitAmount.value
  }

  function TwoPhases(s: Sub, newPrice: string, quantity: int, start: int, end: int): seq<Phase> {
    [Phase(s.item.price, quantity, start, Some(end)), Phase(newPrice, quantity, end, None)]
  }

  predicate CurrenciesClash(s: Sub, prices: Prices, newPrice: string) {
    s.item.price in prices && newPrice in prices && prices[s.item.price].currency != ""
      && prices[newPrice].currency != ""
    && Currency.Lower(prices[s.item.price].currency) != Currency.Lower(prices[newPrice].currency)
  }

  /** The result of one change, stated without the calls it is made of. */
  function Changed(s: Sub, prices: Prices, newPrice: string, newAmount: Option<int>, quantity: Option<int>)
    : (Sub, Outcome)
  {
    var q := if quantity.Some? then quantity.value else Quantity(s.item);
    if IsDowngrade(s, prices, newAmount) then
      var start, end := ReadPeriod(s.item.periodStart, s.periodStart), ReadPeriod(s.item.periodEnd, s.periodEnd);
      if start.None? || end.None? then (s, NoPeriod)
      else if newPrice !in prices then (s, Rejected)
      else if CurrenciesClash(s, prices, newPrice) then (s, MixedCurrency)
      else (Scheduled(s, TwoPhases(s, newPrice, q, start.value, end.value)), Deferred)
    else
      var released := s.(schedule := None);
      if SameCurrency(s, prices, newPrice) then (Modified(released, newPrice, q), Applied) else (released, Rejected)
  }

  /** The new amount and the current one are both known, and the new one is lower. */
  ghost predicate Cheaper(s: Sub, prices: Prices, newAmount: Option<int>) {
    exists now, wanted ::
      && s.item.price in prices && prices[s.item.price].unitAmount == Some(now) && newAmount == Some(wanted)
         && wanted < now
  }

  /** The item names the instant, or names none, by a missing key or a null, and the subscription does. */
  predicate Period(item: Mirror.Field, sub: Mirror.Field, at: int) {
    item == Mirror.Int(at) || (item in {Mirror.Absent, Mirror.Null} && sub == Mirror.Int(at))
  }

  /** What one change does, in the fields of the subscription: an applied one is at the new price with the seats asked
      for, or else those it had, and no schedule; a deferred one keeps its price and has one schedule, for that price up
      to the period end and the new one from there on. The periods are never touched. */
  lemma ChangeMeans(s: Sub, prices: Prices, newPrice: string, newAmount: Option<int>, quantity: Option<int>)
    ensures var (after, outcome) := Changed(s, prices, newPrice, newAmount, quantity);
            var seats := if quantity.Some? then quantity.value else if s.item.quantity.Some? then s.item.quantity.value
              else 1;
            && after.item.periodStart == s.item.periodStart && after.item.periodEnd == s.item.periodEnd
            && after.periodStart == s.periodStart && after.periodEnd == s.periodEnd
            && (outcome == Applied ==>
                  after.item.price == newPrice && after.item.quantity == Some(seats) && after.schedule == None)
            && (outcome == Deferred ==>
                  && after.item.price == s.item.price && after.item.quantity == Some(seats)
                  && exists start, end ::
                       && Period(s.item.periodStart, s.periodStart, start) && Period(s.item.periodEnd, s.periodEnd, end)
                       && after.schedule ==
                          Some([Phase(s.item.price, seats, start, Some(end)), Phase(newPrice, seats, end, None)]))
            && (outcome in {NoPeriod, MixedCurrency} ==> after == s)
            && (outcome == Rejected ==>
                  after.item == s.item && (after.schedule == None || after.schedule == s.schedule))
  {
    var start, end := ReadPeriod(s.item.periodStart, s.periodStart), ReadPeriod(s.item.periodEnd, s.periodEnd);
    assert start.Some? ==> Period(s.item.periodStart, s.periodStart, start.value);
    assert end.Some? ==> Period(s.item.periodEnd, s.periodEnd, end.value);
    hide ReadPeriod, Period;
  }

  /** When a change is applied and when it is deferred, in terms of the two amounts, the prices known and their
      currencies. */
  lemma ChangeOutcome(s: Sub, prices: Prices, newPrice: string, newAmount: Option<int>, quantity: Option<int>)
    ensures var outcome := Changed(s, prices, newPrice, newAmount, quantity).1;
            && (outcome == Applied <==>
                  && !Cheaper(s, prices, newAmount) && newPrice in prices && s.item.price in prices
                  && prices[newPrice].currency == prices[s.item.price].currency)
            && (outcome == Deferred <==>
                  && Cheaper(s, prices, newAmount) && newPrice in prices
                  && (exists start :: Period(s.item.periodStart, s.periodStart, start))
                  && (exists end :: Period(s.item.periodEnd, s.periodEnd, end))
                  && (prices[newPrice].currency == "" || prices[s.item.price].currency == ""
                      || Currency.Lower(prices[newPrice].currency) == Currency.Lower(prices[s.item.price].currency)))
            && (outcome == NoPeriod <==>
                  && Cheaper(s, prices, newAmount)
                  && ((forall start :: !Period(s.item.periodStart, s.periodStart, start))
                      || (forall end :: !Period(s.item.periodEnd, s.periodEnd, end))))
  {
    CheaperIsDowngrade(s, prices, newAmount);
    PeriodIsRead(s.item.periodStart, s.periodStart);
    PeriodIsRead(s.item.periodEnd, s.periodEnd);
    assert IsDowngrade(s, prices, newAmount) ==> s.item.price in prices;
    hide Cheaper, IsDowngrade, ReadPeriod, Period;
  }

  lemma CheaperIsDowngrade(s: Sub, prices: Prices, newAmount: Option<int>)
    ensures Cheaper(s, prices, newAmount) <==> IsDowngrade(s, prices, newAmount)
  {
    if IsDowngrade(s, prices, newAmount) {
      assert prices[s.item.price].unitAmount == Some(prices[s.item.price].unitAmount.value)
             && newAmount == Some(newAmount.value);
    }
  }

  lemma PeriodIsRead(item: Mirror.Field, sub: Mirror.Field)
    ensures ReadPeriod(item, sub).Some? ==> Period(item, sub, ReadPeriod(item, sub).value)
    ensures forall at :: Period(item, sub, at) ==> ReadPeriod(item, sub) == Some(at)
  {
  }

  class StripeSubscription {
    var sub: Sub
    ghost var refusedWhilePinned: nat    // calls Stripe turned down because a schedule owned the subscription

    constructor (s: Sub)
      ensures sub == s && refusedWhilePinned == 0
    {
      sub := s;
      refusedWhilePinned := 0;
    }

    method Modify(prices: Prices, price: string, quantity: int) returns (ok: bool)
      modifies this
      ensures ok <==> ModifyAllowed(old(sub), prices, price)
      ensures sub == if ok then Modified(old(sub), price, quantity) else old(sub)
      ensures refusedWhilePinned == old(refusedWhilePinned) + if old(sub).schedule.Some? then 1 else 0
    {
      if sub.schedule.Some? {
        refusedWhilePinned := refusedWhilePinned + 1;
        return false;
      }
      if !SameCurrency(sub, prices, price) {
        return false;
      }
      sub := Modified(sub, price, quantity);
      return true;
    }

    method CreateSchedule(start: int, end: int) returns (ok: bool)
      modifies this
      ensures ok <==> old(sub).schedule.None?
      ensures sub == if ok
              then old(sub).(schedule := Some([Phase(old(sub).item.price, Quantity(old(sub).item), start, Some(end))]))
                else old(sub)
      ensures refusedWhilePinned == old(refusedWhilePinned) + if old(sub).schedule.Some? then 1 else 0
    {
      if sub.schedule.Some? {
        refusedWhilePinned := refusedWhilePinned + 1;
        return false;
      }
      sub := sub.(schedule := Some([Phase(sub.item.price, Quantity(sub.item), start, Some(end))]));
      return true;
    }

    method ModifySchedule(phases: seq<Phase>)
      requires sub.schedule.Some? && phases != []
      modifies this`sub
      ensures sub == Scheduled(old(sub), phases)
    {
      sub := Scheduled(sub, phases);
    }

    method ReleaseSchedule()
      modifies this`sub
      ensures sub == old(sub).(schedule := None)
    {
      sub := sub.(schedule := None);
    }

    method ScheduleDowngradeAtPeriodEnd(prices: Prices, newPrice: string, quantity: int) returns (outcome: Outcome)
      modifies this
      ensures refusedWhilePinned == old(refusedWhilePinned)
      ensures var s := old(sub);
              var start, end := ReadPeriod(s.item.periodStart, s.periodStart),
                ReadPeriod(s.item.periodEnd, s.periodEnd);
              (sub, outcome) ==
              if start.None? || end.None? then (s, NoPeriod)
              else if newPrice !in prices then (s, Rejected)
              else if CurrenciesClash(s, prices, newPrice) then (s, MixedCurrency)
              else (Scheduled(s, TwoPhases(s, newPrice, quantity, start.value, end.value)), Deferred)
    {
      var end := ReadPeriod(sub.item.periodEnd, sub.periodEnd);
      if end.None? {
        return NoPeriod;
      }
      var start := ReadPeriod(sub.item.periodStart, sub.periodStart);
      if start.None? {
        return NoPeriod;
      }
      var phases := TwoPhases(sub, newPrice, quantity, start.value, end.value);
      if newPrice !in prices {
        return Rejected;
      }
      if CurrenciesClash(sub, prices, newPrice) {
        return MixedCurrency;
      }
      if sub.schedule.None? {
        var _ := CreateSchedule(start.value, end.value);
      }
      ModifySchedule(phases);
      return Deferred;
    }

    method ApplyImmediatePlanChange(prices: Prices, newPrice: string, quantity: int) returns (outcome: Outcome)
      modifies this
      ensures refusedWhilePinned == old(refusedWhilePinned)
      ensures var released := old(sub).(schedule := None);
              (sub, outcome) == if SameCurrency(old(sub), prices, newPrice)
                then (Modified(released, newPrice, quantity), Applied)
                                else (released, Rejected)
    {
      if sub.schedule.Some? {
        ReleaseSchedule();
      }
      var ok := Modify(prices, newPrice, quantity);
      return if ok then Applied else Rejected;
    }

    /** No call is ever made that Stripe would refuse because of a schedule. */
    method ChangePlan(prices: Prices, newPrice: string, newAmount: Option<int>, quantity: Option<int>)
      returns (outcome: Outcome)
      modifies this
      ensures (sub, outcome) == Changed(old(sub), prices, newPrice, newAmount, quantity)
      ensures outcome == Applied ==> sub.item.price == newPrice && sub.schedule == None
      ensures outcome == Deferred ==> sub.item.price == old(sub).item.price && sub.schedule.Some?
      ensures outcome == Deferred ==> Cheaper(old(sub), prices, newAmount)
      ensures outcome == Applied ==> !Cheaper(old(sub), prices, newAmount)
      ensures refusedWhilePinned == old(refusedWhilePinned)
    {
      CheaperIsDowngrade(sub, prices, newAmount);
      hide Cheaper;
      var currentQuantity := if sub.item.quantity.Some? then sub.item.quantity.value else 1;
      var q := if quantity.Some? then quantity.value else currentQuantity;
      if IsDowngrade(sub, prices, newAmount) {
        outcome := ScheduleDowngradeAtPeriodEnd(prices, newPrice, q);
        return;
      }
      outcome := ApplyImmediatePlanChange(prices, newPrice, q);
    }
  }

  // ---------------------------------------------------------------- runs

  /** Requests without an explicit quantity, and the period end at which a scheduled switch takes over and its schedule
      completes. */
  datatype Action = Change(newPrice: string, newAmount: Option<int>) | PeriodEnd(nextEnd: int)

  function Renew(s: Sub, nextEnd: int): Sub {
    var end := ReadPeriod(s.item.periodEnd, s.periodEnd);
    var item := if s.schedule.Some? && |s.schedule.value| == 2
                then s.item.(price := s.schedule.value[1].price, quantity := Some(s.schedule.value[1].quantity))
                  else s.item;
    var start := if end.Some? then Mirror.Int(end.value) else s.item.periodStart;
    Sub(item.(periodStart := start, periodEnd := Mirror.Int(nextEnd)), s.periodStart, s.periodEnd, None)
  }

  function Act(s: Sub, prices: Prices, a: Action): Sub {
    match a
    case Change(newPrice, newAmount) => Changed(s, prices, newPrice, newAmount, None).0
    case PeriodEnd(nextEnd) => Renew(s, nextEnd)
  }

  function Run(s: Sub, prices: Prices, actions: seq<Action>): Sub {
    if actions == [] then s else Act(Run(s, prices, actions[..|actions| - 1]), prices, actions[|actions| - 1])
  }

  /** A pending schedule: today's price until the period end, the new one from then on, with the same seats in both. */
  ghost predicate WellScheduled(s: Sub, seats: int) {
    && Quantity(s.item) == seats
    && (s.schedule.Some? ==>
          var phases := s.schedule.value;
          && |phases| == 2
          && phases[0].price == s.item.price && phases[0].quantity == seats && phases[1].quantity == seats
          && phases[0].end == Some(phases[1].start) && phases[1].end == None
          && Some(phases[1].start) == ReadPeriod(s.item.periodEnd, s.periodEnd)
          && Some(phases[0].start) == ReadPeriod(s.item.periodStart, s.periodStart))
  }

  /** Seats survive every run of plan switches, deferred or not, and every schedule along the way has two phases, both
      with those seats, meeting at the period end, the first at today's price. */
  lemma {:induction false} SeatsSurvive(s: Sub, prices: Prices, actions: seq<Action>)
    requires WellScheduled(s, Quantity(s.item))
    ensures WellScheduled(Run(s, prices, actions), Quantity(s.item))
    ensures var end, seats := Run(s, prices, actions), if s.item.quantity.Some? then s.item.quantity.value else 1;
            && (if end.item.quantity.Some? then end.item.quantity.value else 1) == seats
            && (end.schedule.Some? ==>
                  exists price, start, at ::
                    && end.schedule
                       == Some([Phase(end.item.price, seats, start, Some(at)), Phase(price, seats, at, None)])
                    && Period(end.item.periodStart, end.periodStart, start)
                       && Period(end.item.periodEnd, end.periodEnd, at))
  {
    if actions != [] {
      SeatsSurvive(s, prices, actions[..|actions| - 1]);
    }
    var end := Run(s, prices, actions);
    hide Run, Act, Period;
    if end.schedule.Some? {
      ScheduleInFull(end, Quantity(s.item));
    }
  }

  lemma ScheduleInFull(s: Sub, seats: int)
    requires WellScheduled(s, seats) && s.schedule.Some?
    ensures exists price, start, at ::
              && s.schedule == Some([Phase(s.item.price, seats, start, Some(at)), Phase(price, seats, at, None)])
              && Period(s.item.periodStart, s.periodStart, start) && Period(s.item.periodEnd, s.periodEnd, at)
  {
    PeriodIsRead(s.item.periodStart, s.periodStart);
    PeriodIsRead(s.item.periodEnd, s.periodEnd);
    var phases := s.schedule.value;
    assert phases == [phases[0], phases[1]];
    assert s.schedule == Some([Phase(s.item.price, seats, phases[0].start, Some(phases[1].start)),
                               Phase(phases[1].price, seats, phases[1].start, None)]);
  }

  /** The price in force and the one that is to follow it, from the outcomes alone: an applied switch is in force at
      once and leaves nothing to follow, a deferred one follows, a rejected immediate one drops what was to follow, and
      a period end brings it into force. */
  ghost function Booked(s: Sub, prices: Prices, actions: seq<Action>): (string, Option<string>) {
    if actions == []
      then (s.item.price, if s.schedule.Some? && |s.schedule.value| == 2 then Some(s.schedule.value[1].price) else None)
    else
      var n := |actions| - 1;
      var (now, next) := Booked(s, prices, actions[..n]);
      match actions[n]
      case Change(newPrice, newAmount) =>
        var before := Run(s, prices, actions[..n]);
        (match Changed(before, prices, newPrice, newAmount, None).1
         case Applied => (newPrice, None)
         case Deferred => (now, Some(newPrice))
         case Rejected => (now, if Cheaper(before, prices, newAmount) then next else None)
         case _ => (now, next))
      case PeriodEnd(_) => (if next.Some? then next.value else now, None)
  }

  /** Over every run the item is at the price of the last switch that took effect, and a schedule waits exactly for the
      one that is to follow. */
  lemma {:induction false} PriceInForce(s: Sub, prices: Prices, actions: seq<Action>)
    requires WellScheduled(s, Quantity(s.item))
    ensures var end := Run(s, prices, actions);
            && end.item.price == Booked(s, prices, actions).0
            && (if end.schedule.Some? then |end.schedule.value| == 2
                && Booked(s, prices, actions).1 == Some(end.schedule.value[1].price)
                else Booked(s, prices, actions).1 == None)
  {
    if actions != [] {
      var n := |actions| - 1;
      var before := Run(s, prices, actions[..n]);
      PriceInForce(s, prices, actions[..n]);
      SeatsSurvive(s, prices, actions[..n]);
      if actions[n].Change? {
        ChangeMeans(before, prices, actions[n].newPrice, actions[n].newAmount, None);
        CheaperIsDowngrade(before, prices, actions[n].newAmount);
        if Changed(before, prices, actions[n].newPrice, actions[n].newAmount, None).1 == Rejected {
          RejectionKeeps(before, prices, actions[n].newPrice, actions[n].newAmount);
        }
        hide Changed, Cheaper, IsDowngrade, Period;
      }
    }
  }

  lemma RejectionKeeps(s: Sub, prices: Prices, newPrice: string, newAmount: Option<int>)
    requires Changed(s, prices, newPrice, newAmount, None).1 == Rejected
    ensures Changed(s, prices, newPrice, newAmount, None).0 ==
            if IsDowngrade(s, prices, newAmount) then s else s.(schedule := None)
  {
  }

  /** A rejected immediate switch is not free of effect: it drops a pending schedule, and nothing else. */
  lemma RejectedChangeDropsSchedule(s: Sub, prices: Prices, newPrice: string, newAmount: Option<int>,
                                    quantity: Option<int>)
    requires Changed(s, prices, newPrice, newAmount, quantity).1 == Rejected
    ensures Changed(s, prices, newPrice, newAmount, quantity).0 == s
            <==> s.schedule.None? || IsDowngrade(s, prices, newAmount)
    ensures Changed(s, prices, newPrice, newAmount, quantity).0.item == s.item
  {
  }

  // ---------------------------------------------------------------- what the webhook reads back

  function ToPayload(subscription: string, phases: seq<Phase>): Mirror.ScheduleData {
    Mirror.ScheduleData(Some(subscription),
      seq(|phases|, i
          requires 0 <= i < |phases| => Mirror.Phase([Mirror.PriceId(phases[i].price)], Some(phases[i].start),
                                                     phases[i].end)))
  }

  /** Parsing the written phases gives back the new price and the period end, even a period end of zero. */
  lemma ParseWrittenSchedule(s: Sub, subscription: string, newPrice: string, quantity: int, start: int, end: int)
    ensures Mirror.ParseSchedule(ToPayload(subscription, TwoPhases(s, newPrice, quantity, start, end)))
            == if newPrice == "" then None else Some((newPrice, end))
  {
  }

  /** A deferred switch shows up in the mirror as the new plan at the period end. */
  lemma DeferralIsMirrored(s: Sub, prices: Prices, newPrice: string, newAmount: Option<int>, quantity: Option<int>,
                           subscription: string, w: Mirror.World, before: Mirror.Pending, now: int)
    requires Changed(s, prices, newPrice, newAmount, quantity).1 == Deferred
    requires subscription != "" && newPrice != "" && newPrice in w.prices
    ensures var after := Changed(s, prices, newPrice, newAmount, quantity).0;
            after.schedule.Some? &&
            Mirror.PendingStep(before, w, subscription,
                               Mirror.Delivery(Mirror.ScheduleUpserted(ToPayload(subscription, after.schedule.value)),
                                               now))
            == Mirror.Pending(Some(w.prices[newPrice]), ReadPeriod(s.item.periodEnd, s.periodEnd))
  {
    var q := if quantity.Some? then quantity.value else Quantity(s.item);
    var start, end := ReadPeriod(s.item.periodStart, s.periodStart), ReadPeriod(s.item.periodEnd, s.periodEnd);
    ParseWrittenSchedule(s, subscription, newPrice, q, start.value, end.value);
  }

  // ---------------------------------------------------------------- prices in the subscription's currency

  /** USD cents as they are, anything else through the stored localized amount. */
  function AmountIn(cents: int, rate: real, currency: string): int {
    if currency == "usd" then cents else Currency.Localize(cents, rate, currency)
  }

  /** A switch to an equal or dearer USD plan counts as a downgrade, under one rate, exactly when the current price
      converts to nothing and the wanted one to an amount that snaps below zero. */
  lemma DearerPlanIsDowngradeIff(s: Sub, prices: Prices, current: int, wanted: int, rate: real, currency: string)
    requires s.item.price in prices && prices[s.item.price].unitAmount == Some(AmountIn(current, rate, currency))
    requires current <= wanted && rate >= 0.0
    ensures IsDowngrade(s, prices, Some(AmountIn(wanted, rate, currency))) <==>
            currency != "usd" && !Currency.ZeroDecimal(currency)
            && Currency.Converted(current, rate) <= 0.0 < Currency.Converted(wanted, rate) <= 0.24
  {
    hide Currency.Localize, Currency.ZeroDecimal, Currency.Converted;
    if currency != "usd" {
      Currency.LocalizeKeepsOrder(current, wanted, rate, currency);
    }
  }

  /** So, with a positive rate and a current plan that costs something, it never waits for the period end. */
  lemma DearerPlanNeverDeferred(s: Sub, prices: Prices, newPrice: string, quantity: Option<int>,
                                current: int, wanted: int, rate: real, currency: string)
    requires s.item.price in prices && prices[s.item.price].unitAmount == Some(AmountIn(current, rate, currency))
    requires current <= wanted && rate > 0.0 && current > 0
    ensures Changed(s, prices, newPrice, Some(AmountIn(wanted, rate, currency)), quantity).1 != Deferred
  {
    assert Currency.Converted(current, rate) > 0.0 by {
      assert Currency.FormatAmount(current, "usd") > 0.0;
    }
    DearerPlanIsDowngradeIff(s, prices, current, wanted, rate, currency);
    hide IsDowngrade, AmountIn;
  }
}
