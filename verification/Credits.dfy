/** The credit ledger and its cached balances (apps/billing/services.py). */
module Credits {
  import opened Prelude

  datatype Owner = User(id: nat) | Org(id: nat)

  datatype Tx = Tx(owner: Owner, amount: int, reason: string)

  /** Ledger rows by their unique Stripe session id, and the denormalised balance per owner. */
  datatype State = State(ledger: map<string, Tx>, balances: map<Owner, int>)

  datatype Product = Product(name: string, credits: int)

  /** The rows a delivery can refer to; they do not change between deliveries. */
  datatype World = World(products: map<nat, Product>, users: set<nat>, orgs: set<nat>)

  datatype Delivery = Delivery(session: string, product: nat, user: nat, org: Option<nat>)

  datatype Outcome = Granted | Duplicate | ValueError

  /** The ledger row a delivery asks for, if it resolves to one. */
  function Resolve(w: World, d: Delivery): Option<Tx> {
    if d.product !in w.products || w.products[d.product].credits <= 0 then None
    else
      var p := w.products[d.product];
      match d.org
      case Some(o) => if o in w.orgs then Some(Tx(Org(o), p.credits, "purchase:" + p.name)) else None
      case None => if d.user in w.users then Some(Tx(User(d.user), p.credits, "purchase:" + p.name)) else None
  }

  /** Insert the row and add to the balance, unless the session is already in the ledger. */
  function Grant(st: State, session: string, tx: Tx): State {
    if session in st.ledger then st
    else
      var balance := if tx.owner in st.balances then st.balances[tx.owner] else 0;
      State(st.ledger[session := tx], st.balances[tx.owner := balance + tx.amount])
  }

  function Deliver(st: State, w: World, d: Delivery): State {
    match Resolve(w, d)
    case None => st
    case Some(tx) => Grant(st, d.session, tx)
  }

  function Run(st: State, w: World, ds: seq<Delivery>): State {
    if ds == [] then st else Deliver(Run(st, w, ds[..|ds| - 1]), w, ds[|ds| - 1])
  }

  const Empty: State := State(map[], map[])

  class CreditStore {
    var ledger: map<string, Tx>
    var balances: map<Owner, int>

    ghost function Contents(): State reads this { State(ledger, balances) }

    constructor ()
      ensures Contents() == Empty
    {
      ledger, balances := map[], map[];
    }

    method GrantCreditsForSession(session: string, amount: int, reason: string, user: Option<nat>, org: Option<nat>)
      returns (r: Outcome)
      modifies this
      ensures r == ValueError <==> user.None? == org.None? || amount <= 0
      ensures r == ValueError ==> Contents() == old(Contents())
      ensures r != ValueError ==>
                && (r == Duplicate <==> session in old(ledger))
                && Contents()
                   == Grant(old(Contents()), session,
                            Tx(if user.Some? then User(user.value) else Org(org.value), amount, reason))
    {
      if user.None? == org.None? {
        return ValueError;
      }
      if amount <= 0 {
        return ValueError;
      }
      var owner := if user.Some? then User(user.value) else Org(org.value);
      if session in ledger {
        return Duplicate;
      }
      ledger := ledger[session := Tx(owner, amount, reason)];
      if owner !in balances {
        balances := balances[owner := 0];
      }
      balances := balances[owner := balances[owner] + amount];
      return Granted;
    }

    method OnProductCheckoutCompleted(w: World, d: Delivery)
      modifies this
      ensures Contents() == Deliver(old(Contents()), w, d)
    {
      if d.product !in w.products {
        return;
      }
      var product := w.products[d.product];
      if product.credits <= 0 {
        return;
      }
      var reason := "purchase:" + product.name;
      if d.org.Some? {
        if d.org.value !in w.orgs {
          return;
        }
        var _ := GrantCreditsForSession(d.session, product.credits, reason, None, d.org);
      } else {
        if d.user !in w.users {
          return;
        }
        var _ := GrantCreditsForSession(d.session, product.credits, reason, Some(d.user), None);
      }
    }
  }

  // ---------------------------------------------------------------- the balance is the sum of the ledger

  function Share(tx: Tx, o: Owner): int {
    if tx.owner == o then tx.amount else 0
  }

  ghost function Total(ledger: map<string, Tx>, o: Owner): int {
    if ledger == map[] then 0
    else
      var s :| s in ledger;
      Share(ledger[s], o) + Total(ledger - {s}, o)
  }

  lemma {:induction false} TotalRemove(ledger: map<string, Tx>, o: Owner, s: string)
    requires s in ledger
    ensures Total(ledger, o) == Share(ledger[s], o) + Total(ledger - {s}, o)
    decreases |ledger|
  {
    var p :| p in ledger && Total(ledger, o) == Share(ledger[p], o) + Total(ledger - {p}, o);
    if p != s {
      TotalRemove(ledger - {p}, o, s);
      TotalRemove(ledger - {s}, o, p);
      assert ledger - {p} - {s} == ledger - {s} - {p};
    }
  }

  lemma TotalInsert(ledger: map<string, Tx>, o: Owner, s: string, tx: Tx)
    requires s !in ledger
    ensures Total(ledger[s := tx], o) == Total(ledger, o) + Share(tx, o)
  {
    TotalRemove(ledger[s := tx], o, s);
    assert ledger[s := tx] - {s} == ledger;
  }

  ghost predicate Owns(ledger: map<string, Tx>, o: Owner) {
    exists s :: s in ledger && ledger[s].owner == o
  }

  /** Every owner with a ledger row, and no other, has a balance row; it holds the sum and is positive. */
  ghost predicate Balanced(st: State) {
    && (forall s :: s in st.ledger ==> st.ledger[s].amount > 0)
    && (forall o :: o in st.balances <==> Owns(st.ledger, o))
    && (forall o :: o in st.balances ==> st.balances[o] == Total(st.ledger, o) && st.balances[o] > 0)
    && (forall o :: o !in st.balances ==> Total(st.ledger, o) == 0)
  }

  lemma GrantKeepsBalanced(st: State, session: string, tx: Tx)
    requires Balanced(st) && tx.amount > 0
    ensures Balanced(Grant(st, session, tx))
  {
    if session !in st.ledger {
      var next := Grant(st, session, tx);
      forall o
        ensures o in next.balances <==> Owns(next.ledger, o)
        ensures Total(next.ledger, o) == Total(st.ledger, o) + Share(tx, o)
      {
        TotalInsert(st.ledger, o, session, tx);
        assert next.ledger[session] == tx;
        if Owns(st.ledger, o) {
          var s :| s in st.ledger && st.ledger[s].owner == o;
          assert next.ledger[s] == st.ledger[s];
        }
      }
    }
  }

  lemma {:induction false} RunBalanced(w: World, ds: seq<Delivery>)
    ensures Balanced(Run(Empty, w, ds))
  {
    if ds != [] {
      var d := ds[|ds| - 1];
      RunBalanced(w, ds[..|ds| - 1]);
      if Resolve(w, d).Some? {
        GrantKeepsBalanced(Run(Empty, w, ds[..|ds| - 1]), d.session, Resolve(w, d).value);
      }
    }
  }

  /** A balanced state is determined by its ledger. */
  lemma BalancedDetermined(a: State, b: State)
    requires Balanced(a) && Balanced(b) && a.ledger == b.ledger
    ensures a == b
  {
    assert forall o :: o in a.balances <==> o in b.balances;
    assert a.balances == b.balances;
  }

  // ---------------------------------------------------------------- order and duplicates

  /** The first delivery of a session that resolves, if any. */
  function FirstGrant(w: World, ds: seq<Delivery>, session: string): Option<Tx> {
    if ds == [] then None
    else if ds[0].session == session && Resolve(w, ds[0]).Some? then Resolve(w, ds[0])
    else FirstGrant(w, ds[1..], session)
  }

  lemma {:induction false} FirstGrantAppend(w: World, ds: seq<Delivery>, d: Delivery, session: string)
    ensures FirstGrant(w, ds + [d], session) ==
            if FirstGrant(w, ds, session).Some? then FirstGrant(w, ds, session)
            else if d.session == session then Resolve(w, d) else None
  {
    if ds != [] {
      assert (ds + [d])[1..] == ds[1..] + [d];
      FirstGrantAppend(w, ds[1..], d, session);
    } else {
      assert ([d])[1..] == [];
    }
  }

  /** Each session is granted once, by the first of its deliveries that resolves. */
  lemma {:induction false} RunGrantsFirst(w: World, ds: seq<Delivery>, session: string)
    ensures session in Run(Empty, w, ds).ledger <==> FirstGrant(w, ds, session).Some?
    ensures session in Run(Empty, w, ds).ledger ==>
            Some(Run(Empty, w, ds).ledger[session]) == FirstGrant(w, ds, session)
  {
    if ds != [] {
      var n := |ds| - 1;
      RunGrantsFirst(w, ds[..n], session);
      FirstGrantAppend(w, ds[..n], ds[n], session);
      assert ds == ds[..n] + [ds[n]];
    }
  }

  /** Deliveries of one session that resolve ask for the same grant. */
  ghost predicate Agree(w: World, ds: set<Delivery>) {
    forall c, d :: c in ds && d in ds && c.session == d.session && Resolve(w, c).Some? && Resolve(w, d).Some?
      ==> Resolve(w, c) == Resolve(w, d)
  }

  ghost function Delivered(ds: seq<Delivery>): set<Delivery> {
    set d | d in ds
  }

  lemma {:induction false} FirstGrantWitness(w: World, ds: seq<Delivery>, session: string)
    ensures FirstGrant(w, ds, session).Some? ==>
              exists d :: d in ds && d.session == session && Resolve(w, d) == FirstGrant(w, ds, session)
    ensures FirstGrant(w, ds, session).None? ==> forall d :: d in ds && d.session == session ==> Resolve(w, d).None?
  {
    if ds != [] {
      FirstGrantWitness(w, ds[1..], session);
      assert forall d :: d in ds <==> d == ds[0] || d in ds[1..];
    }
  }

  /** Duplicates and reordering change nothing when the deliveries agree. */
  lemma SameSetSameState(w: World, ds: seq<Delivery>, es: seq<Delivery>)
    requires Delivered(ds) == Delivered(es) && Agree(w, Delivered(ds))
    ensures Run(Empty, w, ds) == Run(Empty, w, es)
  {
    var a, b := Run(Empty, w, ds), Run(Empty, w, es);
    forall s
      ensures s in a.ledger <==> s in b.ledger
      ensures s in a.ledger ==> a.ledger[s] == b.ledger[s]
    {
      RunGrantsFirst(w, ds, s);
      RunGrantsFirst(w, es, s);
      FirstGrantWitness(w, ds, s);
      FirstGrantWitness(w, es, s);
      assert forall d :: d in ds <==> d in Delivered(ds);
      assert forall d :: d in es <==> d in Delivered(es);
    }
    RunBalanced(w, ds);
    RunBalanced(w, es);
    BalancedDetermined(a, b);
  }

  /** The final state depends only on the set of deliveries exactly when they agree. */
  lemma OrderIrrelevantIff(w: World, ds: seq<Delivery>)
    ensures Agree(w, Delivered(ds)) <==>
            forall es {:trigger Run(Empty, w, es)} :: Delivered(es) == Delivered(ds) ==>
              Run(Empty, w, es) == Run(Empty, w, ds)
  {
    if Agree(w, Delivered(ds)) {
      forall es | Delivered(es) == Delivered(ds) ensures Run(Empty, w, es) == Run(Empty, w, ds) {
        SameSetSameState(w, es, ds);
      }
    } else {
      var c, d :| c in Delivered(ds) && d in Delivered(ds) && c.session == d.session
                  && Resolve(w, c).Some? && Resolve(w, d).Some? && Resolve(w, c) != Resolve(w, d);
      RunGrantsFirst(w, [c] + ds, c.session);
      RunGrantsFirst(w, [d] + ds, c.session);
      assert Delivered([c] + ds) == Delivered(ds) == Delivered([d] + ds);
      assert Run(Empty, w, [c] + ds) != Run(Empty, w, [d] + ds);
    }
  }

  // ---------------------------------------------------------------- who is credited, and with how much

  /** The delivery buys credits for the owner: of a product that carries some, for the org it names, or for its user if
      it names none. */
  predicate BuysFor(w: World, d: Delivery, o: Owner) {
    && d.product in w.products && w.products[d.product].credits > 0
    && (if d.org.Some? then d.org.value in w.orgs && o == Org(d.org.value) else d.user in w.users && o == User(d.user))
  }

  function BalanceOf(st: State, o: Owner): int {
    if o in st.balances then st.balances[o] else 0
  }

  lemma ResolveMeans(w: World, d: Delivery, o: Owner)
    ensures BuysFor(w, d, o) <==> Resolve(w, d).Some? && Resolve(w, d).value.owner == o
    ensures BuysFor(w, d, o) ==>
              Resolve(w, d) == Some(Tx(o, w.products[d.product].credits, "purchase:" + w.products[d.product].name))
  {
  }

  /** One delivery: on a session not seen before it adds the product's credits to the balance of whom it buys for and
      writes the ledger row; it moves no other balance and no other row, and otherwise nothing at all. */
  lemma DeliveryEffect(st: State, w: World, d: Delivery, o: Owner)
    ensures var after := Deliver(st, w, d);
            && BalanceOf(after, o) ==
               BalanceOf(st, o)
                 + (if d.session !in st.ledger && BuysFor(w, d, o) then w.products[d.product].credits else 0)
            && (d.session !in st.ledger && BuysFor(w, d, o) ==>
                  after.ledger ==
                  st.ledger[d.session :=
                            Tx(o, w.products[d.product].credits, "purchase:" + w.products[d.product].name)])
            && (d.session in st.ledger || (forall p :: !BuysFor(w, d, p)) ==> after == st)
  {
    forall p ensures BuysFor(w, d, p) <==> Resolve(w, d).Some? && Resolve(w, d).value.owner == p {
      ResolveMeans(w, d, p);
    }
    ResolveMeans(w, d, o);
    hide Resolve, BuysFor;
    assert Resolve(w, d).Some? ==> BuysFor(w, d, Resolve(w, d).value.owner);
  }

  /** Some delivery of the session bought credits. */
  ghost predicate Bought(w: World, ds: seq<Delivery>, session: string) {
    exists i, o :: 0 <= i < |ds| && ds[i].session == session && BuysFor(w, ds[i], o)
  }

  /** What the sessions bought for the owner, each counted at the first delivery that buys. */
  ghost function Earned(w: World, ds: seq<Delivery>, o: Owner): int {
    if ds == [] then 0
    else
      var n := |ds| - 1;
      Earned(w, ds[..n], o)
      + if BuysFor(w, ds[n], o) && !Bought(w, ds[..n], ds[n].session) then w.products[ds[n].product].credits else 0
  }

  lemma {:induction false} LedgerHoldsBought(w: World, ds: seq<Delivery>, session: string)
    ensures session in Run(Empty, w, ds).ledger <==> Bought(w, ds, session)
  {
    if ds != [] {
      var n := |ds| - 1;
      LedgerHoldsBought(w, ds[..n], session);
      var before := Run(Empty, w, ds[..n]);
      forall o ensures BuysFor(w, ds[n], o) <==> Resolve(w, ds[n]).Some? && Resolve(w, ds[n]).value.owner == o {
        ResolveMeans(w, ds[n], o);
      }
      hide Resolve, BuysFor;
      if Bought(w, ds[..n], session) {
        var i, o :| 0 <= i < n && ds[..n][i].session == session && BuysFor(w, ds[..n][i], o);
        assert ds[i].session == session && BuysFor(w, ds[i], o);
      } else if ds[n].session == session && Resolve(w, ds[n]).Some? {
        assert BuysFor(w, ds[n], Resolve(w, ds[n]).value.owner);
      } else {
        forall i, o | 0 <= i < |ds| && ds[i].session == session ensures !BuysFor(w, ds[i], o) {
          assert i < n ==> ds[..n][i] == ds[i];
        }
      }
    }
  }

  /** Over any deliveries an owner's balance is what the distinct sessions bought for that owner. */
  lemma {:induction false} BalanceIsEarned(w: World, ds: seq<Delivery>, o: Owner)
    ensures BalanceOf(Run(Empty, w, ds), o) == Earned(w, ds, o)
  {
    if ds != [] {
      var n := |ds| - 1;
      BalanceIsEarned(w, ds[..n], o);
      DeliveryEffect(Run(Empty, w, ds[..n]), w, ds[n], o);
      LedgerHoldsBought(w, ds[..n], ds[n].session);
      hide BuysFor, Bought, Deliver;
    }
  }
}
