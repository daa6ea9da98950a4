/** The derived price table and the Celery job that recomputes it (apps/billing/tasks.py). */
module LocalizedPrices {
  import opened Prelude
  import opened Currency

  /** Exactly one of the two foreign keys of a row is set. */
  datatype Owner = PlanPrice(id: nat) | ProductPrice(id: nat)

  type Key = (Owner, string)

  datatype Row = Row(owner: Owner, currency: string, amountMinor: int, stripePriceId: Option<string>, syncedAt: int) {
    function Key(): Key { (owner, currency) }
  }

  /** A row loaded into memory, with the primary key it came from. */
  datatype Loaded = Loaded(id: nat, row: Row)

  type Table = map<nat, Row>

  /** Every way the exchange-rate request can end. */
  datatype Feed = Unreachable | NotSuccess | Malformed | Rates(rates: map<string, real>)

  const RowKey: Row -> Key := (r: Row) => r.Key()
  const LoadedId: Loaded -> nat := (l: Loaded) => l.id

  /** The declared uniqueness of (plan_price, currency) and (product_price, currency). */
  ghost predicate Unique(t: Table) {
    forall i, j :: i in t && j in t && t[i].Key() == t[j].Key() ==> i == j
  }

  ghost predicate HasRow(t: Table, k: Key) {
    exists i :: i in t && t[i].Key() == k
  }

  function Quoted(rates: map<string, real>): set<string> {
    set c | c in SUPPORTED_CURRENCIES && c != "usd" && c in rates
  }

  function NewAmounts(amount: int, rates: map<string, real>): (r: map<string, int>)
    ensures r.Keys == Quoted(rates)
  {
    map c | c in Quoted(rates) :: Localize(amount, rates[c], c)
  }

  function OwnerOf(forPlans: bool, id: nat): Owner {
    if forPlans then PlanPrice(id) else ProductPrice(id)
  }

  /** The two catalog tables seen as one: USD cents by owner. */
  function Catalog(plans: map<nat, int>, products: map<nat, int>): map<Owner, int> {
    (map id | id in plans :: PlanPrice(id) := plans[id]) + (map id | id in products :: ProductPrice(id) := products[id])
  }

  /** The stored amount every (price, quoted currency) pair should have. */
  ghost function Wanted(catalog: map<Owner, int>, rates: map<string, real>): map<Key, int> {
    map o, c | o in catalog && c in Quoted(rates) :: (o, c) := NewAmounts(catalog[o], rates)[c]
  }

  /** The pairs whose row is missing or holds another amount. */
  ghost function Moved(t: Table, want: map<Key, int>): set<Key> {
    set k | k in want && !(exists i :: i in t && t[i].Key() == k && t[i].amountMinor == want[k])
  }

  function NewRow(k: Key, amount: int, now: int): Row {
    Row(k.0, k.1, amount, None, now)
  }

  /** The pointwise recompute that a run must amount to. */
  ghost predicate Recomputed(before: Table, after: Table, want: map<Key, int>, now: int) {
    && Unique(after)
    && before.Keys <= after.Keys
    && (forall i :: i in before && before[i].Key() !in want ==> after[i] == before[i])
    && (forall i :: i in before && before[i].Key() in want ==>
          after[i] == before[i].(amountMinor := want[before[i].Key()], syncedAt := now))
    && (forall i :: i in after.Keys - before.Keys ==>
          after[i].Key() in want && after[i] == NewRow(after[i].Key(), want[after[i].Key()], now))
    && (forall k :: k in want ==> HasRow(after, k))
  }

  /** What the three work lists hold once the pairs in `done` have been looked at. */
  ghost predicate Accounted(t: Table, want: map<Key, int>, now: int, done: set<Key>,
                            create: seq<Row>, changed: seq<Loaded>, beat: seq<Loaded>)
  {
    && done <= want.Keys
    && DistinctBy(create, RowKey)
    && KeysBy(create, RowKey) == (set k | k in done && !HasRow(t, k))
    && (forall r :: r in create ==> r.Key() in want && r == NewRow(r.Key(), want[r.Key()], now))
    && DistinctBy(changed, LoadedId)
    && KeysBy(changed, LoadedId) == (set i | i in t && t[i].Key() in done && t[i].amountMinor != want[t[i].Key()])
    && (forall l :: l in changed ==> (
          l.id in t && t[l.id].Key() in want && l.row == t[l.id].(amountMinor := want[t[l.id].Key()], syncedAt := now)))
    && KeysBy(beat, LoadedId) == (set i | i in t && t[i].Key() in done && t[i].amountMinor == want[t[i].Key()])
    && (forall l :: l in beat ==> l.id in t && l.row == t[l.id].(syncedAt := now))
  }

  lemma AccountedUnion(t: Table, want: map<Key, int>, now: int, d1: set<Key>, d2: set<Key>,
                       create1: seq<Row>, changed1: seq<Loaded>, beat1: seq<Loaded>,
                       create2: seq<Row>, changed2: seq<Loaded>, beat2: seq<Loaded>)
    requires d1 !! d2
    requires Accounted(t, want, now, d1, create1, changed1, beat1)
    requires Accounted(t, want, now, d2, create2, changed2, beat2)
    ensures Accounted(t, want, now, d1 + d2, create1 + create2, changed1 + changed2, beat1 + beat2)
  {
    KeysByAppend(create1, create2, RowKey);
    KeysByAppend(changed1, changed2, LoadedId);
    KeysByAppend(beat1, beat2, LoadedId);
    forall i, j | 0 <= i < |create1| && 0 <= j < |create2| ensures create1[i].Key() != create2[j].Key() {
      assert RowKey(create1[i]) in KeysBy(create1, RowKey);
      assert RowKey(create2[j]) in KeysBy(create2, RowKey);
    }
    forall i, j | 0 <= i < |changed1| && 0 <= j < |changed2| ensures changed1[i].id != changed2[j].id {
      assert LoadedId(changed1[i]) in KeysBy(changed1, LoadedId);
      assert LoadedId(changed2[j]) in KeysBy(changed2, LoadedId);
    }
  }

  lemma {:induction false} KeyImageSize(t: Table, ids: set<nat>)
    requires Unique(t) && ids <= t.Keys
    ensures |KeysOf(t, ids)| == |ids|
  {
    if ids != {} {
      var x :| x in ids;
      KeyImageSize(t, ids - {x});
      assert KeysOf(t, ids) == KeysOf(t, ids - {x}) + {t[x].Key()};
    }
  }

  ghost function KeysOf(t: Table, ids: set<nat>): set<Key>
    requires ids <= t.Keys
  {
    set i | i in ids :: t[i].Key()
  }

  lemma MovedSplit(t: Table, want: map<Key, int>, missing: set<Key>, ids: set<nat>)
    requires Unique(t)
    requires missing == set k | k in want && !HasRow(t, k)
    requires ids == set i | i in t && t[i].Key() in want && t[i].amountMinor != want[t[i].Key()]
    ensures missing !! KeysOf(t, ids) && Moved(t, want) == missing + KeysOf(t, ids)
  {
    forall k | k in want && HasRow(t, k) ensures k in Moved(t, want) <==> k in KeysOf(t, ids) {
      var i :| i in t && t[i].Key() == k;
      assert i in ids ==> t[i].Key() in KeysOf(t, ids);
    }
  }

  /** One row per pair: once every target is accounted for, the list sizes count the moved pairs. */
  lemma ChangedCount(t: Table, want: map<Key, int>, now: int, create: seq<Row>, changed: seq<Loaded>, beat: seq<Loaded>)
    requires Unique(t)
    requires Accounted(t, want, now, want.Keys, create, changed, beat)
    ensures |create| + |changed| == |Moved(t, want)|
  {
    var missing, ids := KeysBy(create, RowKey), KeysBy(changed, LoadedId);
    assert ids <= t.Keys;
    DistinctCount(create, RowKey);
    DistinctCount(changed, LoadedId);
    MovedSplit(t, want, missing, ids);
    KeyImageSize(t, ids);
  }

  /** One pair with no row, or whose row is `i`. */
  lemma AccountedOne(t: Table, want: map<Key, int>, now: int, k: Key, i: Option<nat>)
    requires Unique(t) && k in want
    requires i.None? ==> !HasRow(t, k)
    requires i.Some? ==> i.value in t && t[i.value].Key() == k
    ensures i.None? ==> Accounted(t, want, now, {k}, [NewRow(k, want[k], now)], [], [])
    ensures i.Some? && t[i.value].amountMinor != want[k] ==>
              Accounted(t, want, now, {k}, [], [Loaded(i.value, t[i.value].(amountMinor := want[k], syncedAt := now))],
                        [])
    ensures i.Some? && t[i.value].amountMinor == want[k] ==>
              Accounted(t, want, now, {k}, [], [], [Loaded(i.value, t[i.value].(syncedAt := now))])
  {
    KeysByOne(NewRow(k, want[k], now), RowKey);
    assert KeysBy<Row, Key>([], RowKey) == {};
    assert KeysBy<Loaded, nat>([], LoadedId) == {};
    if i.Some? {
      KeysByOne(Loaded(i.value, t[i.value].(amountMinor := want[k], syncedAt := now)), LoadedId);
      KeysByOne(Loaded(i.value, t[i.value].(syncedAt := now)), LoadedId);
    }
  }

  ghost function Pairs(owner: Owner, currencies: set<string>): set<Key> {
    set c | c in currencies :: (owner, c)
  }

  lemma PairsAdd(owner: Owner, currencies: set<string>, c: string)
    ensures Pairs(owner, currencies + {c}) == Pairs(owner, currencies) + {(owner, c)}
  {
  }

  lemma AccountedNone(t: Table, want: map<Key, int>, now: int)
    ensures Accounted(t, want, now, {}, [], [], [])
  {
    assert KeysBy<Row, Key>([], RowKey) == {};
    assert KeysBy<Loaded, nat>([], LoadedId) == {};
  }

  ghost function AllPairs(owners: set<Owner>, currencies: set<string>): set<Key> {
    set o, c | o in owners && c in currencies :: (o, c)
  }

  lemma AllPairsAdd(owners: set<Owner>, o: Owner, currencies: set<string>)
    ensures AllPairs(owners + {o}, currencies) == AllPairs(owners, currencies) + Pairs(o, currencies)
    ensures o !in owners ==> AllPairs(owners, currencies) !! Pairs(o, currencies)
  {
  }

  ghost function Owners(forPlans: bool, ids: set<nat>): set<Owner> {
    set id | id in ids :: OwnerOf(forPlans, id)
  }

  ghost predicate WantsOwner(want: map<Key, int>, o: Owner, amount: int, rates: map<string, real>) {
    forall c :: c in Quoted(rates) ==> (o, c) in want && want[(o, c)] == NewAmounts(amount, rates)[c]
  }

  lemma WantedOwner(catalog: map<Owner, int>, rates: map<string, real>, o: Owner)
    requires o in catalog
    ensures WantsOwner(Wanted(catalog, rates), o, catalog[o], rates)
  {
    hide NewAmounts, Quoted;
  }

  lemma WantedOwners(plans: map<nat, int>, products: map<nat, int>, rates: map<string, real>)
    ensures forall id :: id in plans ==>
            WantsOwner(Wanted(Catalog(plans, products), rates), OwnerOf(true, id), plans[id], rates)
    ensures forall id :: id in products ==>
            WantsOwner(Wanted(Catalog(plans, products), rates), OwnerOf(false, id), products[id], rates)
  {
    hide WantsOwner, Wanted;
    var catalog := Catalog(plans, products);
    forall id | id in plans ensures WantsOwner(Wanted(catalog, rates), OwnerOf(true, id), plans[id], rates) {
      WantedOwner(catalog, rates, PlanPrice(id));
    }
    forall id | id in products ensures WantsOwner(Wanted(catalog, rates), OwnerOf(false, id), products[id], rates) {
      WantedOwner(catalog, rates, ProductPrice(id));
    }
  }

  lemma WantedPairs(plans: map<nat, int>, products: map<nat, int>, rates: map<string, real>)
    ensures AllPairs(Owners(true, plans.Keys) + Owners(false, products.Keys), Quoted(rates))
            == Wanted(Catalog(plans, products), rates).Keys
    ensures AllPairs({}, Quoted(rates)) == {}
  {
    hide Localize;
    var catalog := Catalog(plans, products);
    assert catalog.Keys == Owners(true, plans.Keys) + Owners(false, products.Keys);
  }

  /** Looking at one more pair k extends exactly one of the three lists. */
  lemma AccountedStep(t: Table, want: map<Key, int>, now: int, done: set<Key>, k: Key, i: Option<nat>,
                      create: seq<Row>, changed: seq<Loaded>, beat: seq<Loaded>)
    requires Unique(t) && Accounted(t, want, now, done, create, changed, beat)
    requires k in want && k !in done
    requires i.None? ==> !HasRow(t, k)
    requires i.Some? ==> i.value in t && t[i.value].Key() == k
    ensures i.None? ==> Accounted(t, want, now, done + {k}, create + [NewRow(k, want[k], now)], changed, beat)
    ensures i.Some? && t[i.value].amountMinor != want[k] ==>
              Accounted(t, want, now, done + {k}, create,
                        changed + [Loaded(i.value, t[i.value].(amountMinor := want[k], syncedAt := now))], beat)
    ensures i.Some? && t[i.value].amountMinor == want[k] ==>
              Accounted(t, want, now, done + {k}, create, changed,
                        beat + [Loaded(i.value, t[i.value].(syncedAt := now))])
  {
    AccountedOne(t, want, now, k, i);
    assert create + [] == create && changed + [] == changed && beat + [] == beat;
    if i.None? {
      AccountedUnion(t, want, now, done, {k}, create, changed, beat, [NewRow(k, want[k], now)], [], []);
    } else if t[i.value].amountMinor != want[k] {
      AccountedUnion(t, want, now, done, {k}, create, changed, beat,
                     [], [Loaded(i.value, t[i.value].(amountMinor := want[k], syncedAt := now))], []);
    } else {
      AccountedUnion(t, want, now, done, {k}, create, changed, beat, [], [],
                     [Loaded(i.value, t[i.value].(syncedAt := now))]);
    }
  }

  /** The three bulk writes of a run, in order. */
  ghost predicate BulkWrites(t: Table, next: nat, t1: Table, t2: Table, after: Table,
                             create: seq<Row>, changed: seq<Loaded>, beat: seq<Loaded>)
  {
    Inserted(t, next, t1, create) && Overlaid(t1, t2, changed) && Overlaid(t2, after, beat)
  }

  lemma BulkWritesOldRow(t: Table, next: nat, t1: Table, t2: Table, after: Table, want: map<Key, int>, now: int,
                         create: seq<Row>, changed: seq<Loaded>, beat: seq<Loaded>, i: nat)
    requires Accounted(t, want, now, want.Keys, create, changed, beat)
    requires BulkWrites(t, next, t1, t2, after, create, changed, beat) && i in t
    ensures i < next && i in after
    ensures after[i] == if t[i].Key() in want then t[i].(amountMinor := want[t[i].Key()], syncedAt := now) else t[i]
  {
    assert i in KeysBy(changed, LoadedId) <==> t[i].Key() in want && t[i].amountMinor != want[t[i].Key()];
    assert i in KeysBy(beat, LoadedId) <==> t[i].Key() in want && t[i].amountMinor == want[t[i].Key()];
  }

  lemma BulkWritesNewRow(t: Table, next: nat, t1: Table, t2: Table, after: Table, want: map<Key, int>, now: int,
                         create: seq<Row>, changed: seq<Loaded>, beat: seq<Loaded>, j: nat)
    requires Accounted(t, want, now, want.Keys, create, changed, beat)
    requires BulkWrites(t, next, t1, t2, after, create, changed, beat) && j < |create|
    ensures next + j in after && after[next + j] == create[j]
    ensures create[j].Key() in want && !HasRow(t, create[j].Key())
    ensures create[j] == NewRow(create[j].Key(), want[create[j].Key()], now)
  {
    assert next + j in t1 && next + j !in t;
    assert next + j !in KeysBy(changed, LoadedId) && next + j !in KeysBy(beat, LoadedId);
    assert RowKey(create[j]) in KeysBy(create, RowKey);
  }

  lemma BulkWritesComplete(t: Table, next: nat, t1: Table, t2: Table, after: Table, want: map<Key, int>, now: int,
                           create: seq<Row>, changed: seq<Loaded>, beat: seq<Loaded>, k: Key)
    requires Accounted(t, want, now, want.Keys, create, changed, beat)
    requires BulkWrites(t, next, t1, t2, after, create, changed, beat) && k in want
    ensures HasRow(after, k)
  {
    if HasRow(t, k) {
      var i :| i in t && t[i].Key() == k;
      BulkWritesOldRow(t, next, t1, t2, after, want, now, create, changed, beat, i);
    } else {
      assert k in KeysBy(create, RowKey);
      var j :| 0 <= j < |create| && RowKey(create[j]) == k;
      BulkWritesNewRow(t, next, t1, t2, after, want, now, create, changed, beat, j);
    }
  }

  lemma BulkWritesUnique(t: Table, next: nat, t1: Table, t2: Table, after: Table, want: map<Key, int>, now: int,
                         create: seq<Row>, changed: seq<Loaded>, beat: seq<Loaded>, i: nat, j: nat)
    requires Unique(t) && Accounted(t, want, now, want.Keys, create, changed, beat)
    requires BulkWrites(t, next, t1, t2, after, create, changed, beat)
    requires i in after && j in after && i < j
    ensures after[i].Key() != after[j].Key()
  {
    if i in t {
      BulkWritesOldRow(t, next, t1, t2, after, want, now, create, changed, beat, i);
    } else {
      BulkWritesNewRow(t, next, t1, t2, after, want, now, create, changed, beat, i - next);
    }
    if j in t {
      BulkWritesOldRow(t, next, t1, t2, after, want, now, create, changed, beat, j);
    } else {
      BulkWritesNewRow(t, next, t1, t2, after, want, now, create, changed, beat, j - next);
      if i !in t { assert RowKey(create[i - next]) != RowKey(create[j - next]); }
    }
  }

  /** After the three bulk writes the table is the pointwise recompute. */
  lemma BulkWritesRecompute(t: Table, next: nat, t1: Table, t2: Table, after: Table, want: map<Key, int>, now: int,
                            create: seq<Row>, changed: seq<Loaded>, beat: seq<Loaded>)
    requires Unique(t) && Accounted(t, want, now, want.Keys, create, changed, beat)
    requires BulkWrites(t, next, t1, t2, after, create, changed, beat)
    ensures Recomputed(t, after, want, now)
    ensures Unique(after) && forall i :: i in after ==> i < next + |create|
  {
    forall i | i in t
      ensures i in after
      ensures after[i] == if t[i].Key() in want then t[i].(amountMinor := want[t[i].Key()], syncedAt := now) else t[i]
    {
      BulkWritesOldRow(t, next, t1, t2, after, want, now, create, changed, beat, i);
    }
    forall i | i in after.Keys - t.Keys
      ensures after[i].Key() in want && after[i] == NewRow(after[i].Key(), want[after[i].Key()], now)
    {
      BulkWritesNewRow(t, next, t1, t2, after, want, now, create, changed, beat, i - next);
    }
    forall k | k in want ensures HasRow(after, k) {
      BulkWritesComplete(t, next, t1, t2, after, want, now, create, changed, beat, k);
    }
    forall i, j | i in after && j in after && i < j ensures after[i].Key() != after[j].Key() {
      BulkWritesUnique(t, next, t1, t2, after, want, now, create, changed, beat, i, j);
    }
  }

  /** The listed rows are inserted under the next free ids, each once. */
  ghost predicate Inserted(t: Table, next: nat, after: Table, create: seq<Row>) {
    && (forall i :: i in after <==> i in t || next <= i < next + |create|)
    && (forall i :: i in t ==> i < next && after[i] == t[i])
    && (forall j :: 0 <= j < |create| ==> after[next + j] == create[j])
  }

  /** The listed rows hold the listed values; no other row moved. */
  ghost predicate Overlaid(t: Table, after: Table, updates: seq<Loaded>) {
    && after.Keys == t.Keys
    && (forall i :: i in t && i !in KeysBy(updates, LoadedId) ==> after[i] == t[i])
    && (forall l :: l in updates && l.id in t ==> after[l.id] == l.row)
  }

  /** The loaded rows differ from the stored ones only in the columns about to be written. */
  ghost predicate Updatable(t: Table, updates: seq<Loaded>, withAmount: bool) {
    && (forall l :: l in updates ==> (
          l.id in t && l.row == t[l.id].(syncedAt := l.row.syncedAt,
                                         amountMinor := if withAmount then l.row.amountMinor else t[l.id].amountMinor)))
    && (forall l, m :: l in updates && m in updates && l.id == m.id ==> l.row == m.row)
  }

  lemma AccountedUpdatable(t: Table, next: nat, t1: Table, want: map<Key, int>, now: int,
                           create: seq<Row>, changed: seq<Loaded>, beat: seq<Loaded>)
    requires Accounted(t, want, now, want.Keys, create, changed, beat) && Inserted(t, next, t1, create)
    ensures Updatable(t1, changed, true)
  {
  }

  lemma OverlaidUpdatable(t: Table, next: nat, t1: Table, t2: Table, want: map<Key, int>, now: int,
                          create: seq<Row>, changed: seq<Loaded>, beat: seq<Loaded>)
    requires Accounted(t, want, now, want.Keys, create, changed, beat)
    requires Inserted(t, next, t1, create) && Overlaid(t1, t2, changed)
    ensures Updatable(t2, beat, false)
  {
    forall l | l in beat ensures t2[l.id] == t[l.id] {
      var j :| 0 <= j < |beat| && beat[j] == l;
      assert LoadedId(beat[j]) in KeysBy(beat, LoadedId);
    }
  }

  class PriceTable {
    var rows: Table
    var next: nat   // stands in for uuid4: every used id lies below it

    ghost predicate Valid() reads this {
      Unique(rows) && forall i :: i in rows ==> i < next
    }

    constructor ()
      ensures Valid() && rows == map[]
    {
      rows, next := map[], 0;
    }

    method ComputeNewAmounts(amount: int, rates: map<string, real>) returns (result: map<string, int>)
      ensures result == NewAmounts(amount, rates)
    {
      hide RoundFriendly, ToMinorUnits, FormatAmount;
      result := map[];
      var todo := SUPPORTED_CURRENCIES;
      while todo != {}
        invariant todo <= SUPPORTED_CURRENCIES
        invariant result.Keys == Quoted(rates) - todo
        invariant forall c :: c in result ==> result[c] == Localize(amount, rates[c], c)
      {
        var currency :| currency in todo;
        todo := todo - {currency};
        if currency != "usd" && currency in rates {
          LocalizeSteps(amount, rates[currency], currency);
          var display := RoundFriendly(FormatAmount(amount, "usd") * rates[currency], currency);
          result := result[currency := ToMinorUnits(display, currency)];
        }
      }
    }

    /** The bucket of one owner: its rows by currency. */
    ghost predicate IsBucket(owner: Owner, bucket: map<string, nat>) reads this {
      && (forall c :: c in bucket ==> bucket[c] in rows && rows[bucket[c]].Key() == (owner, c))
      && (forall i :: i in rows && rows[i].owner == owner ==> rows[i].currency in bucket)
    }

    method Buckets(forPlans: bool) returns (buckets: map<nat, map<string, nat>>)
      requires Valid()
      ensures forall o: Owner :: o.PlanPrice? == forPlans ==>
                IsBucket(o, if o.id in buckets then buckets[o.id] else map[])
    {
      buckets := map[];
      var todo := rows.Keys;
      while todo != {}
        invariant todo <= rows.Keys
        invariant forall id, c :: id in buckets && c in buckets[id] ==>
                    var i := buckets[id][c];
                    i in rows && rows[i].Key() == (if forPlans then PlanPrice(id) else ProductPrice(id), c)
        invariant forall i :: i in rows.Keys - todo && rows[i].owner.PlanPrice? == forPlans ==>
                    rows[i].owner.id in buckets && rows[i].currency in buckets[rows[i].owner.id]
      {
        var i :| i in todo;
        todo := todo - {i};
        var lp := rows[i];
        if lp.owner.PlanPrice? == forPlans {
          var bucket := if lp.owner.id in buckets then buckets[lp.owner.id] else map[];
          buckets := buckets[lp.owner.id := bucket[lp.currency := i]];
        }
      }
    }

    /** The body of the currency loop: one pair goes to one of the three lists. */
    method Place(owner: Owner, currency: string, newAmount: int, bucket: map<string, nat>, now: int,
                 ghost want: map<Key, int>,
                 ghost done: set<Key>, create0: seq<Row>, changed0: seq<Loaded>, beat0: seq<Loaded>)
      returns (create: seq<Row>, changed: seq<Loaded>, beat: seq<Loaded>)
      requires Valid() && IsBucket(owner, bucket)
      requires (owner, currency) in want && want[(owner, currency)] == newAmount && (owner, currency) !in done
      requires Accounted(rows, want, now, done, create0, changed0, beat0)
      ensures Accounted(rows, want, now, done + {(owner, currency)}, create, changed, beat)
    {
      create, changed, beat := create0, changed0, beat0;
      if currency !in bucket {
        AccountedStep(rows, want, now, done, (owner, currency), None, create, changed, beat);
        create := create + [Row(owner, currency, newAmount, None, now)];
      } else {
        var id := bucket[currency];
        AccountedStep(rows, want, now, done, (owner, currency), Some(id), create, changed, beat);
        if rows[id].amountMinor != newAmount {
          changed := changed + [Loaded(id, rows[id].(amountMinor := newAmount, syncedAt := now))];
        } else {
          beat := beat + [Loaded(id, rows[id].(syncedAt := now))];
        }
      }
    }

    /** One price: its create, change and heartbeat lists, and how many pairs it counts as changed. */
    method UpsertForPrice(owner: Owner, newAmounts: map<string, int>, bucket: map<string, nat>, now: int,
                          ghost want: map<Key, int>)
      returns (create: seq<Row>, changed: seq<Loaded>, beat: seq<Loaded>, n: nat)
      requires Valid() && IsBucket(owner, bucket)
      requires forall c :: c in newAmounts ==> (owner, c) in want && want[(owner, c)] == newAmounts[c]
      ensures Accounted(rows, want, now, Pairs(owner, newAmounts.Keys), create, changed, beat)
      ensures n == |create| + |changed|
    {
      hide Accounted;
      create, changed, beat := [], [], [];
      var todo := newAmounts.Keys;
      ghost var done: set<string> := {};
      AccountedNone(rows, want, now);
      assert Pairs(owner, {}) == {};
      while todo != {}
        invariant todo + done == newAmounts.Keys && todo !! done
        invariant Accounted(rows, want, now, Pairs(owner, done), create, changed, beat)
        decreases |todo|
      {
        var currency :| currency in todo;
        create, changed,
          beat := Place(owner, currency, newAmounts[currency], bucket, now, want, Pairs(owner, done), create, changed,
                        beat);
        PairsAdd(owner, done, currency);
        todo, done := todo - {currency}, done + {currency};
      }
      assert done == newAmounts.Keys;
      n := |create| + |changed|;
    }

    /** The body of the price loop. */
    method UpsertOne(owner: Owner, amount: int, bucket: map<string, nat>, rates: map<string, real>, now: int,
                     ghost want: map<Key, int>, ghost seen: set<Owner>,
                     create0: seq<Row>, changed0: seq<Loaded>, beat0: seq<Loaded>, n0: nat)
      returns (create: seq<Row>, changed: seq<Loaded>, beat: seq<Loaded>, n: nat)
      requires Valid() && IsBucket(owner, bucket) && n0 == |create0| + |changed0| && owner !in seen
      requires WantsOwner(want, owner, amount, rates)
      requires Accounted(rows, want, now, AllPairs(seen, Quoted(rates)), create0, changed0, beat0)
      ensures Accounted(rows, want, now, AllPairs(seen + {owner}, Quoted(rates)), create, changed, beat)
      ensures n == |create| + |changed|
    {
      hide Accounted, Localize;
      var newAmounts := ComputeNewAmounts(amount, rates);
      var c, u, h, k := UpsertForPrice(owner, newAmounts, bucket, now, want);
      AccountedUnion(rows, want, now, AllPairs(seen, Quoted(rates)), Pairs(owner, Quoted(rates)), create0, changed0,
                     beat0, c, u, h);
      AllPairsAdd(seen, owner, Quoted(rates));
      create, changed, beat, n := create0 + c, changed0 + u, beat0 + h, n0 + k;
    }

    /** One of the two source tables: every price against its bucket. */
    method UpsertSource(prices: map<nat, int>, forPlans: bool, rates: map<string, real>, now: int,
                        ghost want: map<Key, int>,
                        ghost done: set<Owner>, create0: seq<Row>, changed0: seq<Loaded>, beat0: seq<Loaded>, n0: nat)
      returns (create: seq<Row>, changed: seq<Loaded>, beat: seq<Loaded>, n: nat)
      requires Valid() && n0 == |create0| + |changed0|
      requires forall id :: id in prices ==> OwnerOf(forPlans, id) !in done
      requires forall id :: id in prices ==> WantsOwner(want, OwnerOf(forPlans, id), prices[id], rates)
      requires Accounted(rows, want, now, AllPairs(done, Quoted(rates)), create0, changed0, beat0)
      ensures Accounted(rows, want, now, AllPairs(done + Owners(forPlans, prices.Keys), Quoted(rates)), create,
                        changed, beat)
      ensures n == |create| + |changed|
    {
      hide Accounted, WantsOwner, AllPairs, Quoted;
      create, changed, beat, n := create0, changed0, beat0, n0;
      var buckets := Buckets(forPlans);
      var todo := prices.Keys;
      ghost var seen := done;
      while todo != {}
        invariant todo <= prices.Keys
        invariant seen == done + Owners(forPlans, prices.Keys - todo)
        invariant n == |create| + |changed|
        invariant Accounted(rows, want, now, AllPairs(seen, Quoted(rates)), create, changed, beat)
      {
        var id :| id in todo;
        create, changed, beat,
          n := UpsertOne(OwnerOf(forPlans, id), prices[id], if id in buckets then buckets[id] else map[],
                                              rates, now, want, seen, create, changed, beat, n);
        seen := seen + {OwnerOf(forPlans, id)};
        todo := todo - {id};
      }
      assert prices.Keys - todo == prices.Keys;
    }

    method BulkCreate(create: seq<Row>)
      requires forall i :: i in rows ==> i < next
      modifies this
      ensures Inserted(old(rows), old(next), rows, create)
      ensures next == old(next) + |create|
    {
      for j := 0 to |create|
        invariant next == old(next) + j && Inserted(old(rows), old(next), rows, create[..j])
      {
        rows := rows[next := create[j]];
        next := next + 1;
      }
      assert create[..|create|] == create;
    }

    /** Writes the named columns of the listed rows: always synced_at, and amount_minor when asked. */
    method BulkUpdate(updates: seq<Loaded>, withAmount: bool)
      requires Updatable(rows, updates, withAmount)
      modifies this`rows
      ensures Overlaid(old(rows), rows, updates)
    {
      for j := 0 to |updates|
        invariant rows.Keys == old(rows).Keys
        invariant forall i :: i in rows && i !in KeysBy(updates[..j], LoadedId) ==> rows[i] == old(rows)[i]
        invariant forall k :: 0 <= k < j ==> rows[updates[k].id] == updates[k].row
      {
        var l := updates[j];
        KeysByAppend(updates[..j], [l], LoadedId);
        KeysByOne(l, LoadedId);
        assert updates[..j + 1] == updates[..j] + [l];
        assert l in updates;
        var row := rows[l.id];
        rows := rows[l.id := if withAmount then row.(amountMinor := l.row.amountMinor, syncedAt := l.row.syncedAt)
                             else row.(syncedAt := l.row.syncedAt)];
      }
      assert updates[..|updates|] == updates;
    }

    /** The bulk writes at the end of the transaction. */
    method WriteLists(create: seq<Row>, changed: seq<Loaded>, beat: seq<Loaded>, ghost want: map<Key, int>,
                      ghost now: int)
      requires Valid() && Accounted(rows, want, now, want.Keys, create, changed, beat)
      modifies this
      ensures Valid() && Recomputed(old(rows), rows, want, now)
    {
      hide Accounted, Recomputed, Inserted, Overlaid, Updatable;
      ghost var t, n0 := rows, next;
      BulkCreate(create);
      ghost var t1 := rows;
      AccountedUpdatable(t, n0, t1, want, now, create, changed, beat);
      BulkUpdate(changed, true);
      ghost var t2 := rows;
      OverlaidUpdatable(t, n0, t1, t2, want, now, create, changed, beat);
      BulkUpdate(beat, false);
      BulkWritesRecompute(t, n0, t1, t2, rows, want, now, create, changed, beat);
    }

    method SyncLocalizedPrices(feed: Feed, plans: map<nat, int>, products: map<nat, int>, now: int)
      returns (changed: nat)
      requires Valid()
      modifies this
      ensures Valid()
      ensures !feed.Rates? ==> changed == 0 && rows == old(rows)
      ensures feed.Rates? ==>
                var want := Wanted(Catalog(plans, products), feed.rates);
                changed == |Moved(old(rows), want)| && Recomputed(old(rows), rows, want, now)
    {
      hide Accounted, Recomputed, Moved, Wanted, WantsOwner, AllPairs, Quoted, Catalog;
      if !feed.Rates? {
        return 0;
      }
      ghost var want := Wanted(Catalog(plans, products), feed.rates);
      AccountedNone(rows, want, now);
      WantedOwners(plans, products, feed.rates);
      WantedPairs(plans, products, feed.rates);
      var create, update, beat, n := UpsertSource(plans, true, feed.rates, now, want, {}, [], [], [], 0);
      assert {} + Owners(true, plans.Keys) == Owners(true, plans.Keys);
      create, update, beat,
        changed := UpsertSource(products, false, feed.rates, now, want, Owners(true, plans.Keys), create, update, beat,
                                n);
      ChangedCount(rows, want, now, create, update, beat);
      WriteLists(create, update, beat, want, now);
    }
  }

  // ---------------------------------------------------------------- what a run amounts to

  /** The stored amount of a pair, if it has a row. */
  ghost predicate Stored(t: Table, k: Key, amount: int) {
    exists i :: i in t && t[i].Key() == k && t[i].amountMinor == amount
  }

  /** Every wanted pair ends with exactly one row holding exactly the wanted amount, whatever was stored before. */
  lemma RecomputedPointwise(before: Table, after: Table, want: map<Key, int>, now: int, k: Key, amount: int)
    requires Recomputed(before, after, want, now)
    ensures k in want ==> (Stored(after, k, amount) <==> amount == want[k])
    ensures k !in want ==> (Stored(after, k, amount) <==> Stored(before, k, amount))
  {
    if k in want {
      var i :| i in after && after[i].Key() == k;
      assert after[i].amountMinor == want[k];
    } else if Stored(before, k, amount) {
      var i :| i in before && before[i].Key() == k && before[i].amountMinor == amount;
      assert after[i] == before[i];
    }
  }

  /** A second run under the same rates finds nothing to change, adds no row and writes only heartbeats. */
  lemma SecondRunIsHeartbeat(t0: Table, t1: Table, t2: Table, want: map<Key, int>, now1: int, now2: int)
    requires Recomputed(t0, t1, want, now1) && Recomputed(t1, t2, want, now2)
    ensures Moved(t1, want) == {}
    ensures t2.Keys == t1.Keys
    ensures forall i :: i in t1 ==> t2[i] == t1[i].(syncedAt := if t1[i].Key() in want then now2 else t1[i].syncedAt)
  {
    forall k | k in want ensures k !in Moved(t1, want) {
      RecomputedPointwise(t0, t1, want, now1, k, want[k]);
    }
    forall i | i in t1 && t1[i].Key() in want ensures t1[i].amountMinor == want[t1[i].Key()] {
      assert Stored(t1, t1[i].Key(), t1[i].amountMinor);
      RecomputedPointwise(t0, t1, want, now1, t1[i].Key(), t1[i].amountMinor);
    }
    assert forall i :: i in t2 && i !in t1 ==> HasRow(t1, t2[i].Key());
  }

  lemma WantedAmount(catalog: map<Owner, int>, rates: map<string, real>, o: Owner, c: string)
    requires o in catalog && c in Quoted(rates)
    ensures (o, c) in Wanted(catalog, rates) && Wanted(catalog, rates)[(o, c)] == Localize(catalog[o], rates[c], c)
  {
    hide Localize;
  }

  /** Once the table is recomputed, two prices keep their USD order in a quoted currency with exactly one exception: a
      price that converts to nothing against one that snaps below zero. */
  lemma StoredPricesKeepOrder(before: Table, after: Table, catalog: map<Owner, int>, rates: map<string, real>, now: int,
                              p: Owner, q: Owner, c: string, x: int, y: int)
    requires Recomputed(before, after, Wanted(catalog, rates), now)
    requires p in catalog && q in catalog && c in Quoted(rates) && rates[c] >= 0.0
    requires catalog[p] <= catalog[q]
    requires Stored(after, (p, c), x) && Stored(after, (q, c), y)
    ensures x <= y
            <==> ZeroDecimal(c) || !(Converted(catalog[p], rates[c]) <= 0.0 < Converted(catalog[q], rates[c]) <= 0.24)
  {
    hide Localize, Wanted, Recomputed, Stored, ZeroDecimal, Converted;
    RecomputedPointwise(before, after, Wanted(catalog, rates), now, (p, c), x);
    RecomputedPointwise(before, after, Wanted(catalog, rates), now, (q, c), y);
    WantedAmount(catalog, rates, p, c);
    WantedAmount(catalog, rates, q, c);
    LocalizeKeepsOrder(catalog[p], catalog[q], rates[c], c);
  }

  /** The price row, in the tables a run reads. */
  predicate Priced(plans: map<nat, int>, products: map<nat, int>, owner: Owner, cents: int) {
    match owner
    case PlanPrice(id) => id in plans && plans[id] == cents
    case ProductPrice(id) => id in products && products[id] == cents
  }

  /** A currency amounts are stored in: supported, quoted, and not the dollar itself. */
  predicate Stores(rates: map<string, real>, c: string) {
    c in SUPPORTED_CURRENCIES && c in rates && c != "usd"
  }

  lemma WantedMeans(plans: map<nat, int>, products: map<nat, int>, rates: map<string, real>, owner: Owner, c: string)
    ensures (owner, c) in Wanted(Catalog(plans, products), rates) <==>
            Stores(rates, c) && exists cents :: Priced(plans, products, owner, cents)
    ensures forall cents :: Stores(rates, c) && Priced(plans, products, owner, cents) ==>
              Wanted(Catalog(plans, products), rates)[(owner, c)] == Localize(cents, rates[c], c)
  {
    var catalog := Catalog(plans, products);
    assert owner in catalog <==> exists cents :: Priced(plans, products, owner, cents) by {
      if owner in catalog {
        assert Priced(plans, products, owner, catalog[owner]);
      }
    }
    assert c in Quoted(rates) <==> Stores(rates, c);
    if owner in catalog && c in Quoted(rates) {
      WantedAmount(catalog, rates, owner, c);
    }
    hide Localize;
  }

  /** What a run leaves, row by row. Every price has, in every such currency, one row with its localized amount, synced
      now; a row that was there keeps its key and its Stripe price, and a new one has none. Every other row is as it
      was. */
  lemma RunStores(before: Table, after: Table, plans: map<nat, int>, products: map<nat, int>, rates: map<string, real>,
                  now: int, owner: Owner, c: string, cents: int)
    requires Recomputed(before, after, Wanted(Catalog(plans, products), rates), now)
    requires Priced(plans, products, owner, cents) && Stores(rates, c)
    ensures exists i ::
              && i in after && after[i].owner == owner && after[i].currency == c
              && after[i].amountMinor == Localize(cents, rates[c], c) && after[i].syncedAt == now
              && (i in before ==> before[i].owner == owner && before[i].currency == c
                                  && after[i].stripePriceId == before[i].stripePriceId)
              && (i !in before ==> after[i].stripePriceId == None)
              && forall j :: j in after && after[j].owner == owner && after[j].currency == c ==> j == i
  {
    var want := Wanted(Catalog(plans, products), rates);
    WantedMeans(plans, products, rates, owner, c);
    hide Wanted, Catalog, Localize, Priced, Stores;
    assert HasRow(after, (owner, c));
    var i :| i in after && after[i].Key() == (owner, c);
    if i in before {
      RecomputedKeepsKey(before, after, want, now, i);
    }
    forall j | j in after && after[j].owner == owner && after[j].currency == c ensures j == i {
      assert after[j].Key() == (owner, c);
    }
  }

  lemma RecomputedKeepsKey(before: Table, after: Table, want: map<Key, int>, now: int, i: nat)
    requires Recomputed(before, after, want, now) && i in before
    ensures i in after && after[i].Key() == before[i].Key() && after[i].stripePriceId == before[i].stripePriceId
  {
  }

  /** A row of a price that is gone, or in a currency no longer quoted, is left alone; and no row is added for one. */
  lemma RunLeavesRest(before: Table, after: Table, plans: map<nat, int>, products: map<nat, int>,
                      rates: map<string, real>,
                      now: int, i: nat)
    requires Recomputed(before, after, Wanted(Catalog(plans, products), rates), now)
    requires i in after
             && !(Stores(rates, after[i].currency) && exists cents :: Priced(plans, products, after[i].owner, cents))
    ensures i in before && after[i] == before[i]
  {
    WantedMeans(plans, products, rates, after[i].owner, after[i].currency);
    hide Wanted, Catalog, Priced, Stores;
    assert after[i].Key() !in Wanted(Catalog(plans, products), rates);
    if i in before {
      RecomputedKeepsKey(before, after, Wanted(Catalog(plans, products), rates), now, i);
    }
  }
}
