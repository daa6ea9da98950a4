/** Mirroring the local catalog into Stripe (apps/billing/management/commands/sync_stripe_catalog.py). */
module CatalogSync {
  import opened Prelude

  datatype Product = Product(name: string, description: Option<string>, metadata: map<string, string>)

  datatype Price = Price(product: nat, unitAmount: int, currency: string, interval: Option<string>, active: bool,
                         lookupKey: Option<string>, metadata: map<string, string>)

  /** The Stripe account; every id in use lies below `next`. */
  datatype Store = Store(products: map<nat, Product>, prices: map<nat, Price>, next: nat)

  /** A price as the bulk fetch saw it, its product expanded. */
  datatype Snapshot = Snapshot(id: nat, price: Price, product: Product)

  /** One (catalog entry, currency) pair to bring in line, and the local column its price id goes to. */
  datatype Job = Job(key: string, amount: int, currency: string, interval: Option<string>, name: string,
                     description: Option<string>,
                     productMeta: map<string, string>, priceMeta: map<string, string>, column: Column)

  datatype Column = PlanColumn(id: nat, currency: string) | ProductColumn(id: nat, currency: string)

  type Columns = map<Column, Option<nat>>

  // ---------------------------------------------------------------- Stripe's rules

  ghost predicate Holds(st: Store, key: string, i: nat) {
    i in st.prices && st.prices[i].lookupKey == Some(key)
  }

  ghost predicate Valid(st: Store) {
    && (forall i :: i in st.prices ==> i < st.next && st.prices[i].product in st.products)
    && (forall p :: p in st.products ==> p < st.next)
    && (forall key, i, j :: Holds(st, key, i) && Holds(st, key, j) ==> i == j)
  }

  function CreateProduct(st: Store, p: Product): Store {
    st.(products := st.products[st.next := p], next := st.next + 1)
  }

  /** With transfer_lookup_key the key moves to the new price. */
  function CreatePrice(st: Store, p: Price): Store {
    st.(prices := (map i | i in st.prices ::
                     if st.prices[i].lookupKey == p.lookupKey then st.prices[i].(lookupKey := None)
                       else st.prices[i])[st.next := p],
        next := st.next + 1)
  }

  function ArchivePrice(st: Store, i: nat): Store {
    if i in st.prices then st.(prices := st.prices[i := st.prices[i].(active := false)]) else st
  }

  /** Absent arguments leave the field alone; metadata is merged key by key. */
  function ModifyProduct(st: Store, p: nat, name: Option<string>, description: Option<string>,
                         metadata: map<string, string>): Store {
    if p !in st.products then st
    else
      var was := st.products[p];
      st.(products := st.products[p := Product(if name.Some? then name.value else was.name,
                                               if description.Some? then description else was.description,
                                               was.metadata + metadata)])
  }

  // ---------------------------------------------------------------- one upsert

  predicate Matches(p: Price, job: Job) {
    p.unitAmount == job.amount && p.currency == job.currency && p.interval == job.interval
  }

  /** Brings a product in line with the job, given what is known of it; by id alone nothing is known. */
  function SyncProduct(st: Store, p: nat, known: Option<Product>, job: Job): Store {
    var name := if known.Some? && known.value.name != job.name then Some(job.name) else None;
    var description := if job.description.Some? && job.description.value != "" &&
                          (known.None? || known.value.description != job.description) then job.description else None;
    var existing := if known.Some? then known.value.metadata else map[];
    var metadata := if existing + job.productMeta != existing then existing + job.productMeta else map[];
    if name.None? && description.None? && metadata == map[] then st
      else ModifyProduct(st, p, name, description, metadata)
  }

  /** A product whose contents are known is brought in line field by field; one known by id alone, as on a price change,
      keeps its name, which is right exactly when the name was. */
  lemma ProductBroughtInLine(st: Store, p: nat, job: Job)
    requires p in st.products
    ensures var was, seen, blind := st.products[p], SyncProduct(st, p, Some(st.products[p]), job),
            SyncProduct(st, p, None, job);
            var asked := job.description.Some? && job.description.value != "";
            var description := if asked then job.description else was.description;
            && seen == st.(products := st.products[p := Product(job.name, description, was.metadata + job.productMeta)])
            && blind == st.(products :=
                            st.products[p := Product(was.name, description, was.metadata + job.productMeta)])
            && (blind == seen <==> was.name == job.name)
  {
    var was, seen, blind := st.products[p], SyncProduct(st, p, Some(st.products[p]), job),
      SyncProduct(st, p, None, job);
    assert was.metadata + (was.metadata + job.productMeta) == was.metadata + job.productMeta;
    assert map[] + job.productMeta == job.productMeta;
    assert was.metadata + map[] == was.metadata;
    assert st.products[p := was] == st.products;
    assert blind.products[p].name == was.name && seen.products[p].name == job.name;
  }

  function NewPrice(job: Job, product: nat): Price {
    Price(product, job.amount, job.currency, job.interval, true, Some(job.key), job.priceMeta)
  }

  /** The store after one upsert, and the id of the price that now stands for the job. */
  function Upsert(st: Store, current: Option<Snapshot>, job: Job): (Store, nat) {
    match current
    case Some(c) =>
      if Matches(c.price, job) then (SyncProduct(st, c.price.product, Some(c.product), job), c.id)
      else
        var synced := SyncProduct(ArchivePrice(st, c.id), c.price.product, None, job);
        (CreatePrice(synced, NewPrice(job, c.price.product)), synced.next)
    case None =>
      var description := if job.description == Some("") then None else job.description;
      var created := CreateProduct(st, Product(job.name, description, job.productMeta));
      (CreatePrice(created, NewPrice(job, st.next)), created.next)
  }

  /** A fresh lookup of one key. */
  ghost function Lookup(st: Store, key: string): (r: Option<Snapshot>)
    requires Valid(st)
    ensures r.Some? ==> Holds(st, key, r.value.id)
    ensures r.Some? ==> r.value.price == st.prices[r.value.id] && r.value.product == st.products[r.value.price.product]
    ensures r.None? ==> forall i :: !Holds(st, key, i)
  {
    if exists i :: Holds(st, key, i) then
      var i :| Holds(st, key, i);
      Some(Snapshot(i, st.prices[i], st.products[st.prices[i].product]))
    else None
  }

  // ---------------------------------------------------------------- the run

  datatype World = World(store: Store, columns: Columns, rewrites: nat)

  /** Stamps the id on its column unless it is already there; a column without a row is skipped. */
  function WriteId(w: World, column: Column, id: nat): World {
    if column !in w.columns || w.columns[column] == Some(id) then w
    else w.(columns := w.columns[column := Some(id)], rewrites := w.rewrites + 1)
  }

  function Get(prefetched: map<string, Snapshot>, key: string): Option<Snapshot> {
    if key in prefetched then Some(prefetched[key]) else None
  }

  function Apply(w: World, current: Option<Snapshot>, job: Job): World {
    var (store, id) := Upsert(w.store, current, job);
    WriteId(w.(store := store), job.column, id)
  }

  /** The loop as written: every upsert consults the map fetched before the first one. */
  function RunPrefetched(w: World, prefetched: map<string, Snapshot>, jobs: seq<Job>): World {
    if jobs == [] then w
    else
      var n := |jobs| - 1;
      Apply(RunPrefetched(w, prefetched, jobs[..n]), Get(prefetched, jobs[n].key), jobs[n])
  }

  /** The current price handed to an upsert is the one holding the job's key, product contents aside. */
  ghost predicate IsCurrent(st: Store, current: Option<Snapshot>, key: string) {
    match current
    case Some(c) => Holds(st, key, c.id) && c.price == st.prices[c.id]
    case None => forall i :: !Holds(st, key, i)
  }

  /** After its upsert one price holds the job's key, and it has the job's amount, currency and interval. */
  lemma UpsertHolder(st: Store, current: Option<Snapshot>, job: Job, i: nat)
    requires Valid(st) && IsCurrent(st, current, job.key)
    ensures var (after, id) := Upsert(st, current, job);
            (Holds(after, job.key, i) <==> i == id) && id in after.prices && Matches(after.prices[id], job)
    ensures var (after, id) := Upsert(st, current, job);
            && after.prices[id].unitAmount == job.amount && after.prices[id].currency == job.currency
            && after.prices[id].interval == job.interval
  {
    assert Holds(st, job.key, i) ==> current.Some? && i == current.value.id;
  }

  /** An upsert leaves the holder of every other key alone. */
  lemma UpsertOtherKey(st: Store, current: Option<Snapshot>, job: Job, key: string, i: nat)
    requires Valid(st) && key != job.key && IsCurrent(st, current, job.key)
    ensures Holds(Upsert(st, current, job).0, key, i) <==> Holds(st, key, i)
    ensures Holds(st, key, i) ==> Upsert(st, current, job).0.prices[i] == st.prices[i]
  {
  }

  /** No two prices come to hold one key. */
  lemma UpsertHolds(st: Store, current: Option<Snapshot>, job: Job, key: string, i: nat, j: nat)
    requires Valid(st) && IsCurrent(st, current, job.key)
    requires Holds(Upsert(st, current, job).0, key, i) && Holds(Upsert(st, current, job).0, key, j)
    ensures i == j
  {
    hide Upsert;
    if key == job.key {
      UpsertHolder(st, current, job, i);
      UpsertHolder(st, current, job, j);
    } else {
      UpsertOtherKey(st, current, job, key, i);
      UpsertOtherKey(st, current, job, key, j);
    }
  }

  lemma UpsertIds(st: Store, current: Option<Snapshot>, job: Job)
    requires Valid(st) && IsCurrent(st, current, job.key)
    ensures var after := Upsert(st, current, job).0;
            && (forall i :: i in after.prices ==> i < after.next && after.prices[i].product in after.products)
            && (forall p :: p in after.products ==> p < after.next)
  {
  }

  lemma UpsertValid(st: Store, current: Option<Snapshot>, job: Job)
    requires Valid(st) && IsCurrent(st, current, job.key)
    ensures Valid(Upsert(st, current, job).0)
  {
    UpsertIds(st, current, job);
    var after := Upsert(st, current, job).0;
    hide Upsert;
    forall key, i, j | Holds(after, key, i) && Holds(after, key, j) ensures i == j {
      UpsertHolds(st, current, job, key, i, j);
    }
  }

  /** The price has the job's amount, currency and billing interval. */
  predicate Fits(p: Price, job: Job) {
    p.unitAmount == job.amount && p.currency == job.currency && p.interval == job.interval
  }

  lemma MatchesMeans(p: Price, job: Job)
    ensures Matches(p, job) <==> p.unitAmount == job.amount && p.currency == job.currency && p.interval == job.interval
  {
  }

  /** The holder of the key is reused, and no price is created or changed, if it fits; a price is created if and only if
      no holder fits. */
  lemma UpsertCreatesIff(st: Store, current: Option<Snapshot>, job: Job)
    requires Valid(st) && IsCurrent(st, current, job.key)
    ensures var (after, id) := Upsert(st, current, job);
            && (after.prices == st.prices && after.next == st.next && id in st.prices <==>
                exists i :: i in st.prices && st.prices[i].lookupKey == Some(job.key) && Fits(st.prices[i], job))
            && (id !in st.prices <==>
                forall i :: i in st.prices && st.prices[i].lookupKey == Some(job.key) ==> !Fits(st.prices[i], job))
  {
    forall i ensures i in st.prices && st.prices[i].lookupKey == Some(job.key) <==> Holds(st, job.key, i) {}
    forall i | Holds(st, job.key, i) ensures current.Some? && i == current.value.id {}
    forall i | i in st.prices ensures Matches(st.prices[i], job) <==> Fits(st.prices[i], job) {
      MatchesMeans(st.prices[i], job);
    }
    hide Matches, Fits;
  }

  /** The price that stands for the job afterwards holds its key alone and has its amount, currency and interval. */
  lemma UpsertStands(st: Store, current: Option<Snapshot>, job: Job)
    requires Valid(st) && IsCurrent(st, current, job.key)
    ensures var (after, id) := Upsert(st, current, job);
            && id in after.prices
            && (forall i :: i in after.prices ==> (after.prices[i].lookupKey == Some(job.key) <==> i == id))
            && after.prices[id].unitAmount == job.amount && after.prices[id].currency == job.currency
            && after.prices[id].interval == job.interval
  {
    var (after, id) := Upsert(st, current, job);
    forall i ensures i in after.prices && after.prices[i].lookupKey == Some(job.key) <==> i == id {
      UpsertHolder(st, current, job, i);
    }
    hide Upsert;
    MatchesMeans(after.prices[id], job);
  }

  /** What a new price is made of, and what becomes of the old ones: it is active, carries the job's metadata and takes
      the key; it belongs to the former holder's product, or to a new one described as the job asks; the former holder
      is archived without its key, and every other price is as it was. */
  lemma UpsertCreates(st: Store, current: Option<Snapshot>, job: Job)
    requires Valid(st) && IsCurrent(st, current, job.key)
    ensures var (after, id) := Upsert(st, current, job);
            id !in st.prices ==>
              && id in after.prices && after.prices[id].active && after.prices[id].metadata == job.priceMeta
              && after.prices.Keys == st.prices.Keys + {id} && after.prices[id].product in after.products
              && (current.Some? ==>
                    && after.prices[id].product == current.value.price.product
                    && after.prices[current.value.id] ==
                       st.prices[current.value.id].(active := false, lookupKey := None)
                    && after.products.Keys == st.products.Keys)
              && (current.None? ==>
                    && after.prices[id].product !in st.products
                    && after.products ==
                       st.products[after.prices[id].product :=
                                   Product(job.name, if job.description == Some("") then None else job.description,
                                           job.productMeta)])
              && forall i :: i in st.prices && !(current.Some? && i == current.value.id) ==>
                   after.prices[i] == st.prices[i]
  {
    hide Matches;
    forall i | i in st.prices && st.prices[i].lookupKey == Some(job.key)
      ensures current.Some? && i == current.value.id
    {
      assert Holds(st, job.key, i);
    }
  }

  /** What an upsert makes of a product that was fetched as it is: description and metadata as the job asks, and the
      name too if the price fits; on a price change the name stays. No other product is touched. */
  lemma UpsertDescribes(st: Store, current: Snapshot, job: Job)
    requires Valid(st) && IsCurrent(st, Some(current), job.key)
    requires current.price.product in st.products && current.product == st.products[current.price.product]
    ensures var was := current.product;
            Upsert(st, Some(current), job).0.products ==
            st.products[current.price.product :=
                        Product(if Fits(current.price, job) then job.name else was.name,
                                if job.description.Some? && job.description != Some("") then job.description
                                else was.description,
                                was.metadata + job.productMeta)]
  {
    MatchesMeans(current.price, job);
    if Matches(current.price, job) {
      ProductBroughtInLine(st, current.price.product, job);
    } else {
      ProductBroughtInLine(ArchivePrice(st, current.id), current.price.product, job);
    }
    hide Matches, Fits, SyncProduct;
  }

  // ---------------------------------------------------------------- the prefetched map stays good

  /** Lookup keys and local columns are each used by one job. */
  ghost predicate Distinct(jobs: seq<Job>) {
    forall i, j :: 0 <= i < j < |jobs| ==> jobs[i].key != jobs[j].key && jobs[i].column != jobs[j].column
  }

  /** From the n-th job on, the map still agrees with the account. */
  ghost predicate Ready(st: Store, prefetched: map<string, Snapshot>, jobs: seq<Job>, n: nat) {
    forall k :: n <= k < |jobs| ==> IsCurrent(st, Get(prefetched, jobs[k].key), jobs[k].key)
  }

  /** One price holds the job's key, it matches the job, and the job's column (if there is one) points at it. */
  ghost predicate InLine(w: World, job: Job) {
    exists i :: Holds(w.store, job.key, i) && Matches(w.store.prices[i], job)
      && (job.column in w.columns ==> w.columns[job.column] == Some(i))
  }

  /** The same, spelled out. */
  lemma InLineMeans(w: World, job: Job)
    ensures InLine(w, job) <==>
            exists i :: i in w.store.prices && w.store.prices[i].lookupKey == Some(job.key)
              && w.store.prices[i].unitAmount == job.amount && w.store.prices[i].currency == job.currency
              && w.store.prices[i].interval == job.interval
              && (job.column in w.columns ==> w.columns[job.column] == Some(i))
  {
    if InLine(w, job) {
      var i :| Holds(w.store, job.key, i) && Matches(w.store.prices[i], job)
        && (job.column in w.columns ==> w.columns[job.column] == Some(i));
      assert i in w.store.prices;
    }
    if i :| i in w.store.prices && w.store.prices[i].lookupKey == Some(job.key)
            && w.store.prices[i].unitAmount == job.amount && w.store.prices[i].currency == job.currency
            && w.store.prices[i].interval == job.interval
            && (job.column in w.columns ==> w.columns[job.column] == Some(i))
    {
      assert Holds(w.store, job.key, i);
    }
  }

  ghost predicate Done(w: World, jobs: seq<Job>, n: nat) {
    forall k :: 0 <= k < n && k < |jobs| ==> InLine(w, jobs[k])
  }

  lemma ApplyInLine(w: World, current: Option<Snapshot>, job: Job)
    requires Valid(w.store) && IsCurrent(w.store, current, job.key)
    ensures Valid(Apply(w, current, job).store) && InLine(Apply(w, current, job), job)
  {
    UpsertValid(w.store, current, job);
    UpsertHolder(w.store, current, job, Upsert(w.store, current, job).1);
  }

  lemma ApplyKeepsOther(w: World, current: Option<Snapshot>, job: Job, other: Job, expected: Option<Snapshot>)
    requires Valid(w.store) && IsCurrent(w.store, current, job.key) && other.key != job.key
             && other.column != job.column
    ensures IsCurrent(w.store, expected, other.key) ==> IsCurrent(Apply(w, current, job).store, expected, other.key)
    ensures InLine(w, other) ==> InLine(Apply(w, current, job), other)
  {
    forall i
      ensures Holds(Upsert(w.store, current, job).0, other.key, i) <==> Holds(w.store, other.key, i)
      ensures Holds(w.store, other.key, i) ==> Upsert(w.store, current, job).0.prices[i] == w.store.prices[i]
    {
      UpsertOtherKey(w.store, current, job, other.key, i);
    }
  }

  lemma ApplyStep(w: World, prefetched: map<string, Snapshot>, jobs: seq<Job>, n: nat)
    requires n < |jobs| && Distinct(jobs)
    requires Valid(w.store) && Ready(w.store, prefetched, jobs, n) && Done(w, jobs, n)
    ensures var after := Apply(w, Get(prefetched, jobs[n].key), jobs[n]);
            Valid(after.store) && Ready(after.store, prefetched, jobs, n + 1) && Done(after, jobs, n + 1)
  {
    hide Valid, Apply, InLine, Get;
    var job, current := jobs[n], Get(prefetched, jobs[n].key);
    var after := Apply(w, current, job);
    ApplyInLine(w, current, job);
    forall k | 0 <= k < |jobs| && k != n
      ensures IsCurrent(w.store, Get(prefetched, jobs[k].key), jobs[k].key) ==>
              IsCurrent(after.store, Get(prefetched, jobs[k].key), jobs[k].key)
      ensures InLine(w, jobs[k]) ==> InLine(after, jobs[k])
    {
      ApplyKeepsOther(w, current, job, jobs[k], Get(prefetched, jobs[k].key));
    }
  }

  /** The loop changes the account under the map, but never the entries it has yet to consult; and every job done
      has its one keyed price, matching, with its column pointing there. */
  lemma {:induction false} PrefetchedRun(w: World, prefetched: map<string, Snapshot>, jobs: seq<Job>, n: nat)
    requires Valid(w.store) && Distinct(jobs) && Ready(w.store, prefetched, jobs, 0) && n <= |jobs|
    ensures var after := RunPrefetched(w, prefetched, jobs[..n]);
            Valid(after.store) && Ready(after.store, prefetched, jobs, n) && Done(after, jobs, n)
  {
    hide Valid, Apply, InLine, Get, IsCurrent, Distinct;
    if n > 0 {
      PrefetchedRun(w, prefetched, jobs, n - 1);
      assert jobs[..n][..n - 1] == jobs[..n - 1];
      ApplyStep(RunPrefetched(w, prefetched, jobs[..n - 1]), prefetched, jobs, n - 1);
    }
  }

  /** Whether the price that stands for a job can be bought: a matching price that was archived earlier is reused as it
      is. */
  lemma UpsertActive(st: Store, current: Option<Snapshot>, job: Job)
    requires Valid(st) && IsCurrent(st, current, job.key)
    ensures var (after, id) := Upsert(st, current, job);
            id in after.prices &&
            (after.prices[id].active
             <==> !(current.Some? && Matches(current.value.price, job) && !current.value.price.active))
  {
  }

  // ---------------------------------------------------------------- against a fresh lookup per upsert

  /** The loop as it would be with a lookup of its own before every upsert. */
  ghost function RunFresh(w: World, jobs: seq<Job>): World
    decreases |jobs|
  {
    if jobs == [] then w
    else
      var n := |jobs| - 1;
      var before := RunFresh(w, jobs[..n]);
      Apply(before, if Valid(before.store) then Lookup(before.store, jobs[n].key) else None, jobs[n])
  }

  /** Equal but for what the products say. */
  ghost predicate SameButProducts(a: World, b: World) {
    && a.store.prices == b.store.prices && a.store.next == b.store.next
       && a.store.products.Keys == b.store.products.Keys
    && a.columns == b.columns && a.rewrites == b.rewrites
  }

  lemma CurrentDetermined(st: Store, a: Option<Snapshot>, b: Option<Snapshot>, key: string)
    requires Valid(st) && IsCurrent(st, a, key) && IsCurrent(st, b, key)
    ensures a.Some? == b.Some? && (a.Some? ==> a.value.id == b.value.id && a.value.price == b.value.price)
  {
  }

  lemma SameHolders(a: World, b: World, current: Option<Snapshot>, key: string)
    requires SameButProducts(a, b) && Valid(a.store)
    ensures Valid(b.store) && (IsCurrent(a.store, current, key) <==> IsCurrent(b.store, current, key))
  {
    assert forall k, i :: Holds(a.store, k, i) <==> Holds(b.store, k, i);
  }

  lemma ApplySameButProducts(a: World, b: World, c: Option<Snapshot>, d: Option<Snapshot>, job: Job)
    requires SameButProducts(a, b) && Valid(a.store) && IsCurrent(a.store, c, job.key) && IsCurrent(b.store, d, job.key)
    ensures SameButProducts(Apply(a, c, job), Apply(b, d, job))
  {
    SameHolders(a, b, d, job.key);
    CurrentDetermined(a.store, c, d, job.key);
  }

  /** Same prices, same ids, same columns, same rewrites as with fresh lookups. */
  lemma {:induction false} PrefetchMatchesFresh(w: World, prefetched: map<string, Snapshot>, jobs: seq<Job>, n: nat)
    requires Valid(w.store) && Distinct(jobs) && Ready(w.store, prefetched, jobs, 0) && n <= |jobs|
    ensures SameButProducts(RunPrefetched(w, prefetched, jobs[..n]), RunFresh(w, jobs[..n]))
  {
    hide Apply, InLine, Get, IsCurrent, Distinct;
    if n > 0 {
      PrefetchMatchesFresh(w, prefetched, jobs, n - 1);
      PrefetchedRun(w, prefetched, jobs, n - 1);
      assert jobs[..n][..n - 1] == jobs[..n - 1];
      var a, b := RunPrefetched(w, prefetched, jobs[..n - 1]), RunFresh(w, jobs[..n - 1]);
      SameHolders(a, b, None, jobs[n - 1].key);
      LookupIsCurrent(b.store, jobs[n - 1].key);
      ApplySameButProducts(a, b, Get(prefetched, jobs[n - 1].key), Lookup(b.store, jobs[n - 1].key), jobs[n - 1]);
    }
  }

  lemma LookupIsCurrent(st: Store, key: string)
    requires Valid(st)
    ensures IsCurrent(st, Lookup(st, key), key)
  {
  }

  predicate Describes(job: Job) {
    job.description.Some? && job.description.value != ""
  }

  /** What the map remembers of a product is what it was before some syncs with just what this job asks for. */
  predicate Remembered(st: Store, s: Snapshot, job: Job) {
    s.price.product in st.products &&
    var was, now := s.product, st.products[s.price.product];
    && (now.name == was.name || now.name == job.name)
    && (now.description == was.description || (Describes(job) && now.description == job.description))
    && (now.metadata == was.metadata || now.metadata == was.metadata + job.productMeta)
  }

  predicate AskTheSame(a: Job, b: Job) {
    a.name == b.name && a.description == b.description && a.productMeta == b.productMeta
  }

  /** The map's product contents are good enough, and remaining jobs that share a product ask the same of it. */
  ghost predicate ReadyProducts(st: Store, prefetched: map<string, Snapshot>, jobs: seq<Job>, n: nat) {
    && (forall k :: n <= k < |jobs| && Get(prefetched, jobs[k].key).Some? ==>
        Remembered(st, prefetched[jobs[k].key], jobs[k]))
    && (forall j, k ::
          n <= j < k < |jobs| && Get(prefetched, jobs[j].key).Some? && Get(prefetched, jobs[k].key).Some? ==>
            prefetched[jobs[j].key].price.product == prefetched[jobs[k].key].price.product ==>
              AskTheSame(jobs[j], jobs[k]))
  }

  /** A sync from such a memory sends what a sync from the product itself would make of it. */
  lemma MemorySuffices(st: Store, s: Snapshot, job: Job)
    requires Remembered(st, s, job)
    ensures SyncProduct(st, s.price.product, Some(s.product), job)
            == SyncProduct(st, s.price.product, Some(st.products[s.price.product]), job)
  {
    var p := s.price.product;
    var was, now := s.product, st.products[p];
    ProductBroughtInLine(st, p, job);
    SentMetadata(was.metadata, now.metadata, job.productMeta);
    assert st.products[p := now] == st.products;
    hide Valid;
  }

  lemma SentMetadata(was: map<string, string>, now: map<string, string>, asked: map<string, string>)
    requires now == was || now == was + asked
    ensures var sent := if was + asked != was then was + asked else map[];
            now + sent == now + asked && now + map[] == now
  {
    MergeAgain(was, asked);
  }

  lemma MergeAgain(m: map<string, string>, n: map<string, string>)
    ensures m + (m + n) == m + n && (m + n) + n == m + n && (m + n) + (m + n) == m + n && (m + n) + m + n == m + n
  {
  }

  lemma ApplyFromMemory(w: World, current: Option<Snapshot>, looked: Option<Snapshot>, job: Job)
    requires Valid(w.store) && IsCurrent(w.store, current, job.key) && looked == Lookup(w.store, job.key)
    requires current.Some? ==> Remembered(w.store, current.value, job)
    ensures Apply(w, current, job) == Apply(w, looked, job)
  {
    LookupIsCurrent(w.store, job.key);
    CurrentDetermined(w.store, current, looked, job.key);
    if current.Some? {
      MemorySuffices(w.store, current.value, job);
    }
    hide SyncProduct, Valid;
  }

  /** A sync by memory, or blind after archiving: what it does to the product it is for. */
  lemma UpsertProduct(st: Store, c: Snapshot, job: Job)
    requires Valid(st) && Remembered(st, c, job)
    ensures var after, p := Upsert(st, Some(c), job).0, c.price.product;
            && after.products.Keys == st.products.Keys
            && (forall q :: q in st.products && q != p ==> after.products[q] == st.products[q])
            && (after.products[p].name == st.products[p].name || after.products[p].name == job.name)
            && after.products[p].description == (if Describes(job) then job.description else st.products[p].description)
            && after.products[p].metadata == st.products[p].metadata + job.productMeta
  {
    var p := c.price.product;
    hide SyncProduct, Valid, ArchivePrice, CreatePrice;
    if Matches(c.price, job) {
      MemorySuffices(st, c, job);
      ProductBroughtInLine(st, p, job);
    } else {
      var archived := ArchivePrice(st, c.id);
      KeepProducts(st, c.id, SyncProduct(archived, p, None, job), NewPrice(job, p));
      ProductBroughtInLine(archived, p, job);
    }
    hide Matches, Remembered;
  }

  lemma KeepProducts(st: Store, i: nat, other: Store, price: Price)
    ensures ArchivePrice(st, i).products == st.products && CreatePrice(other, price).products == other.products
  {
  }

  lemma ApplyRemembered(w: World, current: Option<Snapshot>, job: Job, other: Snapshot, otherJob: Job)
    requires Valid(w.store) && Remembered(w.store, other, otherJob)
    requires current.Some? ==> Remembered(w.store, current.value, job)
    requires current.Some? && current.value.price.product == other.price.product ==> AskTheSame(job, otherJob)
    ensures Remembered(Apply(w, current, job).store, other, otherJob)
  {
    MergeAgain(other.product.metadata, otherJob.productMeta);
    if current.Some? {
      UpsertProduct(w.store, current.value, job);
      hide Upsert, Valid;
    }
  }

  /** When jobs that share a Stripe product ask the same of it, the whole run, products included, is the one with fresh
      lookups. */
  lemma {:induction false} PrefetchIsFresh(w: World, prefetched: map<string, Snapshot>, jobs: seq<Job>, n: nat)
    requires Valid(w.store) && Distinct(jobs) && n <= |jobs|
    requires Ready(w.store, prefetched, jobs, 0) && ReadyProducts(w.store, prefetched, jobs, 0)
    ensures RunPrefetched(w, prefetched, jobs[..n]) == RunFresh(w, jobs[..n])
    ensures ReadyProducts(RunPrefetched(w, prefetched, jobs[..n]).store, prefetched, jobs, n)
  {
    hide Apply, Get, Ready, ReadyProducts, Distinct, Valid, Lookup;
    if n > 0 {
      PrefetchIsFresh(w, prefetched, jobs, n - 1);
      PrefetchedRun(w, prefetched, jobs, n - 1);
      assert jobs[..n][..n - 1] == jobs[..n - 1];
      var before := RunPrefetched(w, prefetched, jobs[..n - 1]);
      PrefetchIsFreshStep(before, prefetched, jobs, n - 1);
    }
  }

  lemma PrefetchIsFreshStep(w: World, prefetched: map<string, Snapshot>, jobs: seq<Job>, n: nat)
    requires Valid(w.store) && n < |jobs|
    requires Ready(w.store, prefetched, jobs, n) && ReadyProducts(w.store, prefetched, jobs, n)
    ensures Apply(w, Get(prefetched, jobs[n].key), jobs[n]) == Apply(w, Lookup(w.store, jobs[n].key), jobs[n])
    ensures ReadyProducts(Apply(w, Get(prefetched, jobs[n].key), jobs[n]).store, prefetched, jobs, n + 1)
  {
    hide Apply, Valid, Remembered, IsCurrent;
    var current := Get(prefetched, jobs[n].key);
    assert IsCurrent(w.store, current, jobs[n].key);
    ApplyFromMemory(w, current, Lookup(w.store, jobs[n].key), jobs[n]);
    forall k | n < k < |jobs| && Get(prefetched, jobs[k].key).Some?
      ensures Remembered(Apply(w, current, jobs[n]).store, prefetched[jobs[k].key], jobs[k])
    {
      ApplyRemembered(w, current, jobs[n], prefetched[jobs[k].key], jobs[k]);
    }
  }

  // ---------------------------------------------------------------- the second run

  lemma ApplyInSync(w: World, current: Option<Snapshot>, job: Job)
    requires Valid(w.store) && InLine(w, job) && IsCurrent(w.store, current, job.key)
    ensures SameButProducts(Apply(w, current, job), w)
  {
    var i :| Holds(w.store, job.key, i) && Matches(w.store.prices[i], job)
      && (job.column in w.columns ==> w.columns[job.column] == Some(i));
    assert current.Some? && current.value.id == i;
  }

  /** Run again on its own result, the sync creates no Product and no Price and rewrites no column. */
  lemma {:induction false} SecondRunCreatesNothing(w: World, prefetched: map<string, Snapshot>, jobs: seq<Job>, n: nat)
    requires Valid(w.store) && Distinct(jobs) && Ready(w.store, prefetched, jobs, 0) && Done(w, jobs, |jobs|)
             && n <= |jobs|
    ensures SameButProducts(RunPrefetched(w, prefetched, jobs[..n]), w)
  {
    hide Apply, Get, IsCurrent, Distinct, Valid;
    if n > 0 {
      SecondRunCreatesNothing(w, prefetched, jobs, n - 1);
      PrefetchedRun(w, prefetched, jobs, n - 1);
      assert jobs[..n][..n - 1] == jobs[..n - 1];
      var before := RunPrefetched(w, prefetched, jobs[..n - 1]);
      assert InLine(w, jobs[n - 1]);
      InLineSame(w, before, jobs[n - 1]);
      ApplyInSync(before, Get(prefetched, jobs[n - 1].key), jobs[n - 1]);
    }
  }

  lemma InLineSame(a: World, b: World, job: Job)
    requires SameButProducts(b, a) && InLine(a, job)
    ensures InLine(b, job)
  {
    var i :| Holds(a.store, job.key, i) && Matches(a.store.prices[i], job)
      && (job.column in a.columns ==> a.columns[job.column] == Some(i));
    assert Holds(b.store, job.key, i);
  }

  // ---------------------------------------------------------------- lookup keys

  datatype Context = Personal | Team

  datatype Tier = Free | Basic | Pro

  datatype Interval = Month | Year

  datatype PriceRow = PriceRow(id: nat, amount: int)

  datatype Plan = Plan(id: nat, context: Context, tier: Tier, interval: Interval, name: string, description: string,
                       price: Option<PriceRow>)

  datatype Pack = Pack(id: nat, name: string, credits: nat, price: Option<PriceRow>)

  function ContextName(c: Context): string { match c case Personal => "personal" case Team => "team" }

  function TierName(t: Tier): string { match t case Free => "free" case Basic => "basic" case Pro => "pro" }

  function IntervalName(i: Interval): string { match i case Month => "month" case Year => "year" }

  function Suffix(currency: string): string {
    if currency == "usd" then "" else "_" + currency
  }

  function PlanBase(p: Plan): string {
    "plan_" + ContextName(p.context) + "_" + TierName(p.tier) + "_" + IntervalName(p.interval)
  }

  function PlanKey(p: Plan, currency: string): string {
    PlanBase(p) + Suffix(currency)
  }

  predicate SlugChar(c: char) {
    'a' <= c <= 'z' || '0' <= c <= '9'
  }

  /** Lower-cases, and turns every run of other characters into one underscore. */
  function Runs(s: string, gap: bool): string {
    if s == "" then if gap then "_" else ""
    else
      var c := if 'A' <= s[0] <= 'Z' then s[0] - 'A' + 'a' else s[0];
      if SlugChar(c) then (if gap then "_" else "") + [c] + Runs(s[1..], false) else Runs(s[1..], true)
  }

  function StripFront(s: string, c: char): string {
    if s != "" && s[0] == c then StripFront(s[1..], c) else s
  }

  function StripBack(s: string, c: char): string {
    if s != "" && s[|s| - 1] == c then StripBack(s[..|s| - 1], c) else s
  }

  function Slug(name: string): string {
    StripBack(StripFront(Runs(name, false), '_'), '_')
  }

  predicate WordChar(c: char) {
    'a' <= c <= 'z' || 'A' <= c <= 'Z' || '0' <= c <= '9'
  }

  function Lowered(s: string): (r: string)
    ensures |r| == |s| && forall k :: 0 <= k < |s| ==> r[k] == if 'A' <= s[k] <= 'Z' then s[k] - 'A' + 'a' else s[k]
  {
    seq(|s|, k requires 0 <= k < |s| => if 'A' <= s[k] <= 'Z' then s[k] - 'A' + 'a' else s[k])
  }

  /** Words of letters and digits, each after a gap of other characters; only the first gap may be empty. */
  ghost predicate Words(parts: seq<(string, string)>) {
    forall i :: 0 <= i < |parts| ==>
      && (forall c :: c in parts[i].0 ==> !WordChar(c)) && (i > 0 ==> parts[i].0 != "")
      && parts[i].1 != "" && forall c :: c in parts[i].1 ==> WordChar(c)
  }

  function Text(parts: seq<(string, string)>): string {
    if parts == [] then "" else parts[0].0 + (parts[0].1 + Text(parts[1..]))
  }

  /** The words in lower case, an underscore between any two. */
  function Joined(parts: seq<(string, string)>): string {
    if parts == [] then ""
    else if |parts| == 1 then Lowered(parts[0].1)
    else Lowered(parts[0].1) + ("_" + Joined(parts[1..]))
  }

  lemma {:induction false} RunsGap(g: string, s: string, gap: bool)
    requires forall c :: c in g ==> !WordChar(c)
    ensures Runs(g + s, gap) == Runs(s, gap || g != "")
  {
    if g == "" {
      assert g + s == s;
    } else {
      assert (g + s)[0] == g[0] && g[0] in g && (g + s)[1..] == g[1..] + s;
      RunsGap(g[1..], s, true);
    }
  }

  lemma {:induction false} RunsWord(a: string, s: string, gap: bool)
    requires a != "" && forall c :: c in a ==> WordChar(c)
    ensures Runs(a + s, gap) == (if gap then "_" else "") + (Lowered(a) + Runs(s, false))
  {
    RunsChar(a, s, gap);
    if |a| > 1 {
      RunsWord(a[1..], s, false);
    } else {
      assert a[1..] + s == s && Lowered(a[1..]) == "";
    }
    hide Runs, Lowered, WordChar;
    Associate(Lowered(a)[..1], Lowered(a[1..]), Runs(s, false));
  }

  lemma Associate(a: string, b: string, c: string)
    ensures a + (b + c) == (a + b) + c && "" + (b + c) == b + c && "" + c == c
  {
  }

  lemma RunsChar(a: string, s: string, gap: bool)
    requires a != "" && WordChar(a[0])
    ensures Runs(a + s, gap) == (if gap then "_" else "") + (Lowered(a)[..1] + Runs(a[1..] + s, false))
    ensures Lowered(a) == Lowered(a)[..1] + Lowered(a[1..])
  {
    assert (a + s)[0] == a[0] && (a + s)[1..] == a[1..] + s;
    assert Lowered(a)[..1] == [Lowered(a)[0]];
  }

  lemma RunsStep(before: string, word: string, rest: string, gap: bool)
    requires forall c :: c in before ==> !WordChar(c)
    requires word != "" && forall c :: c in word ==> WordChar(c)
    ensures Runs(before + (word + rest), gap) ==
            (if gap || before != "" then "_" else "") + (Lowered(word) + Runs(rest, false))
  {
    RunsGap(before, word + rest, gap);
    RunsWord(word, rest, gap || before != "");
    hide Runs, Lowered;
  }

  lemma RunsTail(tail: string)
    requires forall c :: c in tail ==> !WordChar(c)
    ensures Runs(tail, false) == if tail != "" then "_" else ""
  {
    RunsGap(tail, "", false);
    assert tail == tail + "";
  }

  lemma {:induction false} RunsText(parts: seq<(string, string)>, tail: string, gap: bool)
    requires Words(parts) && parts != [] && forall c :: c in tail ==> !WordChar(c)
    ensures Runs(Text(parts) + tail, gap) ==
            (if gap || parts[0].0 != "" then "_" else "") + (Joined(parts) + if tail != "" then "_" else "")
  {
    var (before, word) := parts[0];
    var rest := Text(parts[1..]) + tail;
    assert Text(parts) + tail == before + (word + rest);
    RunsStep(before, word, rest, gap);
    if |parts| == 1 {
      assert rest == tail;
      RunsTail(tail);
      hide Runs, Text, Words, Lowered;
    } else {
      RunsText(parts[1..], tail, false);
      assert parts[1..][0] == parts[1] && parts[1].0 != "";
      Regroup(Lowered(word), Joined(parts[1..]), if tail != "" then "_" else "");
      hide Runs, Text, Words, Lowered;
    }
  }

  lemma Regroup(a: string, b: string, c: string)
    ensures a + ("_" + (b + c)) == (a + ("_" + b)) + c
  {
  }

  lemma {:induction false} JoinedEnds(parts: seq<(string, string)>)
    requires Words(parts) && parts != []
    ensures Joined(parts) != "" && Joined(parts)[0] != '_' && Joined(parts)[|Joined(parts)| - 1] != '_'
  {
    var word := parts[0].1;
    assert WordChar(word[0]) && WordChar(word[|word| - 1]);
    if |parts| > 1 {
      JoinedEnds(parts[1..]);
    }
  }

  /** The slug of a name is its words in lower case, joined by underscores. */
  lemma SlugOfWords(parts: seq<(string, string)>, tail: string)
    requires Words(parts) && parts != [] && forall c :: c in tail ==> !WordChar(c)
    ensures Slug(Text(parts) + tail) == Joined(parts)
  {
    RunsText(parts, tail, false);
    JoinedEnds(parts);
    hide Runs, Joined, Words;
    Stripped(Joined(parts), parts[0].0 != "", tail != "");
  }

  lemma Stripped(word: string, front: bool, back: bool)
    requires word != "" && word[0] != '_' && word[|word| - 1] != '_'
    ensures StripBack(StripFront((if front then "_" else "") + (word + if back then "_" else ""), '_'), '_') == word
  {
    var rest := word + if back then "_" else "";
    FrontStripped(rest);
    BackStripped(word);
    hide StripFront, StripBack;
    assert "" + rest == rest && word + "" == word;
  }

  lemma FrontStripped(s: string)
    requires s != "" && s[0] != '_'
    ensures StripFront("_" + s, '_') == s && StripFront(s, '_') == s
  {
    assert ("_" + s)[1..] == s;
  }

  lemma BackStripped(s: string)
    requires s != "" && s[|s| - 1] != '_'
    ensures StripBack(s + "_", '_') == s && StripBack(s, '_') == s
  {
    assert (s + "_")[..|s|] == s;
  }

  function PackKey(p: Pack, currency: string): string {
    "product_" + Slug(p.name) + Suffix(currency)
  }

  /** What follows the context, and what follows the tier. */
  function AfterContext(p: Plan, currency: string): string {
    TierName(p.tier) + "_" + AfterTier(p, currency)
  }

  function AfterTier(p: Plan, currency: string): string {
    IntervalName(p.interval) + Suffix(currency)
  }

  lemma TailInjective(p: Plan, q: Plan, c: string, d: string)
    requires AfterTier(p, c) == AfterTier(q, d) && c != "" && d != ""
    ensures p.interval == q.interval && c == d
  {
    var k, l := AfterTier(p, c), AfterTier(q, d);
    assert k[0] == IntervalName(p.interval)[0] && l[0] == IntervalName(q.interval)[0];
    var n := |IntervalName(p.interval)|;
    assert k[n..] == Suffix(c) && l[n..] == Suffix(d);
    if Suffix(c) != "" && Suffix(d) != "" {
      assert c == Suffix(c)[1..] && d == Suffix(d)[1..];
    }
  }

  lemma MiddleInjective(p: Plan, q: Plan, c: string, d: string)
    requires AfterContext(p, c) == AfterContext(q, d)
    ensures p.tier == q.tier && AfterTier(p, c) == AfterTier(q, d)
  {
    var k, l := AfterContext(p, c), AfterContext(q, d);
    assert k[0] == TierName(p.tier)[0] && l[0] == TierName(q.tier)[0];
    hide AfterTier;
    var n := |TierName(p.tier)| + 1;
    assert k[n..] == AfterTier(p, c) && l[n..] == AfterTier(q, d);
  }

  lemma PlanKeySplit(p: Plan, currency: string)
    ensures PlanKey(p, currency) == "plan_" + (ContextName(p.context) + "_" + AfterContext(p, currency))
  {
    hide ContextName, TierName, IntervalName, Suffix;
    var k, l := PlanKey(p, currency), "plan_" + (ContextName(p.context) + "_" + AfterContext(p, currency));
    assert PlanBase(p)
           == "plan_" + (ContextName(p.context) + "_" + (TierName(p.tier) + "_" + IntervalName(p.interval)));
    assert AfterContext(p, currency) == TierName(p.tier) + "_" + IntervalName(p.interval) + Suffix(currency);
  }

  lemma HeadInjective(p: Plan, q: Plan, c: string, d: string)
    requires PlanKey(p, c) == PlanKey(q, d)
    ensures p.context == q.context && AfterContext(p, c) == AfterContext(q, d)
  {
    PlanKeySplit(p, c);
    PlanKeySplit(q, d);
    hide PlanKey, AfterContext;
    var k, l := ContextName(p.context) + "_" + AfterContext(p, c), ContextName(q.context) + "_" + AfterContext(q, d);
    assert k == PlanKey(p, c)[5..] && l == PlanKey(q, d)[5..];
    assert k[0] == ContextName(p.context)[0] && l[0] == ContextName(q.context)[0];
    var n := |ContextName(p.context)| + 1;
    assert k[n..] == AfterContext(p, c) && l[n..] == AfterContext(q, d);
  }

  /** No base is a proper prefix of another, so a plan key tells its plan and its currency. */
  lemma PlanKeyInjective(p: Plan, q: Plan, c: string, d: string)
    requires PlanKey(p, c) == PlanKey(q, d) && c != "" && d != ""
    ensures p.context == q.context && p.tier == q.tier && p.interval == q.interval && c == d
  {
    hide PlanKey, AfterContext, AfterTier;
    HeadInjective(p, q, c, d);
    MiddleInjective(p, q, c, d);
    TailInjective(p, q, c, d);
  }

  lemma PlanAndPackKeysDiffer(p: Plan, q: Pack, c: string, d: string)
    ensures PlanKey(p, c) != PackKey(q, d)
  {
    assert PlanKey(p, c)[1] == 'l' && PackKey(q, d)[1] == 'r';
  }

  lemma {:induction false} RunsKeepsSlugChars(s: string)
    requires forall c :: c in s ==> SlugChar(c)
    ensures Runs(s, false) == s && (s != "" ==> Runs(s, true) == "_" + s)
  {
    if s != "" {
      RunsKeepsSlugChars(s[1..]);
      assert s[0] in s && s == [s[0]] + s[1..];
      RunsFirst(s);
      hide Runs;
      assert "_" + s == "_" + ([s[0]] + s[1..]);
    }
  }

  /** Two (product, currency) pairs that end up with one lookup key. */
  predicate Collide(a: Pack, c: string, b: Pack, d: string) {
    || (c == d && Slug(a.name) == Slug(b.name))
    || (c == "usd" != d && Slug(a.name) == Slug(b.name) + "_" + d)
    || (d == "usd" != c && Slug(b.name) == Slug(a.name) + "_" + c)
  }

  lemma SuffixesTell(x: string, c: string, y: string, d: string)
    requires |c| == |d| == 3 && c != "usd" && d != "usd"
    ensures x + Suffix(c) == y + Suffix(d) <==> x == y && c == d
  {
    if x + Suffix(c) == y + Suffix(d) {
      var k := x + Suffix(c);
      assert k[..|k| - 4] == x && k[..|k| - 4] == y;
      assert k[|k| - 3..] == c && k[|k| - 3..] == d;
    }
  }

  lemma TailsEqualIff(x: string, c: string, y: string, d: string)
    requires |c| == |d| == 3
    ensures x + Suffix(c) == y + Suffix(d) <==>
            || (c == d && x == y)
            || (c == "usd" != d && x == y + "_" + d)
            || (d == "usd" != c && y == x + "_" + c)
  {
    if c != "usd" && d != "usd" {
      SuffixesTell(x, c, y, d);
    } else if c != "usd" {
      assert x + Suffix(c) == x + "_" + c && y + Suffix(d) == y;
    } else if d != "usd" {
      assert x + Suffix(c) == x && y + Suffix(d) == y + "_" + d;
    } else {
      assert x + Suffix(c) == x && y + Suffix(d) == y;
    }
  }

  lemma PrefixCancels(prefix: string, x: string, y: string)
    ensures prefix + x == prefix + y <==> x == y
  {
    assert (prefix + x)[|prefix|..] == x && (prefix + y)[|prefix|..] == y;
  }

  lemma PackKeySplit(a: Pack, c: string)
    ensures PackKey(a, c) == "product_" + (Slug(a.name) + Suffix(c))
  {
    hide Slug, Suffix;
    assert "product_" + Slug(a.name) + Suffix(c) == "product_" + (Slug(a.name) + Suffix(c));
  }

  /** Exactly when product keys coincide, for currency codes of three letters. */
  lemma PackKeysEqualIff(a: Pack, b: Pack, c: string, d: string)
    requires |c| == |d| == 3
    ensures PackKey(a, c) == PackKey(b, d) <==> Collide(a, c, b, d)
  {
    hide Slug, Suffix, PackKey;
    PackKeySplit(a, c);
    PackKeySplit(b, d);
    PrefixCancels("product_", Slug(a.name) + Suffix(c), Slug(b.name) + Suffix(d));
    TailsEqualIff(Slug(a.name), c, Slug(b.name), d);
  }

  /** A product name that is another's name, a space and a currency takes that product's key in that currency. */
  lemma PackKeysCollide(a: Pack, b: Pack, currency: string)
    requires b.name != "" && currency != "" && currency != "usd"
    requires (forall c :: c in b.name ==> SlugChar(c)) && (forall c :: c in currency ==> SlugChar(c))
    requires a.name == b.name + " " + currency
    ensures PackKey(a, "usd") == PackKey(b, currency)
  {
    RunsKeepsSlugChars(b.name);
    RunsConcat(b.name, currency);
    EndsAreSlugChars(b.name);
    EndsAreSlugChars(currency);
    NothingToStrip(b.name);
    var joined := b.name + "_" + currency;
    assert joined[0] == b.name[0] && joined[|joined| - 1] == currency[|currency| - 1];
    NothingToStrip(joined);
    hide Runs, StripFront, StripBack;
    assert Slug(b.name) == b.name && Slug(a.name) == b.name + "_" + currency;
    assert "product_" + (b.name + "_" + currency) + "" == "product_" + b.name + ("_" + currency);
  }

  lemma EndsAreSlugChars(s: string)
    requires s != "" && forall c :: c in s ==> SlugChar(c)
    ensures s[0] != '_' && s[|s| - 1] != '_'
  {
    assert s[0] in s && s[|s| - 1] in s;
    assert !SlugChar('_');
  }

  lemma NothingToStrip(s: string)
    requires s != "" ==> s[0] != '_' && s[|s| - 1] != '_'
    ensures StripBack(StripFront(s, '_'), '_') == s
  {
  }

  lemma {:induction false} RunsConcat(s: string, currency: string)
    requires (forall c :: c in s ==> SlugChar(c)) && currency != "" && forall c :: c in currency ==> SlugChar(c)
    ensures Runs(s + " " + currency, false) == s + "_" + currency
  {
    var t := s + " " + currency;
    if s == "" {
      assert t[0] == ' ' && t[1..] == currency;
      RunsKeepsSlugChars(currency);
    } else {
      assert t[0] == s[0] && t[1..] == s[1..] + " " + currency;
      RunsConcat(s[1..], currency);
      RunsFirst(t);
      hide Runs;
      assert s + "_" + currency == [s[0]] + (s[1..] + "_" + currency);
    }
  }

  lemma RunsFirst(t: string)
    requires t != "" && SlugChar(t[0])
    ensures Runs(t, false) == [t[0]] + Runs(t[1..], false) && Runs(t, true) == "_" + ([t[0]] + Runs(t[1..], false))
  {
  }

  // ---------------------------------------------------------------- the jobs of a run

  /** The stored unit amount: the catalog's own in dollars, the localized row's otherwise. */
  function UnitAmount(row: PriceRow, column: Column, localized: map<Column, int>): Option<int> {
    if column.currency == "usd" then Some(row.amount) else if column in localized then Some(localized[column]) else None
  }

  function PlanJob(p: Plan, currency: string, localized: map<Column, int>): Option<Job> {
    if p.price.None? then None
    else
      var column := PlanColumn(p.price.value.id, currency);
      var amount := UnitAmount(p.price.value, column, localized);
      if amount.None? then None
      else
        Some(Job(PlanKey(p, currency), amount.value, currency, Some(IntervalName(p.interval)), p.name,
                 if p.description == "" then None else Some(p.description),
                 map["local_plan_id" := Digits(p.id), "kind" := "plan"], map["local_plan_id" := Digits(p.id)], column))
  }

  function PackJob(p: Pack, currency: string, localized: map<Column, int>): Option<Job> {
    if p.price.None? then None
    else
      var column := ProductColumn(p.price.value.id, currency);
      var amount := UnitAmount(p.price.value, column, localized);
      if amount.None? then None
      else
        Some(Job(PackKey(p, currency), amount.value, currency, None, p.name, Some(Digits(p.credits) + " credits"),
                 map["local_product_id" := Digits(p.id), "kind" := "product"], map["local_product_id" := Digits(p.id)],
                   column))
  }

  /** The metadata of a Stripe product tells which local row it mirrors: its kind and its id, and so does that of a
      price. */
  lemma LabelsIdentify(p: Plan, q: Plan, a: Pack, b: Pack, c: string, d: string, localized: map<Column, int>)
    requires PlanJob(p, c, localized).Some? && PlanJob(q, d, localized).Some?
    requires PackJob(a, c, localized).Some? && PackJob(b, d, localized).Some?
    ensures var plan, otherPlan := PlanJob(p, c, localized).value, PlanJob(q, d, localized).value;
            var pack, otherPack := PackJob(a, c, localized).value, PackJob(b, d, localized).value;
            && (plan.productMeta == otherPlan.productMeta <==> p.id == q.id)
            && (plan.priceMeta == otherPlan.priceMeta <==> p.id == q.id)
            && (pack.productMeta == otherPack.productMeta <==> a.id == b.id)
            && (pack.priceMeta == otherPack.priceMeta <==> a.id == b.id)
            && plan.productMeta != pack.productMeta && plan.priceMeta != pack.priceMeta
            && "kind" in plan.productMeta && plan.productMeta["kind"] == "plan"
            && "kind" in pack.productMeta && pack.productMeta["kind"] == "product"
            && plan.name == p.name && plan.description == (if p.description == "" then None else Some(p.description))
            && pack.name == a.name && pack.description == Some(Digits(a.credits) + " credits")
  {
    hide PlanKey, PackKey, UnitAmount, Digits;
    var plan, otherPlan := PlanJob(p, c, localized).value, PlanJob(q, d, localized).value;
    var pack, otherPack := PackJob(a, c, localized).value, PackJob(b, d, localized).value;
    assert "local_plan_id" in plan.priceMeta && plan.priceMeta["local_plan_id"] == plan.productMeta["local_plan_id"];
    assert "local_product_id" in pack.priceMeta && "local_product_id" !in plan.priceMeta;
    if Digits(p.id) == Digits(q.id) { DigitsInjective(p.id, q.id); }
    if Digits(a.id) == Digits(b.id) { DigitsInjective(a.id, b.id); }
    assert plan.productMeta["local_plan_id"] == Digits(p.id) && otherPlan.productMeta["local_plan_id"] == Digits(q.id);
    assert plan.priceMeta["local_plan_id"] == Digits(p.id) && otherPlan.priceMeta["local_plan_id"] == Digits(q.id);
    assert pack.productMeta["local_product_id"] == Digits(a.id);
    assert otherPack.productMeta["local_product_id"] == Digits(b.id);
    assert pack.priceMeta["local_product_id"] == Digits(a.id)
           && otherPack.priceMeta["local_product_id"] == Digits(b.id);
    assert plan.productMeta["kind"] != pack.productMeta["kind"];
  }

  function JobList(j: Option<Job>): seq<Job> {
    if j.Some? then [j.value] else []
  }

  function PlanJobs(plans: seq<Plan>, currency: string, localized: map<Column, int>): seq<Job> {
    if plans == [] then []
    else PlanJobs(plans[..|plans| - 1], currency, localized) + JobList(PlanJob(plans[|plans| - 1], currency, localized))
  }

  function PackJobs(packs: seq<Pack>, currency: string, localized: map<Column, int>): seq<Job> {
    if packs == [] then []
    else PackJobs(packs[..|packs| - 1], currency, localized) + JobList(PackJob(packs[|packs| - 1], currency, localized))
  }

  /** Currency by currency, plans before products. */
  function Jobs(plans: seq<Plan>, packs: seq<Pack>, currencies: seq<string>, localized: map<Column, int>): seq<Job> {
    if currencies == [] then []
    else
      var c := currencies[|currencies| - 1];
      Jobs(plans, packs, currencies[..|currencies| - 1], localized) + PlanJobs(plans, c, localized)
        + PackJobs(packs, c, localized)
  }

  lemma {:induction false} RunAppend(w: World, prefetched: map<string, Snapshot>, a: seq<Job>, b: seq<Job>)
    ensures RunPrefetched(w, prefetched, a + b) == RunPrefetched(RunPrefetched(w, prefetched, a), prefetched, b)
  {
    hide Apply, Get;
    if b == [] {
      assert a + b == a;
    } else {
      var n := |b| - 1;
      RunAppend(w, prefetched, a, b[..n]);
      assert (a + b)[..|a + b| - 1] == a + b[..n];
    }
  }

  lemma RunNothing(w: World, prefetched: map<string, Snapshot>)
    ensures RunPrefetched(w, prefetched, []) == w
  {
  }

  /** Every wanted key: each entry in each currency, whether or not a price row exists. */
  ghost predicate Wanted(keys: seq<string>, plans: seq<Plan>, packs: seq<Pack>, currencies: seq<string>) {
    && (forall p, c :: p in plans && c in currencies ==> PlanKey(p, c) in keys)
    && (forall p, c :: p in packs && c in currencies ==> PackKey(p, c) in keys)
  }

  lemma {:induction false} PlanJobsMembers(plans: seq<Plan>, currency: string, localized: map<Column, int>, job: Job)
    ensures job in PlanJobs(plans, currency, localized)
            <==> exists i :: 0 <= i < |plans| && PlanJob(plans[i], currency, localized) == Some(job)
  {
    hide PlanJob;
    if plans != [] {
      var n := |plans| - 1;
      PlanJobsMembers(plans[..n], currency, localized, job);
      if job in PlanJobs(plans[..n], currency, localized) {
        var i :| 0 <= i < n && PlanJob(plans[..n][i], currency, localized) == Some(job);
        assert PlanJob(plans[i], currency, localized) == Some(job);
      } else if PlanJob(plans[n], currency, localized) != Some(job) {
        forall i | 0 <= i < |plans| ensures PlanJob(plans[i], currency, localized) != Some(job) {
          assert i < n ==> PlanJob(plans[..n][i], currency, localized) != Some(job);
        }
      }
    }
  }

  lemma {:induction false} PackJobsMembers(packs: seq<Pack>, currency: string, localized: map<Column, int>, job: Job)
    ensures job in PackJobs(packs, currency, localized)
            <==> exists i :: 0 <= i < |packs| && PackJob(packs[i], currency, localized) == Some(job)
  {
    hide PackJob;
    if packs != [] {
      var n := |packs| - 1;
      PackJobsMembers(packs[..n], currency, localized, job);
      if job in PackJobs(packs[..n], currency, localized) {
        var i :| 0 <= i < n && PackJob(packs[..n][i], currency, localized) == Some(job);
        assert PackJob(packs[i], currency, localized) == Some(job);
      } else if PackJob(packs[n], currency, localized) != Some(job) {
        forall i | 0 <= i < |packs| ensures PackJob(packs[i], currency, localized) != Some(job) {
          assert i < n ==> PackJob(packs[..n][i], currency, localized) != Some(job);
        }
      }
    }
  }

  /** The jobs of one currency. */
  predicate InCurrency(plans: seq<Plan>, packs: seq<Pack>, c: string, localized: map<Column, int>, job: Job) {
    job in PlanJobs(plans, c, localized) || job in PackJobs(packs, c, localized)
  }

  lemma JobsLast(plans: seq<Plan>, packs: seq<Pack>, currencies: seq<string>, localized: map<Column, int>, job: Job)
    requires currencies != []
    ensures var n := |currencies| - 1;
            job in Jobs(plans, packs, currencies, localized) <==>
            job in Jobs(plans, packs, currencies[..n], localized)
              || InCurrency(plans, packs, currencies[n], localized, job)
  {
    hide PlanJobs, PackJobs;
  }

  lemma {:induction false} JobsMembers(plans: seq<Plan>, packs: seq<Pack>, currencies: seq<string>,
                                       localized: map<Column, int>, job: Job)
    ensures job in Jobs(plans, packs, currencies, localized)
            <==> exists c :: c in currencies && InCurrency(plans, packs, c, localized, job)
  {
    hide InCurrency;
    if currencies != [] {
      var n := |currencies| - 1;
      JobsMembers(plans, packs, currencies[..n], localized, job);
      JobsLast(plans, packs, currencies, localized, job);
      hide Jobs;
      InSomeCurrency(plans, packs, currencies, localized, job);
    }
  }

  lemma InSomeCurrency(plans: seq<Plan>, packs: seq<Pack>, currencies: seq<string>, localized: map<Column, int>,
                       job: Job)
    requires currencies != []
    ensures var n := |currencies| - 1;
            (exists c :: c in currencies && InCurrency(plans, packs, c, localized, job)) <==>
            (exists c :: c in currencies[..n] && InCurrency(plans, packs, c, localized, job))
            || InCurrency(plans, packs, currencies[n], localized, job)
  {
    hide InCurrency;
    var n := |currencies| - 1;
    assert currencies == currencies[..n] + [currencies[n]];
  }

  lemma PlanJobKey(plans: seq<Plan>, c: string, localized: map<Column, int>, job: Job)
    requires job in PlanJobs(plans, c, localized)
    ensures exists p :: p in plans && job.key == PlanKey(p, c)
  {
    PlanJobsMembers(plans, c, localized, job);
    hide PlanKey, PlanJobs;
    var i :| 0 <= i < |plans| && PlanJob(plans[i], c, localized) == Some(job);
    assert plans[i] in plans && job.key == PlanKey(plans[i], c);
  }

  lemma PackJobKey(packs: seq<Pack>, c: string, localized: map<Column, int>, job: Job)
    requires job in PackJobs(packs, c, localized)
    ensures exists p :: p in packs && job.key == PackKey(p, c)
  {
    PackJobsMembers(packs, c, localized, job);
    hide PackKey, PackJobs;
    var i :| 0 <= i < |packs| && PackJob(packs[i], c, localized) == Some(job);
    assert packs[i] in packs && job.key == PackKey(packs[i], c);
  }

  lemma JobKeysWanted(plans: seq<Plan>, packs: seq<Pack>, currencies: seq<string>, localized: map<Column, int>,
                      keys: seq<string>, job: Job)
    requires Wanted(keys, plans, packs, currencies) && job in Jobs(plans, packs, currencies, localized)
    ensures job.key in keys
  {
    hide PlanKey, PackKey, PlanJobs, PackJobs, Jobs;
    JobsMembers(plans, packs, currencies, localized, job);
    var c :| c in currencies && InCurrency(plans, packs, c, localized, job);
    if job in PlanJobs(plans, c, localized) {
      PlanJobKey(plans, c, localized, job);
    } else {
      PackJobKey(packs, c, localized, job);
    }
  }

  // ---------------------------------------------------------------- when the jobs of a run are distinct

  /** What the tables and the configuration guarantee: one active plan per context, tier and interval, one price row per
      plan and per product, and currencies listed once, by their three letters. */
  ghost predicate CatalogSound(plans: seq<Plan>, packs: seq<Pack>, currencies: seq<string>) {
    && (forall i, j :: 0 <= i < j < |plans| ==>
          !SamePlan(plans[i], plans[j]) && !SharePrice(plans[i].price, plans[j].price))
    && (forall i, j :: 0 <= i < j < |packs| ==> !SharePrice(packs[i].price, packs[j].price))
    && (forall i, j :: 0 <= i < j < |currencies| ==> currencies[i] != currencies[j])
    && (forall c :: c in currencies ==> |c| == 3)
  }

  predicate SamePlan(p: Plan, q: Plan) {
    p.context == q.context && p.tier == q.tier && p.interval == q.interval
  }

  predicate SharePrice(a: Option<PriceRow>, b: Option<PriceRow>) {
    a.Some? && b.Some? && a.value.id == b.value.id
  }

  predicate Apart(x: Job, y: Job) {
    x.key != y.key && x.column != y.column
  }

  /** No two products that are both synced, each in some currency, take the same key. */
  ghost predicate NoCollision(packs: seq<Pack>, currencies: seq<string>, localized: map<Column, int>) {
    forall i, j, c, d :: 0 <= i < j < |packs| && c in currencies && d in currencies
                         && PackJob(packs[i], c, localized).Some? && PackJob(packs[j], d, localized).Some? ==>
      !Collide(packs[i], c, packs[j], d)
  }

  lemma DistinctAppend(a: seq<Job>, b: seq<Job>)
    requires Distinct(a) && Distinct(b) && forall x, y :: x in a && y in b ==> Apart(x, y)
    ensures Distinct(a + b)
  {
    var l := a + b;
    forall i, j | 0 <= i < j < |l| ensures l[i].key != l[j].key && l[i].column != l[j].column {
      if i < |a| <= j {
        assert l[i] in a && l[j] in b;
        assert Apart(l[i], l[j]);
      }
    }
  }

  lemma PlansApart(p: Plan, q: Plan, c: string, d: string, localized: map<Column, int>)
    requires PlanJob(p, c, localized).Some? && PlanJob(q, d, localized).Some? && c != "" && d != ""
    requires c != d || (!SamePlan(p, q) && !SharePrice(p.price, q.price))
    ensures Apart(PlanJob(p, c, localized).value, PlanJob(q, d, localized).value)
  {
    if PlanKey(p, c) == PlanKey(q, d) {
      PlanKeyInjective(p, q, c, d);
    }
    hide PlanKey;
  }

  lemma PacksApartIff(a: Pack, b: Pack, c: string, d: string, localized: map<Column, int>)
    requires PackJob(a, c, localized).Some? && PackJob(b, d, localized).Some? && |c| == |d| == 3
    requires c != d || !SharePrice(a.price, b.price)
    ensures Apart(PackJob(a, c, localized).value, PackJob(b, d, localized).value) <==> !Collide(a, c, b, d)
  {
    PackKeysEqualIff(a, b, c, d);
    hide PackKey, Collide;
  }

  /** A product never collides with itself in another currency. */
  lemma SelfApart(a: Pack, c: string, d: string)
    requires c != d
    ensures !Collide(a, c, a, d)
  {
    hide Slug;
    assert |Slug(a.name) + "_" + d| > |Slug(a.name)| && |Slug(a.name) + "_" + c| > |Slug(a.name)|;
  }

  lemma CollideSymmetric(a: Pack, c: string, b: Pack, d: string)
    ensures Collide(a, c, b, d) <==> Collide(b, d, a, c)
  {
    hide Slug;
  }

  lemma PlanAndPackApart(p: Plan, q: Pack, c: string, d: string, localized: map<Column, int>)
    requires PlanJob(p, c, localized).Some? && PackJob(q, d, localized).Some?
    ensures Apart(PlanJob(p, c, localized).value, PackJob(q, d, localized).value)
  {
    PlanAndPackKeysDiffer(p, q, c, d);
    hide PlanKey, PackKey;
  }

  lemma {:induction false} PlanJobsDistinct(plans: seq<Plan>, c: string, localized: map<Column, int>)
    requires c != ""
    requires forall i, j :: 0 <= i < j < |plans| ==>
               !SamePlan(plans[i], plans[j]) && !SharePrice(plans[i].price, plans[j].price)
    ensures Distinct(PlanJobs(plans, c, localized))
  {
    hide PlanJob, SamePlan, SharePrice, Apart;
    if plans != [] {
      var n := |plans| - 1;
      PlanJobsDistinct(plans[..n], c, localized);
      forall x, y | x in PlanJobs(plans[..n], c, localized) && y in JobList(PlanJob(plans[n], c, localized))
        ensures Apart(x, y)
      {
        PlanJobsMembers(plans[..n], c, localized, x);
        var i :| 0 <= i < n && PlanJob(plans[..n][i], c, localized) == Some(x);
        PlansApart(plans[i], plans[n], c, c, localized);
      }
      DistinctAppend(PlanJobs(plans[..n], c, localized), JobList(PlanJob(plans[n], c, localized)));
    }
  }

  /** Two synced products, or one in two currencies. */
  lemma PacksApart(packs: seq<Pack>, currencies: seq<string>, localized: map<Column, int>, i: nat, c: string, j: nat,
                   d: string)
    requires CatalogSound([], packs, currencies) && NoCollision(packs, currencies, localized)
    requires i < |packs| && j < |packs| && c in currencies && d in currencies && (i != j || c != d)
    requires PackJob(packs[i], c, localized).Some? && PackJob(packs[j], d, localized).Some?
    ensures Apart(PackJob(packs[i], c, localized).value, PackJob(packs[j], d, localized).value)
  {
    assert i != j ==> !SharePrice(packs[i].price, packs[j].price);
    PacksApartIff(packs[i], packs[j], c, d, localized);
    if i == j {
      SelfApart(packs[i], c, d);
    } else if i > j {
      CollideSymmetric(packs[i], c, packs[j], d);
    }
    hide PackJob, Collide, Apart;
  }

  lemma {:induction false} PackJobsDistinct(packs: seq<Pack>, currencies: seq<string>, localized: map<Column, int>,
                                            c: string, n: nat)
    requires CatalogSound([], packs, currencies) && NoCollision(packs, currencies, localized) && c in currencies
             && n <= |packs|
    ensures Distinct(PackJobs(packs[..n], c, localized))
  {
    hide PackJob, Apart, CatalogSound, NoCollision;
    if n > 0 {
      PackJobsDistinct(packs, currencies, localized, c, n - 1);
      assert packs[..n][..n - 1] == packs[..n - 1];
      forall x, y | x in PackJobs(packs[..n - 1], c, localized) && y in JobList(PackJob(packs[n - 1], c, localized))
        ensures Apart(x, y)
      {
        PackJobsMembers(packs[..n - 1], c, localized, x);
        var i :| 0 <= i < n - 1 && PackJob(packs[..n - 1][i], c, localized) == Some(x);
        PacksApart(packs, currencies, localized, i, c, n - 1, c);
      }
      DistinctAppend(PackJobs(packs[..n - 1], c, localized), JobList(PackJob(packs[n - 1], c, localized)));
    }
  }

  /** A plan job and a product job, in whatever currencies. */
  lemma KindsApart(plans: seq<Plan>, packs: seq<Pack>, c: string, d: string, localized: map<Column, int>, x: Job,
                   y: Job)
    requires x in PlanJobs(plans, c, localized) && y in PackJobs(packs, d, localized)
    ensures Apart(x, y) && Apart(y, x)
  {
    hide PlanJob, PackJob;
    PlanJobsMembers(plans, c, localized, x);
    PackJobsMembers(packs, d, localized, y);
    var i :| 0 <= i < |plans| && PlanJob(plans[i], c, localized) == Some(x);
    var j :| 0 <= j < |packs| && PackJob(packs[j], d, localized) == Some(y);
    PlanAndPackApart(plans[i], packs[j], c, d, localized);
  }

  lemma CurrenciesApart(plans: seq<Plan>, packs: seq<Pack>, currencies: seq<string>, localized: map<Column, int>,
                        c: string, d: string, x: Job, y: Job)
    requires CatalogSound(plans, packs, currencies) && NoCollision(packs, currencies, localized)
    requires c in currencies && d in currencies && c != d
    requires InCurrency(plans, packs, c, localized, x) && InCurrency(plans, packs, d, localized, y)
    ensures Apart(x, y)
  {
    hide PlanJob, PackJob, Apart, NoCollision;
    if x in PlanJobs(plans, c, localized) && y in PlanJobs(plans, d, localized) {
      PlanJobsMembers(plans, c, localized, x);
      PlanJobsMembers(plans, d, localized, y);
      var i :| 0 <= i < |plans| && PlanJob(plans[i], c, localized) == Some(x);
      var j :| 0 <= j < |plans| && PlanJob(plans[j], d, localized) == Some(y);
      PlansApart(plans[i], plans[j], c, d, localized);
    } else if x in PackJobs(packs, c, localized) && y in PackJobs(packs, d, localized) {
      PackJobsMembers(packs, c, localized, x);
      PackJobsMembers(packs, d, localized, y);
      var i :| 0 <= i < |packs| && PackJob(packs[i], c, localized) == Some(x);
      var j :| 0 <= j < |packs| && PackJob(packs[j], d, localized) == Some(y);
      PacksApart(packs, currencies, localized, i, c, j, d);
    } else if x in PlanJobs(plans, c, localized) {
      KindsApart(plans, packs, c, d, localized, x, y);
    } else {
      KindsApart(plans, packs, d, c, localized, y, x);
    }
  }

  lemma CurrencyDistinct(plans: seq<Plan>, packs: seq<Pack>, currencies: seq<string>, localized: map<Column, int>,
                         c: string)
    requires CatalogSound(plans, packs, currencies) && NoCollision(packs, currencies, localized) && c in currencies
    ensures Distinct(PlanJobs(plans, c, localized) + PackJobs(packs, c, localized))
  {
    PlanJobsDistinct(plans, c, localized);
    PackJobsDistinct(packs, currencies, localized, c, |packs|);
    assert packs[..|packs|] == packs;
    hide PlanJobs, PackJobs, Distinct, CatalogSound, NoCollision, Apart;
    forall x, y | x in PlanJobs(plans, c, localized) && y in PackJobs(packs, c, localized) ensures Apart(x, y) {
      KindsApart(plans, packs, c, c, localized, x, y);
    }
    DistinctAppend(PlanJobs(plans, c, localized), PackJobs(packs, c, localized));
  }

  lemma {:induction false} JobsDistinct(plans: seq<Plan>, packs: seq<Pack>, currencies: seq<string>,
                                        localized: map<Column, int>, n: nat)
    requires CatalogSound(plans, packs, currencies) && NoCollision(packs, currencies, localized) && n <= |currencies|
    ensures Distinct(Jobs(plans, packs, currencies[..n], localized))
  {
    hide PlanJobs, PackJobs, NoCollision, Apart;
    if n > 0 {
      JobsDistinct(plans, packs, currencies, localized, n - 1);
      assert currencies[..n][..n - 1] == currencies[..n - 1];
      var c := currencies[n - 1];
      var before, now := Jobs(plans, packs, currencies[..n - 1], localized),
        PlanJobs(plans, c, localized) + PackJobs(packs, c, localized);
      CurrencyDistinct(plans, packs, currencies, localized, c);
      forall x, y | x in before && y in now ensures Apart(x, y) {
        JobsMembers(plans, packs, currencies[..n - 1], localized, x);
        var b :| b in currencies[..n - 1] && InCurrency(plans, packs, b, localized, x);
        CurrenciesApart(plans, packs, currencies, localized, b, c, x, y);
      }
      DistinctAppend(before, now);
      assert before + now == before + PlanJobs(plans, c, localized) + PackJobs(packs, c, localized);
    }
  }

  lemma SameKeySameJob(jobs: seq<Job>, x: Job, y: Job)
    requires Distinct(jobs) && x in jobs && y in jobs && x.key == y.key
    ensures x == y
  {
  }

  /** Over the rows the tables allow, the jobs of a run have distinct keys and columns if and only if no two synced
      products collide. */
  lemma JobsDistinctIff(plans: seq<Plan>, packs: seq<Pack>, currencies: seq<string>, localized: map<Column, int>)
    requires CatalogSound(plans, packs, currencies)
    ensures Distinct(Jobs(plans, packs, currencies, localized)) <==> NoCollision(packs, currencies, localized)
  {
    hide PackJob, Collide, SharePrice, Distinct, Jobs;
    if NoCollision(packs, currencies, localized) {
      JobsDistinct(plans, packs, currencies, localized, |currencies|);
      assert currencies[..|currencies|] == currencies;
    } else {
      var i, j, c, d :| 0 <= i < j < |packs| && c in currencies && d in currencies
                        && PackJob(packs[i], c, localized).Some? && PackJob(packs[j], d, localized).Some?
                        && Collide(packs[i], c, packs[j], d);
      CollisionShows(plans, packs, currencies, localized, i, c, j, d);
    }
  }

  lemma PackJobListed(plans: seq<Plan>, packs: seq<Pack>, currencies: seq<string>, localized: map<Column, int>, i: nat,
                      c: string)
    requires i < |packs| && c in currencies && PackJob(packs[i], c, localized).Some?
    ensures PackJob(packs[i], c, localized).value in Jobs(plans, packs, currencies, localized)
  {
    hide PackJob;
    var x := PackJob(packs[i], c, localized).value;
    PackJobsMembers(packs, c, localized, x);
    assert InCurrency(plans, packs, c, localized, x);
    JobsMembers(plans, packs, currencies, localized, x);
  }

  lemma CollisionShows(plans: seq<Plan>, packs: seq<Pack>, currencies: seq<string>, localized: map<Column, int>,
                       i: nat, c: string, j: nat, d: string)
    requires i < |packs| && j < |packs| && c in currencies && d in currencies && |c| == |d| == 3
    requires !SharePrice(packs[i].price, packs[j].price)
    requires PackJob(packs[i], c, localized).Some? && PackJob(packs[j], d, localized).Some?
             && Collide(packs[i], c, packs[j], d)
    ensures !Distinct(Jobs(plans, packs, currencies, localized))
  {
    PackKeysEqualIff(packs[i], packs[j], c, d);
    PackJobListed(plans, packs, currencies, localized, i, c);
    PackJobListed(plans, packs, currencies, localized, j, d);
    hide Distinct, Jobs, Collide, PackKey;
    if Distinct(Jobs(plans, packs, currencies, localized)) {
      SameKeySameJob(Jobs(plans, packs, currencies, localized), PackJob(packs[i], c, localized).value,
                     PackJob(packs[j], d, localized).value);
    }
  }

  // ---------------------------------------------------------------- what a collision does to a run

  ghost predicate ColumnsDistinct(jobs: seq<Job>) {
    forall i, j :: 0 <= i < j < |jobs| ==> jobs[i].column != jobs[j].column
  }

  lemma ColumnsAppend(a: seq<Job>, b: seq<Job>)
    requires ColumnsDistinct(a) && ColumnsDistinct(b) && forall x, y :: x in a && y in b ==> x.column != y.column
    ensures ColumnsDistinct(a + b)
  {
    var l := a + b;
    forall i, j | 0 <= i < j < |l| ensures l[i].column != l[j].column {
      if i < |a| <= j {
        assert l[i] in a && l[j] in b;
      }
    }
  }

  lemma PlanJobColumn(p: Plan, c: string, localized: map<Column, int>)
    requires PlanJob(p, c, localized).Some?
    ensures p.price.Some? && PlanJob(p, c, localized).value.column == PlanColumn(p.price.value.id, c)
  {
    hide PlanKey;
  }

  lemma {:induction false} PlanColumnsDistinct(plans: seq<Plan>, c: string, localized: map<Column, int>)
    requires forall i, j :: 0 <= i < j < |plans| ==> !SharePrice(plans[i].price, plans[j].price)
    ensures ColumnsDistinct(PlanJobs(plans, c, localized))
  {
    hide PlanJob;
    if plans != [] {
      var n := |plans| - 1;
      PlanColumnsDistinct(plans[..n], c, localized);
      var before, last := PlanJobs(plans[..n], c, localized), JobList(PlanJob(plans[n], c, localized));
      forall x, y | x in before && y in last ensures x.column != y.column {
        PlanJobsMembers(plans[..n], c, localized, x);
        var i :| 0 <= i < n && PlanJob(plans[..n][i], c, localized) == Some(x);
        assert !SharePrice(plans[i].price, plans[n].price);
        PlanJobColumn(plans[i], c, localized);
        PlanJobColumn(plans[n], c, localized);
      }
      ColumnsAppend(before, last);
    }
  }

  lemma PackJobColumn(p: Pack, c: string, localized: map<Column, int>)
    requires PackJob(p, c, localized).Some?
    ensures p.price.Some? && PackJob(p, c, localized).value.column == ProductColumn(p.price.value.id, c)
  {
    hide PackKey;
  }

  lemma {:induction false} PackColumnsDistinct(packs: seq<Pack>, c: string, localized: map<Column, int>)
    requires forall i, j :: 0 <= i < j < |packs| ==> !SharePrice(packs[i].price, packs[j].price)
    ensures ColumnsDistinct(PackJobs(packs, c, localized))
  {
    hide PackJob;
    if packs != [] {
      var n := |packs| - 1;
      PackColumnsDistinct(packs[..n], c, localized);
      var before, last := PackJobs(packs[..n], c, localized), JobList(PackJob(packs[n], c, localized));
      forall x, y | x in before && y in last ensures x.column != y.column {
        PackJobsMembers(packs[..n], c, localized, x);
        var i :| 0 <= i < n && PackJob(packs[..n][i], c, localized) == Some(x);
        assert !SharePrice(packs[i].price, packs[n].price);
        PackJobColumn(packs[i], c, localized);
        PackJobColumn(packs[n], c, localized);
      }
      ColumnsAppend(before, last);
    }
  }

  /** A job's column names its kind and its currency. */
  lemma ColumnTells(plans: seq<Plan>, packs: seq<Pack>, c: string, localized: map<Column, int>, job: Job)
    ensures job in PlanJobs(plans, c, localized) ==> job.column.PlanColumn? && job.column.currency == c
    ensures job in PackJobs(packs, c, localized) ==> job.column.ProductColumn? && job.column.currency == c
  {
    hide PlanKey, PackKey;
    PlanJobsMembers(plans, c, localized, job);
    PackJobsMembers(packs, c, localized, job);
  }

  lemma {:induction false} JobColumnsDistinct(plans: seq<Plan>, packs: seq<Pack>, currencies: seq<string>,
                                              localized: map<Column, int>, n: nat)
    requires CatalogSound(plans, packs, currencies) && n <= |currencies|
    ensures ColumnsDistinct(Jobs(plans, packs, currencies[..n], localized))
  {
    hide PlanJobs, PackJobs;
    if n > 0 {
      JobColumnsDistinct(plans, packs, currencies, localized, n - 1);
      assert currencies[..n][..n - 1] == currencies[..n - 1];
      var c := currencies[n - 1];
      var before := Jobs(plans, packs, currencies[..n - 1], localized);
      var ofPlans, ofPacks := PlanJobs(plans, c, localized), PackJobs(packs, c, localized);
      PlanColumnsDistinct(plans, c, localized);
      PackColumnsDistinct(packs, c, localized);
      forall x: Job | x in ofPlans + ofPacks ensures x.column.currency == c && (x in ofPlans ==> x.column.PlanColumn?) {
        ColumnTells(plans, packs, c, localized, x);
      }
      forall x: Job | x in ofPacks ensures x.column.ProductColumn? {
        ColumnTells(plans, packs, c, localized, x);
      }
      forall x: Job | x in before ensures x.column.currency != c {
        JobsMembers(plans, packs, currencies[..n - 1], localized, x);
        var b :| b in currencies[..n - 1] && InCurrency(plans, packs, b, localized, x);
        ColumnTells(plans, packs, b, localized, x);
      }
      ColumnsAppend(ofPlans, ofPacks);
      ColumnsAppend(before, ofPlans + ofPacks);
      assert before + (ofPlans + ofPacks) == before + ofPlans + ofPacks;
    }
  }

  /** An account with nothing in it, and a column for every job. */
  function Blank(jobs: seq<Job>): World {
    var columns := set job | job in jobs :: job.column;
    World(Store(map[], map[], 0), map k | k in columns :: None, 0)
  }

  /** The price the n-th job makes there, after its product. */
  function PriceOf(n: nat): nat {
    2 * n + 1
  }

  /** The m-th job made its price, and its column points there. */
  predicate Made(w: World, job: Job, m: nat) {
    && job.column in w.columns && w.columns[job.column] == Some(PriceOf(m))
    && PriceOf(m) in w.store.prices && w.store.prices[PriceOf(m)].lookupKey in {None, Some(job.key)}
  }

  predicate Lost(w: World, m: nat) {
    PriceOf(m) in w.store.prices && w.store.prices[PriceOf(m)].lookupKey == None
  }

  /** Of two prices made under one key the earlier has lost it. */
  ghost predicate Grown(w: World, jobs: seq<Job>, n: nat)
    requires n <= |jobs|
  {
    && w.store.next == 2 * n && w.columns.Keys == Blank(jobs).columns.Keys
    && AllMade(w, jobs, n) && EarlierLost(w, jobs, n)
  }

  ghost predicate AllMade(w: World, jobs: seq<Job>, n: nat)
    requires n <= |jobs|
  {
    forall m :: 0 <= m < n ==> Made(w, jobs[m], m)
  }

  ghost predicate EarlierLost(w: World, jobs: seq<Job>, n: nat)
    requires n <= |jobs|
  {
    forall i, j :: 0 <= i < j < n && jobs[i].key == jobs[j].key ==> Lost(w, i)
  }

  /** A job that finds nothing under its key. */
  lemma ApplyNone(w: World, job: Job)
    requires job.column in w.columns
    ensures var after, id := Apply(w, None, job), w.store.next + 1;
            && after.store.next == w.store.next + 2
            && after.store.prices.Keys == w.store.prices.Keys + {id}
               && after.store.prices[id].lookupKey == Some(job.key)
            && (forall i :: i in w.store.prices && i != id ==>
                  after.store.prices[i].lookupKey ==
                  if w.store.prices[i].lookupKey == Some(job.key) then None else w.store.prices[i].lookupKey)
            && after.columns.Keys == w.columns.Keys && after.columns[job.column] == Some(id)
            && (forall k :: k in w.columns && k != job.column ==> after.columns[k] == w.columns[k])
  {
  }

  lemma MadeStep(w: World, job: Job, m: nat, next: Job)
    requires next.column in w.columns && PriceOf(m) < w.store.next && Made(w, job, m) && job.column != next.column
    ensures Made(Apply(w, None, next), job, m)
    ensures Lost(w, m) || job.key == next.key ==> Lost(Apply(w, None, next), m)
  {
    ApplyNone(w, next);
    hide Apply;
  }

  lemma AllMadeStep(w: World, jobs: seq<Job>, n: nat)
    requires n < |jobs| && ColumnsDistinct(jobs) && AllMade(w, jobs, n)
    requires w.store.next == 2 * n && jobs[n].column in w.columns
    ensures AllMade(Apply(w, None, jobs[n]), jobs, n + 1)
  {
    ApplyNone(w, jobs[n]);
    assert Made(Apply(w, None, jobs[n]), jobs[n], n);
    hide Apply, Made;
    forall m | 0 <= m < n ensures Made(Apply(w, None, jobs[n]), jobs[m], m) {
      assert Made(w, jobs[m], m);
      MadeStep(w, jobs[m], m, jobs[n]);
    }
  }

  lemma EarlierLostStep(w: World, jobs: seq<Job>, n: nat)
    requires n < |jobs| && ColumnsDistinct(jobs) && AllMade(w, jobs, n) && EarlierLost(w, jobs, n)
    requires w.store.next == 2 * n && jobs[n].column in w.columns
    ensures EarlierLost(Apply(w, None, jobs[n]), jobs, n + 1)
  {
    hide Apply, Made, Lost;
    forall i, j | 0 <= i < j < n + 1 && jobs[i].key == jobs[j].key ensures Lost(Apply(w, None, jobs[n]), i) {
      assert Made(w, jobs[i], i);
      MadeStep(w, jobs[i], i, jobs[n]);
    }
  }

  lemma GrownStep(w: World, jobs: seq<Job>, n: nat)
    requires n < |jobs| && ColumnsDistinct(jobs) && Grown(w, jobs, n)
    ensures Grown(Apply(w, None, jobs[n]), jobs, n + 1)
  {
    assert jobs[n] in jobs && jobs[n].column in Blank(jobs).columns;
    hide Blank, AllMade, EarlierLost;
    AllMadeStep(w, jobs, n);
    EarlierLostStep(w, jobs, n);
    ApplyNone(w, jobs[n]);
    hide Apply;
  }

  lemma {:induction false} GrownRun(jobs: seq<Job>, n: nat)
    requires n <= |jobs| && ColumnsDistinct(jobs)
    ensures Grown(RunPrefetched(Blank(jobs), map[], jobs[..n]), jobs, n)
  {
    hide Apply, ColumnsDistinct;
    if n > 0 {
      GrownRun(jobs, n - 1);
      assert jobs[..n][..n - 1] == jobs[..n - 1];
      GrownStep(RunPrefetched(Blank(jobs), map[], jobs[..n - 1]), jobs, n - 1);
    }
  }

  lemma BlankReady(jobs: seq<Job>)
    ensures Valid(Blank(jobs).store) && Ready(Blank(jobs).store, map[], jobs, 0)
  {
  }

  lemma LostNotInLine(w: World, job: Job, m: nat)
    requires Made(w, job, m) && Lost(w, m)
    ensures !InLine(w, job)
  {
  }

  /** A run that fails: over an empty account the earlier of two jobs with one key is left pointing at a price that lost
      it. */
  lemma SharedKeyFails(jobs: seq<Job>, i: nat, j: nat)
    requires ColumnsDistinct(jobs) && i < j < |jobs| && jobs[i].key == jobs[j].key
    ensures Valid(Blank(jobs).store) && Ready(Blank(jobs).store, map[], jobs, 0)
    ensures !InLine(RunPrefetched(Blank(jobs), map[], jobs), jobs[i])
  {
    BlankReady(jobs);
    GrownRun(jobs, |jobs|);
    assert jobs[..|jobs|] == jobs;
    var end := RunPrefetched(Blank(jobs), map[], jobs);
    hide RunPrefetched, Made, Lost, InLine, Blank, Valid, Ready;
    assert Made(end, jobs[i], i) && Lost(end, i);
    LostNotInLine(end, jobs[i], i);
  }

  /** Every run over these jobs, from whatever account and an agreeing map, brings all of them in line. */
  ghost predicate AlwaysDone(jobs: seq<Job>) {
    forall w: World, prefetched: map<string, Snapshot> :: Valid(w.store) && Ready(w.store, prefetched, jobs, 0) ==>
      Done(RunPrefetched(w, prefetched, jobs), jobs, |jobs|)
  }

  lemma AlwaysDoneIff(jobs: seq<Job>)
    requires ColumnsDistinct(jobs)
    ensures AlwaysDone(jobs) <==> Distinct(jobs)
  {
    if Distinct(jobs) {
      forall w: World, prefetched | Valid(w.store) && Ready(w.store, prefetched, jobs, 0)
        ensures Done(RunPrefetched(w, prefetched, jobs), jobs, |jobs|)
      {
        PrefetchedRun(w, prefetched, jobs, |jobs|);
        assert jobs[..|jobs|] == jobs;
      }
    } else {
      var i, j :| 0 <= i < j < |jobs| && jobs[i].key == jobs[j].key;
      SharedKeyFails(jobs, i, j);
      hide RunPrefetched, Valid, Ready, InLine;
      assert !Done(RunPrefetched(Blank(jobs), map[], jobs), jobs, |jobs|);
    }
  }

  /** Over the rows the tables allow, every run of the sync ends with every job in line if and only if no two synced
      products collide. */
  lemma RunsDoneIff(plans: seq<Plan>, packs: seq<Pack>, currencies: seq<string>, localized: map<Column, int>)
    requires CatalogSound(plans, packs, currencies)
    ensures AlwaysDone(Jobs(plans, packs, currencies, localized)) <==> NoCollision(packs, currencies, localized)
  {
    JobColumnsDistinct(plans, packs, currencies, localized, |currencies|);
    assert currencies[..|currencies|] == currencies;
    JobsDistinctIff(plans, packs, currencies, localized);
    hide CatalogSound, NoCollision, Jobs, AlwaysDone, Distinct, ColumnsDistinct;
    AlwaysDoneIff(Jobs(plans, packs, currencies, localized));
  }

  /** One price holds the key and has the amount, currency and interval, and the column, if there is one, names it. */
  ghost predicate Served(w: World, key: string, amount: int, currency: string, interval: Option<string>,
                         column: Column) {
    exists i ::
      && i in w.store.prices && w.store.prices[i].lookupKey == Some(key) && w.store.prices[i].unitAmount == amount
      && w.store.prices[i].currency == currency && w.store.prices[i].interval == interval
      && (column in w.columns ==> w.columns[column] == Some(i))
  }

  lemma InLineServed(w: World, job: Job)
    ensures InLine(w, job) <==> Served(w, job.key, job.amount, job.currency, job.interval, job.column)
  {
    InLineMeans(w, job);
  }

  ghost predicate AllServed(w: World, jobs: seq<Job>) {
    forall job :: job in jobs ==> Served(w, job.key, job.amount, job.currency, job.interval, job.column)
  }

  lemma DoneServed(w: World, jobs: seq<Job>)
    ensures Done(w, jobs, |jobs|) <==> AllServed(w, jobs)
  {
    forall job: Job
      ensures InLine(w, job) <==> Served(w, job.key, job.amount, job.currency, job.interval, job.column)
    {
      InLineServed(w, job);
    }
    hide InLine, Served;
    if AllServed(w, jobs) {
      forall k | 0 <= k < |jobs| ensures InLine(w, jobs[k]) {
        assert jobs[k] in jobs;
      }
    }
  }

  /** Every run of the sync ends with every job served if and only if no two synced products collide. */
  lemma RunsServedIff(plans: seq<Plan>, packs: seq<Pack>, currencies: seq<string>, localized: map<Column, int>)
    requires CatalogSound(plans, packs, currencies)
    ensures var jobs := Jobs(plans, packs, currencies, localized);
            (forall w: World, prefetched: map<string, Snapshot> ::
               Valid(w.store) && Ready(w.store, prefetched, jobs, 0) ==>
                 AllServed(RunPrefetched(w, prefetched, jobs), jobs))
            <==> NoCollision(packs, currencies, localized)
  {
    RunsDoneIff(plans, packs, currencies, localized);
    var jobs := Jobs(plans, packs, currencies, localized);
    forall w: World ensures Done(w, jobs, |jobs|) <==> AllServed(w, jobs) {
      DoneServed(w, jobs);
    }
    hide CatalogSound, NoCollision, Jobs, Done, AllServed, Valid, Ready, RunPrefetched;
  }

  /** The amount a plan or product is to be charged in a currency: its own in dollars, its localized one elsewhere. */
  predicate Costs(row: PriceRow, column: Column, localized: map<Column, int>, amount: int) {
    if column.currency == "usd" then amount == row.amount else column in localized && localized[column] == amount
  }

  /** What a finished run means for the catalog: a plan or product with a price row has, in every currency it costs
      something in, one price under its key with that amount, that currency and its interval, and its column names
      it. */
  lemma CatalogServed(w: World, plans: seq<Plan>, packs: seq<Pack>, currencies: seq<string>,
                      localized: map<Column, int>, c: string, amount: int)
    requires var jobs := Jobs(plans, packs, currencies, localized); Done(w, jobs, |jobs|)
    requires c in currencies
    ensures forall p :: (p in plans && p.price.Some?
                         && Costs(p.price.value, PlanColumn(p.price.value.id, c), localized, amount)) ==>
              Served(w, PlanKey(p, c), amount, c, Some(if p.interval == Month then "month" else "year"),
                     PlanColumn(p.price.value.id, c))
    ensures forall p :: (p in packs && p.price.Some?
                         && Costs(p.price.value, ProductColumn(p.price.value.id, c), localized, amount)) ==>
              Served(w, PackKey(p, c), amount, c, None, ProductColumn(p.price.value.id, c))
  {
    forall p | p in plans && p.price.Some? && Costs(p.price.value, PlanColumn(p.price.value.id, c), localized, amount)
      ensures Served(w, PlanKey(p, c), amount, c, Some(if p.interval == Month then "month" else "year"),
                     PlanColumn(p.price.value.id, c))
    {
      PlanServed(w, plans, packs, currencies, localized, p, c, amount);
    }
    forall p | p in packs && p.price.Some?
      && Costs(p.price.value, ProductColumn(p.price.value.id, c), localized, amount)
      ensures Served(w, PackKey(p, c), amount, c, None, ProductColumn(p.price.value.id, c))
    {
      PackServed(w, plans, packs, currencies, localized, p, c, amount);
    }
  }

  lemma JobDone(w: World, jobs: seq<Job>, job: Job)
    requires Done(w, jobs, |jobs|) && job in jobs
    ensures Served(w, job.key, job.amount, job.currency, job.interval, job.column)
  {
    hide InLine, Served;
    var k :| 0 <= k < |jobs| && jobs[k] == job;
    InLineServed(w, job);
  }

  lemma PlanServed(w: World, plans: seq<Plan>, packs: seq<Pack>, currencies: seq<string>, localized: map<Column, int>,
                   p: Plan, c: string, amount: int)
    requires var jobs := Jobs(plans, packs, currencies, localized); Done(w, jobs, |jobs|)
    requires p in plans && c in currencies && p.price.Some?
    requires Costs(p.price.value, PlanColumn(p.price.value.id, c), localized, amount)
    ensures Served(w, PlanKey(p, c), amount, c, Some(if p.interval == Month then "month" else "year"),
                   PlanColumn(p.price.value.id, c))
  {
    hide PlanKey, Jobs, Done, Served;
    var job := PlanJob(p, c, localized).value;
    PlanJobsMembers(plans, c, localized, job);
    var i :| 0 <= i < |plans| && plans[i] == p;
    assert InCurrency(plans, packs, c, localized, job);
    JobsMembers(plans, packs, currencies, localized, job);
    JobDone(w, Jobs(plans, packs, currencies, localized), job);
  }

  lemma PackServed(w: World, plans: seq<Plan>, packs: seq<Pack>, currencies: seq<string>, localized: map<Column, int>,
                   p: Pack, c: string, amount: int)
    requires var jobs := Jobs(plans, packs, currencies, localized); Done(w, jobs, |jobs|)
    requires p in packs && c in currencies && p.price.Some?
    requires Costs(p.price.value, ProductColumn(p.price.value.id, c), localized, amount)
    ensures Served(w, PackKey(p, c), amount, c, None, ProductColumn(p.price.value.id, c))
  {
    hide PackKey, Jobs, Done, Served;
    var job := PackJob(p, c, localized).value;
    PackJobsMembers(packs, c, localized, job);
    var i :| 0 <= i < |packs| && packs[i] == p;
    assert InCurrency(plans, packs, c, localized, job);
    JobsMembers(plans, packs, currencies, localized, job);
    JobDone(w, Jobs(plans, packs, currencies, localized), job);
  }

  /** How the keys read. */
  lemma KeysRead(p: Plan, q: Pack)
    requires p.context == Team && p.tier == Pro && p.interval == Year && q.name == "A  b!"
    ensures PlanKey(p, "usd") == "plan_team_pro_year" && PlanKey(p, "eur") == "plan_team_pro_year_eur"
    ensures PackKey(q, "usd") == "product_a_b" && PackKey(q, "eur") == "product_a_b_eur"
  {
    SlugReads();
    hide Slug;
  }

  lemma SlugReads()
    ensures Slug("A  b!") == "a_b"
  {
    var parts := [("", "A"), ("  ", "b")];
    assert Text(parts[1..][1..]) == "" && Text(parts[1..]) == "  b";
    assert Text(parts) + "!" == "A  b!";
    assert Joined(parts[1..]) == "b" && Joined(parts) == "a_b";
    SlugOfWords(parts, "!");
  }

  // ---------------------------------------------------------------- the command

  /** Prices holding one of some keys are at most as many as the keys. */
  lemma {:induction false} HoldersBounded(st: Store, keys: seq<string>, ids: set<nat>)
    requires Valid(st) && forall i :: i in ids ==> exists k :: k in keys && Holds(st, k, i)
    ensures |ids| <= |keys|
  {
    if keys == [] {
      assert ids == {};
    } else {
      var n := |keys| - 1;
      var rest := set i | i in ids && !Holds(st, keys[n], i);
      assert forall k :: k in keys ==> k in keys[..n] || k == keys[n];
      HoldersBounded(st, keys[..n], rest);
      if rest != ids {
        var i :| i in ids && Holds(st, keys[n], i);
        assert ids == rest + {i};
      }
    }
  }

  class Command {
    var products: map<nat, Product>
    var prices: map<nat, Price>
    var next: nat
    var columns: Columns
    var rewrites: nat

    function Account(): Store reads this { Store(products, prices, next) }

    function Contents(): World reads this { World(Account(), columns, rewrites) }

    constructor (w: World)
      ensures Contents() == w
    {
      products, prices, next := w.store.products, w.store.prices, w.store.next;
      columns, rewrites := w.columns, w.rewrites;
    }

    /** Price.list: the prices holding one of the keys, at most `limit` of them, products expanded. */
    method ListPrices(keys: seq<string>, limit: nat) returns (page: seq<Snapshot>)
      requires Valid(Account())
      ensures forall s :: s in page ==> (s.price.lookupKey.Some? && s.price.lookupKey.value in keys
                                         && Lookup(Account(), s.price.lookupKey.value) == Some(s))
      ensures |keys| <= limit ==>
                forall k, i :: k in keys && Holds(Account(), k, i) ==> exists s :: s in page && s.id == i
    {
      var rest := set i | i in prices && prices[i].lookupKey.Some? && prices[i].lookupKey.value in keys;
      HoldersBounded(Account(), keys, rest);
      page := [];
      while rest != {} && |page| < limit
        invariant forall i :: i in rest ==>
                    i in prices && prices[i].lookupKey.Some? && prices[i].lookupKey.value in keys
        invariant forall s :: s in page ==> (s.price.lookupKey.Some? && s.price.lookupKey.value in keys
                                             && Lookup(Account(), s.price.lookupKey.value) == Some(s))
        invariant forall k, i :: k in keys && Holds(Account(), k, i) ==> i in rest || exists s :: s in page && s.id == i
        invariant |keys| <= limit ==> |page| + |rest| <= limit
        decreases |rest|
      {
        var i :| i in rest;
        rest := rest - {i};
        assert Holds(Account(), prices[i].lookupKey.value, i);
        page := page + [Snapshot(i, prices[i], products[prices[i].product])];
      }
    }

    /** One page entered into the table under its prices' lookup keys. */
    method AddPage(known: map<string, Snapshot>, page: seq<Snapshot>) returns (result: map<string, Snapshot>)
      requires Valid(Account())
      requires forall k :: k in known ==> Lookup(Account(), k) == Some(known[k])
      requires forall s :: s in page ==>
                 s.price.lookupKey.Some? && Lookup(Account(), s.price.lookupKey.value) == Some(s)
      ensures forall k :: k in known ==> k in result
      ensures forall k :: k in result ==> Lookup(Account(), k) == Some(result[k])
      ensures forall s :: s in page ==> s.price.lookupKey.value in result
    {
      hide Lookup, Valid;
      result := known;
      for j := 0 to |page|
        invariant forall k :: k in known ==> k in result
        invariant forall k :: k in result ==> Lookup(Account(), k) == Some(result[k])
        invariant forall m :: 0 <= m < j ==> page[m].price.lookupKey.Some? && page[m].price.lookupKey.value in result
      {
        assert page[j] in page;
        result := result[page[j].price.lookupKey.value := page[j]];
      }
    }

    /** The whole lookup table in calls of ten keys: what a lookup of each wanted key would find now. */
    method BulkFetchExisting(keys: seq<string>) returns (result: map<string, Snapshot>)
      requires Valid(Account())
      ensures forall k :: k in keys ==> Get(result, k) == Lookup(Account(), k)
    {
      result := map[];
      var i := 0;
      while i < |keys|
        invariant 0 <= i <= |keys|
        invariant forall k :: k in keys[..i] ==> k in result || Lookup(Account(), k).None?
        invariant forall k :: k in result ==> Lookup(Account(), k) == Some(result[k])
      {
        var batch := keys[i..if i + 10 <= |keys| then i + 10 else |keys|];
        var page := ListPrices(batch, 10);
        result := AddPage(result, page);
        forall k | k in batch && Lookup(Account(), k).Some? ensures k in result {
          var s :| s in page && s.id == Lookup(Account(), k).value.id;
        }
        hide Lookup, Valid;
        assert keys[..i + |batch|] == keys[..i] + batch;
        i := i + |batch|;
      }
      assert keys[..i] == keys;
    }

    method CollectLookupKeys(plans: seq<Plan>, packs: seq<Pack>, currencies: seq<string>) returns (keys: seq<string>)
      ensures Wanted(keys, plans, packs, currencies)
    {
      hide PlanKey, PackKey;
      keys := [];
      for i := 0 to |plans|
        invariant forall p, c :: p in plans[..i] && c in currencies ==> PlanKey(p, c) in keys
      {
        for j := 0 to |currencies|
          invariant forall p, c :: p in plans[..i] && c in currencies ==> PlanKey(p, c) in keys
          invariant forall c :: c in currencies[..j] ==> PlanKey(plans[i], c) in keys
        {
          keys := keys + [PlanKey(plans[i], currencies[j])];
          assert PlanKey(plans[i], currencies[j]) == keys[|keys| - 1];
        }
      }
      assert plans[..|plans|] == plans;
      for i := 0 to |packs|
        invariant forall p, c :: p in plans && c in currencies ==> PlanKey(p, c) in keys
        invariant forall p, c :: p in packs[..i] && c in currencies ==> PackKey(p, c) in keys
      {
        for j := 0 to |currencies|
          invariant forall p, c :: p in plans && c in currencies ==> PlanKey(p, c) in keys
          invariant forall p, c :: p in packs[..i] && c in currencies ==> PackKey(p, c) in keys
          invariant forall c :: c in currencies[..j] ==> PackKey(packs[i], c) in keys
        {
          keys := keys + [PackKey(packs[i], currencies[j])];
          assert PackKey(packs[i], currencies[j]) == keys[|keys| - 1];
        }
      }
      assert packs[..|packs|] == packs;
    }

    method SyncStripeProduct(p: nat, known: Option<Product>, job: Job)
      modifies this`products
      ensures Account() == SyncProduct(old(Account()), p, known, job)
    {
      var name, description: Option<string> := None, None;
      if known.Some? && known.value.name != job.name {
        name := Some(job.name);
      }
      if job.description.Some? && job.description.value != ""
        && (known.None? || known.value.description != job.description) {
        description := job.description;
      }
      var existing := if known.Some? then known.value.metadata else map[];
      var metadata := existing + job.productMeta;
      if metadata == existing {
        metadata := map[];
      }
      if name.Some? || description.Some? || metadata != map[] {
        products := ModifyProduct(Account(), p, name, description, metadata).products;
      }
    }

    method CreateStripePrice(p: Price) returns (id: nat)
      modifies this`prices, this`next
      ensures Account() == CreatePrice(old(Account()), p) && id == old(next)
    {
      id := next;
      prices := CreatePrice(Account(), p).prices;
      next := next + 1;
    }

    method UpsertPrice(job: Job, existing: map<string, Snapshot>) returns (id: nat)
      modifies this`products, this`prices, this`next
      ensures (Account(), id) == Upsert(old(Account()), Get(existing, job.key), job)
    {
      var product: nat;
      if job.key in existing {
        var current := existing[job.key];
        if Matches(current.price, job) {
          SyncStripeProduct(current.price.product, Some(current.product), job);
          return current.id;
        }
        product := current.price.product;
        prices := ArchivePrice(Account(), current.id).prices;
        SyncStripeProduct(product, None, job);
      } else {
        product := next;
        var description := if job.description == Some("") then None else job.description;
        products := products[next := Product(job.name, description, job.productMeta)];
        next := next + 1;
      }
      id := CreateStripePrice(NewPrice(job, product));
    }

    /** The column points at the id afterwards, if there is such a column; a write is counted if and only if it changes
        it. */
    method WritePriceId(column: Column, id: nat)
      modifies this`columns, this`rewrites
      ensures columns.Keys == old(columns).Keys
      ensures column in columns ==> columns[column] == Some(id)
      ensures forall k :: k in columns && k != column ==> columns[k] == old(columns)[k]
      ensures rewrites == old(rewrites) + if columns != old(columns) then 1 else 0
      ensures Contents() == WriteId(old(Contents()), column, id)
    {
      if column !in columns || columns[column] == Some(id) {
        return;
      }
      columns := columns[column := Some(id)];
      rewrites := rewrites + 1;
    }

    method SyncOne(job: Option<Job>, existing: map<string, Snapshot>)
      modifies this
      ensures Contents() == RunPrefetched(old(Contents()), existing, JobList(job))
    {
      if job.Some? {
        assert [job.value][..0] == [];
        var id := UpsertPrice(job.value, existing);
        WritePriceId(job.value.column, id);
      }
    }

    method SyncPlans(plans: seq<Plan>, currency: string, localized: map<Column, int>, existing: map<string, Snapshot>)
      modifies this
      ensures Contents() == RunPrefetched(old(Contents()), existing, PlanJobs(plans, currency, localized))
    {
      for i := 0 to |plans|
        invariant Contents() == RunPrefetched(old(Contents()), existing, PlanJobs(plans[..i], currency, localized))
      {
        assert plans[..i + 1][..i] == plans[..i];
        RunAppend(old(Contents()), existing, PlanJobs(plans[..i], currency, localized),
                  JobList(PlanJob(plans[i], currency, localized)));
        SyncOne(PlanJob(plans[i], currency, localized), existing);
      }
      assert plans[..|plans|] == plans;
    }

    method SyncProducts(packs: seq<Pack>, currency: string, localized: map<Column, int>,
                        existing: map<string, Snapshot>)
      modifies this
      ensures Contents() == RunPrefetched(old(Contents()), existing, PackJobs(packs, currency, localized))
    {
      for i := 0 to |packs|
        invariant Contents() == RunPrefetched(old(Contents()), existing, PackJobs(packs[..i], currency, localized))
      {
        assert packs[..i + 1][..i] == packs[..i];
        RunAppend(old(Contents()), existing, PackJobs(packs[..i], currency, localized),
                  JobList(PackJob(packs[i], currency, localized)));
        SyncOne(PackJob(packs[i], currency, localized), existing);
      }
      assert packs[..|packs|] == packs;
    }

    /** One run: over a sound catalog without colliding products every job ends in line; the map it worked from is
        returned for comparison. */
    method Handle(plans: seq<Plan>, packs: seq<Pack>, currencies: seq<string>, localized: map<Column, int>)
      returns (existing: map<string, Snapshot>)
      requires Valid(Account())
      modifies this
      ensures Contents() == RunPrefetched(old(Contents()), existing, Jobs(plans, packs, currencies, localized))
      ensures Ready(old(Account()), existing, Jobs(plans, packs, currencies, localized), 0)
      ensures forall job :: job in Jobs(plans, packs, currencies, localized) ==>
              Get(existing, job.key) == Lookup(old(Account()), job.key)
      ensures Distinct(Jobs(plans, packs, currencies, localized)) ==>
                Valid(Account())
                  && Done(Contents(), Jobs(plans, packs, currencies, localized),
                          |Jobs(plans, packs, currencies, localized)|)
      ensures CatalogSound(plans, packs, currencies) && NoCollision(packs, currencies, localized) ==>
                Valid(Account())
                  && Done(Contents(), Jobs(plans, packs, currencies, localized),
                          |Jobs(plans, packs, currencies, localized)|)
    {
      if CatalogSound(plans, packs, currencies) {
        JobsDistinctIff(plans, packs, currencies, localized);
      }
      hide Valid, IsCurrent, Distinct, RunPrefetched, PlanJobs, PackJobs, Wanted, Get, InLine, CatalogSound,
        NoCollision;
      var keys := CollectLookupKeys(plans, packs, currencies);
      existing := BulkFetchExisting(keys);
      ghost var w, jobs := Contents(), Jobs(plans, packs, currencies, localized);
      forall job | job in jobs
        ensures IsCurrent(w.store, Get(existing, job.key), job.key)
                && Get(existing, job.key) == Lookup(w.store, job.key)
      {
        JobKeysWanted(plans, packs, currencies, localized, keys, job);
        LookupIsCurrent(w.store, job.key);
      }
      RunNothing(w, existing);
      for i := 0 to |currencies|
        invariant Contents() == RunPrefetched(w, existing, Jobs(plans, packs, currencies[..i], localized))
      {
        var c := currencies[i];
        assert currencies[..i + 1][..i] == currencies[..i];
        ghost var done := Jobs(plans, packs, currencies[..i], localized);
        RunAppend(w, existing, done, PlanJobs(plans, c, localized));
        RunAppend(w, existing, done + PlanJobs(plans, c, localized), PackJobs(packs, c, localized));
        SyncPlans(plans, c, localized, existing);
        SyncProducts(packs, c, localized, existing);
      }
      assert currencies[..|currencies|] == currencies;
      if Distinct(jobs) {
        PrefetchedRun(w, existing, jobs, |jobs|);
        assert jobs[..|jobs|] == jobs;
      }
    }
  }
}
