/** The one-time OAuth code over a cache with expiring entries (apps/users/auth_views.py). Every cache call of a
    caller is a step of its own, and the clock may move between any two steps. */
module OAuthExchange {
  import opened Prelude

  const TTL: nat := 60

  datatype Entry = Entry(value: nat, expiresAt: nat)

  /** Where a caller stands: it has set the sentinel, it has read the cache, or it is done. */
  datatype Caller = Claimed(code: string, claimedAt: nat) | Read(code: string, claimedAt: nat, data: Option<nat>)

  /** `issued` keeps every entry ever stored under a code. */
  datatype State = State(now: nat, cache: map<string, Entry>, issued: map<string, Entry>, callers: map<nat, Caller>)

  datatype Action =
    | Tick(seconds: nat)
    | Store(code: string, pair: nat)
    | Add(caller: nat, code: string)
    | Get(caller: nat)
    | Delete(caller: nat)

  const Empty: State := State(0, map[], map[], map[])

  function CodeKey(code: string): string {
    "oauth_exchange:" + code
  }

  function Sentinel(code: string): string {
    CodeKey(code) + ":consumed"
  }

  predicate Live(st: State, key: string) {
    key in st.cache && st.now < st.cache[key].expiresAt
  }

  /** Codes are fresh: nobody has been issued or has presented one before it is stored. */
  predicate Fresh(st: State, code: string) {
    code !in st.issued && forall p :: p in st.callers ==> st.callers[p].code != code
  }

  function Step(st: State, a: Action): State {
    match a
    case Tick(seconds) => st.(now := st.now + seconds)
    case Store(code, pair) =>
      if !Fresh(st, code) then st
      else st.(cache := st.cache[CodeKey(code) := Entry(pair, st.now + TTL)],
               issued := st.issued[code := Entry(pair, st.now + TTL)])
    case Add(caller, code) =>
      if caller in st.callers || Live(st, Sentinel(code)) then st   // the caller gets nothing
      else st.(cache := st.cache[Sentinel(code) := Entry(1, st.now + TTL)],
               callers := st.callers[caller := Claimed(code, st.now)])
    case Get(caller) =>
      if caller !in st.callers || st.callers[caller].Read? then st
      else
        var c := st.callers[caller];
        var data := if Live(st, CodeKey(c.code)) then Some(st.cache[CodeKey(c.code)].value) else None;
        st.(callers := st.callers[caller := Read(c.code, c.claimedAt, data)])
    case Delete(caller) =>
      if caller !in st.callers || st.callers[caller].Claimed? then st
        else st.(cache := st.cache - {CodeKey(st.callers[caller].code)})
  }

  function Run(st: State, actions: seq<Action>): State {
    if actions == [] then st else Step(Run(st, actions[..|actions| - 1]), actions[|actions| - 1])
  }

  /** Issued codes are URL-safe strings: they do not end like a sentinel. */
  predicate Plain(code: string) {
    |code| < 9 || code[|code| - 9..] != ":consumed"
  }

  /** The code that spells the sentinel of another. */
  function Shadow(code: string): string {
    code + ":consumed"
  }

  /** Nobody presents the code. */
  ghost predicate Avoids(actions: seq<Action>, code: string) {
    forall i :: 0 <= i < |actions| && actions[i].Add? ==> actions[i].code != code
  }

  lemma SentinelShape(code: string, other: string)
    requires CodeKey(code) == Sentinel(other)
    ensures code == other + ":consumed"
  {
    assert CodeKey(code)[15..] == code;
    assert Sentinel(other)[15..] == other + ":consumed";
  }

  /** A code's key is never a sentinel exactly when the code does not end like one. */
  lemma KeysApart(code: string)
    ensures Plain(code) <==> forall other :: CodeKey(code) != Sentinel(other)
  {
    forall other | CodeKey(code) == Sentinel(other) ensures !Plain(code) {
      SentinelShape(code, other);
    }
    if !Plain(code) {
      var other := code[..|code| - 9];
      assert code == other + ":consumed";
      assert CodeKey(code) == Sentinel(other);
    }
  }

  lemma KeysInjective(a: string, b: string)
    ensures CodeKey(a) == CodeKey(b) <==> a == b
    ensures Sentinel(a) == Sentinel(b) <==> a == b
  {
    assert CodeKey(a)[15..] == a && CodeKey(b)[15..] == b;
    if Sentinel(a) == Sentinel(b) {
      assert Sentinel(a)[..|Sentinel(a)| - 9] == CodeKey(a) && Sentinel(b)[..|Sentinel(b)| - 9] == CodeKey(b);
    }
  }

  /** Among all keys, a plain code's own key is written through that code only, and its sentinel through it or its
      shadow. */
  lemma Keys(c: string)
    requires Plain(c)
    ensures forall d :: CodeKey(d) == CodeKey(c) ==> d == c
    ensures forall d :: Sentinel(d) == Sentinel(c) ==> d == c
    ensures forall d :: Sentinel(d) != CodeKey(c)
    ensures forall d :: CodeKey(d) == Sentinel(c) ==> d == Shadow(c)
  {
    KeysApart(c);
    forall d
      ensures CodeKey(d) == CodeKey(c) ==> d == c
      ensures Sentinel(d) == Sentinel(c) ==> d == c
      ensures CodeKey(d) == Sentinel(c) ==> d == Shadow(c)
    {
      KeysInjective(c, d);
      if CodeKey(d) == Sentinel(c) { SentinelShape(d, c); }
    }
  }

  // ---------------------------------------------------------------- the invariant of one code

  predicate Holds(st: State, p: nat, c: string) {
    p in st.callers && st.callers[p].code == c
  }

  /** The caller claimed the code while its entry could still be alive. */
  predicate Early(st: State, p: nat, c: string) {
    Holds(st, p, c) && c in st.issued && st.callers[p].claimedAt < st.issued[c].expiresAt
  }

  /** A cached code is as it was issued, no longer than one lifetime ago. */
  predicate Dated(st: State, c: string) {
    && (c in st.issued ==> st.issued[c].expiresAt <= st.now + TTL)
    && (CodeKey(c) in st.cache ==> c in st.issued && st.cache[CodeKey(c)] == st.issued[c])
  }

  /** A claim is no older than its code, and is backed by its sentinel for one lifetime. */
  predicate Backed(st: State, p: nat, c: string) {
    Holds(st, p, c) ==>
      var claimed := st.callers[p].claimedAt;
      && claimed <= st.now
      && (c in st.issued ==> st.issued[c].expiresAt <= claimed + TTL)
      && (st.now < claimed + TTL ==> Sentinel(c) in st.cache && st.cache[Sentinel(c)].expiresAt >= claimed + TTL)
  }

  predicate Redeemed(st: State, p: nat) {
    p in st.callers && st.callers[p].Read? && st.callers[p].data.Some?
  }

  ghost predicate ClaimsBacked(st: State, c: string) {
    forall p :: Backed(st, p, c)
  }

  ghost predicate OneEarly(st: State, c: string) {
    forall p, q :: Early(st, p, c) && Early(st, q, c) ==> p == q
  }

  /** A caller that got something was early and got what was stored. */
  predicate Right(st: State, p: nat, c: string) {
    Holds(st, p, c) && Redeemed(st, p) ==> Early(st, p, c) && st.callers[p].data == Some(st.issued[c].value)
  }

  ghost predicate ReadersEarly(st: State, c: string) {
    forall p :: Right(st, p, c)
  }

  /** Nobody has presented the code's shadow, so nobody will delete its sentinel. */
  ghost predicate Unshadowed(st: State, c: string) {
    forall p :: !Holds(st, p, Shadow(c))
  }

  ghost predicate Invariant(st: State, c: string) {
    Dated(st, c) && ClaimsBacked(st, c) && OneEarly(st, c) && ReadersEarly(st, c) && Unshadowed(st, c)
  }

  lemma StepDated(st: State, a: Action, c: string)
    requires Plain(c) && Dated(st, c)
    ensures Dated(Step(st, a), c)
  {
    Keys(c);
    hide CodeKey, Sentinel, Plain, Shadow;
  }

  lemma StepUnshadowed(st: State, a: Action, c: string)
    requires Unshadowed(st, c) && !(a.Add? && a.code == Shadow(c))
    ensures Unshadowed(Step(st, a), c)
  {
    hide CodeKey, Sentinel, Shadow;
    forall p ensures !Holds(Step(st, a), p, Shadow(c)) {
      assert !Holds(st, p, Shadow(c));
    }
  }

  lemma StepBacked(st: State, a: Action, c: string, p: nat)
    requires Plain(c) && Dated(st, c) && Backed(st, p, c) && Unshadowed(st, c)
    ensures Backed(Step(st, a), p, c)
  {
    Keys(c);
    hide CodeKey, Sentinel, Plain, Shadow;
    if a.Delete? && a.caller in st.callers && st.callers[a.caller].Read? {
      assert !Holds(st, a.caller, Shadow(c));
      assert CodeKey(st.callers[a.caller].code) != Sentinel(c);
    }
  }

  /** Becoming early takes a claim that finds no sentinel, and then nobody else is early any more. */
  lemma StepEarly(st: State, a: Action, c: string, p: nat)
    requires Plain(c) && Dated(st, c) && ClaimsBacked(st, c) && Early(Step(st, a), p, c)
    ensures Early(st, p, c) || ((forall q :: !Early(st, q, c)) && a.Add? && a.caller == p)
    ensures c in st.issued && Step(st, a).issued[c] == st.issued[c]
  {
    hide CodeKey, Sentinel, Plain, Shadow;
    if a.Add? && a.caller == p && !Early(st, p, c) {
      forall q ensures !Early(st, q, c) {
        assert Backed(st, q, c);
      }
    }
  }

  /** Only a read hands out data, and only of a code still alive. */
  lemma StepRight(st: State, a: Action, c: string, p: nat)
    requires Plain(c) && Dated(st, c) && Backed(st, p, c) && Right(st, p, c)
    ensures Right(Step(st, a), p, c)
  {
    Keys(c);
    hide CodeKey, Sentinel, Plain, Shadow;
  }

  lemma StepOneEarly(st: State, a: Action, c: string)
    requires Plain(c) && Dated(st, c) && ClaimsBacked(st, c) && OneEarly(st, c)
    ensures OneEarly(Step(st, a), c)
  {
    forall p, q | Early(Step(st, a), p, c) && Early(Step(st, a), q, c) ensures p == q {
      StepEarly(st, a, c, p);
      StepEarly(st, a, c, q);
      hide Step, Early, Plain, Dated, ClaimsBacked;
    }
  }

  lemma StepInvariant(st: State, a: Action, c: string)
    requires Plain(c) && Invariant(st, c) && !(a.Add? && a.code == Shadow(c))
    ensures Invariant(Step(st, a), c)
  {
    hide Step, Plain, Shadow, Dated, Backed, Right, OneEarly, Unshadowed;
    StepDated(st, a, c);
    StepUnshadowed(st, a, c);
    forall p ensures Backed(Step(st, a), p, c) {
      StepBacked(st, a, c, p);
    }
    StepOneEarly(st, a, c);
    forall p ensures Right(Step(st, a), p, c) {
      assert Backed(st, p, c) && Right(st, p, c);
      StepRight(st, a, c, p);
    }
  }

  lemma {:induction false} RunInvariant(actions: seq<Action>, c: string)
    requires Plain(c) && Avoids(actions, Shadow(c))
    ensures Invariant(Run(Empty, actions), c)
  {
    hide Plain, Step, Shadow;
    if actions != [] {
      var n := |actions| - 1;
      RunInvariant(actions[..n], c);
      StepInvariant(Run(Empty, actions[..n]), actions[n], c);
    }
  }

  /** The code is redeemed at most once, for the pair stored under it. */
  ghost predicate AtMostOnce(st: State, c: string) {
    && (forall p, q :: Holds(st, p, c) && Redeemed(st, p) && Holds(st, q, c) && Redeemed(st, q) ==> p == q)
    && (forall p :: Holds(st, p, c) && Redeemed(st, p) ==>
          c in st.issued && st.callers[p].data == Some(st.issued[c].value))
  }

  /** Over every timed interleaving, whatever else anybody presents and even if a caller stalls past its sentinel's
      lifetime, a code is redeemed at most once as long as nobody presents its shadow. */
  lemma AtMostOneRedeemer(actions: seq<Action>, c: string)
    requires Plain(c) && Avoids(actions, Shadow(c))
    ensures AtMostOnce(Run(Empty, actions), c)
  {
    RunInvariant(actions, c);
    var st := Run(Empty, actions);
    forall p | Holds(st, p, c) && Redeemed(st, p)
      ensures Early(st, p, c) && st.callers[p].data == Some(st.issued[c].value)
    {
      assert Right(st, p, c);
    }
  }

  ghost predicate PresentsOnly(actions: seq<Action>, codes: iset<string>) {
    forall i :: 0 <= i < |actions| && actions[i].Add? ==> actions[i].code in codes
  }

  /** The exact condition on what may be presented: the guarantee for a code holds in every run over some set of codes
      if and only if the set does not hold both the code and its shadow. */
  lemma OnceIff(presented: iset<string>, c: string)
    requires Plain(c)
    ensures (forall actions: seq<Action> :: PresentsOnly(actions, presented) ==> AtMostOnce(Run(Empty, actions), c))
            <==> !(c in presented && Shadow(c) in presented)
  {
    if c in presented && Shadow(c) in presented {
      var run := [Store(c, 0), Add(0, c), Add(1, Shadow(c)), Get(1), Delete(1), Add(2, c), Get(2), Get(0)];
      SentinelPresentedAsCode(c, 0);
      assert PresentsOnly(run, presented);
    } else {
      forall actions: seq<Action> | PresentsOnly(actions, presented)
        ensures AtMostOnce(Run(Empty, actions), c)
      {
        if c !in presented {
          NobodyHolds(actions, c);
        } else {
          AtMostOneRedeemer(actions, c);
        }
      }
    }
  }

  lemma {:induction false} NobodyHolds(actions: seq<Action>, c: string)
    requires Avoids(actions, c)
    ensures forall p :: !Holds(Run(Empty, actions), p, c)
  {
    if actions != [] {
      var n := |actions| - 1;
      NobodyHolds(actions[..n], c);
      forall p ensures !Holds(Step(Run(Empty, actions[..n]), actions[n]), p, c) {
        assert !Holds(Run(Empty, actions[..n]), p, c);
      }
    }
  }

  /** Outside that condition the guarantee fails, for every code: its shadow, presented, is consumed like a code, which
      takes the sentinel away and lets a second caller claim. */
  lemma SentinelPresentedAsCode(code: string, pair: nat)
    requires Plain(code)
    ensures var st := Run(Empty, [Store(code, pair), Add(0, code), Add(1, Shadow(code)), Get(1), Delete(1),
                                  Add(2, code), Get(2), Get(0)]);
            Redeemed(st, 0) && Redeemed(st, 2) && Holds(st, 0, code) && Holds(st, 2, code) && !AtMostOnce(st, code)
  {
    var other := Shadow(code);
    var all := [Store(code, pair), Add(0, code), Add(1, other), Get(1), Delete(1), Add(2, code), Get(2), Get(0)];
    var st := SentinelTaken(code, pair);
    var last := ClaimedAgain(st, code, pair);
    EightSteps(all);
    hide Step, Plain, CodeKey, Sentinel, Shadow, Run;
  }

  lemma EightSteps(a: seq<Action>)
    requires |a| == 8
    ensures Run(Empty, a)
            == Step(Step(Step(Step(Step(Step(Step(Step(Empty, a[0]), a[1]), a[2]), a[3]), a[4]), a[5]), a[6]), a[7])
  {
    hide Step;
    Unroll(a, 8); Unroll(a, 7); Unroll(a, 6); Unroll(a, 5); Unroll(a, 4); Unroll(a, 3); Unroll(a, 2); Unroll(a, 1);
    assert a[..8] == a;
    assert a[..0] == [];
  }

  lemma SentinelTaken(code: string, pair: nat) returns (st: State)
    requires Plain(code)
    ensures st == Step(Step(Step(Step(Step(Empty, Store(code, pair)), Add(0, code)), Add(1, Shadow(code))), Get(1)),
                       Delete(1))
    ensures st.now == 0 && CodeKey(code) in st.cache && st.cache[CodeKey(code)] == Entry(pair, TTL)
    ensures Sentinel(code) !in st.cache
    ensures 0 in st.callers && st.callers[0] == Claimed(code, 0) && 2 !in st.callers
  {
    var other := Shadow(code);
    assert CodeKey(other) == Sentinel(code);
    KeysApart(code);
    assert |Sentinel(other)| > |Sentinel(code)|;
    hide CodeKey, Sentinel, Plain;
    var s1 := Step(Empty, Store(code, pair));
    var s2 := Step(s1, Add(0, code));
    assert s2 == State(0, map[CodeKey(code) := Entry(pair, TTL), Sentinel(code) := Entry(1, TTL)],
                       map[code := Entry(pair, TTL)],
                       map[0 := Claimed(code, 0)]);
    var s3 := Step(s2, Add(1, other));
    assert s3.callers == s2.callers[1 := Claimed(other, 0)];
    var s4 := Step(s3, Get(1));
    st := Step(s4, Delete(1));
  }

  lemma ClaimedAgain(st: State, code: string, pair: nat) returns (last: State)
    requires Plain(code)
    requires st.now == 0 && CodeKey(code) in st.cache && st.cache[CodeKey(code)] == Entry(pair, TTL)
    requires Sentinel(code) !in st.cache
    requires 0 in st.callers && st.callers[0] == Claimed(code, 0) && 2 !in st.callers
    ensures last == Step(Step(Step(st, Add(2, code)), Get(2)), Get(0))
    ensures Redeemed(last, 0) && Redeemed(last, 2) && Holds(last, 0, code) && Holds(last, 2, code)
  {
    KeysApart(code);
    hide CodeKey, Sentinel, Plain;
    last := Step(Step(Step(st, Add(2, code)), Get(2)), Get(0));
  }

  lemma Unroll(actions: seq<Action>, n: nat)
    requires 0 < n <= |actions|
    ensures Run(Empty, actions[..n]) == Step(Run(Empty, actions[..n - 1]), actions[n - 1])
  {
    assert actions[..n][..n - 1] == actions[..n - 1];
  }

  /** The shared cache, with the calls that store and consume a code. */
  /** An undisturbed caller of a code nobody has claimed for a minute: it reads the pair if that is alive, deletes it,
      and leaves a sentinel for the next minute. A caller that finds the sentinel alive changes nothing. */
  lemma UndisturbedCall(st: State, caller: nat, code: string)
    requires caller !in st.callers
    ensures var after := Step(Step(Step(st, Add(caller, code)), Get(caller)), Delete(caller));
            var key := "oauth_exchange:" + code;
            var sentinel := key + ":consumed";
            if sentinel in st.cache && st.now < st.cache[sentinel].expiresAt then after == st
            else
              && after.cache == st.cache[sentinel := Entry(1, st.now + 60)] - {key}
              && after.callers ==
                 st.callers[caller :=
                            Read(code, st.now,
                                 if key in st.cache && st.now < st.cache[key].expiresAt then Some(st.cache[key].value)
                                 else None)]
  {
    assert Sentinel(code) != CodeKey(code);
    assert Sentinel(code) == "oauth_exchange:" + code + ":consumed";
    hide Sentinel;
  }

  /** A code lives for a minute: called alone some seconds after it was stored, with no claim standing, it gives its
      pair exactly within sixty seconds. A caller that has read does nothing more by reading again. */
  lemma CodeLivesAMinute(st: State, code: string, pair: nat, seconds: nat, caller: nat)
    requires Fresh(st, code) && caller !in st.callers && !Live(st, Sentinel(code))
    ensures var late := Step(Step(st, Store(code, pair)), Tick(seconds));
            var read := Step(Step(late, Add(caller, code)), Get(caller));
            && read.callers[caller] == Read(code, st.now + seconds, if seconds < 60 then Some(pair) else None)
            && Step(read, Get(caller)) == read && Step(read, Add(caller, code)) == read
  {
    assert Sentinel(code) != CodeKey(code);
    hide Sentinel, CodeKey;
  }

  class ExchangeCache {
    var now: nat
    var cache: map<string, Entry>
    ghost var issued: map<string, Entry>
    ghost var callers: map<nat, Caller>

    ghost function Abstract(): State
      reads this
    {
      State(now, cache, issued, callers)
    }

    constructor ()
      ensures Abstract() == Empty
    {
      now, cache, issued, callers := 0, map[], map[], map[];
    }

    method CacheAdd(key: string, value: nat) returns (added: bool)
      modifies this`cache
      ensures added == !Live(old(Abstract()), key)
      ensures added <==> key !in old(cache) || old(cache)[key].expiresAt <= now
      ensures cache == if added then old(cache)[key := Entry(value, now + 60)] else old(cache)
    {
      if key in cache && now < cache[key].expiresAt { return false; }
      cache := cache[key := Entry(value, now + TTL)];
      added := true;
    }

    method CacheGet(key: string) returns (value: Option<nat>)
      ensures value == if Live(Abstract(), key) then Some(cache[key].value) else None
    {
      value := if key in cache && now < cache[key].expiresAt then Some(cache[key].value) else None;
    }

    method StoreOAuthExchange(code: string, pair: nat)
      requires Fresh(Abstract(), code)
      modifies this
      ensures Abstract() == Step(old(Abstract()), Store(code, pair))
      ensures cache == old(cache)["oauth_exchange:" + code := Entry(pair, now + 60)]
    {
      cache := cache[CodeKey(code) := Entry(pair, now + TTL)];
      issued := issued[code := Entry(pair, now + TTL)];
    }

    /** An undisturbed call hands out the pair exactly when the code is alive and unclaimed; afterwards the code is gone
        and its sentinel stands, so that the next call gets nothing. */
    method ConsumeOAuthExchange(code: string, ghost caller: nat) returns (data: Option<nat>)
      requires caller !in callers
      modifies this
      ensures var before := old(Abstract());
              data == if Live(before, CodeKey(code)) && !Live(before, Sentinel(code))
                then Some(before.cache[CodeKey(code)].value)
                      else None
      ensures Live(Abstract(), Sentinel(code)) && (data.Some? ==> CodeKey(code) !in cache)
      ensures Abstract() == Step(Step(Step(old(Abstract()), Add(caller, code)), Get(caller)), Delete(caller))
    {
      ghost var start := Abstract();
      var key := CodeKey(code);
      assert Sentinel(code) != key;
      var added := CacheAdd(Sentinel(code), 1);
      if !added { return None; }
      callers := callers[caller := Claimed(code, now)];
      assert Abstract() == Step(start, Add(caller, code));
      data := CacheGet(key);
      callers := callers[caller := Read(code, now, data)];
      assert Abstract() == Step(Step(start, Add(caller, code)), Get(caller));
      cache := cache - {key};
    }
  }
}
