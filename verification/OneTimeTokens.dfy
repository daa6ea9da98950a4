/** One-time tokens redeemed under races (apps/users/authentication.py). Hashing is taken as injective, so a
    token is named by its hash; every redeemer has a read step and a conditional update step of its own. */
module OneTimeTokens {
  import opened Prelude

  datatype Row = Row(user: nat, expiresAt: int, usedAt: Option<int>)

  datatype Result = Won(user: nat) | WonInactive | Invalid | AlreadyUsed | Expired

  /** A redeemer between its two steps (with the clock and the user flag it read), or finished. */
  datatype Attempt = Checked(hash: string, now: int, active: bool) | Finished(hash: string, now: int, result: Result)

  /** The table, the redeemers, and every token ever issued. */
  datatype State = State(rows: map<string, Row>, attempts: map<nat, Attempt>, issued: map<string, Row>)

  datatype Action =
    | Create(hash: string, user: nat, expiresAt: int)
    | Read(attempt: nat, hash: string, now: int, active: bool)
    | Update(attempt: nat)
    | Invalidate(user: nat, now: int)      // a newer link was asked for
    | Cleanup(now: int)                    // expired rows are deleted

  const Empty: State := State(map[], map[], map[])

  /** The SELECT and the checks on what it returned. */
  function Judge(rows: map<string, Row>, hash: string, now: int, active: bool): Attempt {
    if hash !in rows then Finished(hash, now, Invalid)
    else if rows[hash].usedAt.Some? then Finished(hash, now, AlreadyUsed)
    else if rows[hash].expiresAt <= now then Finished(hash, now, Expired)
    else Checked(hash, now, active)
  }

  predicate Redeemable(rows: map<string, Row>, hash: string, now: int) {
    hash in rows && rows[hash].usedAt.None? && rows[hash].expiresAt > now
  }

  function Stamp(rows: map<string, Row>, hash: string, now: int): map<string, Row> {
    if hash in rows then rows[hash := rows[hash].(usedAt := Some(now))] else rows
  }

  function StampUser(rows: map<string, Row>, user: nat, now: int): map<string, Row> {
    map h | h in rows :: if rows[h].user == user && rows[h].usedAt.None? then rows[h].(usedAt := Some(now)) else rows[h]
  }

  function Step(st: State, a: Action): State {
    match a
    case Create(hash, user, expiresAt) =>
      if hash in st.issued then st   // raw tokens are fresh
      else st.(rows := st.rows[hash := Row(user, expiresAt, None)],
               issued := st.issued[hash := Row(user, expiresAt, None)])
    case Read(attempt, hash, now, active) =>
      if attempt in st.attempts then st else st.(attempts := st.attempts[attempt := Judge(st.rows, hash, now, active)])
    case Update(attempt) =>
      if attempt !in st.attempts || st.attempts[attempt].Finished? then st
      else
        var c := st.attempts[attempt];
        if Redeemable(st.rows, c.hash, c.now) then
          var result := if c.active then Won(st.rows[c.hash].user) else WonInactive;
          State(Stamp(st.rows, c.hash, c.now), st.attempts[attempt := Finished(c.hash, c.now, result)], st.issued)
        else st.(attempts := st.attempts[attempt := Finished(c.hash, c.now, AlreadyUsed)])
    case Invalidate(user, now) => st.(rows := StampUser(st.rows, user, now))
    case Cleanup(now) => st.(rows := map h | h in st.rows && st.rows[h].expiresAt >= now :: st.rows[h])
  }

  function Run(st: State, actions: seq<Action>): State {
    if actions == [] then st else Step(Run(st, actions[..|actions| - 1]), actions[|actions| - 1])
  }

  /** The redeemer's update changed a row: it consumed the token, whether or not its user was active. */
  predicate Consumed(st: State, p: nat, hash: string) {
    p in st.attempts && st.attempts[p].Finished? && st.attempts[p].hash == hash
      && (st.attempts[p].result.Won? || st.attempts[p].result.WonInactive?)
  }

  ghost predicate Invariant(st: State) {
    && (forall h :: h in st.rows ==> h in st.issued && st.rows[h].(usedAt := None) == st.issued[h])
    && (forall p, h :: Consumed(st, p, h) ==>
          && h in st.issued && st.attempts[p].now < st.issued[h].expiresAt
          && (h in st.rows ==> st.rows[h].usedAt == Some(st.attempts[p].now))
          && (st.attempts[p].result.Won? ==> st.attempts[p].result.user == st.issued[h].user))
    && (forall p, q, h :: Consumed(st, p, h) && Consumed(st, q, h) ==> p == q)
  }

  lemma StepInvariant(st: State, a: Action)
    requires Invariant(st)
    ensures Invariant(Step(st, a))
  {
    var next := Step(st, a);
    forall p, h | Consumed(next, p, h)
      ensures Consumed(st, p, h)
              || (a == Update(p) && h in st.rows && st.rows[h].usedAt.None? && forall q :: !Consumed(st, q, h))
    {
    }
  }

  lemma {:induction false} RunInvariant(actions: seq<Action>)
    ensures Invariant(Run(Empty, actions))
  {
    if actions != [] {
      RunInvariant(actions[..|actions| - 1]);
      StepInvariant(Run(Empty, actions[..|actions| - 1]), actions[|actions| - 1]);
    }
  }

  /** However the steps of any number of redeemers interleave, one token is consumed at most once, by a redeemer whose
      clock was before the expiry, and for the user it was issued to. */
  lemma AtMostOneWinner(actions: seq<Action>, p: nat, q: nat, hash: string)
    requires var st := Run(Empty, actions); Consumed(st, p, hash) && Consumed(st, q, hash)
    ensures var st := Run(Empty, actions);
            && p == q && hash in st.issued && st.attempts[p].now < st.issued[hash].expiresAt
            && (st.attempts[p].result.Won? ==> st.attempts[p].result.user == st.issued[hash].user)
  {
    RunInvariant(actions);
  }

  lemma StampedStep(st: State, a: Action, hash: string)
    requires a.Invalidate? && hash in st.rows ==> st.rows[hash].user != a.user
    requires hash in st.rows && st.rows[hash].usedAt.Some? ==> exists p :: Consumed(st, p, hash)
    ensures hash in Step(st, a).rows && Step(st, a).rows[hash].usedAt.Some? ==>
            exists p :: Consumed(Step(st, a), p, hash)
  {
    var next := Step(st, a);
    if hash in next.rows && next.rows[hash].usedAt.Some? {
      if hash in st.rows && st.rows[hash].usedAt.Some? {
        var p :| Consumed(st, p, hash);
        assert Consumed(next, p, hash);
      } else {
        assert Consumed(next, a.attempt, hash);
      }
    }
  }

  lemma {:induction false} StampedRun(actions: seq<Action>, user: nat, hash: string)
    requires forall i :: 0 <= i < |actions| && actions[i].Invalidate? ==> actions[i].user != user
    requires hash in Run(Empty, actions).issued ==> Run(Empty, actions).issued[hash].user == user
    ensures var st := Run(Empty, actions); hash in st.rows && st.rows[hash].usedAt.Some? ==>
            exists p :: Consumed(st, p, hash)
  {
    if actions != [] {
      var n := |actions| - 1;
      var before := Run(Empty, actions[..n]);
      RunInvariant(actions[..n]);
      assert hash in before.issued ==> Step(before, actions[n]).issued[hash] == before.issued[hash];
      StampedRun(actions[..n], user, hash);
      StampedStep(before, actions[n], hash);
    }
  }

  /** No redemption is lost: if nobody asked for a newer link for the token's user, its row is stamped if and only if
      some redeemer consumed it, and then it is the only one and the stamp is its clock. */
  lemma StampedIffConsumed(actions: seq<Action>, hash: string)
    requires hash in Run(Empty, actions).rows
    requires forall i :: 0 <= i < |actions| && actions[i].Invalidate? ==>
             actions[i].user != Run(Empty, actions).rows[hash].user
    ensures var st := Run(Empty, actions);
            && (st.rows[hash].usedAt.Some? <==> exists p :: Consumed(st, p, hash))
            && (forall p, q :: Consumed(st, p, hash) && Consumed(st, q, hash) ==> p == q)
            && (forall p :: Consumed(st, p, hash) ==> st.rows[hash].usedAt == Some(st.attempts[p].now))
  {
    RunInvariant(actions);
    StampedRun(actions, Run(Empty, actions).rows[hash].user, hash);
  }

  /** Stamped or deleted. */
  predicate Dead(st: State, hash: string) {
    hash in st.issued && (hash in st.rows ==> st.rows[hash].usedAt.Some?)
  }

  /** used_at is written once, and a dead token stays dead: nobody consumes it any more. */
  lemma {:induction false} DeadStaysDead(st: State, actions: seq<Action>, hash: string, p: nat)
    requires Dead(st, hash)
    ensures Dead(Run(st, actions), hash)
    ensures hash in Run(st, actions).rows ==>
              hash in st.rows && Run(st, actions).rows[hash].usedAt == st.rows[hash].usedAt
    ensures Consumed(Run(st, actions), p, hash) ==> Consumed(st, p, hash)
  {
    if actions != [] {
      DeadStaysDead(st, actions[..|actions| - 1], hash, p);
    }
  }

  /** Asking for a new link kills every earlier one: after it, no redeemer that had not already won can win. */
  lemma InvalidatedNeverWins(st: State, user: nat, now: int, actions: seq<Action>, hash: string, p: nat)
    requires Invariant(st) && hash in st.issued && st.issued[hash].user == user
    ensures Consumed(Run(Step(st, Invalidate(user, now)), actions), p, hash) ==> Consumed(st, p, hash)
  {
    DeadStaysDead(Step(st, Invalidate(user, now)), actions, hash, p);
  }

  /** The cleanup deletes exactly the rows that expired before its clock, and no redeemer reading later can tell: it
      gets past its checks if and only if it would have done so without the cleanup. */
  lemma CleanupInvisible(st: State, now: int, hash: string, clock: int, active: bool)
    ensures var after := Step(st, Cleanup(now));
            && after.attempts == st.attempts && after.issued == st.issued
            && (hash in after.rows <==> hash in st.rows && st.rows[hash].expiresAt >= now)
            && (hash in after.rows ==> after.rows[hash] == st.rows[hash])
            && (clock >= now ==>
                  (Judge(after.rows, hash, clock, active).Checked? <==> Judge(st.rows, hash, clock, active).Checked?))
  {
  }

  class TokenTable {
    var rows: map<string, Row>

    constructor ()
      ensures rows == map[]
    {
      rows := map[];
    }

    /** The UPDATE with its predicate; reports how many rows matched. */
    method ConditionalUpdate(hash: string, now: int) returns (updated: nat)
      modifies this
      ensures updated == if Redeemable(old(rows), hash, now) then 1 else 0
      ensures updated == 1 <==> hash in old(rows) && old(rows)[hash].usedAt == None && now < old(rows)[hash].expiresAt
      ensures updated == 1 ==> rows == old(rows)[hash := old(rows)[hash].(usedAt := Some(now))]
      ensures rows == if updated == 1 then Stamp(old(rows), hash, now) else old(rows)
    {
      if hash in rows && rows[hash].usedAt.None? && rows[hash].expiresAt > now {
        rows := rows[hash := rows[hash].(usedAt := Some(now))];
        return 1;
      }
      return 0;
    }

    /** One redeemer running alone is its two steps in a row. A token known, unused and not yet expired is consumed,
        also by an inactive user, who is then refused. */
    method ConsumeOneTimeToken(hash: string, now: int, active: bool) returns (result: Result)
      modifies this
      ensures result ==
              if hash !in old(rows) then Invalid
              else if old(rows)[hash].usedAt.Some? then AlreadyUsed
              else if old(rows)[hash].expiresAt <= now then Expired
              else if active then Won(old(rows)[hash].user) else WonInactive
      ensures rows == if result.Won? || result.WonInactive?
              then old(rows)[hash := old(rows)[hash].(usedAt := Some(now))]
                      else old(rows)
      ensures forall attempts, issued, p :: p !in attempts ==>
                var after := Step(Step(State(old(rows), attempts, issued), Read(p, hash, now, active)), Update(p));
                after == State(rows, attempts[p := Finished(hash, now, result)], issued)
    {
      if hash !in rows {
        return Invalid;
      }
      var row := rows[hash];
      if row.usedAt.Some? {
        return AlreadyUsed;
      }
      if row.expiresAt <= now {
        return Expired;
      }
      var updated := ConditionalUpdate(hash, now);
      if updated == 0 {
        return AlreadyUsed;
      }
      if !active {
        return WonInactive;
      }
      return Won(row.user);
    }
  }
}
