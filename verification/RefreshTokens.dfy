/** Refresh tokens: rotation, reuse detection and revocation (apps/users/authentication.py, auth_views.py, tasks.py).
    Hashing is taken as injective and raw tokens as minted, so a raw token names its row. */
module RefreshTokens {
  import opened Prelude

  /** REFRESH_TOKEN_LIFETIME, seven days in seconds. */
  const LIFETIME: int := 604800

  /** Rows deleted per statement by the cleanup job. */
  const BATCH: nat := 10000

  datatype Row = Row(user: nat, expiresAt: int, revokedAt: Option<int>)

  /** Every raw token ever issued: whose it is, and which login it descends from. */
  datatype Origin = Origin(user: nat, login: nat)

  /** The table, with a history of what was issued and of what each rotation replaced. */
  datatype State = State(rows: map<nat, Row>, issued: map<nat, Origin>, heir: map<nat, nat>)

  datatype Outcome = Rotated(user: nat, minted: nat) | InvalidToken | TokenRevoked | TokenExpired | UserNotFound

  /** Each action carries the time its clock shows; clocks need not agree. */
  datatype Action =
    | Login(user: nat, minted: nat, now: int)
    | Rotate(raw: nat, active: bool, minted: nat, now: int)
    | Logout(raw: nat, now: int)
    | ChangePassword(user: nat, minted: nat, now: int)   // also a password reset
    | Cleanup(now: int)

  const Empty: State := State(map[], map[], map[])

  function RevokeOne(rows: map<nat, Row>, raw: nat, now: int): map<nat, Row> {
    if raw in rows && rows[raw].revokedAt.None? then rows[raw := rows[raw].(revokedAt := Some(now))] else rows
  }

  function RevokeUser(rows: map<nat, Row>, user: nat, now: int): map<nat, Row> {
    map t | t in rows :: if rows[t].user == user && rows[t].revokedAt.None? then rows[t].(revokedAt := Some(now))
      else rows[t]
  }

  function Unexpired(rows: map<nat, Row>, now: int): map<nat, Row> {
    map t | t in rows && rows[t].expiresAt >= now :: rows[t]
  }

  function Insert(rows: map<nat, Row>, user: nat, minted: nat, now: int): map<nat, Row> {
    rows[minted := Row(user, now + LIFETIME, None)]
  }

  /** What presenting a token for rotation answers. */
  function Judge(rows: map<nat, Row>, raw: nat, active: bool, minted: nat, now: int): Outcome {
    if raw !in rows then InvalidToken
    else if rows[raw].revokedAt.Some? then TokenRevoked
    else if rows[raw].expiresAt <= now then TokenExpired
    else if !active then UserNotFound
    else Rotated(rows[raw].user, minted)
  }

  predicate Live(st: State, raw: nat) {
    raw in st.rows && st.rows[raw].revokedAt.None?
  }

  ghost predicate NoneLive(st: State, user: nat) {
    forall t :: Live(st, t) ==> st.rows[t].user != user
  }

  /** A step that would issue a token already issued is not a step of the system. */
  function Step(st: State, a: Action): State {
    match a
    case Login(user, minted, now) =>
      if minted in st.issued then st
      else st.(rows := Insert(st.rows, user, minted, now), issued := st.issued[minted := Origin(user, minted)])
    case Rotate(raw, active, minted, now) =>
      if minted in st.issued then st
      else (match Judge(st.rows, raw, active, minted, now)
            case TokenRevoked => st.(rows := RevokeUser(st.rows, st.rows[raw].user, now))
            case Rotated(user, _) =>
              State(Insert(RevokeOne(st.rows, raw, now), user, minted, now),
                    st.issued[minted := Origin(user, if raw in st.issued then st.issued[raw].login else minted)],
                    st.heir[raw := minted])
            case _ => st)
    case Logout(raw, now) => st.(rows := RevokeOne(st.rows, raw, now))
    case ChangePassword(user, minted, now) =>
      if minted in st.issued then st
      else st.(rows := Insert(RevokeUser(st.rows, user, now), user, minted, now),
               issued := st.issued[minted := Origin(user, minted)])
    case Cleanup(now) => st.(rows := Unexpired(st.rows, now))
  }

  function Run(st: State, actions: seq<Action>): State {
    if actions == [] then st else Step(Run(st, actions[..|actions| - 1]), actions[|actions| - 1])
  }

  /** A replaced token is dead, and its heir carries on the same login. */
  predicate HeirSound(st: State, t: nat) {
    t in st.heir ==>
      && t in st.issued && !Live(st, t)
      && st.heir[t] in st.issued && st.issued[st.heir[t]] == st.issued[t]
  }

  /** The newest token of its login. */
  predicate Tip(st: State, t: nat) {
    t in st.issued && t !in st.heir
  }

  predicate RowSound(st: State, t: nat) {
    t in st.rows ==> t in st.issued && st.issued[t].user == st.rows[t].user
  }

  /** A login is named by its first token. */
  predicate LoginSound(st: State, t: nat) {
    t in st.issued ==> st.issued[t].login in st.issued && st.issued[st.issued[t].login] == st.issued[t]
  }

  predicate SameLogin(st: State, s: nat, t: nat) {
    s in st.issued && t in st.issued && st.issued[s].login == st.issued[t].login
  }

  ghost predicate RowsSound(st: State) {
    forall t :: RowSound(st, t)
  }

  ghost predicate LoginsSound(st: State) {
    forall t :: LoginSound(st, t)
  }

  ghost predicate HeirsSound(st: State) {
    forall t :: HeirSound(st, t)
  }

  ghost predicate OneTip(st: State) {
    forall s, t :: Tip(st, s) && Tip(st, t) && SameLogin(st, s, t) ==> s == t
  }

  ghost predicate Invariant(st: State) {
    RowsSound(st) && LoginsSound(st) && HeirsSound(st) && OneTip(st)
  }

  /** A successful rotation: the old token is its login's tip and stops being it. */
  lemma RotatedStep(st: State, raw: nat, minted: nat, now: int)
    requires Invariant(st) && Judge(st.rows, raw, true, minted, now).Rotated? && minted !in st.issued
    ensures Invariant(Step(st, Rotate(raw, true, minted, now)))
  {
    var next := Step(st, Rotate(raw, true, minted, now));
    assert RowSound(st, raw) && Live(st, raw) && HeirSound(st, raw) && HeirSound(st, minted);
    assert Tip(st, raw);
    forall t ensures RowSound(next, t) { assert RowSound(st, t); }
    forall t ensures LoginSound(next, t) { assert LoginSound(st, t) && LoginSound(st, raw); }
    forall t ensures HeirSound(next, t) { assert HeirSound(st, t); }
    hide HeirSound, LoginSound, RowSound;
    forall s, t | Tip(next, s) && Tip(next, t) && SameLogin(next, s, t) ensures s == t {
      var s0, t0 := if s == minted then raw else s, if t == minted then raw else t;
      assert Tip(st, s0) && Tip(st, t0) && SameLogin(st, s0, t0);
    }
  }

  /** A step that at most adds a login of its own, and revives nothing. */
  lemma QuietStep(st: State, next: State, m: nat, user: nat)
    requires Invariant(st) && next.heir == st.heir && RowsSound(next)
    requires next.issued == st.issued || (m !in st.issued && next.issued == st.issued[m := Origin(user, m)])
    requires forall t :: Live(next, t) && t in st.issued ==> Live(st, t)
    ensures Invariant(next)
  {
    forall t ensures LoginSound(next, t) { assert LoginSound(st, t); }
    forall t ensures HeirSound(next, t) { assert HeirSound(st, t); }
    forall s, t | Tip(next, s) && Tip(next, t) && SameLogin(next, s, t) ensures s == t {
      assert LoginSound(st, s) && LoginSound(st, t);
      if s in st.issued && t in st.issued {
        assert Tip(st, s) && Tip(st, t) && SameLogin(st, s, t);
      }
    }
  }

  lemma StepInvariant(st: State, a: Action)
    requires Invariant(st)
    ensures Invariant(Step(st, a))
  {
    var next := Step(st, a);
    if a.Rotate? && a.minted !in st.issued && Judge(st.rows, a.raw, a.active, a.minted, a.now).Rotated? {
      RotatedStep(st, a.raw, a.minted, a.now);
    } else if next != st {
      forall t ensures RowSound(next, t) { assert RowSound(st, t); }
      hide LoginsSound, HeirsSound, OneTip;
      QuietStep(st, next, if a.Login? || a.ChangePassword? then a.minted else 0, if a.Login? || a.ChangePassword?
                then a.user else 0);
    }
  }

  lemma {:induction false} RunInvariant(actions: seq<Action>)
    ensures Invariant(Run(Empty, actions))
  {
    hide Step;
    if actions != [] {
      RunInvariant(actions[..|actions| - 1]);
      StepInvariant(Run(Empty, actions[..|actions| - 1]), actions[|actions| - 1]);
    }
  }

  /** Over every run a login has at most one unrevoked token: the one no rotation has replaced, and it belongs to the
      user who logged in. */
  lemma OneLiveTokenPerLogin(actions: seq<Action>, s: nat, t: nat)
    requires var st := Run(Empty, actions);
             Live(st, t) && SameLogin(st, s, t)
    ensures var st := Run(Empty, actions);
            && t !in st.heir && LoginSound(st, t) && st.rows[t].user == st.issued[st.issued[t].login].user
            && (s !in st.heir <==> s == t)
            && (Live(st, s) ==> s == t)
  {
    var st := Run(Empty, actions);
    RunInvariant(actions);
    assert HeirSound(st, s) && HeirSound(st, t) && RowSound(st, t) && LoginSound(st, t);
    assert Tip(st, t);
    if s !in st.heir {
      assert Tip(st, s);
    }
  }

  /** Issued, and revoked or already cleaned up. */
  predicate Dead(st: State, raw: nat) {
    raw in st.issued && !Live(st, raw)
  }

  /** Revocation is permanent and its time is written once. */
  lemma {:induction false} DeadStaysDead(st: State, actions: seq<Action>, raw: nat)
    requires Dead(st, raw)
    ensures Dead(Run(st, actions), raw)
    ensures raw in Run(st, actions).rows ==> raw in st.rows && Run(st, actions).rows[raw] == st.rows[raw]
  {
    if actions != [] {
      DeadStaysDead(st, actions[..|actions| - 1], raw);
    }
  }

  lemma {:induction false} RunSplit(st: State, xs: seq<Action>, ys: seq<Action>)
    ensures Run(st, xs + ys) == Run(Run(st, xs), ys)
  {
    if ys == [] {
      assert xs + ys == xs;
    } else {
      RunSplit(st, xs, ys[..|ys| - 1]);
      assert (xs + ys)[..|xs + ys| - 1] == xs + ys[..|ys| - 1];
    }
  }

  /** The action is a rotation that hands out a new token. */
  predicate Succeeds(st: State, a: Action, raw: nat) {
    a.Rotate? && a.raw == raw && a.minted !in st.issued && Judge(st.rows, raw, a.active, a.minted, a.now).Rotated?
  }

  /** No raw token rotates successfully twice in one run. */
  lemma RotatesOnce(actions: seq<Action>, i: nat, j: nat, raw: nat)
    requires i < j < |actions|
    requires Succeeds(Run(Empty, actions[..i]), actions[i], raw)
    ensures !Succeeds(Run(Empty, actions[..j]), actions[j], raw)
  {
    var st := Run(Empty, actions[..i]);
    var between := actions[i + 1..j];
    RunInvariant(actions[..i]);
    StepInvariant(st, actions[i]);
    assert actions[..i + 1][..i] == actions[..i];
    assert actions[..j] == actions[..i + 1] + between;
    RunSplit(Empty, actions[..i + 1], between);
    assert RowSound(st, raw);
    assert Dead(Step(st, actions[i]), raw);
    hide Step, Invariant;
    DeadStaysDead(Step(st, actions[i]), between, raw);
  }

  /** Presenting a dead token leaves its user without any unrevoked token exactly when the token's row is still there
      to be recognised; once the row is cleaned up, the replay changes nothing. */
  lemma ReplayEndsSessions(actions: seq<Action>, raw: nat, active: bool, minted: nat, now: int)
    requires Dead(Run(Empty, actions), raw) && minted !in Run(Empty, actions).issued
    ensures var st := Run(Empty, actions);
            var next := Step(st, Rotate(raw, active, minted, now));
            && (NoneLive(next, st.issued[raw].user) <==> raw in st.rows || NoneLive(st, st.issued[raw].user))
            && (raw !in st.rows ==> next == st)
            && forall t :: Live(st, t) && st.rows[t].user != st.issued[raw].user ==>
                 Live(next, t) && next.rows[t] == st.rows[t]
  {
    var st := Run(Empty, actions);
    RunInvariant(actions);
    assert RowSound(st, raw);
  }

  /** A password change or reset leaves its user exactly the fresh token, and everybody else's tokens alone. */
  lemma ChangeLeavesOne(st: State, user: nat, minted: nat, now: int)
    requires minted !in st.issued && Invariant(st)
    ensures var next := Step(st, ChangePassword(user, minted, now));
            && (forall t :: Live(next, t) && next.rows[t].user == user <==> t == minted)
            && (forall t :: t in st.rows && st.rows[t].user != user ==> t in next.rows && next.rows[t] == st.rows[t])
  {
    assert RowSound(st, minted);
  }

  /** No token issued to the user before a password change rotates at any point after it. */
  lemma ChangeEndsSessions(before: seq<Action>, user: nat, minted: nat, now: int, after: seq<Action>, a: Action,
                           raw: nat)
    requires minted !in Run(Empty, before).issued
    requires raw in Run(Empty, before).issued && Run(Empty, before).issued[raw].user == user
    ensures !Succeeds(Run(Empty, before + [ChangePassword(user, minted, now)] + after), a, raw)
  {
    var st := Run(Empty, before);
    var change := ChangePassword(user, minted, now);
    RunInvariant(before);
    StepInvariant(st, change);
    ChangeLeavesOne(st, user, minted, now);
    RunSplit(Empty, before + [change], after);
    assert (before + [change])[..|before|] == before;
    assert RowSound(Step(st, change), raw);
    DeadStaysDead(Step(st, change), after, raw);
  }

  predicate Mints(st: State, a: Action) {
    match a
    case Login(_, minted, _) => minted !in st.issued
    case ChangePassword(_, minted, _) => minted !in st.issued
    case Rotate(raw, _, _, _) => Succeeds(st, a, raw)
    case _ => false
  }

  /** A token just issued, by whatever step, rotates for an active user exactly within the next seven days. */
  lemma IssuedTokenRotates(st: State, a: Action, active: bool, minted: nat, later: int)
    requires Mints(st, a)
    ensures Judge(Step(st, a).rows, a.minted, active, minted, later).Rotated?
            <==> active && later < a.now + 7 * 24 * 60 * 60
    ensures !active && later < a.now + 7 * 24 * 60 * 60 ==>
            Judge(Step(st, a).rows, a.minted, active, minted, later) == UserNotFound
  {
  }

  /** Cleaning up never changes which tokens rotate from then on. */
  lemma CleanupInvisible(st: State, now: int, raw: nat, active: bool, minted: nat, later: int)
    requires now <= later
    ensures Succeeds(Step(st, Cleanup(now)), Rotate(raw, active, minted, later), raw)
            <==> Succeeds(st, Rotate(raw, active, minted, later), raw)
  {
  }

  /** After a logout the token never rotates again, while every other token's row is as it was. */
  lemma LogoutEndsOne(st: State, raw: nat, now: int, after: seq<Action>, a: Action)
    requires raw in st.issued
    ensures !Succeeds(Run(Step(st, Logout(raw, now)), after), a, raw)
    ensures var next := Step(st, Logout(raw, now));
            next.rows.Keys == st.rows.Keys && forall t :: t in st.rows && t != raw ==> next.rows[t] == st.rows[t]
  {
    DeadStaysDead(Step(st, Logout(raw, now)), after, raw);
  }

  /** What presenting a token answers: first whether it is known, then whether it was revoked, then whether its time is
      up, then whether its user is active. */
  lemma JudgeMeans(rows: map<nat, Row>, raw: nat, active: bool, minted: nat, now: int)
    ensures var outcome := Judge(rows, raw, active, minted, now);
            && (outcome == InvalidToken <==> raw !in rows)
            && (outcome == TokenRevoked <==> raw in rows && rows[raw].revokedAt != None)
            && (outcome == TokenExpired <==> raw in rows && rows[raw].revokedAt == None && rows[raw].expiresAt <= now)
            && (outcome == UserNotFound <==>
                raw in rows && rows[raw].revokedAt == None && now < rows[raw].expiresAt && !active)
            && (raw in rows && rows[raw].revokedAt == None && now < rows[raw].expiresAt && active ==>
                  outcome == Rotated(rows[raw].user, minted))
  {
  }

  /** An unrevoked token survives whatever other users do: only a step about its own user, or a cleanup after its
      expiry, can touch it. */
  lemma {:induction false} OthersDoNotInterfere(st: State, actions: seq<Action>, raw: nat)
    requires Invariant(st) && Live(st, raw)
    requires forall i | 0 <= i < |actions| :: Foreign(Run(st, actions[..i]), actions[i], raw)
    ensures Live(Run(st, actions), raw) && Run(st, actions).rows[raw] == st.rows[raw] && Invariant(Run(st, actions))
  {
    hide Step, Foreign, Live, Invariant;
    if actions != [] {
      var n := |actions| - 1;
      forall i | 0 <= i < n ensures Foreign(Run(st, actions[..n][..i]), actions[..n][i], raw) {
        assert actions[..n][..i] == actions[..i];
        assert Foreign(Run(st, actions[..i]), actions[i], raw);
      }
      OthersDoNotInterfere(st, actions[..n], raw);
      StepInvariant(Run(st, actions[..n]), actions[n]);
      assert Foreign(Run(st, actions[..n]), actions[n], raw);
      ForeignStep(Run(st, actions[..n]), actions[n], raw);
    } else {
      assert Run(st, actions) == st;
    }
  }

  lemma ForeignStep(st: State, a: Action, raw: nat)
    requires Invariant(st) && Live(st, raw) && Foreign(st, a, raw)
    ensures Live(Step(st, a), raw) && Step(st, a).rows[raw] == st.rows[raw]
  {
    assert RowSound(st, raw);
  }

  /** The action rotates no token of raw's user, logs out another token, changes another user's password, or cleans up
      no later than raw's expiry. */
  predicate Foreign(st: State, a: Action, raw: nat) {
    raw in st.rows &&
    match a
    case Login(_, _, _) => true
    case Rotate(r, _, _, _) => r in st.rows ==> st.rows[r].user != st.rows[raw].user
    case Logout(r, _) => r != raw
    case ChangePassword(user, _, _) => user != st.rows[raw].user
    case Cleanup(now) => now <= st.rows[raw].expiresAt
  }

  lemma SubsetOfSize(s: set<nat>, n: nat)
    requires n <= |s|
    ensures exists b :: b <= s && |b| == n
  {
    if n == |s| {
      assert s <= s;
    } else {
      var x :| x in s;
      SubsetOfSize(s - {x}, n);
      var b :| b <= s - {x} && |b| == n;
      assert b <= s;
    }
  }

  class RefreshTokenTable {
    var rows: map<nat, Row>
    ghost var issued: map<nat, Origin>
    ghost var heir: map<nat, nat>

    ghost function Abstract(): State
      reads this
    {
      State(rows, issued, heir)
    }

    constructor ()
      ensures Abstract() == Empty
    {
      rows, issued, heir := map[], map[], map[];
    }

    /** One row more, unrevoked and good for seven days; no other row is touched. */
    method CreateRefreshToken(user: nat, minted: nat, now: int)
      modifies this`rows
      ensures rows.Keys == old(rows).Keys + {minted}
      ensures rows[minted].user == user && rows[minted].revokedAt.None?
              && rows[minted].expiresAt - now == 7 * 24 * 60 * 60
      ensures forall t :: t in old(rows) && t != minted ==> rows[t] == old(rows)[t]
    {
      rows := rows[minted := Row(user, now + LIFETIME, None)];
    }

    /** The user has no unrevoked token left; a token revoked earlier keeps its time, and nothing else about any token
        changes. */
    method RevokeAllRefreshTokens(user: nat, now: int)
      modifies this`rows
      ensures rows.Keys == old(rows).Keys
      ensures forall t :: t in rows && rows[t].user == user ==> rows[t].revokedAt.Some?
      ensures forall t :: t in rows ==> rows[t].(revokedAt := None) == old(rows)[t].(revokedAt := None)
      ensures forall t :: t in rows && (rows[t].user != user || old(rows)[t].revokedAt.Some?) ==>
              rows[t] == old(rows)[t]
      ensures forall t :: t in rows && rows[t] != old(rows)[t] ==> rows[t].revokedAt == Some(now)
    {
      rows := map t | t in rows :: if rows[t].user == user && rows[t].revokedAt.None?
        then rows[t].(revokedAt := Some(now)) else rows[t];
    }

    /** Sign-in of any kind. */
    method SignIn(user: nat, minted: nat, now: int)
      requires minted !in issued
      modifies this
      ensures Abstract() == Step(old(Abstract()), Login(user, minted, now))
    {
      CreateRefreshToken(user, minted, now);
      issued := issued[minted := Origin(user, minted)];
    }

    method RotateRefreshToken(raw: nat, active: bool, minted: nat, now: int) returns (outcome: Outcome)
      requires Invariant(Abstract()) && minted !in issued
      modifies this
      ensures outcome == Judge(old(rows), raw, active, minted, now)
      ensures outcome.Rotated? ==>
                && raw in rows && rows[raw].revokedAt == Some(now) && minted in rows && rows[minted].revokedAt == None
                && rows[minted].user == rows[raw].user && rows[minted].expiresAt == now + 7 * 24 * 60 * 60
                && forall t :: t in old(rows) && t != raw ==> t in rows && rows[t] == old(rows)[t]
      ensures outcome == TokenRevoked ==>
                forall t :: t in rows && rows[t].user == old(rows)[raw].user ==> rows[t].revokedAt.Some?
      ensures !outcome.Rotated? && outcome != TokenRevoked ==> rows == old(rows)
      ensures Abstract() == Step(old(Abstract()), Rotate(raw, active, minted, now))
      ensures Invariant(Abstract())
    {
      StepInvariant(Abstract(), Rotate(raw, active, minted, now));
      assert RowSound(Abstract(), raw) && RowSound(Abstract(), minted);
      hide Invariant;
      if raw !in rows {
        return InvalidToken;
      }
      var rt := rows[raw];
      if rt.revokedAt.Some? {
        RevokeAllRefreshTokens(rt.user, now);
        return TokenRevoked;
      }
      if rt.expiresAt <= now {
        return TokenExpired;
      }
      if !active {
        return UserNotFound;
      }
      rows := rows[raw := rt.(revokedAt := Some(now))];
      CreateRefreshToken(rt.user, minted, now);
      issued, heir := issued[minted := Origin(rt.user, issued[raw].login)], heir[raw := minted];
      outcome := Rotated(rt.user, minted);
    }

    method RevokeRefreshToken(raw: nat, now: int)
      modifies this`rows
      ensures Abstract() == Step(old(Abstract()), Logout(raw, now))
      ensures raw in rows ==> rows[raw].revokedAt == if old(rows)[raw].revokedAt.Some? then old(rows)[raw].revokedAt
              else Some(now)
    {
      if raw in rows && rows[raw].revokedAt.None? {
        rows := rows[raw := rows[raw].(revokedAt := Some(now))];
      }
    }

    /** The token part of a password change or reset: revoke everything, then issue. */
    method ReplaceAllTokens(user: nat, minted: nat, now: int)
      requires minted !in issued
      modifies this
      ensures Abstract() == Step(old(Abstract()), ChangePassword(user, minted, now))
      ensures forall t :: t in rows && rows[t].user == user && t != minted ==> rows[t].revokedAt.Some?
      ensures minted in rows && rows[minted].user == user && rows[minted].revokedAt == None
    {
      RevokeAllRefreshTokens(user, now);
      CreateRefreshToken(user, minted, now);
      issued := issued[minted := Origin(user, minted)];
    }

    /** One statement's worth of expired ids, in no particular order. */
    method SelectExpired(now: int) returns (ids: set<nat>)
      ensures ids <= Expired(rows, now)
      ensures |ids| <= 10000
      ensures |ids| == if |Expired(rows, now)| < BATCH then |Expired(rows, now)| else BATCH
    {
      var expired := set t | t in rows && rows[t].expiresAt < now;
      SubsetOfSize(expired, if |expired| < BATCH then |expired| else BATCH);
      ids :| ids <= expired && |ids| == if |expired| < BATCH then |expired| else BATCH;
    }

    /** Batches of any choice and order delete exactly the expired rows. */
    method DeleteExpiredRows(now: int) returns (total: nat)
      modifies this`rows
      ensures Abstract() == Step(old(Abstract()), Cleanup(now))
      ensures total == |old(rows)| - |rows|
      ensures forall t :: t in rows ==> now <= rows[t].expiresAt
      ensures forall t :: t in old(rows) && now <= old(rows)[t].expiresAt ==> t in rows && rows[t] == old(rows)[t]
    {
      KeptUnexpired(rows, now);
      hide Unexpired, Expired;
      total := 0;
      while true
        invariant Unexpired(rows, now) == Unexpired(old(rows), now)
        invariant total == |old(rows)| - |rows|
        decreases |rows|
      {
        var ids := SelectExpired(now);
        DeleteBatch(rows, ids, now);
        if ids == {} { break; }
        rows := rows - ids;
        total := total + |ids|;
        if |ids| < BATCH { break; }
      }
    }
  }

  lemma KeptUnexpired(rows: map<nat, Row>, now: int)
    ensures forall t :: t in Unexpired(rows, now) <==> t in rows && now <= rows[t].expiresAt
    ensures forall t :: t in Unexpired(rows, now) ==> Unexpired(rows, now)[t] == rows[t]
  {
  }

  function Expired(rows: map<nat, Row>, now: int): set<nat> {
    set t | t in rows && rows[t].expiresAt < now
  }

  /** Deleting a batch keeps what is to be kept; a batch that takes every expired row leaves nothing else. */
  lemma DeleteBatch(rows: map<nat, Row>, ids: set<nat>, now: int)
    requires ids <= Expired(rows, now)
    ensures Unexpired(rows - ids, now) == Unexpired(rows, now)
    ensures |rows - ids| == |rows| - |ids|
    ensures |ids| == |Expired(rows, now)| ==> rows - ids == Unexpired(rows, now)
  {
    SizeAfter(rows, ids);
    if |ids| == |Expired(rows, now)| {
      SameSize(ids, Expired(rows, now));
    }
  }

  lemma SizeAfter(rows: map<nat, Row>, ids: set<nat>)
    requires ids <= rows.Keys
    ensures |rows - ids| == |rows| - |ids|
  {
    assert (rows - ids).Keys == rows.Keys - ids;
  }

  lemma SameSize(a: set<nat>, b: set<nat>)
    requires a <= b && |a| == |b|
    ensures a == b
  {
    assert |b - a| == |b| - |a|;
  }
}
