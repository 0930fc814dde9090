/** First-sight provisioning of users by any number of concurrent sign-ins:
    look up by subject, create on a miss, look up again if the create fails.
    The user table has a unique index on the subject. */
module Provisioning {
  import opened Basics

  datatype UserRow = UserRow(sub: string, createdAt: Time)

  datatype User = User(id: Uuid, sub: string, createdAt: Time)

  type Users = map<Uuid, UserRow>

  datatype SignIn =
    | Lookup(sub: string)
    | Create(sub: string, id: Uuid, now: Time)
    | LookupAgain(sub: string)
    | Returned(user: User)
    | Vanished(sub: string)

  datatype Sys = Sys(users: Users, signIns: map<nat, SignIn>)

  /** A sign-in arrives, takes its next step, or has its create fail for a
      reason of the backend's own. */
  datatype Action = Arrive(pid: nat, sub: string) | Step(pid: nat, mint: Uuid, now: Time) | Fault(pid: nat)

  predicate Known(users: Users, sub: string) {
    exists k | k in users :: users[k].sub == sub
  }

  /** Some user row of the subject, if there is one. */
  ghost function UserOf(users: Users, sub: string): (u: Option<User>)
    ensures u.Some? <==> Known(users, sub)
    ensures u.Some? ==> Holds(users, u.value) && u.value.sub == sub
  {
    if Known(users, sub) then
      var k :| k in users && users[k].sub == sub;
      Some(User(k, sub, users[k].createdAt))
    else None
  }

  predicate Holds(users: Users, u: User) {
    u.id in users && users[u.id] == UserRow(u.sub, u.createdAt)
  }

  /** The create is refused when the id is taken or, by the unique index, when the subject is. */
  predicate CreateFails(users: Users, sub: string, id: Uuid) {
    id in users || Known(users, sub)
  }

  ghost function After(users: Users, at: SignIn, mint: Uuid, now: Time): SignIn {
    match at
    case Lookup(sub) =>
      var u := UserOf(users, sub);
      if u.Some? then Returned(u.value) else Create(sub, mint, now)
    case Create(sub, id, at) =>
      if CreateFails(users, sub, id) then LookupAgain(sub) else Returned(User(id, sub, at))
    case LookupAgain(sub) =>
      var u := UserOf(users, sub);
      if u.Some? then Returned(u.value) else Vanished(sub)
    case _ => at
  }

  function UsersAfter(users: Users, at: SignIn): Users {
    match at
    case Create(sub, id, now) => if CreateFails(users, sub, id) then users else users[id := UserRow(sub, now)]
    case _ => users
  }

  ghost function Apply(s: Sys, a: Action): Sys {
    match a
    case Arrive(pid, sub) => if pid in s.signIns then s else s.(signIns := s.signIns[pid := Lookup(sub)])
    case Step(pid, mint, now) =>
      if pid !in s.signIns then s
      else Sys(UsersAfter(s.users, s.signIns[pid]), s.signIns[pid := After(s.users, s.signIns[pid], mint, now)])
    case Fault(pid) =>
      if pid in s.signIns && s.signIns[pid].Create? then s.(signIns := s.signIns[pid := LookupAgain(s.signIns[pid].sub)])
      else s
  }

  ghost function Exec(s: Sys, run: seq<Action>): Sys
    decreases |run|
  {
    if run == [] then s else Apply(Exec(s, run[..|run| - 1]), run[|run| - 1])
  }

  /** No subject has two rows. */
  ghost predicate OneRowEach(users: Users) {
    forall a, b | a in users && b in users && users[a].sub == users[b].sub :: a == b
  }

  /** Every user returned is stored as returned. */
  ghost predicate Inv(s: Sys) {
    && OneRowEach(s.users)
    && forall p | p in s.signIns && s.signIns[p].Returned? :: Holds(s.users, s.signIns[p].user)
  }

  lemma StepKeeps(s: Sys, a: Action)
    requires Inv(s)
    ensures Inv(Apply(s, a))
    ensures forall k | k in s.users :: k in Apply(s, a).users && Apply(s, a).users[k] == s.users[k]
  {
  }

  lemma {:induction false} AlwaysInv(s: Sys, run: seq<Action>)
    requires Inv(s)
    ensures Inv(Exec(s, run))
    ensures forall k | k in s.users :: k in Exec(s, run).users && Exec(s, run).users[k] == s.users[k]
    decreases |run|
  {
    if run != [] {
      AlwaysInv(s, run[..|run| - 1]);
      StepKeeps(Exec(s, run[..|run| - 1]), run[|run| - 1]);
    }
  }

  lemma {:induction false} ExecSplit(s: Sys, a: seq<Action>, b: seq<Action>)
    ensures Exec(s, a + b) == Exec(Exec(s, a), b)
    decreases |b|
  {
    if b == [] {
      assert a + b == a;
    } else {
      assert (a + b)[..|a + b| - 1] == a + b[..|b| - 1];
      ExecSplit(s, a, b[..|b| - 1]);
    }
  }

  // ---- Who a sign-in is for ----

  /** The subject a sign-in is for, or was answered with. */
  function SubjectOf(at: SignIn): string {
    match at
    case Lookup(sub) => sub
    case Create(sub, _, _) => sub
    case LookupAgain(sub) => sub
    case Returned(user) => user.sub
    case Vanished(sub) => sub
  }

  lemma ApplyKeepsSubject(s: Sys, a: Action, pid: nat)
    requires pid in s.signIns
    ensures pid in Apply(s, a).signIns && SubjectOf(Apply(s, a).signIns[pid]) == SubjectOf(s.signIns[pid])
  {
  }

  lemma {:induction false} SubjectKept(s: Sys, run: seq<Action>, pid: nat)
    requires pid in s.signIns
    ensures pid in Exec(s, run).signIns && SubjectOf(Exec(s, run).signIns[pid]) == SubjectOf(s.signIns[pid])
    decreases |run|
  {
    if run != [] {
      SubjectKept(s, run[..|run| - 1], pid);
      ApplyKeepsSubject(Exec(s, run[..|run| - 1]), run[|run| - 1], pid);
    }
  }

  /** Sign-in `pid` arrives for `sub` with action `i` of the run. */
  ghost predicate Arrives(s: Sys, run: seq<Action>, i: nat, pid: nat, sub: string) {
    i < |run| && run[i] == Arrive(pid, sub) && pid !in Exec(s, run[..i]).signIns
  }

  lemma ExecNext(s: Sys, run: seq<Action>, k: nat)
    requires k < |run|
    ensures Exec(s, run[..k + 1]) == Apply(Exec(s, run[..k]), run[k])
  {
    assert run[..k + 1][..k] == run[..k];
  }

  /** A sign-in is for the subject it arrived for, to the end. */
  lemma ArrivedSubject(s: Sys, run: seq<Action>, i: nat, j: nat, pid: nat, sub: string)
    requires Arrives(s, run, i, pid, sub) && i < j <= |run|
    ensures pid in Exec(s, run[..j]).signIns && SubjectOf(Exec(s, run[..j]).signIns[pid]) == sub
  {
    ExecNext(s, run, i);
    assert run[..i + 1] + run[i + 1..j] == run[..j];
    ExecSplit(s, run[..i + 1], run[i + 1..j]);
    SubjectKept(Exec(s, run[..i + 1]), run[i + 1..j], pid);
  }

  /** Rows stay as they are from one moment of a run to a later one. */
  lemma RowsStay(s: Sys, run: seq<Action>, i: nat, j: nat)
    requires Inv(s) && i <= j <= |run|
    ensures Inv(Exec(s, run[..i])) && Inv(Exec(s, run[..j]))
    ensures forall k | k in Exec(s, run[..i]).users ::
              k in Exec(s, run[..j]).users && Exec(s, run[..j]).users[k] == Exec(s, run[..i]).users[k]
  {
    assert run[..i] + run[i..j] == run[..j];
    ExecSplit(s, run[..i], run[i..j]);
    AlwaysInv(s, run[..i]);
    AlwaysInv(Exec(s, run[..i]), run[i..j]);
  }

  /** Sign-in `p` has returned `user` by moment `j` of the run, having arrived for `sub`. */
  ghost predicate ReturnedBy(s: Sys, run: seq<Action>, i: nat, j: nat, p: nat, sub: string, user: User) {
    && Arrives(s, run, i, p, sub) && i < j <= |run|
    && p in Exec(s, run[..j]).signIns && Exec(s, run[..j]).signIns[p] == Returned(user)
  }

  /** In every run, a sign-in that has returned holds a stored user of the
      subject it arrived for. */
  lemma ReturnsItsSubject(s: Sys, run: seq<Action>, i: nat, j: nat, p: nat, sub: string, user: User)
    requires Inv(s) && ReturnedBy(s, run, i, j, p, sub, user)
    ensures user.sub == sub && Holds(Exec(s, run[..j]).users, user)
  {
    ArrivedSubject(s, run, i, j, p, sub);
    AlwaysInv(s, run[..j]);
  }

  /** In every run, sign-ins that arrived for one subject are all given the
      same user, of that subject, at whatever moments they return, and that user
      is stored exactly once. */
  lemma SameSubSameUser(s: Sys, run: seq<Action>, sub: string, a: nat, i: nat, p: nat, u: User, b: nat, j: nat, q: nat, v: User)
    requires Inv(s) && ReturnedBy(s, run, a, i, p, sub, u) && ReturnedBy(s, run, b, j, q, sub, v)
    ensures u == v && u.sub == sub
    ensures Holds(Exec(s, run).users, u) && OneRowEach(Exec(s, run).users)
  {
    assert run[..|run|] == run;
    ReturnsItsSubject(s, run, a, i, p, sub, u);
    ReturnsItsSubject(s, run, b, j, q, sub, v);
    RowsStay(s, run, i, |run|);
    RowsStay(s, run, j, |run|);
    SameRow(Exec(s, run).users, u, v);
  }

  lemma SameRow(users: Users, a: User, b: User)
    requires OneRowEach(users) && Holds(users, a) && Holds(users, b) && a.sub == b.sub
    ensures a == b
  {
  }

  // ---- Where the row of a returned user comes from ----

  /** With action `j` sign-in `p` has looked for `sub`, found no row and taken the id and the time for one. */
  ghost predicate LooksInVain(s: Sys, run: seq<Action>, j: nat, p: nat, sub: string, id: Uuid, at: Time) {
    && j < |run| && run[j] == Step(p, id, at)
    && var n := Exec(s, run[..j]); p in n.signIns && n.signIns[p] == Lookup(sub) && !Known(n.users, sub)
  }

  /** With action `k` sign-in `p` stores the row of `user`, whose subject had none. */
  ghost predicate Stores(s: Sys, run: seq<Action>, k: nat, p: nat, user: User) {
    && k < |run| && run[k].Step? && run[k].pid == p
    && var n := Exec(s, run[..k]);
       p in n.signIns && n.signIns[p] == Create(user.sub, user.id, user.createdAt)
       && !Known(n.users, user.sub) && user.id !in n.users && Holds(Exec(s, run[..k + 1]).users, user)
  }

  lemma SameMoments(run: seq<Action>, k: nat)
    requires k < |run|
    ensures run[..|run| - 1][..k] == run[..k]
    ensures k + 1 < |run| ==> run[..|run| - 1][..k + 1] == run[..k + 1]
  {
  }

  lemma CreateFollowsLookup(s: Sys, a: Action, p: nat)
    requires p in Apply(s, a).signIns && Apply(s, a).signIns[p].Create? && (p in s.signIns ==> s.signIns[p] != Apply(s, a).signIns[p])
    ensures var c := Apply(s, a).signIns[p];
            a == Step(p, c.id, c.now) && p in s.signIns && s.signIns[p] == Lookup(c.sub) && !Known(s.users, c.sub)
  {
  }

  /** A sign-in about to create a row has looked for its subject in vain. */
  lemma {:induction false} CreateHasLooked(s: Sys, run: seq<Action>, p: nat, sub: string, id: Uuid, at: Time)
    requires s.signIns == map[] && p in Exec(s, run).signIns && Exec(s, run).signIns[p] == Create(sub, id, at)
    ensures exists j: nat :: LooksInVain(s, run, j, p, sub, id, at)
    decreases |run|
  {
    var shorter := run[..|run| - 1];
    var before := Exec(s, shorter);
    if p in before.signIns && before.signIns[p] == Create(sub, id, at) {
      CreateHasLooked(s, shorter, p, sub, id, at);
      var j: nat :| LooksInVain(s, shorter, j, p, sub, id, at);
      SameMoments(run, j);
      assert LooksInVain(s, run, j, p, sub, id, at);
    } else {
      CreateFollowsLookup(before, run[|run| - 1], p);
      assert LooksInVain(s, run, |run| - 1, p, sub, id, at);
    }
  }

  /** A row that was not there at first was stored by some sign-in of its subject. */
  lemma {:induction false} RowIsStored(s: Sys, run: seq<Action>, user: User)
    requires user.id !in s.users && Holds(Exec(s, run).users, user)
    ensures exists k: nat, p: nat :: Stores(s, run, k, p, user)
    decreases |run|
  {
    var shorter := run[..|run| - 1];
    assert run[..|run| - 1 + 1] == run;
    if user.id in Exec(s, shorter).users {
      RowKept(Exec(s, shorter), run[|run| - 1], user.id);
      RowIsStored(s, shorter, user);
      var k: nat, p: nat :| Stores(s, shorter, k, p, user);
      SameMoments(run, k);
      assert Stores(s, run, k, p, user);
    } else {
      assert Stores(s, run, |run| - 1, run[|run| - 1].pid, user);
    }
  }

  lemma RowKept(s: Sys, a: Action, id: Uuid)
    requires id in s.users
    ensures id in Apply(s, a).users && Apply(s, a).users[id] == s.users[id]
  {
  }

  /** The user a sign-in returns is the row its subject had when it arrived;
      or else a row some sign-in of that subject stored afterwards, itself or
      the rival that won, under the id and time which that one took when it
      looked for the subject in vain. */
  lemma ReturnedRow(s: Sys, run: seq<Action>, i: nat, p: nat, sub: string, user: User)
    requires Inv(s) && s.signIns == map[] && ReturnedBy(s, run, i, |run|, p, sub, user)
    ensures Known(Exec(s, run[..i]).users, sub) ==> Holds(Exec(s, run[..i]).users, user)
    ensures !Known(Exec(s, run[..i]).users, sub) ==>
              exists j: nat, k: nat, q: nat ::
                i <= k && Stores(s, run, k, q, user) && LooksInVain(s, run, j, q, sub, user.id, user.createdAt)
  {
    assert run[..|run|] == run;
    ReturnsItsSubject(s, run, i, |run|, p, sub, user);
    RowsStay(s, run, i, |run|);
    var early := Exec(s, run[..i]).users;
    if Known(early, sub) {
      var k :| k in early && early[k].sub == sub;
      SameRow(Exec(s, run).users, user, User(k, sub, early[k].createdAt));
    } else {
      assert user.id !in early;
      RowsStay(s, run, 0, i);
      assert run[..0] == [];
      RowIsStored(s, run, user);
      var k: nat, q: nat :| Stores(s, run, k, q, user);
      StoredLater(s, run, i, k, q, user);
      CreateHasLooked(s, run[..k], q, sub, user.id, user.createdAt);
      var j: nat :| LooksInVain(s, run[..k], j, q, sub, user.id, user.createdAt);
      assert run[..k][..j] == run[..j];
      assert LooksInVain(s, run, j, q, sub, user.id, user.createdAt);
    }
  }

  lemma StoredLater(s: Sys, run: seq<Action>, i: nat, k: nat, q: nat, user: User)
    requires Inv(s) && i <= |run| && Stores(s, run, k, q, user) && user.id !in Exec(s, run[..i]).users
    ensures i <= k
  {
    if k < i {
      RowsStay(s, run, k + 1, i);
    }
  }

  // ---- A sign-in that nobody disturbs ----

  lemma ExecFour(s: Sys, a: Action, b: Action, c: Action, d: Action)
    ensures Exec(s, [a, b, c, d]) == Apply(Apply(Apply(Apply(s, a), b), c), d)
  {
    assert [a][..0] == [];
    assert Exec(s, [a]) == Apply(s, a);
    assert [a, b][..1] == [a];
    assert Exec(s, [a, b]) == Apply(Apply(s, a), b);
    assert [a, b, c][..2] == [a, b];
    assert Exec(s, [a, b, c]) == Apply(Apply(Apply(s, a), b), c);
    assert [a, b, c, d][..3] == [a, b, c];
  }

  /** Alone, a sign-in returns the row of its subject if there is one, creates
      one under its own minted id and time if there is none, and fails only if that id is taken. */
  lemma SignInAlone(s: Sys, pid: nat, sub: string, id: Uuid, at: Time, id1: Uuid, at1: Time, id2: Uuid, at2: Time)
    requires pid !in s.signIns
    ensures var n := Exec(s, [Arrive(pid, sub), Step(pid, id, at), Step(pid, id1, at1), Step(pid, id2, at2)]);
            if Known(s.users, sub) then
              n.users == s.users && exists u: User :: n.signIns == s.signIns[pid := Returned(u)] && Holds(s.users, u) && u.sub == sub
            else if id !in s.users then
              n == Sys(s.users[id := UserRow(sub, at)], s.signIns[pid := Returned(User(id, sub, at))])
            else
              n == Sys(s.users, s.signIns[pid := Vanished(sub)])
  {
    ExecFour(s, Arrive(pid, sub), Step(pid, id, at), Step(pid, id1, at1), Step(pid, id2, at2));
    var s1 := Apply(s, Arrive(pid, sub));
    var s2 := Apply(s1, Step(pid, id, at));
    if Known(s.users, sub) {
      var u := UserOf(s.users, sub).value;
      assert s2 == Sys(s.users, s.signIns[pid := Returned(u)]);
    } else {
      assert s2 == Sys(s.users, s.signIns[pid := Create(sub, id, at)]);
      var s3 := Apply(s2, Step(pid, id1, at1));
      assert s3 == if id in s.users then Sys(s.users, s.signIns[pid := LookupAgain(sub)])
                   else Sys(s.users[id := UserRow(sub, at)], s.signIns[pid := Returned(User(id, sub, at))]);
    }
  }

  /** A sign-in whose create comes second returns the row of the one that came first. */
  lemma LoserReturnsRival(s: Sys, pid: nat, id1: Uuid, at1: Time, id2: Uuid, at2: Time)
    requires pid in s.signIns && s.signIns[pid].Create? && Known(s.users, s.signIns[pid].sub)
    ensures var n := Apply(Apply(s, Step(pid, id1, at1)), Step(pid, id2, at2));
            n.users == s.users && n.signIns[pid].Returned? && Holds(s.users, n.signIns[pid].user)
            && n.signIns[pid].user.sub == s.signIns[pid].sub
  {
  }

  // ---- The second lookup ----

  /** The action makes a create fail although its subject has no row: a backend fault, or an id already taken. */
  ghost predicate FailsOtherwise(s: Sys, a: Action) {
    match a
    case Arrive(_, _) => false
    case Fault(pid) => pid in s.signIns && s.signIns[pid].Create? && !Known(s.users, s.signIns[pid].sub)
    case Step(pid, _, _) =>
      pid in s.signIns && s.signIns[pid].Create? && s.signIns[pid].id in s.users && !Known(s.users, s.signIns[pid].sub)
  }

  /** In the run no create fails but by the unique index. */
  ghost predicate OnlyUniqueFails(s: Sys, run: seq<Action>) {
    forall k | 0 <= k < |run| :: !FailsOtherwise(Exec(s, run[..k]), run[k])
  }

  ghost predicate RetriesKnown(s: Sys) {
    forall p | p in s.signIns ::
      (s.signIns[p].LookupAgain? ==> Known(s.users, s.signIns[p].sub)) && !s.signIns[p].Vanished?
  }

  lemma KnownStays(s: Sys, a: Action, sub: string)
    requires Known(s.users, sub)
    ensures Known(Apply(s, a).users, sub)
  {
    var k :| k in s.users && s.users[k].sub == sub;
    assert k in Apply(s, a).users && Apply(s, a).users[k].sub == sub;
  }

  lemma RetryStep(s: Sys, a: Action)
    requires RetriesKnown(s)
    ensures RetriesKnown(Apply(s, a)) <==> !FailsOtherwise(s, a)
  {
    var n := Apply(s, a);
    forall p | p in s.signIns && s.signIns[p].LookupAgain?
      ensures Known(n.users, s.signIns[p].sub)
    {
      KnownStays(s, a, s.signIns[p].sub);
    }
    if FailsOtherwise(s, a) {
      assert n.users == s.users;
      assert n.signIns[a.pid] == LookupAgain(s.signIns[a.pid].sub);
    } else if a.Fault? && a.pid in s.signIns && s.signIns[a.pid].Create? {
      KnownStays(s, a, s.signIns[a.pid].sub);
    } else if a.Step? && a.pid in s.signIns && s.signIns[a.pid].Create? && Known(s.users, s.signIns[a.pid].sub) {
      KnownStays(s, a, s.signIns[a.pid].sub);
    }
  }

  /** If creates fail only by the unique index, the second lookup never misses. */
  lemma {:induction false} NeverVanishes(s: Sys, run: seq<Action>)
    requires s.signIns == map[] && OnlyUniqueFails(s, run)
    ensures RetriesKnown(Exec(s, run))
    decreases |run|
  {
    if run != [] {
      var shorter := run[..|run| - 1];
      forall k | 0 <= k < |shorter|
        ensures !FailsOtherwise(Exec(s, shorter[..k]), shorter[k])
      {
        assert shorter[..k] == run[..k];
      }
      NeverVanishes(s, shorter);
      RetryStep(Exec(s, shorter), run[|run| - 1]);
    }
  }

  /** After one other failure the second lookup can miss: a run of one sign-in. */
  lemma FaultCanVanish(sub: string)
    ensures exists run :: Exec(Sys(map[], map[]), run).signIns == map[0 := Vanished(sub)]
  {
    var s := Sys(map[], map[]);
    var a, b, c, d := Arrive(0, sub), Step(0, 1, 0), Fault(0), Step(0, 2, 0);
    ExecFour(s, a, b, c, d);
    assert Apply(Apply(s, a), b) == Sys(map[], map[0 := Create(sub, 1, 0)]);
    assert Apply(Apply(Apply(s, a), b), c) == Sys(map[], map[0 := LookupAgain(sub)]);
    assert Exec(s, [a, b, c, d]) == Sys(map[], map[0 := Vanished(sub)]);
  }
}
