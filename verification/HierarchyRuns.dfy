/** Every run of the commands, with any interleaving and any lost tail, keeps the hierarchy a forest. */
module HierarchyRuns {
  import opened Wrappers
  import opened Hierarchy

  ghost predicate UnlinkedAfter(d: Directory, t: nat, p: Phase, y: nat)
    requires t < |d.tasks|
  {
    || (Open(p) && p.child == y)
    || (Unlinked(d, y) && !(Open(d.tasks[t].phase) && d.tasks[t].phase.child == y))
  }

  /** What a change of one task's phase does to the unlinked users. */
  lemma PhaseChange(d: Directory, t: nat, p: Phase, d': Directory)
    requires t < |d.tasks| && d'.tasks == d.tasks[t := d.tasks[t].(phase := p)]
    requires DistinctChildren(d)
    requires HasChild(d.tasks[t].phase) ==> HasChild(p) && p.child == d.tasks[t].phase.child
    ensures forall y :: Unlinked(d', y) <==> UnlinkedAfter(d, t, p, y)
  {
    forall y ensures Unlinked(d', y) <==> UnlinkedAfter(d, t, p, y) {
      if Open(p) && p.child == y { assert Open(d'.tasks[t].phase); }
      if Unlinked(d, y) {
        var s :| 0 <= s < |d.tasks| && Open(d.tasks[s].phase) && d.tasks[s].phase.child == y;
        if s != t { assert d'.tasks[s] == d.tasks[s]; }
      }
      if Unlinked(d', y) {
        var s :| 0 <= s < |d'.tasks| && Open(d'.tasks[s].phase) && d'.tasks[s].phase.child == y;
        if s != t { assert d.tasks[s] == d'.tasks[s]; }
      }
    }
  }

  lemma SaveKept(d: Directory, t: nat)
    requires Ok(d) && Step(d, Save(t)).Some?
    ensures Ok(Step(d, Save(t)).value)
  {
    var d' := Step(d, Save(t)).value;
    PhaseChange(d, t, d'.tasks[t].phase, d');
    assert TaskOk(d, t);
    if d.tasks[t].phase.estate.Some? {
      var n := |d.users|;
      assert UserOk(d, d.tasks[t].requester);
      forall s | 0 <= s < |d.tasks| && HasChild(d.tasks[s].phase) ensures d.tasks[s].phase.child < n {
        assert TaskOk(d, s);
      }
      forall y | 0 <= y < |d'.users| ensures UserOk(d', y) {
        if y < n { assert UserOk(d, y); }
      }
      forall s | 0 <= s < |d'.tasks| ensures TaskOk(d', s) {
        assert TaskOk(d, s);
      }
      forall x: nat, y: nat | x < |d'.users| ensures Converse(d', x, y) {
        if x < n { assert Converse(d, x, y); } else if y < n { assert UserOk(d, y); }
      }
    } else {
      forall s | 0 <= s < |d'.tasks| ensures TaskOk(d', s) { assert TaskOk(d, s); }
      Reframe(d, d');
    }
  }

  /** Users unchanged, the same unlinked users, tasks individually fine. */
  lemma Reframe(d: Directory, d': Directory)
    requires Ok(d) && d'.users == d.users && d'.estates == d.estates
    requires DistinctChildren(d') && forall t :: 0 <= t < |d'.tasks| ==> TaskOk(d', t)
    requires forall y :: Unlinked(d', y) <==> Unlinked(d, y)
    ensures Ok(d')
  {
    forall y | 0 <= y < |d'.users| ensures UserOk(d', y) { assert UserOk(d, y); }
    forall x: nat, y: nat | x < |d'.users| ensures Converse(d', x, y) { assert Converse(d, x, y); }
  }

  lemma LinkKept(d: Directory, t: nat)
    requires Ok(d) && Step(d, Link(t)).Some?
    ensures Ok(Step(d, Link(t)).value)
  {
    var d' := Step(d, Link(t)).value;
    var r, c := d.tasks[t].requester, d.tasks[t].phase.child;
    PhaseChange(d, t, Linked(c), d');
    assert TaskOk(d, t);
    forall y | 0 <= y < |d'.users| ensures UserOk(d', y) { assert UserOk(d, y); }
    forall s | 0 <= s < |d'.tasks| ensures TaskOk(d', s) { assert TaskOk(d, s); }
    forall x: nat, y: nat | x < |d'.users| ensures Converse(d', x, y) {
      assert Converse(d, x, y);
      assert Open(d.tasks[t].phase);
    }
  }

  lemma StopKept(d: Directory, t: nat)
    requires Ok(d) && Step(d, Stop(t)).Some?
    ensures Ok(Step(d, Stop(t)).value)
  {
    var d' := Step(d, Stop(t)).value;
    PhaseChange(d, t, d'.tasks[t].phase, d');
    assert Open(d.tasks[t].phase) ==> Unlinked(d, d.tasks[t].phase.child);
    forall s | 0 <= s < |d'.tasks| ensures TaskOk(d', s) { assert TaskOk(d, s); }
    Reframe(d, d');
  }

  lemma BeginKept(d: Directory, role: Role, r: nat)
    requires Ok(d) && Step(d, Begin(role, r)).Some?
    ensures Ok(Step(d, Begin(role, r)).value)
  {
    var d' := Step(d, Begin(role, r)).value;
    if Admitted(d.users, role, r) {
      assert d'.tasks == d.tasks + [Task(role, r, Read(d.users[r].estate))];
      forall s | 0 <= s < |d'.tasks| ensures TaskOk(d', s) {
        if s < |d.tasks| { assert TaskOk(d, s); }
      }
      forall y ensures Unlinked(d', y) <==> Unlinked(d, y) {
        if Unlinked(d, y) {
          var s :| 0 <= s < |d.tasks| && Open(d.tasks[s].phase) && d.tasks[s].phase.child == y;
          assert d'.tasks[s] == d.tasks[s];
        }
        if Unlinked(d', y) {
          var s :| 0 <= s < |d'.tasks| && Open(d'.tasks[s].phase) && d'.tasks[s].phase.child == y;
          assert s < |d.tasks| && d'.tasks[s] == d.tasks[s];
        }
      }
      Reframe(d, d');
    }
  }

  lemma RegisterKept(d: Directory)
    requires Ok(d)
    ensures Ok(Step(d, Register).value)
  {
    var d' := Step(d, Register).value;
    var n := |d.users|;
    forall y | 0 <= y < |d'.users| ensures UserOk(d', y) { if y < n { assert UserOk(d, y); } }
    forall s | 0 <= s < |d'.tasks| ensures TaskOk(d', s) { assert TaskOk(d, s); }
    forall y ensures Unlinked(d', y) <==> Unlinked(d, y) {}
    forall x: nat, y: nat | x < |d'.users| ensures Converse(d', x, y) {
      if x < n { assert Converse(d, x, y); } else if y < n { assert UserOk(d, y); }
    }
  }

  /** Changing a user's flag or giving an estate to a user without descendants. */
  lemma UserChange(d: Directory, u: nat, d': Directory)
    requires Ok(d) && u < |d.users| && d'.tasks == d.tasks
    requires |d'.users| == |d.users| && d'.users == d.users[u := d'.users[u]]
    requires d'.users[u] == d.users[u].(verified := d'.users[u].verified, estate := d'.users[u].estate)
    requires d.estates <= d'.estates
    requires d'.users[u].estate == d.users[u].estate
             || (d.users[u].estate == None && d'.users[u].estate == Some(|d.estates|)
                 && |d'.estates| == |d.estates| + 1 && d'.estates[|d.estates|].owner == u)
    ensures Ok(d')
  {
    assert UserOk(d, u);
    forall y | 0 <= y < |d'.users| ensures UserOk(d', y) {
      assert UserOk(d, y);
    }
    forall s | 0 <= s < |d'.tasks| ensures TaskOk(d', s) { assert TaskOk(d, s); }
    forall y ensures Unlinked(d', y) <==> Unlinked(d, y) {}
    forall x: nat, y: nat | x < |d'.users| ensures Converse(d', x, y) { assert Converse(d, x, y); }
  }

  lemma StepKept(d: Directory, m: Move)
    requires Ok(d) && Step(d, m).Some?
    ensures Ok(Step(d, m).value)
  {
    match m
    case Register => RegisterKept(d);
    case VerifyEmail(u) => if u < |d.users| { UserChange(d, u, Step(d, m).value); }
    case CreateEstate(u, name) => if MayCreateEstate(d, u, name) { UserChange(d, u, Step(d, m).value); }
    case Begin(role, r) => BeginKept(d, role, r);
    case Save(t) => SaveKept(d, t);
    case Link(t) => LinkKept(d, t);
    case Stop(t) => StopKept(d, t);
  }

  lemma {:induction false} Reachable(ms: seq<Move>)
    requires RunFrom(EMPTY, ms).Some?
    ensures Ok(RunFrom(EMPTY, ms).value)
  {
    if ms != [] {
      Reachable(ms[..|ms| - 1]);
      StepKept(RunFrom(EMPTY, ms[..|ms| - 1]).value, ms[|ms| - 1]);
    }
  }

  // ------------------------------------------------------------- what it means

  /** A chain of superiors. */
  ghost predicate ReportsUp(users: seq<User>, path: seq<nat>) {
    && path != []
    && (forall i :: 0 <= i < |path| ==> path[i] < |users|)
    && (forall i :: 0 <= i < |path| - 1 ==> users[path[i]].reportsTo == Some(path[i + 1]))
  }

  lemma {:induction false} ChainDescends(d: Directory, path: seq<nat>, i: nat, j: nat)
    requires Ok(d) && ReportsUp(d.users, path) && i <= j < |path|
    ensures path[j] <= path[i] - (j - i)
    ensures d.users[path[i]].estate.Some? || i < j ==> d.users[path[j]].estate == d.users[path[i]].estate
    decreases j - i
  {
    if i < j {
      assert UserOk(d, path[i]);
      ChainDescends(d, path, i + 1, j);
    }
  }

  /** The top of a user's chain of superiors. */
  ghost function Root(d: Directory, y: nat): (r: nat)
    requires Ok(d) && y < |d.users|
    ensures r < |d.users| && d.users[r].role.SuperAdmin?
    ensures d.users[r].estate == d.users[y].estate
    ensures y != r ==> d.users[y].estate.Some?
  {
    assert UserOk(d, y);
    if d.users[y].reportsTo.None? then y else Root(d, d.users[y].reportsTo.value)
  }

  /** No user is its own superior, directly or through others. */
  lemma Acyclic(ms: seq<Move>, path: seq<nat>)
    requires RunFrom(EMPTY, ms).Some?
    requires ReportsUp(RunFrom(EMPTY, ms).value.users, path) && |path| > 1
    ensures path[0] != path[|path| - 1]
  {
    Reachable(ms);
    ChainDescends(RunFrom(EMPTY, ms).value, path, 0, |path| - 1);
  }

  /** Every user's chain of superiors ends at a super admin, everybody on it has the same estate,
      and that estate is owned by the super admin at the top; only a super admin has none. */
  lemma RootedWithOneEstate(ms: seq<Move>, y: nat)
    requires RunFrom(EMPTY, ms).Some? && y < |RunFrom(EMPTY, ms).value.users|
    ensures var d := RunFrom(EMPTY, ms).value;
            && Ok(d)
            && (d.users[y].role.SuperAdmin? <==> d.users[y].reportsTo.None?)
            && d.users[Root(d, y)].role.SuperAdmin?
            && d.users[Root(d, y)].estate == d.users[y].estate
            && (d.users[y].estate.None? ==> d.users[y].role.SuperAdmin?)
            && (d.users[y].estate.Some? ==>
                  d.users[y].estate.value < |d.estates| && d.estates[d.users[y].estate.value].owner == Root(d, y))
  {
    Reachable(ms);
    var d := RunFrom(EMPTY, ms).value;
    assert UserOk(d, y) && UserOk(d, Root(d, y));
  }

  /** `manages` and `reportsTo` are converse, except exactly for the users whose command has not
      linked them: in a state where every command has run to its end they are converse. */
  lemma ManagesIsConverse(ms: seq<Move>, x: nat, y: nat)
    requires RunFrom(EMPTY, ms).Some? && x < |RunFrom(EMPTY, ms).value.users|
    ensures var d := RunFrom(EMPTY, ms).value;
            && (y in d.users[x].manages <==>
                  y < |d.users| && d.users[y].reportsTo == Some(x) && !Unlinked(d, y))
            && ((forall t :: 0 <= t < |d.tasks| ==> !Open(d.tasks[t].phase)) ==>
                  (y in d.users[x].manages <==> y < |d.users| && d.users[y].reportsTo == Some(x)))
  {
    Reachable(ms);
    var d := RunFrom(EMPTY, ms).value;
    assert Converse(d, x, y);
  }

  // ------------------------------------------------------------- what changes a user

  /** The command creates estate number |d.estates| for user y. */
  ghost predicate Founds(d: Directory, m: Move, y: nat) {
    && m.CreateEstate? && m.user == y < |d.users|
    && d.users[y].verified && d.users[y].estate.None?
    && forall i :: 0 <= i < |d.estates| ==> d.estates[i].name != m.name
  }

  /** Existing users change in three ways only: their email is verified, they found an estate, or a
      command that saved a user under them links it. */
  lemma StepEffects(d: Directory, m: Move, y: nat)
    requires y < |d.users| && Step(d, m).Some?
    ensures y < |Step(d, m).value.users|
    ensures var u, u' := d.users[y], Step(d, m).value.users[y];
            && u'.role == u.role && u'.createdBy == u.createdBy && u'.reportsTo == u.reportsTo
            && u'.verified == (u.verified || m == VerifyEmail(y))
            && u'.estate == (if Founds(d, m, y) then Some(|d.estates|) else u.estate)
            && u'.manages == (if m.Link? && m.task < |d.tasks| && d.tasks[m.task].phase.Saved? && d.tasks[m.task].requester == y
                              then u.manages + {d.tasks[m.task].phase.child} else u.manages)
  {
  }

  /** New users come from registrations, as super admins of nothing, and from commands that have read
      their requester's estate, in the role and under the requester that the command was given. */
  lemma NewUserEffects(d: Directory, m: Move)
    requires Step(d, m).Some?
    ensures var users' := Step(d, m).value.users; var n := |d.users|;
            && (|users'| == n + 1 <==> m.Register? || (m.Save? && d.tasks[m.task].phase.estate.Some?))
            && (|users'| != n + 1 ==> |users'| == n)
            && (|users'| == n + 1 ==> !users'[n].verified && users'[n].manages == {})
            && (m.Register? ==> users'[n].role.SuperAdmin? && users'[n].estate.None? && users'[n].createdBy == n
                                && users'[n].reportsTo.None?)
            && (m.Save? && d.tasks[m.task].phase.estate.Some? ==>
                  var k := d.tasks[m.task];
                  && users'[n].role == k.role && users'[n].estate == k.phase.estate
                  && users'[n].createdBy == k.requester && users'[n].reportsTo == Some(k.requester))
  {
  }

  /** A create command goes past its check exactly if the requester exists and has an estate, or is a
      super admin, or is asked for a tenant; it then works with the estate it has read. */
  lemma BegunExactly(d: Directory, role: Role, r: nat)
    requires !role.SuperAdmin?
    ensures var d' := Step(d, Begin(role, r));
            && d'.Some? && d'.value.users == d.users && d'.value.estates == d.estates
            && d'.value.tasks
                 == (if r < |d.users| && (d.users[r].estate.Some? || d.users[r].role == SuperAdmin || role == Tenant)
                     then d.tasks + [Task(role, r, Read(d.users[r].estate))] else d.tasks)
  {
  }

  /** Over any run a user is verified exactly if it was before or its email was verified in it. */
  lemma {:induction false} VerifiedExactly(d: Directory, ms: seq<Move>, y: nat)
    requires y < |d.users| && RunFrom(d, ms).Some?
    ensures y < |RunFrom(d, ms).value.users|
    ensures RunFrom(d, ms).value.users[y].verified <==> d.users[y].verified || VerifyEmail(y) in ms
    ensures RunFrom(d, ms).value.users[y].role == d.users[y].role
  {
    if ms != [] {
      var front, m := ms[..|ms| - 1], ms[|ms| - 1];
      VerifiedExactly(d, front, y);
      StepEffects(RunFrom(d, front).value, m, y);
      assert ms == front + [m];
    }
  }

  /** Estates have different names, and each is the estate of its owner, a verified user. */
  ghost predicate Founded(d: Directory) {
    && (forall i, j :: 0 <= i < j < |d.estates| ==> d.estates[i].name != d.estates[j].name)
    && (forall i :: 0 <= i < |d.estates| ==>
          var y := d.estates[i].owner;
          y < |d.users| && d.users[y].estate == Some(i) && d.users[y].verified)
  }

  lemma FoundedKept(d: Directory, m: Move)
    requires Founded(d) && Step(d, m).Some?
    ensures Founded(Step(d, m).value)
  {
    var d' := Step(d, m).value;
    forall i | 0 <= i < |d'.estates|
      ensures var y := d'.estates[i].owner; y < |d'.users| && d'.users[y].estate == Some(i) && d'.users[y].verified
    {
      if i < |d.estates| { StepEffects(d, m, d.estates[i].owner); }
    }
  }

  lemma {:induction false} AlwaysFounded(ms: seq<Move>)
    requires RunFrom(EMPTY, ms).Some?
    ensures Founded(RunFrom(EMPTY, ms).value)
  {
    if ms != [] {
      AlwaysFounded(ms[..|ms| - 1]);
      FoundedKept(RunFrom(EMPTY, ms[..|ms| - 1]).value, ms[|ms| - 1]);
    }
  }

  ghost predicate LostLink(d: Directory, y: nat) {
    exists t :: 0 <= t < |d.tasks| && d.tasks[t].phase == Lost(y)
  }

  lemma LostLinkKept(d: Directory, m: Move, y: nat)
    requires Ok(d) && LostLink(d, y) && Step(d, m).Some?
    ensures LostLink(Step(d, m).value, y)
  {
    var t :| 0 <= t < |d.tasks| && d.tasks[t].phase == Lost(y);
    assert Step(d, m).value.tasks[t] == d.tasks[t];
  }

  /** A command that stops between saving and linking breaks the correspondence for good: whatever
      happens later, nobody ever manages the user it saved. */
  lemma {:induction false} LostLinkStays(d: Directory, more: seq<Move>, y: nat)
    requires Ok(d) && LostLink(d, y) && RunFrom(d, more).Some?
    ensures var d' := RunFrom(d, more).value;
            && Ok(d') && LostLink(d', y)
            && forall x :: 0 <= x < |d'.users| ==> y !in d'.users[x].manages
  {
    if more != [] {
      var front, m := more[..|more| - 1], more[|more| - 1];
      LostLinkStays(d, front, y);
      StepKept(RunFrom(d, front).value, m);
      LostLinkKept(RunFrom(d, front).value, m, y);
    }
    var d' := RunFrom(d, more).value;
    assert Unlinked(d', y);
    forall x | 0 <= x < |d'.users| ensures y !in d'.users[x].manages {
      assert Converse(d', x, y);
    }
  }

  // ------------------------------------------------------------- the commands as code

  lemma RunTwo(d: Directory, m: Move, n: Move)
    requires Step(d, m).Some?
    ensures RunFrom(d, [m, n]) == Step(Step(d, m).value, n)
  {
    RunSnoc(d, [], m);
    RunSnoc(d, [m], n);
    assert [] + [m] == [m] && [m] + [n] == [m, n];
  }

  lemma LastReplaced(ts: seq<Task>, a: Task, p: Phase)
    ensures (ts + [a])[|ts| := (ts + [a])[|ts|].(phase := p)] == ts + [a.(phase := p)]
  {
  }

  /** Begun, and stopped before anything is saved. */
  lemma RefusedRuns(d: Directory, role: Role, requester: nat) returns (ms: seq<Move>)
    requires !role.SuperAdmin? && Admitted(d.users, role, requester)
    ensures RunFrom(d, ms) == Some(d.(tasks := d.tasks + [Task(role, requester, Abandoned)]))
  {
    ms := [Begin(role, requester), Stop(|d.tasks|)];
    LastReplaced(d.tasks, Task(role, requester, Read(d.users[requester].estate)), Abandoned);
    RunTwo(d, ms[0], ms[1]);
  }

  /** Begun and saved. */
  function WithMember(d: Directory, role: Role, requester: nat, phase: Phase): Directory
    requires requester < |d.users| && d.users[requester].estate.Some?
  {
    d.(users := d.users + [NewMember(role, d.users[requester].estate.value, requester)],
       tasks := d.tasks + [Task(role, requester, phase)])
  }

  lemma SavedRuns(d: Directory, role: Role, requester: nat) returns (ms: seq<Move>)
    requires !role.SuperAdmin? && Admitted(d.users, role, requester) && d.users[requester].estate.Some?
    ensures RunFrom(d, ms) == Some(WithMember(d, role, requester, Saved(|d.users|)))
  {
    ms := [Begin(role, requester), Save(|d.tasks|)];
    LastReplaced(d.tasks, Task(role, requester, Read(d.users[requester].estate)), Saved(|d.users|));
    RunTwo(d, ms[0], ms[1]);
  }

  lemma LostRuns(d: Directory, role: Role, requester: nat) returns (ms: seq<Move>)
    requires !role.SuperAdmin? && Admitted(d.users, role, requester) && d.users[requester].estate.Some?
    ensures RunFrom(d, ms) == Some(WithMember(d, role, requester, Lost(|d.users|)))
  {
    ms := SavedRuns(d, role, requester);
    LastReplaced(d.tasks, Task(role, requester, Saved(|d.users|)), Lost(|d.users|));
    RunSnoc(d, ms, Stop(|d.tasks|));
    ms := ms + [Stop(|d.tasks|)];
  }

  lemma CreationRuns(d: Directory, role: Role, requester: nat) returns (ms: seq<Move>)
    requires !role.SuperAdmin? && Admitted(d.users, role, requester) && d.users[requester].estate.Some?
    ensures var u := d.users[requester].(manages := d.users[requester].manages + {|d.users|});
            RunFrom(d, ms) == Some(SetUser(WithMember(d, role, requester, Linked(|d.users|)), requester, u))
  {
    ms := SavedRuns(d, role, requester);
    LastReplaced(d.tasks, Task(role, requester, Saved(|d.users|)), Linked(|d.users|));
    RunSnoc(d, ms, Link(|d.tasks|));
    ms := ms + [Link(|d.tasks|)];
  }

  class UserDirectory {
    var users: seq<User>
    var estates: seq<Estate>
    ghost var tasks: seq<Task>

    ghost function View(): Directory
      reads this
    {
      Directory(users, estates, tasks)
    }

    constructor ()
      ensures View() == EMPTY
    {
      users, estates, tasks := [], [], [];
    }

    /** The create commands: check the requester, save the new user under the requester's estate,
        which the schema requires, publish, and add it to what the requester manages.
        `saved` and `published` say whether those calls go through. */
    method CreateMember(role: Role, requester: nat, saved: bool, published: bool)
      returns (created: Option<nat>, ghost moves: seq<Move>)
      requires !role.SuperAdmin?
      modifies this
      ensures RunFrom(old(View()), moves) == Some(View())
      ensures created.Some? <==> saved && published && requester < |old(users)| && old(users)[requester].estate.Some?
      ensures created.Some? ==>
                && created.value == |old(users)| && |users| == |old(users)| + 1
                && users[created.value].role == role
                && users[created.value].estate == old(users)[requester].estate
                && users[created.value].createdBy == requester && users[created.value].reportsTo == Some(requester)
                && !users[created.value].verified && users[created.value].manages == {}
                && users[requester] == old(users)[requester].(manages := old(users)[requester].manages + {created.value})
                && forall y :: 0 <= y < |old(users)| && y != requester ==> users[y] == old(users)[y]
      ensures created.None? ==> |old(users)| <= |users| && users[..|old(users)|] == old(users)
      ensures estates == old(estates)
    {
      moves := [];
      ghost var before := View();
      if requester >= |users| { return None, moves; }
      if users[requester].estate.None? && !users[requester].role.SuperAdmin? && !role.Tenant? { return None, moves; }
      var estate := users[requester].estate;
      if estate.None? || !saved {
        tasks := tasks + [Task(role, requester, Abandoned)];
        moves := RefusedRuns(before, role, requester);
        return None, moves;
      }
      var id := |users|;
      users := users + [NewMember(role, estate.value, requester)];
      if !published {
        tasks := tasks + [Task(role, requester, Lost(id))];
        moves := LostRuns(before, role, requester);
        return None, moves;
      }
      users := users[requester := users[requester].(manages := users[requester].manages + {id})];
      tasks := tasks + [Task(role, requester, Linked(id))];
      moves := CreationRuns(before, role, requester);
      created := Some(id);
    }

    /** Estate creation: all of it or, on any conflict, nothing. */
    method CreateEstateFor(user: nat, name: string) returns (ok: bool)
      modifies this
      ensures Step(old(View()), CreateEstate(user, name)) == Some(View())
      ensures ok <==> && user < |old(users)| && old(users)[user].verified && old(users)[user].estate.None?
                      && forall i :: 0 <= i < |old(estates)| ==> old(estates)[i].name != name
      ensures ok ==> estates == old(estates) + [Estate(name, user)]
                     && users == old(users)[user := old(users)[user].(estate := Some(|old(estates)|))]
      ensures !ok ==> View() == old(View())
    {
      for i := 0 to |estates|
        invariant forall j :: 0 <= j < i ==> estates[j].name != name
      {
        if estates[i].name == name { return false; }
      }
      if user >= |users| || !users[user].verified || users[user].estate.Some? { return false; }
      users := users[user := users[user].(estate := Some(|estates|))];
      estates := estates + [Estate(name, user)];
      ok := true;
    }
  }
}
