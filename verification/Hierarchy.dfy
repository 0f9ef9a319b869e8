/** The user hierarchy as registration, estate creation and the create commands build it.

    A create command reads its requester, saves the new user and only then links it; commands run
    concurrently and may stop between any two of these steps. Users are numbered in the order in
    which they are saved. */
module Hierarchy {
  import opened Wrappers

  datatype Role = SuperAdmin | Admin | Landlord | Tenant | Security

  datatype User = User(role: Role, estate: Option<nat>, verified: bool, createdBy: nat,
                       reportsTo: Option<nat>, manages: set<nat>)

  datatype Estate = Estate(name: string, owner: nat)

  datatype Phase = Read(estate: Option<nat>) | Saved(child: nat) | Linked(child: nat) | Lost(child: nat) | Abandoned

  /** One execution of a create command. */
  datatype Task = Task(role: Role, requester: nat, phase: Phase)

  datatype Directory = Directory(users: seq<User>, estates: seq<Estate>, tasks: seq<Task>)

  datatype Move =
    | Register
    | VerifyEmail(user: nat)
    | CreateEstate(user: nat, name: string)
    | Begin(role: Role, requester: nat)
    | Save(task: nat)
    | Link(task: nat)
    | Stop(task: nat)

  /** The pre-save hook makes a super admin its own creator and lets it report to nobody. */
  function NewSuperAdmin(id: nat): User {
    User(SuperAdmin, None, false, id, None, {})
  }

  function NewMember(role: Role, estate: nat, requester: nat): User {
    User(role, Some(estate), false, requester, Some(requester), {})
  }

  /** The check at the top of the create commands; creating a tenant only needs its landlord to exist. */
  predicate Admitted(users: seq<User>, role: Role, requester: nat) {
    && requester < |users|
    && (users[requester].estate.Some? || users[requester].role.SuperAdmin? || role.Tenant?)
  }

  predicate NameTaken(estates: seq<Estate>, name: string) {
    exists i :: 0 <= i < |estates| && estates[i].name == name
  }

  /** The conditions under which the transaction of estate creation commits. */
  predicate MayCreateEstate(d: Directory, user: nat, name: string) {
    && user < |d.users|
    && !NameTaken(d.estates, name)
    && d.users[user].verified
    && d.users[user].estate.None?
  }

  function SetUser(d: Directory, id: nat, u: User): Directory
    requires id < |d.users|
  {
    d.(users := d.users[id := u])
  }

  function SetPhase(d: Directory, t: nat, p: Phase): Directory
    requires t < |d.tasks|
  {
    d.(tasks := d.tasks[t := d.tasks[t].(phase := p)])
  }

  /** The next state; a rejected command changes nothing. */
  function Step(d: Directory, m: Move): Option<Directory> {
    match m
    case Register => Some(d.(users := d.users + [NewSuperAdmin(|d.users|)]))
    case VerifyEmail(u) =>
      if u < |d.users| then Some(SetUser(d, u, d.users[u].(verified := true))) else Some(d)
    case CreateEstate(u, name) =>
      if MayCreateEstate(d, u, name) then
        Some(SetUser(d, u, d.users[u].(estate := Some(|d.estates|))).(estates := d.estates + [Estate(name, u)]))
      else Some(d)
    case Begin(role, r) =>
      if role.SuperAdmin? then None
      else if Admitted(d.users, role, r) then Some(d.(tasks := d.tasks + [Task(role, r, Read(d.users[r].estate))]))
      else Some(d)
    case Save(t) =>
      if t >= |d.tasks| || !d.tasks[t].phase.Read? then None
      else if d.tasks[t].phase.estate.None? then Some(SetPhase(d, t, Abandoned))
      else
        var child := NewMember(d.tasks[t].role, d.tasks[t].phase.estate.value, d.tasks[t].requester);
        Some(SetPhase(d, t, Saved(|d.users|)).(users := d.users + [child]))
    case Link(t) =>
      if t >= |d.tasks| || !d.tasks[t].phase.Saved? || d.tasks[t].requester >= |d.users| then None
      else
        var r := d.tasks[t].requester;
        var u := d.users[r].(manages := d.users[r].manages + {d.tasks[t].phase.child});
        Some(SetUser(SetPhase(d, t, Linked(d.tasks[t].phase.child)), r, u))
    case Stop(t) =>
      if t >= |d.tasks| then None
      else if d.tasks[t].phase.Read? then Some(SetPhase(d, t, Abandoned))
      else if d.tasks[t].phase.Saved? then Some(SetPhase(d, t, Lost(d.tasks[t].phase.child)))
      else None
  }

  const EMPTY := Directory([], [], [])

  function RunFrom(d: Directory, ms: seq<Move>): Option<Directory> {
    if ms == [] then Some(d)
    else
      var p := RunFrom(d, ms[..|ms| - 1]);
      if p.None? then None else Step(p.value, ms[|ms| - 1])
  }

  lemma RunSnoc(d: Directory, ms: seq<Move>, m: Move)
    requires RunFrom(d, ms).Some?
    ensures RunFrom(d, ms + [m]) == Step(RunFrom(d, ms).value, m)
  {
    assert (ms + [m])[..|ms|] == ms;
  }

  // ------------------------------------------------------------- the invariant

  predicate HasChild(p: Phase) {
    p.Saved? || p.Linked? || p.Lost?
  }

  predicate Open(p: Phase) {
    p.Saved? || p.Lost?
  }

  /** A saved user that its command has not linked, or will never link. */
  ghost predicate Unlinked(d: Directory, y: nat) {
    exists t :: 0 <= t < |d.tasks| && Open(d.tasks[t].phase) && d.tasks[t].phase.child == y
  }

  ghost predicate UserOk(d: Directory, y: nat)
    requires y < |d.users|
  {
    var u := d.users[y];
    && (u.role.SuperAdmin? ==> u.reportsTo.None? && u.createdBy == y)
    && (!u.role.SuperAdmin? ==> u.reportsTo == Some(u.createdBy) && u.createdBy < y && u.estate.Some?
                                && d.users[u.createdBy].estate == u.estate)
    && (u.estate.Some? ==> u.estate.value < |d.estates|
                           && (u.role.SuperAdmin? ==> d.estates[u.estate.value].owner == y))
  }

  ghost predicate TaskOk(d: Directory, t: nat)
    requires t < |d.tasks|
  {
    var k := d.tasks[t];
    && !k.role.SuperAdmin?
    && k.requester < |d.users|
    && (k.phase.Read? && k.phase.estate.Some? ==> d.users[k.requester].estate == k.phase.estate)
    && (HasChild(k.phase) ==> k.phase.child < |d.users| && d.users[k.phase.child].role == k.role
                              && d.users[k.phase.child].reportsTo == Some(k.requester))
  }

  ghost predicate DistinctChildren(d: Directory) {
    forall s, t :: 0 <= s < t < |d.tasks| && HasChild(d.tasks[s].phase) && HasChild(d.tasks[t].phase)
      ==> d.tasks[s].phase.child != d.tasks[t].phase.child
  }

  /** The two pointers agree except for users that are not linked yet. */
  ghost predicate Converse(d: Directory, x: nat, y: nat)
    requires x < |d.users|
  {
    y in d.users[x].manages <==> y < |d.users| && d.users[y].reportsTo == Some(x) && !Unlinked(d, y)
  }

  ghost predicate Ok(d: Directory) {
    && (forall y :: 0 <= y < |d.users| ==> UserOk(d, y))
    && (forall t :: 0 <= t < |d.tasks| ==> TaskOk(d, t))
    && DistinctChildren(d)
    && (forall x: nat, y: nat :: x < |d.users| ==> Converse(d, x, y))
  }
}
