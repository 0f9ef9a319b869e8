/** The permission update command and the guard, over whole histories of updates. */
module PermissionUpdate {
  import opened Wrappers
  import opened Permissions
  import opened PermissionMerge

  /** The permission lists of a user. */
  datatype Lists = Lists(base: seq<Permission>, granted: seq<Permission>, denied: seq<Permission>)

  /** A request; a missing list leaves that part of the user alone. */
  datatype Request = Request(base: Option<seq<Permission>>, granted: Option<seq<Permission>>, denied: seq<Permission>)

  /** The denied list of the request filters this update and is not stored. */
  function Apply(u: Lists, r: Request): Lists {
    Lists(if r.base.None? then u.base else FilterDenied(Dedup(u.base + r.base.value), u.denied + r.denied),
          if r.granted.None? then u.granted else Dedup(u.granted + r.granted.value),
          u.denied)
  }

  function ApplyAll(u: Lists, rs: seq<Request>): Lists {
    if rs == [] then u else Apply(ApplyAll(u, rs[..|rs| - 1]), rs[|rs| - 1])
  }

  // ------------------------------------------------------------- the command as code

  method RemoveDuplicatePermissions(permissions: seq<Permission>) returns (r: seq<Permission>)
    ensures r == Dedup(permissions)
  {
    var unique: map<string, Permission> := map[];
    var order: seq<string> := [];
    for i := 0 to |permissions|
      invariant order == FirstKeys(permissions[..i])
      invariant forall k :: k in unique <==> k in order
      invariant forall k :: k in unique ==>
                  LastWith(permissions[..i], k).Some? && unique[k] == Normal(LastWith(permissions[..i], k).value)
    {
      var p := permissions[i].(actions := Sort(permissions[i].actions));
      var key := p.resource + "-" + Join(p.actions);
      NormalKey(permissions[i]);
      assert permissions[..i + 1][..i] == permissions[..i];
      if key !in unique { order := order + [key]; }
      unique := unique[key := p];
    }
    assert permissions[..|permissions|] == permissions;
    r := Values(order, unique);
    DedupByKeys(permissions, order, unique, r);
  }

  /** The values of an insertion-ordered map. */
  method Values(order: seq<string>, unique: map<string, Permission>) returns (r: seq<Permission>)
    requires forall i :: 0 <= i < |order| ==> order[i] in unique
    ensures |r| == |order| && forall i :: 0 <= i < |r| ==> r[i] == unique[order[i]]
  {
    r := [];
    for i := 0 to |order|
      invariant |r| == i && forall j :: 0 <= j < i ==> r[j] == unique[order[j]]
    {
      r := r + [unique[order[i]]];
    }
  }

  lemma DedupByKeys(ps: seq<Permission>, order: seq<string>, unique: map<string, Permission>, r: seq<Permission>)
    requires order == FirstKeys(ps) && |r| == |order|
    requires forall i :: 0 <= i < |order| ==>
               order[i] in unique && LastWith(ps, order[i]).Some?
               && unique[order[i]] == Normal(LastWith(ps, order[i]).value)
    requires forall i :: 0 <= i < |r| ==> r[i] == unique[order[i]]
    ensures r == Dedup(ps)
  {
    FirstPositionLastValue(ps);
    KeysAt(Dedup(ps));
  }

  class User {
    var basePermissions: seq<Permission>
    var grantedPermissions: seq<Permission>
    var deniedPermissions: seq<Permission>

    function Current(): Lists
      reads this
    {
      Lists(basePermissions, grantedPermissions, deniedPermissions)
    }

    constructor (lists: Lists)
      ensures Current() == lists
    {
      basePermissions, grantedPermissions, deniedPermissions := lists.base, lists.granted, lists.denied;
    }

    method UpdatePermissions(r: Request)
      modifies this
      ensures Current() == Apply(old(Current()), r)
      ensures r.base.None? ==> basePermissions == old(basePermissions)
      ensures r.granted.None? ==> grantedPermissions == old(grantedPermissions)
      ensures deniedPermissions == old(deniedPermissions)
    {
      var denied := deniedPermissions + r.denied;
      if r.base.Some? {
        var merged := RemoveDuplicatePermissions(basePermissions + r.base.value);
        basePermissions := FilterDenied(merged, denied);
      }
      if r.granted.Some? {
        grantedPermissions := RemoveDuplicatePermissions(grantedPermissions + r.granted.value);
      }
    }
  }

  // ------------------------------------------------------------- base permissions

  /** After a base update no base permission has a resource that is denied in the stored or the
      requested list, and for every other permission merged in, one with its key is there. */
  lemma BaseAfterUpdate(u: Lists, r: Request)
    requires r.base.Some?
    ensures forall p, d :: p in Apply(u, r).base && d in u.denied + r.denied ==> p.resource != d.resource
    ensures forall p :: p in Apply(u, r).base ==> !Denied(p, u.denied) && !Denied(p, r.denied)
    ensures AllPlain(u.base) && AllPlain(r.base.value) ==>
              forall p :: p in u.base + r.base.value && !Denied(p, u.denied) && !Denied(p, r.denied) ==>
                exists q :: q in Apply(u, r).base && Key(q) == Key(p)
  {
    var all, denied := u.base + r.base.value, u.denied + r.denied;
    FilterKeeps(Dedup(all), denied);
    forall p ensures Denied(p, denied) <==> exists j :: 0 <= j < |denied| && denied[j].resource == p.resource {}
    forall p ensures Denied(p, denied) <==> Denied(p, u.denied) || Denied(p, r.denied) {
      DeniedConcat(p, u.denied, r.denied);
    }
    if AllPlain(u.base) && AllPlain(r.base.value) {
      forall p | p in all && !Denied(p, denied)
        ensures exists q :: q in Apply(u, r).base && Key(q) == Key(p)
      {
        var q := KeySurvives(all, p);
        DedupGrants(all, "", "");
        KeyCanonical(p, q);
        assert !Denied(q, denied);
      }
    }
  }

  /** After any history with at least one base update, no base permission has a resource in the stored
      denied list. */
  lemma {:induction false} BaseOverHistory(u: Lists, rs: seq<Request>)
    requires exists i :: 0 <= i < |rs| && rs[i].base.Some?
    ensures ApplyAll(u, rs).denied == u.denied
    ensures forall p, d :: p in ApplyAll(u, rs).base && d in u.denied ==> p.resource != d.resource
  {
    var front, r := rs[..|rs| - 1], rs[|rs| - 1];
    DeniedKept(u, front);
    if r.base.Some? {
      BaseAfterUpdate(ApplyAll(u, front), r);
    } else {
      var i :| 0 <= i < |rs| && rs[i].base.Some?;
      assert front[i].base.Some?;
      BaseOverHistory(u, front);
    }
  }

  lemma {:induction false} DeniedKept(u: Lists, rs: seq<Request>)
    ensures ApplyAll(u, rs).denied == u.denied
  {
    if rs != [] { DeniedKept(u, rs[..|rs| - 1]); }
  }

  lemma DeniedConcat(p: Permission, a: seq<Permission>, b: seq<Permission>)
    ensures Denied(p, a + b) <==> Denied(p, a) || Denied(p, b)
  {
    if Denied(p, a) {
      var j :| 0 <= j < |a| && a[j].resource == p.resource;
      assert (a + b)[j].resource == p.resource;
    }
    if Denied(p, b) {
      var j :| 0 <= j < |b| && b[j].resource == p.resource;
      assert (a + b)[|a| + j].resource == p.resource;
    }
  }

  lemma {:induction false} LastIndex(ps: seq<Permission>, p: Permission) returns (i: nat)
    requires p in ps
    ensures i < |ps| && Key(ps[i]) == Key(p) && forall j :: i < j < |ps| ==> Key(ps[j]) != Key(ps[i])
  {
    i := |ps| - 1;
    if Key(ps[i]) != Key(p) { i := LastIndex(ps[..|ps| - 1], p); }
  }

  lemma KeySurvives(ps: seq<Permission>, p: Permission) returns (q: Permission)
    requires p in ps
    ensures q in Dedup(ps) && Key(q) == Key(p)
  {
    var i := LastIndex(ps, p);
    q := LastIsStored(ps, i);
  }

  /** A request without a list leaves that list as it is, the denied list always stays, and in a merge
      the request's own permissions win: the last with a key is stored with its conditions. */
  lemma RequestWins(u: Lists, r: Request)
    ensures r.base.None? ==> Apply(u, r).base == u.base
    ensures r.granted.None? ==> Apply(u, r).granted == u.granted
    ensures Apply(u, r).denied == u.denied
    ensures r.granted.Some? ==> forall i :: LastOf(r.granted.value, i) ==> Stored(Apply(u, r).granted, r.granted.value[i])
    ensures r.base.Some? ==>
              forall i :: LastOf(r.base.value, i)
                          && (forall j :: 0 <= j < |u.denied + r.denied| ==>
                                (u.denied + r.denied)[j].resource != r.base.value[i].resource)
                ==> Stored(Apply(u, r).base, r.base.value[i])
  {
    if r.granted.Some? {
      forall i | LastOf(r.granted.value, i) ensures Stored(Apply(u, r).granted, r.granted.value[i]) {
        AddedIsStored(u.granted, r.granted.value, i);
      }
    }
    if r.base.Some? {
      FilterKeeps(Dedup(u.base + r.base.value), u.denied + r.denied);
      forall i | LastOf(r.base.value, i)
                 && (forall j :: 0 <= j < |u.denied + r.denied| ==>
                       (u.denied + r.denied)[j].resource != r.base.value[i].resource)
        ensures Stored(Apply(u, r).base, r.base.value[i])
      {
        AddedIsStored(u.base, r.base.value, i);
      }
    }
  }

  /** No later entry of the list has the key of entry i. */
  ghost predicate LastOf(ps: seq<Permission>, i: int) {
    0 <= i < |ps| && forall j :: i < j < |ps| ==> Key(ps[j]) != Key(ps[i])
  }

  /** The list has this permission, with its actions in order. */
  ghost predicate Stored(ps: seq<Permission>, p: Permission) {
    exists q :: q in ps && q.resource == p.resource && q.conditions == p.conditions
                && Sorted(q.actions) && multiset(q.actions) == multiset(p.actions)
  }

  lemma AddedIsStored(held: seq<Permission>, added: seq<Permission>, i: nat)
    requires LastOf(added, i)
    ensures Stored(Dedup(held + added), added[i])
  {
    var all := held + added;
    assert all[|held| + i] == added[i];
    forall j | |held| + i < j < |all| ensures Key(all[j]) != Key(added[i]) {
      assert all[j] == added[j - |held|];
    }
    var q := LastIsStored(all, |held| + i);
  }

  // ------------------------------------------------------------- access over a history

  ghost predicate PlainRequests(rs: seq<Request>) {
    forall i :: 0 <= i < |rs| && rs[i].granted.Some? ==> AllPlain(rs[i].granted.value)
  }

  ghost predicate GrantedBySome(rs: seq<Request>, resource: string, action: string) {
    exists i :: 0 <= i < |rs| && rs[i].granted.Some? && Grants(rs[i].granted.value, resource, action)
  }

  /** After any history of updates a user is granted exactly what the initial list or some request
      granted: updates never take access away, and a denied list never affects it. */
  lemma {:induction false} AccessIsCumulative(u: Lists, rs: seq<Request>, resource: string, action: string)
    requires AllPlain(u.granted) && PlainRequests(rs)
    ensures AllPlain(ApplyAll(u, rs).granted) && ApplyAll(u, rs).denied == u.denied
    ensures Grants(ApplyAll(u, rs).granted, resource, action)
       <==> Grants(u.granted, resource, action) || GrantedBySome(rs, resource, action)
  {
    if rs != [] {
      var front, r := rs[..|rs| - 1], rs[|rs| - 1];
      AccessIsCumulative(u, front, resource, action);
      var before := ApplyAll(u, front);
      if r.granted.Some? {
        MergePreservesAccess(before.granted, r.granted.value, resource, action);
        DedupGrants(before.granted + r.granted.value, resource, action);
      }
      if GrantedBySome(front, resource, action) {
        var i :| 0 <= i < |front| && front[i].granted.Some? && Grants(front[i].granted.value, resource, action);
        assert rs[i] == front[i];
      }
      if GrantedBySome(rs, resource, action) {
        var i :| 0 <= i < |rs| && rs[i].granted.Some? && Grants(rs[i].granted.value, resource, action);
        assert i == |rs| - 1 || rs[i] == front[i];
      }
    }
  }

  // ------------------------------------------------------------- the guard

  datatype Role = SiteAdmin | SuperAdmin | OtherRole
  datatype Caller = Caller(role: Role, granted: Option<seq<Permission>>)
  datatype Decision = Allow | Refuse | Forbid

  /** PermissionsGuard.canActivate; Forbid stands for the ForbiddenException. */
  function CanActivate(required: Option<(string, string)>, caller: Option<Caller>): Decision {
    if required.None? then Allow
    else if caller.None? then Refuse
    else if caller.value.role.SiteAdmin? || caller.value.role.SuperAdmin? then Allow
    else if caller.value.granted.Some? && Grants(caller.value.granted.value, required.value.0, required.value.1) then Allow
    else Forbid
  }

  /** What the guard answers, in full: without a requirement everybody passes, without a caller nobody
      does, the two admin roles pass, and anybody else needs a granted permission for the very resource
      that lists the action or `manage`. */
  lemma GuardExactly(required: Option<(string, string)>, caller: Option<Caller>)
    ensures required.None? ==> CanActivate(required, caller) == Allow
    ensures required.Some? && caller.None? ==> CanActivate(required, caller) == Refuse
    ensures required.Some? && caller.Some? ==>
              var role, granted := caller.value.role, caller.value.granted;
              && CanActivate(required, caller) != Refuse
              && (CanActivate(required, caller) == Allow
                  <==> || role == SiteAdmin || role == SuperAdmin
                       || (granted.Some?
                           && (exists p :: p in granted.value && p.resource == required.value.0
                                           && (required.value.1 in p.actions || "manage" in p.actions))))
  {
    if required.Some? && caller.Some? && caller.value.granted.Some? {
      var g := caller.value.granted.value;
      if p :| p in g && p.resource == required.value.0 && (required.value.1 in p.actions || "manage" in p.actions) {
        assert Matches(p, required.value.0, required.value.1);
      }
    }
  }

  /** Who passes the guard after a history of updates: admins, and otherwise exactly those to whom
      the resource was ever granted with the action or with `manage`. */
  lemma GuardAfterUpdates(role: Role, u: Lists, rs: seq<Request>, resource: string, action: string)
    requires AllPlain(u.granted) && PlainRequests(rs)
    ensures var d := CanActivate(Some((resource, action)), Some(Caller(role, Some(ApplyAll(u, rs).granted))));
            && (d == Allow <==> !role.OtherRole? || Grants(u.granted, resource, action)
                                || GrantedBySome(rs, resource, action))
            && d != Refuse
  {
    AccessIsCumulative(u, rs, resource, action);
  }

  /** Merging requests one after the other or in one go gives the same grants. */
  lemma SplitRequests(u: Lists, a: seq<Permission>, b: seq<Permission>, denied: seq<Permission>)
    ensures ApplyAll(u, [Request(None, Some(a), denied), Request(None, Some(b), denied)]).granted
         == ApplyAll(u, [Request(None, Some(a + b), denied)]).granted
  {
    var r1, r2, r := Request(None, Some(a), denied), Request(None, Some(b), denied), Request(None, Some(a + b), denied);
    assert [r1, r2][..1] == [r1] && [r1][..0] == [] && [r][..0] == [];
    assert ApplyAll(u, [r1]) == Apply(u, r1);
    assert u.granted + (a + b) == u.granted + a + b;
    BatchesMergeOnce(u.granted, a, b);
  }
}
