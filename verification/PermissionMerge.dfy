/** What merging does to a permission list, and what it preserves. */
module PermissionMerge {
  import opened Wrappers
  import opened Permissions

  /** A permission after its actions have been sorted in place. */
  function Normal(p: Permission): Permission {
    p.(actions := Sort(p.actions))
  }

  /** `unique.set(key, p)` on an insertion-ordered map, seen as the list of its values. */
  function Put(out: seq<Permission>, p: Permission): seq<Permission> {
    if out == [] then [Normal(p)]
    else if Key(out[0]) == Key(p) then [Normal(p)] + out[1..]
    else [out[0]] + Put(out[1..], p)
  }

  function Merge(out: seq<Permission>, ps: seq<Permission>): seq<Permission> {
    if ps == [] then out else Put(Merge(out, ps[..|ps| - 1]), ps[|ps| - 1])
  }

  function Dedup(ps: seq<Permission>): seq<Permission> {
    Merge([], ps)
  }

  function Keys(ps: seq<Permission>): seq<string> {
    if ps == [] then [] else [Key(ps[0])] + Keys(ps[1..])
  }

  lemma {:induction false} KeysAt(ps: seq<Permission>)
    ensures |Keys(ps)| == |ps| && forall i :: 0 <= i < |ps| ==> Keys(ps)[i] == Key(ps[i])
  {
    if ps != [] { KeysAt(ps[1..]); }
  }

  ghost predicate DistinctKeys(ps: seq<Permission>) {
    forall i, j :: 0 <= i < j < |ps| ==> Key(ps[i]) != Key(ps[j])
  }

  ghost predicate AllNormal(ps: seq<Permission>) {
    forall i :: 0 <= i < |ps| ==> Normal(ps[i]) == ps[i]
  }

  lemma NormalKey(p: Permission)
    ensures Key(Normal(p)) == Key(p) && Normal(Normal(p)) == Normal(p)
  {
    SortCanonical(p.actions, p.actions);
  }

  // ------------------------------------------------------------- first position, last value

  /** The keys of a list in order of first occurrence. */
  function FirstKeys(ps: seq<Permission>): seq<string> {
    if ps == [] then []
    else
      var f, k := FirstKeys(ps[..|ps| - 1]), Key(ps[|ps| - 1]);
      if k in f then f else f + [k]
  }

  /** The last permission with a key. */
  function LastWith(ps: seq<Permission>, k: string): Option<Permission> {
    if ps == [] then None
    else if Key(ps[|ps| - 1]) == k then Some(ps[|ps| - 1])
    else LastWith(ps[..|ps| - 1], k)
  }

  lemma {:induction false} PutShape(out: seq<Permission>, p: Permission)
    requires DistinctKeys(out)
    ensures |Put(out, p)| == if Key(p) in Keys(out) then |out| else |out| + 1
    ensures forall i :: 0 <= i < |Put(out, p)| ==>
              Put(out, p)[i] == if i < |out| && Key(out[i]) != Key(p) then out[i] else Normal(p)
  {
    KeysAt(out);
    if out != [] {
      KeysAt(out[1..]);
      if Key(out[0]) != Key(p) { PutShape(out[1..], p); }
    }
  }

  lemma PutAt(out: seq<Permission>, p: Permission)
    requires DistinctKeys(out)
    ensures Keys(Put(out, p)) == if Key(p) in Keys(out) then Keys(out) else Keys(out) + [Key(p)]
    ensures forall i :: 0 <= i < |Put(out, p)| ==>
              Put(out, p)[i] == if i < |out| && Key(out[i]) != Key(p) then out[i] else Normal(p)
    ensures |Put(out, p)| == |Keys(Put(out, p))| && DistinctKeys(Put(out, p))
  {
    NormalKey(p);
    KeysAt(out);
    KeysAt(Put(out, p));
    PutShape(out, p);
  }

  /** Merging keeps, for every key, its first position and its last value, and nothing else. */
  lemma {:induction false} FirstPositionLastValue(ps: seq<Permission>)
    ensures Keys(Dedup(ps)) == FirstKeys(ps) && DistinctKeys(Dedup(ps)) && AllNormal(Dedup(ps))
    ensures forall i :: 0 <= i < |Dedup(ps)| ==>
              LastWith(ps, Key(Dedup(ps)[i])).Some? && Dedup(ps)[i] == Normal(LastWith(ps, Key(Dedup(ps)[i])).value)
  {
    if ps != [] {
      var front, p := ps[..|ps| - 1], ps[|ps| - 1];
      FirstPositionLastValue(front);
      PutAt(Dedup(front), p);
      NormalKey(p);
      KeysAt(Dedup(front));
      KeysAt(Dedup(ps));
    }
  }

  /** What a merge stores of a permission: its actions sorted, everything else as it is. */
  lemma NormalExactly(p: Permission)
    ensures Normal(p).resource == p.resource && Normal(p).conditions == p.conditions
    ensures Sorted(Normal(p).actions) && multiset(Normal(p).actions) == multiset(p.actions)
  {
    SortSorts(p.actions);
  }

  lemma {:induction false} LastWithIsLast(ps: seq<Permission>, i: nat)
    requires i < |ps| && forall j :: i < j < |ps| ==> Key(ps[j]) != Key(ps[i])
    ensures LastWith(ps, Key(ps[i])) == Some(ps[i])
  {
    if i < |ps| - 1 { LastWithIsLast(ps[..|ps| - 1], i); }
  }

  lemma {:induction false} KeyInFirst(ps: seq<Permission>, i: nat)
    requires i < |ps|
    ensures Key(ps[i]) in FirstKeys(ps)
  {
    if i < |ps| - 1 { KeyInFirst(ps[..|ps| - 1], i); }
  }

  /** Of the permissions with one key the last one is stored: its conditions win. */
  lemma LastIsStored(ps: seq<Permission>, i: nat) returns (q: Permission)
    requires i < |ps| && forall j :: i < j < |ps| ==> Key(ps[j]) != Key(ps[i])
    ensures q in Dedup(ps) && Key(q) == Key(ps[i])
    ensures q.resource == ps[i].resource && q.conditions == ps[i].conditions
    ensures Sorted(q.actions) && multiset(q.actions) == multiset(ps[i].actions)
  {
    KeyInFirst(ps, i);
    LastWithIsLast(ps, i);
    FirstPositionLastValue(ps);
    KeysAt(Dedup(ps));
    var at :| 0 <= at < |Keys(Dedup(ps))| && Keys(Dedup(ps))[at] == Key(ps[i]);
    q := Dedup(ps)[at];
    NormalExactly(ps[i]);
  }

  // ------------------------------------------------------------- batches

  lemma {:induction false} MergeConcat(out: seq<Permission>, a: seq<Permission>, b: seq<Permission>)
    ensures Merge(out, a + b) == Merge(Merge(out, a), b)
  {
    if b == [] {
      assert a + b == a;
    } else {
      MergeConcat(out, a, b[..|b| - 1]);
      assert (a + b)[..|a + b| - 1] == a + b[..|b| - 1];
    }
  }

  lemma {:induction false} PutFresh(out: seq<Permission>, p: Permission)
    requires forall i :: 0 <= i < |out| ==> Key(out[i]) != Key(p)
    ensures Put(out, p) == out + [Normal(p)]
  {
    if out != [] { PutFresh(out[1..], p); }
  }

  lemma {:induction false} MergeFixed(ps: seq<Permission>)
    requires DistinctKeys(ps) && AllNormal(ps)
    ensures Dedup(ps) == ps
  {
    if ps != [] {
      MergeFixed(ps[..|ps| - 1]);
      PutFresh(ps[..|ps| - 1], ps[|ps| - 1]);
    }
  }

  /** Merging is idempotent, and merging in batches is merging once. */
  lemma BatchesMergeOnce(g: seq<Permission>, a: seq<Permission>, b: seq<Permission>)
    ensures Dedup(Dedup(g + a) + b) == Dedup(g + a + b)
    ensures Dedup(Dedup(g)) == Dedup(g)
  {
    FirstPositionLastValue(g + a);
    MergeFixed(Dedup(g + a));
    MergeConcat([], Dedup(g + a), b);
    MergeConcat([], g + a, b);
    FirstPositionLastValue(g);
    MergeFixed(Dedup(g));
  }

  // ------------------------------------------------------------- the access decision

  const MANAGE := "manage"

  predicate Matches(p: Permission, resource: string, action: string) {
    p.resource == resource && (action in p.actions || MANAGE in p.actions)
  }

  predicate Grants(ps: seq<Permission>, resource: string, action: string) {
    exists i :: 0 <= i < |ps| && Matches(ps[i], resource, action)
  }

  ghost predicate AllPlain(ps: seq<Permission>) {
    forall i :: 0 <= i < |ps| ==> Plain(ps[i])
  }

  lemma NormalMatches(p: Permission, q: Permission, resource: string, action: string)
    requires Plain(p) && Plain(q) && Key(p) == Key(q)
    ensures Matches(p, resource, action) <==> Matches(q, resource, action)
    ensures Matches(Normal(p), resource, action) <==> Matches(p, resource, action)
    ensures Plain(Normal(p)) && p.resource == q.resource
  {
    KeyCanonical(p, q);
    SortSorts(p.actions);
    SortPlain(p);
    forall a ensures a in p.actions <==> a in q.actions {
      assert a in p.actions <==> a in multiset(p.actions);
      assert a in q.actions <==> a in multiset(q.actions);
    }
    forall a ensures a in Sort(p.actions) <==> a in p.actions {
      assert a in p.actions <==> a in multiset(p.actions);
      assert a in Sort(p.actions) <==> a in multiset(Sort(p.actions));
    }
  }

  lemma {:induction false} PutGrants(out: seq<Permission>, p: Permission, resource: string, action: string)
    requires AllPlain(out) && Plain(p)
    ensures AllPlain(Put(out, p))
    ensures Grants(Put(out, p), resource, action) <==> Grants(out, resource, action) || Matches(p, resource, action)
  {
    NormalMatches(p, p, resource, action);
    if out == [] {
      GrantsCons(Normal(p), [], resource, action);
      assert [Normal(p)] + [] == [Normal(p)];
    } else {
      if Key(out[0]) == Key(p) {
        NormalMatches(p, out[0], resource, action);
        GrantsCons(Normal(p), out[1..], resource, action);
      } else {
        PutGrants(out[1..], p, resource, action);
        GrantsCons(out[0], Put(out[1..], p), resource, action);
      }
      GrantsCons(out[0], out[1..], resource, action);
      assert out == [out[0]] + out[1..];
    }
  }

  lemma GrantsCons(p: Permission, ps: seq<Permission>, resource: string, action: string)
    ensures Grants([p] + ps, resource, action) <==> Matches(p, resource, action) || Grants(ps, resource, action)
  {
    var all := [p] + ps;
    if Matches(p, resource, action) { assert Matches(all[0], resource, action); }
    if Grants(ps, resource, action) {
      var i :| 0 <= i < |ps| && Matches(ps[i], resource, action);
      assert Matches(all[i + 1], resource, action);
    }
  }

  lemma {:induction false} DedupGrants(ps: seq<Permission>, resource: string, action: string)
    requires AllPlain(ps)
    ensures AllPlain(Dedup(ps)) && (Grants(Dedup(ps), resource, action) <==> Grants(ps, resource, action))
  {
    if ps != [] {
      var front, p := ps[..|ps| - 1], ps[|ps| - 1];
      DedupGrants(front, resource, action);
      PutGrants(Dedup(front), p, resource, action);
      assert ps == front + [p];
      GrantsConcat(front, [p], resource, action);
      GrantsCons(p, [], resource, action);
      assert [p] + [] == [p];
    }
  }

  lemma GrantsConcat(a: seq<Permission>, b: seq<Permission>, resource: string, action: string)
    ensures Grants(a + b, resource, action) <==> Grants(a, resource, action) || Grants(b, resource, action)
  {
    if Grants(a, resource, action) {
      var i :| 0 <= i < |a| && Matches(a[i], resource, action);
      assert Matches((a + b)[i], resource, action);
    }
    if Grants(b, resource, action) {
      var i :| 0 <= i < |b| && Matches(b[i], resource, action);
      assert Matches((a + b)[|a| + i], resource, action);
    }
  }

  /** A merged grant list gives access exactly where the old list or the new one did. */
  lemma MergePreservesAccess(granted: seq<Permission>, added: seq<Permission>, resource: string, action: string)
    requires AllPlain(granted) && AllPlain(added)
    ensures Grants(Dedup(granted + added), resource, action)
       <==> Grants(granted, resource, action) || Grants(added, resource, action)
  {
    DedupGrants(granted + added, resource, action);
    GrantsConcat(granted, added, resource, action);
  }

  // ------------------------------------------------------------- the deny filter

  predicate Denied(p: Permission, denied: seq<Permission>) {
    exists j :: 0 <= j < |denied| && denied[j].resource == p.resource
  }

  function FilterDenied(ps: seq<Permission>, denied: seq<Permission>): seq<Permission> {
    if ps == [] then []
    else (if Denied(ps[0], denied) then [] else [ps[0]]) + FilterDenied(ps[1..], denied)
  }

  lemma FilterCons(p: Permission, ps: seq<Permission>, denied: seq<Permission>)
    ensures FilterDenied([p] + ps, denied) == (if Denied(p, denied) then [] else [p]) + FilterDenied(ps, denied)
  {
    assert ([p] + ps)[1..] == ps;
  }

  lemma {:induction false} FilterConcat(a: seq<Permission>, b: seq<Permission>, denied: seq<Permission>)
    ensures FilterDenied(a + b, denied) == FilterDenied(a, denied) + FilterDenied(b, denied)
  {
    if a == [] {
      assert a + b == b;
    } else {
      FilterConcat(a[1..], b, denied);
      var rest := a[1..] + b;
      assert a + b == [a[0]] + rest;
      FilterCons(a[0], rest, denied);
    }
  }

  lemma {:induction false} FilterKeeps(ps: seq<Permission>, denied: seq<Permission>)
    ensures forall p :: p in FilterDenied(ps, denied)
                   <==> p in ps && forall j :: 0 <= j < |denied| ==> denied[j].resource != p.resource
    ensures |FilterDenied(ps, denied)| <= |ps|
  {
    if ps != [] { FilterKeeps(ps[1..], denied); }
  }

  lemma {:induction false} FilterPut(out: seq<Permission>, p: Permission, denied: seq<Permission>)
    requires AllPlain(out) && Plain(p)
    ensures FilterDenied(Put(out, p), denied)
         == if Denied(p, denied) then FilterDenied(out, denied) else Put(FilterDenied(out, denied), p)
  {
    if out == [] {
      assert Put(out, p)[1..] == [];
    } else if Key(out[0]) == Key(p) {
      KeyCanonical(out[0], p);
      assert Put(out, p)[1..] == out[1..];
      assert Denied(out[0], denied) <==> Denied(p, denied);
      if !Denied(p, denied) {
        assert ([out[0]] + FilterDenied(out[1..], denied))[1..] == FilterDenied(out[1..], denied);
      }
    } else {
      FilterPut(out[1..], p, denied);
      assert Put(out, p)[1..] == Put(out[1..], p);
      var rest := FilterDenied(out[1..], denied);
      if Denied(out[0], denied) {
        assert FilterDenied(out, denied) == rest;
        assert FilterDenied(Put(out, p), denied) == FilterDenied(Put(out[1..], p), denied);
      } else {
        assert FilterDenied(out, denied) == [out[0]] + rest;
        assert ([out[0]] + rest)[1..] == rest;
      }
    }
  }

  /** Filtering after merging is filtering before it. */
  lemma {:induction false} FilterCommutes(ps: seq<Permission>, denied: seq<Permission>)
    requires AllPlain(ps)
    ensures FilterDenied(Dedup(ps), denied) == Dedup(FilterDenied(ps, denied))
  {
    if ps != [] {
      var front, p := ps[..|ps| - 1], ps[|ps| - 1];
      FilterCommutes(front, denied);
      DedupGrants(front, "", "");
      FilterPut(Dedup(front), p, denied);
      FilterConcat(front, [p], denied);
      assert ps == front + [p];
      var f := FilterDenied(front, denied);
      assert FilterDenied([p], denied) == if Denied(p, denied) then [] else [p] by { assert [p][1..] == []; }
      if !Denied(p, denied) {
        assert (f + [p])[..|f + [p]| - 1] == f;
      } else {
        assert f + [] == f;
      }
    }
  }
}
