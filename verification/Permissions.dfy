/** Merging permission lists by a canonical key, the deny filter, and the guard that reads the result. */
module Permissions {

  datatype Permission = Permission(resource: string, actions: seq<string>, conditions: seq<string>)

  // ------------------------------------------------------------- strings in sorted order

  /** JavaScript's default order on strings. */
  predicate Leq(a: string, b: string) {
    a == "" || (b != "" && (a[0] < b[0] || (a[0] == b[0] && Leq(a[1..], b[1..]))))
  }

  /** It is the dictionary order by character: where two strings first differ the smaller one has the
      smaller character, or has ended. */
  lemma {:induction false} LeqIsLexicographic(a: string, b: string) returns (k: nat)
    ensures k <= |a| && k <= |b| && a[..k] == b[..k]
    ensures Leq(a, b) <==> k == |a| || (k < |b| && a[k] < b[k])
    ensures k < |a| && k < |b| ==> a[k] != b[k]
  {
    if a == "" || b == "" || a[0] != b[0] { return 0; }
    k := LeqIsLexicographic(a[1..], b[1..]);
    k := k + 1;
    assert a[..k] == [a[0]] + a[1..][..k - 1] && b[..k] == [b[0]] + b[1..][..k - 1];
  }

  lemma {:induction false} LeqTotal(a: string, b: string)
    ensures Leq(a, b) || Leq(b, a)
    ensures Leq(a, b) && Leq(b, a) ==> a == b
  {
    if a != "" && b != "" && a[0] == b[0] {
      LeqTotal(a[1..], b[1..]);
      assert a == [a[0]] + a[1..] && b == [b[0]] + b[1..];
    }
  }

  lemma {:induction false} LeqTransitive(a: string, b: string, c: string)
    requires Leq(a, b) && Leq(b, c)
    ensures Leq(a, c)
  {
    if a != "" && a[0] == b[0] && b[0] == c[0] { LeqTransitive(a[1..], b[1..], c[1..]); }
  }

  function Insert(x: string, xs: seq<string>): seq<string> {
    if xs == [] || Leq(x, xs[0]) then [x] + xs else [xs[0]] + Insert(x, xs[1..])
  }

  /** The outcome of `actions.sort()`. */
  function Sort(xs: seq<string>): seq<string> {
    if xs == [] then [] else Insert(xs[0], Sort(xs[1..]))
  }

  ghost predicate Sorted(xs: seq<string>) {
    forall i, j :: 0 <= i < j < |xs| ==> Leq(xs[i], xs[j])
  }

  lemma {:induction false} InsertAdds(x: string, xs: seq<string>)
    ensures multiset(Insert(x, xs)) == multiset(xs) + multiset{x}
  {
    if xs != [] {
      assert xs == [xs[0]] + xs[1..];
      InsertAdds(x, xs[1..]);
    }
  }

  lemma {:induction false} InsertSorted(x: string, xs: seq<string>)
    requires Sorted(xs)
    ensures Sorted(Insert(x, xs))
  {
    if xs == [] {
    } else if Leq(x, xs[0]) {
      forall j | 0 <= j < |xs| ensures Leq(x, xs[j]) {
        LeqTotal(xs[0], xs[0]);
        LeqTransitive(x, xs[0], xs[j]);
      }
    } else {
      var rest := Insert(x, xs[1..]);
      InsertSorted(x, xs[1..]);
      InsertAdds(x, xs[1..]);
      LeqTotal(x, xs[0]);
      forall j | 0 <= j < |rest| ensures Leq(xs[0], rest[j]) {
        assert rest[j] in multiset(rest);
        assert rest[j] in xs[1..] || rest[j] == x;
      }
    }
  }

  lemma {:induction false} SortSorts(xs: seq<string>)
    ensures Sorted(Sort(xs)) && multiset(Sort(xs)) == multiset(xs) && |Sort(xs)| == |xs|
  {
    if xs != [] {
      SortSorts(xs[1..]);
      InsertSorted(xs[0], Sort(xs[1..]));
      InsertAdds(xs[0], Sort(xs[1..]));
      assert xs == [xs[0]] + xs[1..];
    }
    assert |multiset(Sort(xs))| == |Sort(xs)|;
    assert |multiset(xs)| == |xs|;
  }

  lemma SortedHead(a: seq<string>, x: string)
    requires Sorted(a) && x in a
    ensures Leq(a[0], x)
  {
    LeqTotal(a[0], a[0]);
  }

  lemma {:induction false} SortedUnique(a: seq<string>, b: seq<string>)
    requires Sorted(a) && Sorted(b) && multiset(a) == multiset(b)
    ensures a == b
  {
    assert |multiset(a)| == |a| && |multiset(b)| == |b|;
    if a != [] {
      assert a[0] in multiset(b) && b[0] in multiset(a);
      SortedHead(a, b[0]);
      SortedHead(b, a[0]);
      LeqTotal(a[0], b[0]);
      MultisetTail(a);
      MultisetTail(b);
      SortedUnique(a[1..], b[1..]);
      assert a == [a[0]] + a[1..] && b == [b[0]] + b[1..];
    }
  }

  lemma MultisetTail(a: seq<string>)
    requires a != []
    ensures multiset(a[1..]) == multiset(a) - multiset{a[0]}
  {
    assert a == [a[0]] + a[1..];
  }

  /** Sorting is canonical: two lists sort alike exactly when one is a permutation of the other. */
  lemma SortCanonical(a: seq<string>, b: seq<string>)
    ensures Sort(a) == Sort(b) <==> multiset(a) == multiset(b)
    ensures Sort(Sort(a)) == Sort(a)
  {
    SortSorts(a);
    SortSorts(b);
    SortSorts(Sort(a));
    SortedUnique(Sort(Sort(a)), Sort(a));
    if multiset(a) == multiset(b) { SortedUnique(Sort(a), Sort(b)); }
  }

  // ------------------------------------------------------------- the key

  function Join(xs: seq<string>): string {
    if xs == [] then "" else if |xs| == 1 then xs[0] else xs[0] + "," + Join(xs[1..])
  }

  function Key(p: Permission): string {
    p.resource + "-" + Join(Sort(p.actions))
  }

  /** Resource names without '-' and non-empty action names without ',', as the schema's enumerations are. */
  ghost predicate PlainName(a: string) {
    a != "" && ',' !in a
  }

  ghost predicate Plain(p: Permission) {
    '-' !in p.resource && forall i :: 0 <= i < |p.actions| ==> PlainName(p.actions[i])
  }

  const RESOURCES: seq<string> := ["users", "tenants", "landlords", "admins", "security", "properties",
                                   "maintenance", "finances", "reports", "settings", "permissions"]
  const ACTIONS: seq<string> := ["create", "read", "update", "delete", "manage", "approve", "assign"]

  lemma ResourcesHaveNoDash()
    ensures forall i :: 0 <= i < |RESOURCES| ==> '-' !in RESOURCES[i]
  {
  }

  lemma ActionsArePlain()
    ensures forall i :: 0 <= i < |ACTIONS| ==> PlainName(ACTIONS[i])
  {
  }

  /** Every permission that the schema's enumerations allow has plain names. */
  lemma SchemaNamesArePlain(p: Permission)
    requires p.resource in RESOURCES && forall i :: 0 <= i < |p.actions| ==> p.actions[i] in ACTIONS
    ensures Plain(p)
  {
    ResourcesHaveNoDash();
    ActionsArePlain();
    forall i | 0 <= i < |p.actions| ensures PlainName(p.actions[i]) {
      assert p.actions[i] in ACTIONS;
    }
  }

  lemma FirstSeparator(a: string, x: string, b: string, y: string, sep: char)
    requires sep !in a && sep !in b
    requires a + [sep] + x == b + [sep] + y
    ensures a == b && x == y
  {
    var s, t := a + [sep] + x, b + [sep] + y;
    assert s[|a|] == sep && t[|b|] == sep;
    forall i | 0 <= i < |a| ensures s[i] != sep { assert s[i] == a[i] && a[i] in a; }
    forall i | 0 <= i < |b| ensures t[i] != sep { assert t[i] == b[i] && b[i] in b; }
    assert |a| == |b|;
    assert a == s[..|a|] && b == t[..|b|];
    assert x == s[|a| + 1..] && y == t[|b| + 1..];
  }

  lemma JoinShape(xs: seq<string>)
    requires forall i :: 0 <= i < |xs| ==> PlainName(xs[i])
    ensures Join(xs) == "" <==> xs == []
    ensures ',' in Join(xs) <==> |xs| > 1
  {
    if |xs| > 0 { assert PlainName(xs[0]); }
    if |xs| > 1 { assert Join(xs)[|xs[0]|] == ','; }
  }

  lemma {:induction false} JoinInjective(a: seq<string>, b: seq<string>)
    requires forall i :: 0 <= i < |a| ==> PlainName(a[i])
    requires forall i :: 0 <= i < |b| ==> PlainName(b[i])
    requires Join(a) == Join(b)
    ensures a == b
  {
    JoinShape(a);
    JoinShape(b);
    if |a| > 1 {
      assert PlainName(a[0]) && PlainName(b[0]);
      FirstSeparator(a[0], Join(a[1..]), b[0], Join(b[1..]), ',');
      JoinInjective(a[1..], b[1..]);
      assert a == [a[0]] + a[1..] && b == [b[0]] + b[1..];
    }
  }

  lemma SortPlain(p: Permission)
    requires Plain(p)
    ensures forall i :: 0 <= i < |Sort(p.actions)| ==> PlainName(Sort(p.actions)[i])
  {
    SortSorts(p.actions);
    forall i | 0 <= i < |Sort(p.actions)| ensures PlainName(Sort(p.actions)[i]) {
      assert Sort(p.actions)[i] in multiset(p.actions);
    }
  }

  /** The key is canonical: it identifies resource and actions up to their order, and nothing less. */
  lemma KeyCanonical(p: Permission, q: Permission)
    requires Plain(p) && Plain(q)
    ensures Key(p) == Key(q) <==> p.resource == q.resource && multiset(p.actions) == multiset(q.actions)
  {
    SortCanonical(p.actions, q.actions);
    if Key(p) == Key(q) {
      SortPlain(p);
      SortPlain(q);
      FirstSeparator(p.resource, Join(Sort(p.actions)), q.resource, Join(Sort(q.actions)), '-');
      JoinInjective(Sort(p.actions), Sort(q.actions));
    }
  }

  /** Outside those names it is not: one action "a,b" and the two actions "a" and "b" collide. */
  lemma KeyCollision()
    ensures var p, q := Permission("r", ["a,b"], []), Permission("r", ["a", "b"], []);
            Key(p) == Key(q) && multiset(p.actions) != multiset(q.actions)
  {
    assert Sort(["a,b"]) == ["a,b"] by { assert ["a,b"][1..] == []; }
    assert Sort(["a", "b"]) == ["a", "b"] by {
      assert ["a", "b"][1..] == ["b"] && ["b"][1..] == [];
      assert Leq("a", "b");
    }
    assert Join(["a", "b"]) == "a,b" by { assert ["a", "b"][1..] == ["b"]; }
    assert "a,b" in multiset(["a,b"]) && "a,b" !in multiset(["a", "b"]);
  }
}
