/** The soft-delete plugin: deleted documents stay in the collection behind a flag, and query hooks
    hide them. Proved to be indistinguishable from a collection that removes them. */
module SoftDelete {
  import opened Wrappers

  /** Field values; references and dates are texts and numbers. */
  datatype Value = Null | Truth(bool) | Number(int) | Text(string) | List(seq<Value>)

  type Fields = map<string, Value>

  datatype Doc = Doc(fields: Fields, isDeleted: bool, deletedAt: Option<nat>)

  /** What a filter asks of the fields, whatever operators it is written with, and the value it
      requires of isDeleted, if it mentions it. */
  datatype Filter = Filter(wanted: Fields -> bool, deleted: Option<bool>)

  /** What an update does to the fields. */
  type Patch = Fields -> Fields

  /** A filter after the hook: silent about isDeleted means `isDeleted: {$ne: true}`. */
  predicate Matches(d: Doc, f: Filter) {
    f.wanted(d.fields) && (if f.deleted.None? then !d.isDeleted else d.isDeleted == f.deleted.value)
  }

  const ALL_LIVE := Filter((d: Fields) => true, None)
  const ALL_DELETED := Filter((d: Fields) => true, Some(true))

  datatype Op =
    | Find(filter: Filter)
    | FindOne(filter: Filter)
    | FindOneAndUpdate(filter: Filter, patch: Patch)
    | UpdateMany(filter: Filter, patch: Patch)
    | UpdateOne(filter: Filter, patch: Patch)
    | CountDocuments(filter: Filter)
    | Aggregate(pipeline: seq<Fields> -> seq<Fields>)
    | Insert(fields: Fields)
    | Delete(filter: Filter, at: nat)
    | Restore(filter: Filter)

  datatype Answer = Docs(docs: seq<Fields>) | One(doc: Option<Fields>) | Matched(n: nat) | Saved

  // ------------------------------------------------------------- the collection with flags

  function Select(ds: seq<Doc>, f: Filter): seq<Fields> {
    if ds == [] then []
    else if Matches(ds[0], f) then [ds[0].fields] + Select(ds[1..], f)
    else Select(ds[1..], f)
  }

  function Update(ds: seq<Doc>, f: Filter, patch: Patch): seq<Doc> {
    if ds == [] then []
    else [if Matches(ds[0], f) then ds[0].(fields := patch(ds[0].fields)) else ds[0]] + Update(ds[1..], f, patch)
  }

  function UpdateFirst(ds: seq<Doc>, f: Filter, patch: Patch): seq<Doc> {
    if ds == [] then []
    else if Matches(ds[0], f) then [ds[0].(fields := patch(ds[0].fields))] + ds[1..]
    else [ds[0]] + UpdateFirst(ds[1..], f, patch)
  }

  /** updateMany with the two flag fields. */
  function Flag(ds: seq<Doc>, f: Filter, isDeleted: bool, at: Option<nat>): seq<Doc> {
    if ds == [] then []
    else [if Matches(ds[0], f) then ds[0].(isDeleted := isDeleted, deletedAt := at) else ds[0]]
         + Flag(ds[1..], f, isDeleted, at)
  }

  function First(found: seq<Fields>): Option<Fields> {
    if found == [] then None else Some(found[0])
  }

  function Patched(d: Option<Fields>, patch: Patch): Option<Fields> {
    if d.None? then None else Some(patch(d.value))
  }

  function Soft(ds: seq<Doc>, op: Op): (seq<Doc>, Answer) {
    match op
    case Find(f) => (ds, Docs(Select(ds, f)))
    case FindOne(f) => (ds, One(First(Select(ds, f))))
    case FindOneAndUpdate(f, patch) => (UpdateFirst(ds, f, patch), One(Patched(First(Select(ds, f)), patch)))
    case UpdateMany(f, patch) => (Update(ds, f, patch), Matched(|Select(ds, f)|))
    case UpdateOne(f, patch) => (UpdateFirst(ds, f, patch), Matched(if Select(ds, f) == [] then 0 else 1))
    case CountDocuments(f) => (ds, Matched(|Select(ds, f)|))
    case Aggregate(pipeline) => (ds, Docs(pipeline(Select(ds, ALL_LIVE))))
    case Insert(fields) => (ds + [Doc(fields, false, None)], Saved)
    case Delete(f, at) => (Flag(ds, f, true, Some(at)), Matched(|Select(ds, f)|))
    case Restore(f) => (Flag(ds, f, false, None), Matched(|Select(ds, f)|))
  }

  // ------------------------------------------------------------- the collection that removes

  function HardSelect(ds: seq<Fields>, wanted: Fields -> bool): seq<Fields> {
    if ds == [] then []
    else if wanted(ds[0]) then [ds[0]] + HardSelect(ds[1..], wanted)
    else HardSelect(ds[1..], wanted)
  }

  function HardUpdate(ds: seq<Fields>, wanted: Fields -> bool, patch: Patch): seq<Fields> {
    if ds == [] then []
    else [if wanted(ds[0]) then patch(ds[0]) else ds[0]] + HardUpdate(ds[1..], wanted, patch)
  }

  function HardUpdateFirst(ds: seq<Fields>, wanted: Fields -> bool, patch: Patch): seq<Fields> {
    if ds == [] then []
    else if wanted(ds[0]) then [patch(ds[0])] + ds[1..]
    else [ds[0]] + HardUpdateFirst(ds[1..], wanted, patch)
  }

  function HardRemove(ds: seq<Fields>, wanted: Fields -> bool): seq<Fields> {
    if ds == [] then []
    else if wanted(ds[0]) then HardRemove(ds[1..], wanted)
    else [ds[0]] + HardRemove(ds[1..], wanted)
  }

  function Hard(ds: seq<Fields>, op: Op): (seq<Fields>, Answer) {
    match op
    case Find(f) => (ds, Docs(HardSelect(ds, f.wanted)))
    case FindOne(f) => (ds, One(First(HardSelect(ds, f.wanted))))
    case FindOneAndUpdate(f, patch) =>
      (HardUpdateFirst(ds, f.wanted, patch), One(Patched(First(HardSelect(ds, f.wanted)), patch)))
    case UpdateMany(f, patch) => (HardUpdate(ds, f.wanted, patch), Matched(|HardSelect(ds, f.wanted)|))
    case UpdateOne(f, patch) =>
      (HardUpdateFirst(ds, f.wanted, patch), Matched(if HardSelect(ds, f.wanted) == [] then 0 else 1))
    case CountDocuments(f) => (ds, Matched(|HardSelect(ds, f.wanted)|))
    case Aggregate(pipeline) => (ds, Docs(pipeline(ds)))
    case Insert(fields) => (ds + [fields], Saved)
    case Delete(f, at) => (HardRemove(ds, f.wanted), Matched(|HardSelect(ds, f.wanted)|))
    case Restore(f) => (ds, Matched(|HardSelect(ds, f.wanted)|))
  }

  // ------------------------------------------------------------- the refinement

  /** What a caller can see. */
  function Live(ds: seq<Doc>): seq<Fields> {
    if ds == [] then []
    else if ds[0].isDeleted then Live(ds[1..])
    else [ds[0].fields] + Live(ds[1..])
  }

  predicate Silent(op: Op) {
    op.Insert? || op.Aggregate? || op.filter.deleted.None?
  }

  lemma LiveCons(d: Doc, ds: seq<Doc>)
    ensures Live([d] + ds) == (if d.isDeleted then [] else [d.fields]) + Live(ds)
  {
    assert ([d] + ds)[1..] == ds;
  }

  lemma {:induction false} LiveAppend(ds: seq<Doc>, d: Doc)
    ensures Live(ds + [d]) == Live(ds) + (if d.isDeleted then [] else [d.fields])
  {
    if ds == [] {
      assert ds + [d] == [d] + ds;
      LiveCons(d, []);
    } else {
      LiveAppend(ds[1..], d);
      assert ds + [d] == [ds[0]] + (ds[1..] + [d]);
      LiveCons(ds[0], ds[1..] + [d]);
    }
  }

  lemma {:induction false} SelectLive(ds: seq<Doc>, f: Filter)
    requires f.deleted.None?
    ensures Select(ds, f) == HardSelect(Live(ds), f.wanted)
  {
    if ds != [] {
      SelectLive(ds[1..], f);
      if !ds[0].isDeleted { assert Live(ds)[1..] == Live(ds[1..]); }
    }
  }

  lemma {:induction false} UpdateLive(ds: seq<Doc>, f: Filter, patch: Patch)
    requires f.deleted.None?
    ensures Live(Update(ds, f, patch)) == HardUpdate(Live(ds), f.wanted, patch)
  {
    if ds != [] {
      UpdateLive(ds[1..], f, patch);
      assert Update(ds, f, patch)[1..] == Update(ds[1..], f, patch);
      if !ds[0].isDeleted { assert Live(ds)[1..] == Live(ds[1..]); }
    }
  }

  lemma {:induction false} UpdateFirstLive(ds: seq<Doc>, f: Filter, patch: Patch)
    requires f.deleted.None?
    ensures Live(UpdateFirst(ds, f, patch)) == HardUpdateFirst(Live(ds), f.wanted, patch)
  {
    if ds != [] {
      UpdateFirstLive(ds[1..], f, patch);
      assert Matches(ds[0], f) ==> UpdateFirst(ds, f, patch)[1..] == ds[1..];
      assert !Matches(ds[0], f) ==> UpdateFirst(ds, f, patch)[1..] == UpdateFirst(ds[1..], f, patch);
      if !ds[0].isDeleted { assert Live(ds)[1..] == Live(ds[1..]); }
    }
  }

  lemma {:induction false} DeleteLive(ds: seq<Doc>, f: Filter, at: nat)
    requires f.deleted.None?
    ensures Live(Flag(ds, f, true, Some(at))) == HardRemove(Live(ds), f.wanted)
  {
    if ds != [] {
      DeleteLive(ds[1..], f, at);
      assert Flag(ds, f, true, Some(at))[1..] == Flag(ds[1..], f, true, Some(at));
      if !ds[0].isDeleted { assert Live(ds)[1..] == Live(ds[1..]); }
    }
  }

  lemma {:induction false} RestoreLive(ds: seq<Doc>, f: Filter)
    requires f.deleted.None?
    ensures Live(Flag(ds, f, false, None)) == Live(ds)
  {
    if ds != [] {
      RestoreLive(ds[1..], f);
      assert Flag(ds, f, false, None)[1..] == Flag(ds[1..], f, false, None);
    }
  }

  lemma {:induction false} SelectEverything(ds: seq<Fields>)
    ensures HardSelect(ds, ALL_LIVE.wanted) == ds
  {
    if ds != [] { SelectEverything(ds[1..]); }
  }

  /** A collection that removes documents has nothing to restore: there, a restore only counts. */
  lemma StepRefines(ds: seq<Doc>, op: Op)
    requires Silent(op)
    ensures Soft(ds, op).1 == Hard(Live(ds), op).1
    ensures Live(Soft(ds, op).0) == Hard(Live(ds), op).0
  {
    match op
    case Find(f) => SelectLive(ds, f);
    case FindOne(f) => SelectLive(ds, f);
    case FindOneAndUpdate(f, patch) => SelectLive(ds, f); UpdateFirstLive(ds, f, patch);
    case UpdateMany(f, patch) => SelectLive(ds, f); UpdateLive(ds, f, patch);
    case UpdateOne(f, patch) => SelectLive(ds, f); UpdateFirstLive(ds, f, patch);
    case CountDocuments(f) => SelectLive(ds, f);
    case Aggregate(pipeline) => SelectLive(ds, ALL_LIVE); SelectEverything(Live(ds));
    case Insert(fields) => LiveAppend(ds, Doc(fields, false, None));
    case Delete(f, at) => SelectLive(ds, f); DeleteLive(ds, f, at);
    case Restore(f) => SelectLive(ds, f); RestoreLive(ds, f);
  }

  function SoftRun(ds: seq<Doc>, ops: seq<Op>): (seq<Doc>, seq<Answer>) {
    if ops == [] then (ds, [])
    else
      var (mid, answers) := SoftRun(ds, ops[..|ops| - 1]);
      var (end, answer) := Soft(mid, ops[|ops| - 1]);
      (end, answers + [answer])
  }

  function HardRun(ds: seq<Fields>, ops: seq<Op>): (seq<Fields>, seq<Answer>) {
    if ops == [] then (ds, [])
    else
      var (mid, answers) := HardRun(ds, ops[..|ops| - 1]);
      var (end, answer) := Hard(mid, ops[|ops| - 1]);
      (end, answers + [answer])
  }

  /** Any sequence of operations whose filters are silent about isDeleted gets, answer by answer, what
      a collection that really removes documents would give. */
  lemma {:induction false} SoftDeleteRefinesRemoval(ds: seq<Doc>, ops: seq<Op>)
    requires forall i :: 0 <= i < |ops| ==> Silent(ops[i])
    ensures SoftRun(ds, ops).1 == HardRun(Live(ds), ops).1
    ensures Live(SoftRun(ds, ops).0) == HardRun(Live(ds), ops).0
  {
    if ops != [] {
      SoftDeleteRefinesRemoval(ds, ops[..|ops| - 1]);
      StepRefines(SoftRun(ds, ops[..|ops| - 1]).0, ops[|ops| - 1]);
    }
  }

  // ------------------------------------------------------------- the operations one by one

  /** The documents an operation is about: without a word on isDeleted, those not deleted. */
  ghost predicate Concerns(f: Filter, d: Doc) {
    && f.wanted(d.fields)
    && (f.deleted.None? ==> !d.isDeleted)
    && (f.deleted == Some(true) ==> d.isDeleted)
    && (f.deleted == Some(false) ==> !d.isDeleted)
  }

  /** The first of them. */
  ghost predicate FirstConcerned(ds: seq<Doc>, f: Filter, i: nat) {
    i < |ds| && Concerns(f, ds[i]) && forall j :: 0 <= j < i ==> !Concerns(f, ds[j])
  }

  lemma {:induction false} FirstSelected(ds: seq<Doc>, f: Filter)
    ensures Select(ds, f) == [] <==> forall i :: 0 <= i < |ds| ==> !Concerns(f, ds[i])
    ensures forall i: nat :: FirstConcerned(ds, f, i) ==> Select(ds, f) != [] && Select(ds, f)[0] == ds[i].fields
  {
    if ds != [] {
      FirstSelected(ds[1..], f);
      if !Concerns(f, ds[0]) {
        forall i: nat | FirstConcerned(ds, f, i) ensures i > 0 && FirstConcerned(ds[1..], f, i - 1) {}
      }
    }
  }

  /** findOne gives the first document concerned; findOneAndUpdate updates that one and gives it as
      updated; without one both give nothing and change nothing. */
  lemma FindOneExactly(ds: seq<Doc>, f: Filter, patch: Patch)
    ensures forall i: nat :: FirstConcerned(ds, f, i) ==>
              && Soft(ds, FindOne(f)) == (ds, One(Some(ds[i].fields)))
              && Soft(ds, FindOneAndUpdate(f, patch))
                   == (ds[i := ds[i].(fields := patch(ds[i].fields))], One(Some(patch(ds[i].fields))))
              && Soft(ds, UpdateOne(f, patch)) == (ds[i := ds[i].(fields := patch(ds[i].fields))], Matched(1))
    ensures (forall i :: 0 <= i < |ds| ==> !Concerns(f, ds[i])) ==>
              && Soft(ds, FindOne(f)) == (ds, One(None))
              && Soft(ds, FindOneAndUpdate(f, patch)) == (ds, One(None))
              && Soft(ds, UpdateOne(f, patch)) == (ds, Matched(0))
  {
    FirstSelected(ds, f);
    forall i: nat | FirstConcerned(ds, f, i) { FirstUpdated(ds, f, patch, i); }
    if forall i :: 0 <= i < |ds| ==> !Concerns(f, ds[i]) { NoneUpdated(ds, f, patch); }
  }

  lemma {:induction false} FirstUpdated(ds: seq<Doc>, f: Filter, patch: Patch, i: nat)
    requires FirstConcerned(ds, f, i)
    ensures UpdateFirst(ds, f, patch) == ds[i := ds[i].(fields := patch(ds[i].fields))]
  {
    if i > 0 {
      assert FirstConcerned(ds[1..], f, i - 1);
      FirstUpdated(ds[1..], f, patch, i - 1);
      assert !Matches(ds[0], f);
    }
  }

  lemma {:induction false} NoneUpdated(ds: seq<Doc>, f: Filter, patch: Patch)
    requires forall i :: 0 <= i < |ds| ==> !Concerns(f, ds[i])
    ensures UpdateFirst(ds, f, patch) == ds
  {
    if ds != [] {
      NoneUpdated(ds[1..], f, patch);
      assert !Matches(ds[0], f);
    }
  }

  /** find gives the documents concerned, each once and in order; updateMany, softDelete, restore and
      countDocuments count them. */
  lemma {:induction false} SelectExactly(ds: seq<Doc>, f: Filter) returns (js: seq<nat>)
    ensures |js| == |Select(ds, f)|
    ensures forall i :: 0 <= i < |js| ==> js[i] < |ds| && Concerns(f, ds[js[i]]) && Select(ds, f)[i] == ds[js[i]].fields
    ensures forall i, j :: 0 <= i < j < |js| ==> js[i] < js[j]
    ensures forall j: nat :: j < |ds| && Concerns(f, ds[j]) ==> j in js
  {
    if ds == [] { return []; }
    var front, d := ds[..|ds| - 1], ds[|ds| - 1];
    js := SelectExactly(front, f);
    SelectSnoc(front, d, f);
    assert ds == front + [d];
    if Concerns(f, d) { js := js + [|ds| - 1]; }
  }

  lemma {:induction false} SelectSnoc(ds: seq<Doc>, d: Doc, f: Filter)
    ensures Select(ds + [d], f) == Select(ds, f) + (if Concerns(f, d) then [d.fields] else [])
  {
    if ds == [] {
      assert ds + [d] == [d] && [d][1..] == [];
    } else {
      SelectSnoc(ds[1..], d, f);
      assert (ds + [d])[1..] == ds[1..] + [d];
    }
  }

  /** updateMany updates, softDelete dates and hides, and restore uncovers exactly the documents
      concerned. */
  lemma {:induction false} ManyExactly(ds: seq<Doc>, f: Filter, patch: Patch, at: nat, i: nat)
    requires i < |ds|
    ensures |Update(ds, f, patch)| == |Flag(ds, f, true, Some(at))| == |Flag(ds, f, false, None)| == |ds|
    ensures Soft(ds, UpdateMany(f, patch)).0[i]
         == if Concerns(f, ds[i]) then ds[i].(fields := patch(ds[i].fields)) else ds[i]
    ensures Soft(ds, Delete(f, at)).0[i]
         == if Concerns(f, ds[i]) then ds[i].(isDeleted := true, deletedAt := Some(at)) else ds[i]
    ensures Soft(ds, Restore(f)).0[i]
         == if Concerns(f, ds[i]) then ds[i].(isDeleted := false, deletedAt := None) else ds[i]
  {
    Lengths(ds, f, patch, at);
    if i > 0 {
      Lengths(ds[1..], f, patch, at);
      ManyExactly(ds[1..], f, patch, at, i - 1);
    }
  }

  lemma {:induction false} Lengths(ds: seq<Doc>, f: Filter, patch: Patch, at: nat)
    ensures |Update(ds, f, patch)| == |Flag(ds, f, true, Some(at))| == |Flag(ds, f, false, None)| == |ds|
  {
    if ds != [] { Lengths(ds[1..], f, patch, at); }
  }

  // ------------------------------------------------------------- restore

  function Restored(ds: seq<Doc>, f: Filter): seq<Doc> {
    Soft(ds, Restore(f)).0
  }

  /** Dates are kept on deleted documents only. */
  ghost predicate Dated(ds: seq<Doc>) {
    forall i :: 0 <= i < |ds| ==> (ds[i].isDeleted <==> ds[i].deletedAt.Some?)
  }

  lemma {:induction false} FlagAt(ds: seq<Doc>, f: Filter, isDeleted: bool, at: Option<nat>)
    ensures |Flag(ds, f, isDeleted, at)| == |ds|
    ensures forall i :: 0 <= i < |ds| ==>
              Flag(ds, f, isDeleted, at)[i] == if Matches(ds[i], f) then ds[i].(isDeleted := isDeleted, deletedAt := at) else ds[i]
  {
    if ds != [] { FlagAt(ds[1..], f, isDeleted, at); }
  }

  lemma {:induction false} UpdateDated(ds: seq<Doc>, f: Filter, patch: Patch)
    requires Dated(ds)
    ensures Dated(Update(ds, f, patch)) && Dated(UpdateFirst(ds, f, patch))
  {
    if ds != [] { UpdateDated(ds[1..], f, patch); }
  }

  lemma DatedKept(ds: seq<Doc>, op: Op)
    requires Dated(ds)
    ensures Dated(Soft(ds, op).0)
  {
    match op
    case FindOneAndUpdate(f, patch) => UpdateDated(ds, f, patch);
    case UpdateMany(f, patch) => UpdateDated(ds, f, patch);
    case UpdateOne(f, patch) => UpdateDated(ds, f, patch);
    case Delete(f, at) => FlagAt(ds, f, true, Some(at));
    case Restore(f) => FlagAt(ds, f, false, None);
    case _ =>
  }

  /** In every collection that operations can lead to, with any filters and restores included, exactly
      the deleted documents carry a date. */
  lemma {:induction false} AlwaysDated(ops: seq<Op>)
    ensures Dated(SoftRun([], ops).0)
  {
    if ops != [] {
      AlwaysDated(ops[..|ops| - 1]);
      DatedKept(SoftRun([], ops[..|ops| - 1]).0, ops[|ops| - 1]);
    }
  }

  /** Restoring with a filter silent about isDeleted never changes what callers see, and in every run
      from the empty collection it changes nothing at all: the hook confines it to documents that are
      not deleted. */
  lemma SilentRestoreDoesNothing(ds: seq<Doc>, ops: seq<Op>, f: Filter)
    requires f.deleted.None?
    ensures Live(Restored(ds, f)) == Live(ds)
    ensures Restored(SoftRun([], ops).0, f) == SoftRun([], ops).0
  {
    RestoreLive(ds, f);
    AlwaysDated(ops);
    FlagAt(SoftRun([], ops).0, f, false, None);
  }

  /** Restoring with isDeleted: true brings back exactly the matching deleted documents. */
  lemma ExplicitRestore(ds: seq<Doc>, f: Filter)
    requires f.deleted == Some(true)
    ensures |Restored(ds, f)| == |ds|
    ensures forall i :: 0 <= i < |ds| ==>
              && Restored(ds, f)[i].fields == ds[i].fields
              && (!Restored(ds, f)[i].isDeleted <==> !ds[i].isDeleted || f.wanted(ds[i].fields))
  {
    FlagAt(ds, f, false, None);
  }

  lemma {:induction false} LiveLength(a: seq<Doc>, b: seq<Doc>)
    requires |a| == |b|
    requires forall i :: 0 <= i < |a| ==> a[i].fields == b[i].fields && (!a[i].isDeleted ==> !b[i].isDeleted)
    ensures |Live(a)| <= |Live(b)|
    ensures |Live(a)| == |Live(b)| ==> forall i :: 0 <= i < |a| ==> a[i].isDeleted == b[i].isDeleted
    ensures (forall i :: 0 <= i < |a| ==> a[i].isDeleted == b[i].isDeleted) ==> Live(a) == Live(b)
  {
    if a != [] { LiveLength(a[1..], b[1..]); }
  }

  /** Delete by some fields, then restore by the same fields, naming isDeleted. */
  function DeletedThenRestored(ds: seq<Doc>, wanted: Fields -> bool, at: nat): seq<Doc> {
    Restored(Soft(ds, Delete(Filter(wanted, None), at)).0, Filter(wanted, Some(true)))
  }

  predicate Revived(ds: seq<Doc>, end: seq<Doc>, wanted: Fields -> bool) {
    && |end| == |ds|
    && forall i :: 0 <= i < |ds| ==>
         && end[i].fields == ds[i].fields
         && end[i].isDeleted == (ds[i].isDeleted && !wanted(ds[i].fields))
  }

  lemma Revival(ds: seq<Doc>, end: seq<Doc>, wanted: Fields -> bool)
    requires Revived(ds, end, wanted)
    ensures Live(end) == Live(ds) <==> forall i :: 0 <= i < |ds| && ds[i].isDeleted ==> !wanted(ds[i].fields)
  {
    LiveLength(ds, end);
    if i :| 0 <= i < |ds| && ds[i].isDeleted && wanted(ds[i].fields) {
      assert ds[i].isDeleted != end[i].isDeleted;
    }
  }

  lemma DeletedThenRestoredAt(ds: seq<Doc>, wanted: Fields -> bool, at: nat)
    ensures Revived(ds, DeletedThenRestored(ds, wanted, at), wanted)
  {
    FlagAt(ds, Filter(wanted, None), true, Some(at));
    FlagAt(Flag(ds, Filter(wanted, None), true, Some(at)), Filter(wanted, Some(true)), false, None);
  }

  /** Deleting and restoring with the same fields is the identity on what callers see exactly when no
      document deleted earlier has those fields; otherwise those come back too. */
  lemma DeleteThenRestore(ds: seq<Doc>, wanted: Fields -> bool, at: nat)
    ensures Live(DeletedThenRestored(ds, wanted, at)) == Live(ds)
       <==> forall i :: 0 <= i < |ds| && ds[i].isDeleted ==> !wanted(ds[i].fields)
  {
    DeletedThenRestoredAt(ds, wanted, at);
    Revival(ds, DeletedThenRestored(ds, wanted, at), wanted);
  }

  // ------------------------------------------------------------- the plugin as code

  class SoftDeleteModel {
    var docs: seq<Doc>

    constructor ()
      ensures docs == [] && Dated(docs)
    {
      docs := [];
    }

    /** updateMany with the flag fields, behind the hook; returns matchedCount. */
    method FlagMany(f: Filter, isDeleted: bool, at: Option<nat>) returns (matched: nat)
      modifies this
      ensures docs == Flag(old(docs), f, isDeleted, at) && matched == |Select(old(docs), f)|
    {
      matched := 0;
      ghost var before := docs;
      FlagAt(before, f, isDeleted, at);
      for i := 0 to |docs|
        invariant |docs| == |before|
        invariant forall j :: 0 <= j < |docs| ==>
                    docs[j] == if j < i then Flag(before, f, isDeleted, at)[j] else before[j]
        invariant matched + |Select(before[i..], f)| == |Select(before, f)|
      {
        assert before[i..][1..] == before[i + 1..];
        if Matches(docs[i], f) {
          docs := docs[i := docs[i].(isDeleted := isDeleted, deletedAt := at)];
          matched := matched + 1;
        }
      }
    }

    method SoftDelete(f: Filter, now: nat) returns (matched: nat)
      modifies this
      ensures Soft(old(docs), Delete(f, now)) == (docs, Matched(matched))
      ensures |docs| == |old(docs)| && forall i :: 0 <= i < |docs| ==>
                docs[i] == var d := old(docs)[i];
                           if Concerns(f, d) then d.(isDeleted := true, deletedAt := Some(now)) else d
      ensures old(Dated(docs)) ==> Dated(docs)
    {
      DatedIf(docs, f, now);
      FlagAt(docs, f, true, Some(now));
      matched := FlagMany(f, true, Some(now));
    }

    method Restore(f: Filter) returns (matched: nat)
      modifies this
      ensures Soft(old(docs), Op.Restore(f)) == (docs, Matched(matched))
      ensures old(Dated(docs)) ==> Dated(docs)
      ensures old(Dated(docs)) && f.deleted.None? ==> docs == old(docs)
    {
      FlagAt(docs, f, false, None);
      matched := FlagMany(f, false, None);
    }

    method FindDeleted() returns (found: seq<Fields>)
      ensures found == Select(docs, ALL_DELETED)
      ensures |found| + |Live(docs)| == |docs|
    {
      found := [];
      for i := 0 to |docs|
        invariant found + Select(docs[i..], ALL_DELETED) == Select(docs, ALL_DELETED)
        invariant |found| + |Live(docs)| == i + |Live(docs[i..])|
      {
        assert docs[i..][1..] == docs[i + 1..];
        if docs[i].isDeleted { found := found + [docs[i].fields]; }
      }
      assert docs[|docs|..] == [];
    }
  }

  lemma DatedIf(ds: seq<Doc>, f: Filter, now: nat)
    ensures Dated(ds) ==> Dated(Flag(ds, f, true, Some(now)))
  {
    FlagAt(ds, f, true, Some(now));
  }
}
