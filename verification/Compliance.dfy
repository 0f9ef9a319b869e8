/** Outstanding levies of a user and the compliance report of an estate, derived from levies and payments. */
module Compliance {
  import opened Wrappers
  import opened Payments

  const DAY: nat := 86400000

  datatype Levy = Levy(estate: nat, amount: int, due: nat, graceDays: nat, active: bool, enforced: bool,
                       deleted: bool, roles: set<nat>)

  datatype Member = Member(estate: Option<nat>, role: nat, deleted: bool)

  datatype World = World(payments: seq<Payment>, levies: seq<Levy>, members: seq<Member>, now: nat)

  /** The query of getEnforcedLeviesForUser. */
  predicate Enforced(l: Levy, estate: nat, role: nat) {
    !l.deleted && l.active && l.enforced && l.estate == estate && role in l.roles
  }

  predicate Overdue(l: Levy, now: nat) {
    now > l.due + l.graceDays * DAY
  }

  predicate Present(w: World, u: nat) {
    u < |w.members| && !w.members[u].deleted
  }

  /** User u owes levy l now. A user that cannot be found owes nothing: the check fails open. */
  predicate Owes(w: World, u: nat, l: nat) {
    && Present(w, u) && w.members[u].estate.Some? && l < |w.levies|
    && Enforced(w.levies[l], w.members[u].estate.value, w.members[u].role)
    && !Paid(w.payments, u, l)
    && Overdue(w.levies[l], w.now)
  }

  /** What makes a levy owed: it is live, enforced, of the user's estate and role, not verified as paid,
      and its grace period, in days after the due date, is over. */
  lemma OwesExactly(w: World, u: nat, l: nat)
    ensures Owes(w, u, l)
       <==> && u < |w.members| && !w.members[u].deleted && l < |w.levies|
            && var levy := w.levies[l];
               && !levy.deleted && levy.active && levy.enforced
               && w.members[u].estate == Some(levy.estate) && w.members[u].role in levy.roles
               && (forall p :: p in w.payments ==> !(p.user == u && p.levy == l && p.status == Status.Verified))
               && w.now > levy.due + levy.graceDays * 86400000
  {
    UnpaidExactly(w.payments, u, l);
  }

  /** The owed levies among the first k. */
  function OutstandingUpTo(w: World, u: nat, k: nat): seq<nat> {
    if k == 0 then []
    else OutstandingUpTo(w, u, k - 1) + (if Owes(w, u, k - 1) then [k - 1] else [])
  }

  function Outstanding(w: World, u: nat): seq<nat> {
    OutstandingUpTo(w, u, |w.levies|)
  }

  function Amount(w: World, l: nat): int {
    if l < |w.levies| then w.levies[l].amount else 0
  }

  function Sum(w: World, ls: seq<nat>): int {
    if ls == [] then 0 else Sum(w, ls[..|ls| - 1]) + Amount(w, ls[|ls| - 1])
  }

  function Total(w: World, u: nat): int {
    Sum(w, Outstanding(w, u))
  }

  lemma {:induction false} OutstandingIsOwed(w: World, u: nat, k: nat)
    ensures forall l: nat :: l in OutstandingUpTo(w, u, k) <==> l < k && Owes(w, u, l)
    ensures forall i, j :: 0 <= i < j < |OutstandingUpTo(w, u, k)| ==>
              OutstandingUpTo(w, u, k)[i] < OutstandingUpTo(w, u, k)[j]
  {
    if k > 0 {
      OutstandingIsOwed(w, u, k - 1);
      var before := OutstandingUpTo(w, u, k - 1);
      forall i | 0 <= i < |before| ensures before[i] < k - 1 { assert before[i] in before; }
    }
  }

  lemma {:induction false} NothingOwed(w: World, u: nat, k: nat)
    requires forall l: nat :: !Owes(w, u, l)
    ensures OutstandingUpTo(w, u, k) == []
  {
    if k > 0 { NothingOwed(w, u, k - 1); }
  }

  lemma SumSnoc(w: World, ls: seq<nat>, l: nat)
    ensures Sum(w, ls + [l]) == Sum(w, ls) + Amount(w, l)
  {
    assert (ls + [l])[..|ls|] == ls;
  }

  lemma SumStep(w: World, u: nat, k: nat)
    ensures Sum(w, OutstandingUpTo(w, u, k + 1))
         == Sum(w, OutstandingUpTo(w, u, k)) + (if Owes(w, u, k) then Amount(w, k) else 0)
  {
    SumSnoc(w, OutstandingUpTo(w, u, k), k);
    assert OutstandingUpTo(w, u, k) + [] == OutstandingUpTo(w, u, k);
  }

  // ------------------------------------------------------------- the report of an estate

  datatype Detail = Detail(user: nat, isCompliant: bool, outstandingAmount: int, outstandingCount: nat)

  datatype Report = Report(totalUsers: nat, compliantUsers: nat, nonCompliantUsers: nat,
                           totalOutstanding: int, details: seq<Detail>)

  predicate InEstate(w: World, u: nat, estate: nat) {
    Present(w, u) && w.members[u].estate == Some(estate)
  }

  /** The users of an estate among the first k members. */
  function UsersUpTo(w: World, estate: nat, k: nat): seq<nat> {
    if k == 0 then []
    else UsersUpTo(w, estate, k - 1) + (if InEstate(w, k - 1, estate) then [k - 1] else [])
  }

  function Users(w: World, estate: nat): seq<nat> {
    UsersUpTo(w, estate, |w.members|)
  }

  function DetailOf(w: World, u: nat): Detail {
    Detail(u, Outstanding(w, u) == [], Total(w, u), |Outstanding(w, u)|)
  }

  /** The report after the loop has seen `us`. */
  function ReportOver(w: World, all: nat, us: seq<nat>): Report {
    if us == [] then Report(all, 0, 0, 0, [])
    else
      var r, u := ReportOver(w, all, us[..|us| - 1]), us[|us| - 1];
      var d := DetailOf(w, u);
      if d.isCompliant then r.(compliantUsers := r.compliantUsers + 1, details := r.details + [d])
      else r.(nonCompliantUsers := r.nonCompliantUsers + 1,
              totalOutstanding := r.totalOutstanding + d.outstandingAmount, details := r.details + [d])
  }

  function EstateReport(w: World, estate: nat): Report {
    ReportOver(w, |Users(w, estate)|, Users(w, estate))
  }

  function SumDetails(ds: seq<Detail>): int {
    if ds == [] then 0 else SumDetails(ds[..|ds| - 1]) + ds[|ds| - 1].outstandingAmount
  }

  function Compliants(ds: seq<Detail>): nat {
    if ds == [] then 0 else Compliants(ds[..|ds| - 1]) + (if ds[|ds| - 1].isCompliant then 1 else 0)
  }

  /** How many of the users owe levy l. */
  function Owing(w: World, us: seq<nat>, l: nat): nat {
    if us == [] then 0 else Owing(w, us[..|us| - 1], l) + (if Owes(w, us[|us| - 1], l) then 1 else 0)
  }

  /** For each of the first k levies, its amount once for every user owing it. */
  function SumByLevy(w: World, us: seq<nat>, k: nat): int {
    if k == 0 then 0 else SumByLevy(w, us, k - 1) + Amount(w, k - 1) * Owing(w, us, k - 1)
  }

  lemma {:induction false} SumByLevySnoc(w: World, us: seq<nat>, u: nat, k: nat)
    ensures SumByLevy(w, us + [u], k) == SumByLevy(w, us, k) + Sum(w, OutstandingUpTo(w, u, k))
  {
    if k > 0 {
      SumByLevySnoc(w, us, u, k - 1);
      assert (us + [u])[..|us|] == us;
      var a, n := Amount(w, k - 1), Owing(w, us, k - 1);
      assert a * (n + 1) == a * n + a;
      SumStep(w, u, k - 1);
    }
  }

  lemma {:induction false} SumByLevyNone(w: World, k: nat)
    ensures SumByLevy(w, [], k) == 0
  {
    if k > 0 { SumByLevyNone(w, k - 1); }
  }

  lemma {:induction false} ReportTotals(w: World, all: nat, us: seq<nat>)
    ensures var r := ReportOver(w, all, us);
            && r.totalUsers == all
            && r.compliantUsers + r.nonCompliantUsers == |us| == |r.details|
            && r.compliantUsers == Compliants(r.details)
            && (forall i :: 0 <= i < |us| ==> r.details[i] == DetailOf(w, us[i]))
            && r.totalOutstanding == SumDetails(r.details) == SumByLevy(w, us, |w.levies|)
  {
    if us == [] {
      SumByLevyNone(w, |w.levies|);
    } else {
      var front, u := us[..|us| - 1], us[|us| - 1];
      ReportTotals(w, all, front);
      DetailAdds(ReportOver(w, all, front).details, DetailOf(w, u));
      CompliantOwesNothing(w, u);
      assert us == front + [u];
      SumByLevySnoc(w, front, u, |w.levies|);
    }
  }

  lemma DetailAdds(ds: seq<Detail>, d: Detail)
    ensures Compliants(ds + [d]) == Compliants(ds) + (if d.isCompliant then 1 else 0)
    ensures SumDetails(ds + [d]) == SumDetails(ds) + d.outstandingAmount
  {
    assert (ds + [d])[..|ds|] == ds;
  }

  lemma CompliantOwesNothing(w: World, u: nat)
    ensures DetailOf(w, u).isCompliant ==> DetailOf(w, u).outstandingAmount == 0
  {
  }

  /** Counting twice: compliant and non-compliant users make up the users, one detail each; and the
      total outstanding is both the sum over users and the sum over levies of what is owed. */
  lemma ReportCountsTwice(w: World, estate: nat)
    ensures var r := EstateReport(w, estate);
            && r.compliantUsers + r.nonCompliantUsers == r.totalUsers == |r.details| == |Users(w, estate)|
            && r.totalOutstanding == SumDetails(r.details)
            && r.totalOutstanding == SumByLevy(w, Users(w, estate), |w.levies|)
            && (forall u: nat :: u in Users(w, estate)
                            <==> u < |w.members| && !w.members[u].deleted && w.members[u].estate == Some(estate))
            && r.compliantUsers == Compliants(r.details)
            && (forall i :: 0 <= i < |r.details| ==>
                  var d := r.details[i]; var owed := Outstanding(w, Users(w, estate)[i]);
                  && d.user == Users(w, estate)[i] && d.isCompliant == (owed == [])
                  && d.outstandingAmount == Sum(w, owed) && d.outstandingCount == |owed|)
  {
    ReportTotals(w, |Users(w, estate)|, Users(w, estate));
    UsersAreMembers(w, estate, |w.members|);
  }

  lemma {:induction false} UsersAreMembers(w: World, estate: nat, k: nat)
    ensures forall u: nat :: u in UsersUpTo(w, estate, k) <==> u < k && InEstate(w, u, estate)
    ensures forall i, j :: 0 <= i < j < |UsersUpTo(w, estate, k)| ==>
              UsersUpTo(w, estate, k)[i] < UsersUpTo(w, estate, k)[j]
  {
    if k > 0 {
      UsersAreMembers(w, estate, k - 1);
      var before := UsersUpTo(w, estate, k - 1);
      forall i | 0 <= i < |before| ensures before[i] < k - 1 { assert before[i] in before; }
    }
  }

  // ------------------------------------------------------------- what a payment command does to all this

  function After(w: World, c: Command): World {
    w.(payments := Apply(w.payments, c).0)
  }

  /** The levy a command settles for a user: verifying a pending payment settles its own. */
  predicate Settles(w: World, c: Command, u: nat, l: nat) {
    c.Verify? && c.id < |w.payments| && w.payments[c.id].status == Pending
    && w.payments[c.id].user == u && w.payments[c.id].levy == l
  }

  function Without(ls: seq<nat>, l: nat): seq<nat> {
    if ls == [] then [] else Without(ls[..|ls| - 1], l) + (if ls[|ls| - 1] == l then [] else [ls[|ls| - 1]])
  }

  lemma OwesAfter(w: World, c: Command, u: nat, m: nat)
    ensures Owes(After(w, c), u, m) <==> Owes(w, u, m) && !Settles(w, c, u, m)
  {
    PaidAfter(w.payments, c, u, m);
  }

  lemma {:induction false} OutstandingAfter(w: World, c: Command, u: nat, l: nat, k: nat)
    requires Settles(w, c, u, l)
    ensures OutstandingUpTo(After(w, c), u, k) == Without(OutstandingUpTo(w, u, k), l)
  {
    if k > 0 {
      OutstandingAfter(w, c, u, l, k - 1);
      OwesAfter(w, c, u, k - 1);
      var before := OutstandingUpTo(w, u, k - 1);
      assert (before + [k - 1])[..|before|] == before;
      assert before + [] == before;
    }
  }

  lemma SumsStep(w: World, c: Command, u: nat, k: nat)
    ensures Sum(w, OutstandingUpTo(w, u, k + 1))
         == Sum(w, OutstandingUpTo(w, u, k)) + (if Owes(w, u, k) then Amount(w, k) else 0)
    ensures Sum(After(w, c), OutstandingUpTo(After(w, c), u, k + 1))
         == Sum(After(w, c), OutstandingUpTo(After(w, c), u, k)) + (if Owes(After(w, c), u, k) then Amount(w, k) else 0)
  {
    SumStep(w, u, k);
    SumStep(After(w, c), u, k);
  }

  lemma {:induction false} SumAfter(w: World, c: Command, u: nat, l: nat, k: nat)
    requires Settles(w, c, u, l)
    ensures Sum(After(w, c), OutstandingUpTo(After(w, c), u, k))
         == Sum(w, OutstandingUpTo(w, u, k)) - (if l < k && Owes(w, u, l) then Amount(w, l) else 0)
  {
    if k > 0 {
      SumAfter(w, c, u, l, k - 1);
      OwesAfter(w, c, u, k - 1);
      SumsStep(w, c, u, k - 1);
    }
  }

  lemma {:induction false} OutstandingSame(w: World, c: Command, u: nat, k: nat)
    requires forall l: nat :: !Settles(w, c, u, l)
    ensures OutstandingUpTo(After(w, c), u, k) == OutstandingUpTo(w, u, k)
  {
    if k > 0 {
      OutstandingSame(w, c, u, k - 1);
      OwesAfter(w, c, u, k - 1);
    }
  }

  lemma {:induction false} SumSame(w: World, c: Command, ls: seq<nat>)
    ensures Sum(After(w, c), ls) == Sum(w, ls)
  {
    if ls != [] { SumSame(w, c, ls[..|ls| - 1]); }
  }

  /** Conservation: verifying a pending payment of user u for levy l takes exactly l off u's list and
      its amount, if it was owed, off u's total; nobody else's list or total changes. Every other
      command, the webhook included, changes nobody's. */
  lemma PaymentConservation(w: World, c: Command, v: nat)
    ensures (forall l: nat :: !Settles(w, c, v, l)) ==>
              Outstanding(After(w, c), v) == Outstanding(w, v) && Total(After(w, c), v) == Total(w, v)
    ensures forall l: nat :: Settles(w, c, v, l) ==>
              && Outstanding(After(w, c), v) == Without(Outstanding(w, v), l)
              && Total(After(w, c), v)
                   == Total(w, v) - (if l < |w.levies| && l in Outstanding(w, v) then w.levies[l].amount else 0)
  {
    if forall l: nat :: !Settles(w, c, v, l) {
      OutstandingSame(w, c, v, |w.levies|);
      SumSame(w, c, Outstanding(w, v));
    }
    forall l: nat | Settles(w, c, v, l)
      ensures Outstanding(After(w, c), v) == Without(Outstanding(w, v), l)
      ensures Total(After(w, c), v) == Total(w, v) - (if l in Outstanding(w, v) then Amount(w, l) else 0)
    {
      OutstandingAfter(w, c, v, l, |w.levies|);
      SumAfter(w, c, v, l, |w.levies|);
      OutstandingIsOwed(w, v, |w.levies|);
    }
  }

  lemma {:induction false} UsersSame(w: World, c: Command, estate: nat, k: nat)
    ensures UsersUpTo(After(w, c), estate, k) == UsersUpTo(w, estate, k)
  {
    if k > 0 { UsersSame(w, c, estate, k - 1); }
  }

  lemma {:induction false} EstateTotalAfter(w: World, c: Command, us: seq<nat>, u: nat, l: nat, all: nat)
    requires Settles(w, c, u, l)
    requires forall i, j :: 0 <= i < j < |us| ==> us[i] != us[j]
    ensures ReportOver(After(w, c), all, us).totalOutstanding
         == ReportOver(w, all, us).totalOutstanding - (if u in us && l in Outstanding(w, u) then Amount(w, l) else 0)
  {
    if us != [] {
      var front, v := us[..|us| - 1], us[|us| - 1];
      EstateTotalAfter(w, c, front, u, l, all);
      PaymentConservation(w, c, v);
      assert v == u ==> Settles(w, c, v, l);
      assert v != u ==> forall m: nat :: !Settles(w, c, v, m);
    }
  }

  /** The estate's total falls by the amount of the settled levy if its user lives there and owed it. */
  lemma EstateConservation(w: World, c: Command, u: nat, l: nat, estate: nat)
    requires Settles(w, c, u, l)
    ensures EstateReport(After(w, c), estate).totalOutstanding
         == EstateReport(w, estate).totalOutstanding
            - (if l < |w.levies| && InEstate(w, u, estate) && l in Outstanding(w, u) then w.levies[l].amount else 0)
  {
    OutstandingIsOwed(w, u, |w.levies|);
    UsersSame(w, c, estate, |w.members|);
    UsersAreMembers(w, estate, |w.members|);
    EstateTotalAfter(w, c, Users(w, estate), u, l, |Users(w, estate)|);
  }

  // ------------------------------------------------------------- over a run of commands

  function AfterAll(w: World, cs: seq<Command>): World {
    w.(payments := Run(w.payments, cs))
  }

  /** What one command takes off the estate's total: the amount of the levy it settles, if its user
      lives there and owed it. */
  function Settled(w: World, c: Command, estate: nat): int {
    if c.Verify? && c.id < |w.payments| && w.payments[c.id].status == Pending
       && InEstate(w, w.payments[c.id].user, estate)
       && w.payments[c.id].levy in Outstanding(w, w.payments[c.id].user)
    then Amount(w, w.payments[c.id].levy) else 0
  }

  function AllSettled(w: World, cs: seq<Command>, estate: nat): int {
    if cs == [] then 0
    else AllSettled(w, cs[..|cs| - 1], estate) + Settled(AfterAll(w, cs[..|cs| - 1]), cs[|cs| - 1], estate)
  }

  lemma {:induction false} EstateTotalSame(w: World, c: Command, us: seq<nat>, all: nat)
    requires forall u: nat, l: nat :: !Settles(w, c, u, l)
    ensures ReportOver(After(w, c), all, us) == ReportOver(w, all, us)
  {
    if us != [] {
      EstateTotalSame(w, c, us[..|us| - 1], all);
      PaymentConservation(w, c, us[|us| - 1]);
    }
  }

  lemma EstateStep(w: World, c: Command, estate: nat)
    ensures EstateReport(After(w, c), estate).totalOutstanding
         == EstateReport(w, estate).totalOutstanding - Settled(w, c, estate)
  {
    if c.Verify? && c.id < |w.payments| && w.payments[c.id].status == Pending {
      EstateConservation(w, c, w.payments[c.id].user, w.payments[c.id].levy, estate);
    } else {
      UsersSame(w, c, estate, |w.members|);
      EstateTotalSame(w, c, Users(w, estate), |Users(w, estate)|);
    }
  }

  /** Over any run of payment commands the estate's total falls by exactly the amounts of the owed
      levies settled in it. */
  lemma {:induction false} EstateConservationOverRuns(w: World, cs: seq<Command>, estate: nat)
    ensures EstateReport(AfterAll(w, cs), estate).totalOutstanding
         == EstateReport(w, estate).totalOutstanding - AllSettled(w, cs, estate)
  {
    if cs != [] {
      EstateConservationOverRuns(w, cs[..|cs| - 1], estate);
      EstateStep(AfterAll(w, cs[..|cs| - 1]), cs[|cs| - 1], estate);
    }
  }

  /** And what is still owed at its end is what was owed before and has not been paid since. */
  lemma OutstandingOverRuns(w: World, cs: seq<Command>, u: nat)
    ensures forall l: nat :: l in Outstanding(AfterAll(w, cs), u)
                        <==> l in Outstanding(w, u) && !Paid(Run(w.payments, cs), u, l)
  {
    OutstandingIsOwed(w, u, |w.levies|);
    OutstandingIsOwed(AfterAll(w, cs), u, |w.levies|);
    forall l: nat ensures Paid(w.payments, u, l) ==> Paid(Run(w.payments, cs), u, l) {
      if Paid(w.payments, u, l) { PaidForever(w.payments, cs, u, l); }
    }
  }

  /** Once paid, never outstanding again: whatever commands follow, and however levies, members and
      the clock change meanwhile. */
  lemma PaidNeverOutstanding(w: World, cs: seq<Command>, later: World, u: nat, l: nat)
    requires Paid(w.payments, u, l) && later.payments == Run(w.payments, cs)
    ensures l !in Outstanding(later, u)
  {
    PaidForever(w.payments, cs, u, l);
    OutstandingIsOwed(later, u, |later.levies|);
  }

  // ------------------------------------------------------------- the service as code

  datatype ComplianceStatus = ComplianceStatus(isCompliant: bool, canCreateToken: bool,
                                               outstanding: seq<nat>, totalOutstanding: int)

  method CheckUserCompliance(w: World, u: nat) returns (r: ComplianceStatus)
    ensures r.outstanding == Outstanding(w, u) && r.totalOutstanding == Total(w, u)
    ensures r.isCompliant == r.canCreateToken == (Outstanding(w, u) == [])
    ensures forall l: nat :: l in r.outstanding <==> Owes(w, u, l)
    ensures forall l: nat ::
              (l in r.outstanding <==>
                 && u < |w.members| && !w.members[u].deleted && l < |w.levies|
                 && var levy := w.levies[l];
                    && !levy.deleted && levy.active && levy.enforced
                    && w.members[u].estate == Some(levy.estate) && w.members[u].role in levy.roles
                    && (forall p :: p in w.payments ==> !(p.user == u && p.levy == l && p.status == Status.Verified))
                    && w.now > levy.due + levy.graceDays * 86400000)
  {
    OutstandingIsOwed(w, u, |w.levies|);
    forall l: nat { OwesExactly(w, u, l); }
    if u >= |w.members| || w.members[u].deleted || w.members[u].estate.None? {
      NothingOwed(w, u, |w.levies|);
      return ComplianceStatus(true, true, [], 0);
    }
    var user := w.members[u];
    var outstanding: seq<nat>, total := [], 0;
    for l := 0 to |w.levies|
      invariant outstanding == OutstandingUpTo(w, u, l) && total == Sum(w, outstanding)
    {
      var levy := w.levies[l];
      if Enforced(levy, user.estate.value, user.role) {
        var hasPaid := Paid(w.payments, u, l);
        if !hasPaid {
          var effectiveDueDate := levy.due + levy.graceDays * DAY;
          if w.now > effectiveDueDate {
            SumSnoc(w, outstanding, l);
            outstanding := outstanding + [l];
            total := total + levy.amount;
          }
        }
      }
    }
    r := ComplianceStatus(|outstanding| == 0, |outstanding| == 0, outstanding, total);
  }

  method GetEstateComplianceReport(w: World, estate: nat) returns (r: Report)
    ensures r == EstateReport(w, estate)
    ensures r.compliantUsers + r.nonCompliantUsers == r.totalUsers == |r.details|
    ensures r.compliantUsers == Compliants(r.details)
    ensures r.totalOutstanding == SumDetails(r.details)
  {
    var users: seq<nat> := [];
    for u := 0 to |w.members|
      invariant users == UsersUpTo(w, estate, u)
    {
      if InEstate(w, u, estate) { users := users + [u]; }
    }
    r := Report(|users|, 0, 0, 0, []);
    for i := 0 to |users|
      invariant r == ReportOver(w, |users|, users[..i])
    {
      assert users[..i + 1][..i] == users[..i];
      var c := CheckUserCompliance(w, users[i]);
      if c.isCompliant {
        r := r.(compliantUsers := r.compliantUsers + 1);
      } else {
        r := r.(nonCompliantUsers := r.nonCompliantUsers + 1, totalOutstanding := r.totalOutstanding + c.totalOutstanding);
      }
      r := r.(details := r.details + [Detail(users[i], c.isCompliant, c.totalOutstanding, |c.outstanding|)]);
    }
    assert users[..|users|] == users;
    ReportCountsTwice(w, estate);
  }
}
