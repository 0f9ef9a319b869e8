/** Payments and their status machine. A payment is identified by its position. */
module Payments {

  datatype Status = Pending | Completed | Verified | Rejected

  datatype Payment = Payment(user: nat, levy: nat, amount: int, status: Status)

  datatype Outcome = Ok | NotFound | BadRequest

  datatype Command =
    | Submit(user: nat, levy: nat, amount: int)
    | Verify(id: nat)
    | Reject(id: nat)
    | ChargeSucceeded(id: nat)

  /** Verification and rejection: only a pending payment changes. */
  function Decide(ps: seq<Payment>, id: nat, s: Status): (seq<Payment>, Outcome) {
    if id >= |ps| then (ps, NotFound)
    else if ps[id].status != Pending then (ps, BadRequest)
    else (ps[id := ps[id].(status := s)], Ok)
  }

  /** The payments after one command, each taken as atomic, and what its caller sees. The webhook marks
      a pending payment completed, saves it, and then asks to have it verified. */
  function Apply(ps: seq<Payment>, c: Command): (seq<Payment>, Outcome) {
    match c
    case Submit(u, l, amount) => (ps + [Payment(u, l, amount, Pending)], Ok)
    case Verify(id) => Decide(ps, id, Verified)
    case Reject(id) => Decide(ps, id, Rejected)
    case ChargeSucceeded(id) =>
      if id >= |ps| then (ps, NotFound)
      else if ps[id].status == Pending then Decide(ps[id := ps[id].(status := Completed)], id, Verified)
      else (ps, Ok)
  }

  function Run(ps: seq<Payment>, cs: seq<Command>): seq<Payment> {
    if cs == [] then ps else Apply(Run(ps, cs[..|cs| - 1]), cs[|cs| - 1]).0
  }

  /** The status that the first command deciding payment `id` gives it. */
  function FirstDecision(cs: seq<Command>, id: nat): Status {
    if cs == [] then Pending
    else
      var earlier := FirstDecision(cs[..|cs| - 1], id);
      if earlier != Pending then earlier
      else match cs[|cs| - 1]
        case Verify(i) => if i == id then Verified else Pending
        case Reject(i) => if i == id then Rejected else Pending
        case ChargeSucceeded(i) => if i == id then Completed else Pending
        case Submit(_, _, _) => Pending
  }

  /** Over any run a payment keeps user, levy and amount; once verified, rejected or completed it stays
      so; and a pending one ends with what its first deciding command gave it. So it is ever verified
      exactly when that command is a verification, and never when it is the webhook. */
  lemma {:induction false} StatusOverRuns(ps: seq<Payment>, cs: seq<Command>, id: nat)
    requires id < |ps|
    ensures |Run(ps, cs)| >= |ps|
    ensures Run(ps, cs)[id] == if ps[id].status != Pending then ps[id] else ps[id].(status := FirstDecision(cs, id))
  {
    if cs != [] { StatusOverRuns(ps, cs[..|cs| - 1], id); }
  }

  /** The webhook's automatic verification always fails: the payment it marks completed is no longer
      pending, the caller gets an error, and no later command changes it. */
  lemma WebhookStrandsPayment(ps: seq<Payment>, id: nat, more: seq<Command>)
    requires id < |ps| && ps[id].status == Pending
    ensures var (after, outcome) := Apply(ps, ChargeSucceeded(id));
            && outcome == BadRequest && after == ps[id := ps[id].(status := Completed)]
            && |Run(after, more)| >= |ps| && Run(after, more)[id].status == Completed
  {
    StatusOverRuns(Apply(ps, ChargeSucceeded(id)).0, more, id);
  }

  /** hasUserPaidLevy: some payment of the user for the levy is verified. */
  predicate Paid(ps: seq<Payment>, user: nat, levy: nat) {
    exists i :: 0 <= i < |ps| && ps[i].user == user && ps[i].levy == levy && ps[i].status == Verified
  }

  /** Unpaid means that no payment of the user for the levy is verified. */
  lemma UnpaidExactly(ps: seq<Payment>, user: nat, levy: nat)
    ensures !Paid(ps, user, levy)
       <==> forall p :: p in ps ==> !(p.user == user && p.levy == levy && p.status == Status.Verified)
  {
    if !Paid(ps, user, levy) {
      forall p | p in ps ensures !(p.user == user && p.levy == levy && p.status == Status.Verified) {
        var i :| 0 <= i < |ps| && ps[i] == p;
      }
    }
  }

  /** A paid levy stays paid. */
  lemma PaidForever(ps: seq<Payment>, cs: seq<Command>, user: nat, levy: nat)
    requires Paid(ps, user, levy)
    ensures Paid(Run(ps, cs), user, levy)
  {
    var i :| 0 <= i < |ps| && ps[i].user == user && ps[i].levy == levy && ps[i].status == Verified;
    StatusOverRuns(ps, cs, i);
  }

  /** One command makes exactly this newly paid: a verification of a pending payment, its own pair. */
  lemma PaidAfter(ps: seq<Payment>, c: Command, user: nat, levy: nat)
    ensures Paid(Apply(ps, c).0, user, levy)
       <==> || Paid(ps, user, levy)
            || (c.Verify? && c.id < |ps| && ps[c.id].status == Pending && ps[c.id].user == user && ps[c.id].levy == levy)
  {
    var qs := Apply(ps, c).0;
    if Paid(ps, user, levy) {
      var i :| 0 <= i < |ps| && ps[i].user == user && ps[i].levy == levy && ps[i].status == Verified;
      assert qs[i] == ps[i];
    }
    if c.Verify? && c.id < |ps| && ps[c.id].status == Pending && ps[c.id].user == user && ps[c.id].levy == levy {
      assert qs[c.id].status == Verified;
    }
    if Paid(qs, user, levy) && !Paid(ps, user, levy) {
      var i :| 0 <= i < |qs| && qs[i].user == user && qs[i].levy == levy && qs[i].status == Verified;
      assert i >= |ps| || qs[i] != ps[i];
    }
  }

  class PaymentsService {
    var payments: seq<Payment>

    constructor ()
      ensures payments == []
    {
      payments := [];
    }

    method Create(user: nat, levy: nat, amount: int) returns (id: nat)
      modifies this
      ensures payments == Apply(old(payments), Submit(user, levy, amount)).0
      ensures payments == old(payments) + [Payment(user, levy, amount, Status.Pending)]
      ensures id == |old(payments)|
    {
      id := |payments|;
      payments := payments + [Payment(user, levy, amount, Pending)];
    }

    method VerifyPayment(id: nat) returns (outcome: Outcome)
      modifies this
      ensures (payments, outcome) == Apply(old(payments), Verify(id))
      ensures outcome == (if id >= |old(payments)| then NotFound
                          else if old(payments)[id].status != Status.Pending then BadRequest else Ok)
      ensures payments == if outcome == Ok then old(payments)[id := old(payments)[id].(status := Status.Verified)]
                          else old(payments)
    {
      if id >= |payments| { return NotFound; }
      if payments[id].status != Pending { return BadRequest; }
      payments := payments[id := payments[id].(status := Verified)];
      outcome := Ok;
    }

    method RejectPayment(id: nat) returns (outcome: Outcome)
      modifies this
      ensures (payments, outcome) == Apply(old(payments), Reject(id))
      ensures outcome == (if id >= |old(payments)| then NotFound
                          else if old(payments)[id].status != Status.Pending then BadRequest else Ok)
      ensures payments == if outcome == Ok then old(payments)[id := old(payments)[id].(status := Status.Rejected)]
                          else old(payments)
    {
      if id >= |payments| { return NotFound; }
      if payments[id].status != Pending { return BadRequest; }
      payments := payments[id := payments[id].(status := Rejected)];
      outcome := Ok;
    }

    method HandlePaystackWebhook(id: nat) returns (outcome: Outcome)
      modifies this
      ensures (payments, outcome) == Apply(old(payments), ChargeSucceeded(id))
      ensures outcome == (if id >= |old(payments)| then NotFound
                          else if old(payments)[id].status == Status.Pending then BadRequest else Ok)
      ensures payments == if outcome == BadRequest then old(payments)[id := old(payments)[id].(status := Status.Completed)]
                          else old(payments)
    {
      if id >= |payments| { return NotFound; }
      if payments[id].status == Pending {
        payments := payments[id := payments[id].(status := Completed)];
        outcome := VerifyPayment(id);
      } else {
        outcome := Ok;
      }
    }

    method HasUserPaidLevy(user: nat, levy: nat) returns (paid: bool)
      ensures paid <==> Paid(payments, user, levy)
      ensures paid <==> exists p :: p in payments && p.user == user && p.levy == levy && p.status == Status.Verified
    {
      for i := 0 to |payments|
        invariant forall j :: 0 <= j < i ==>
                    !(payments[j].user == user && payments[j].levy == levy && payments[j].status == Verified)
      {
        if payments[i].user == user && payments[i].levy == levy && payments[i].status == Verified { return true; }
      }
      return false;
    }
  }
}
