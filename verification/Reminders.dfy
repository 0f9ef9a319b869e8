/** The daily payment reminders: which user is reminded of which levy, and how often. */
module Reminders {
  import opened Wrappers
  import opened Payments
  import opened Compliance

  datatype Frame = SevenDays | ThreeDays | Today | Late

  datatype Reminder = Reminder(user: nat, levy: nat, frame: Frame)

  /** The date each frame looks for, from the moment of the run. */
  function Target(now: nat, f: Frame): int {
    match f
    case SevenDays => now + 7 * DAY
    case ThreeDays => now + 3 * DAY
    case Today => StartOfDay(now)
    case Late => now - DAY
  }

  function StartOfDay(t: int): int {
    t - t % DAY
  }

  function EndOfDay(t: int): int {
    StartOfDay(t) + DAY - 1
  }

  function DayOf(t: int): int {
    t / DAY
  }

  /** The query of findLeviesDueOn. */
  predicate DueOn(l: Levy, target: int) {
    l.active && !l.deleted && StartOfDay(target) <= l.due <= EndOfDay(target)
  }

  /** The window is the calendar day: windows of different days do not meet and leave no gap. */
  lemma WindowIsDay(due: nat, target: int)
    ensures StartOfDay(target) <= due <= EndOfDay(target) <==> DayOf(due) == DayOf(target)
  {
  }

  /** The query of findByEstateAndRoles. */
  predicate Applies(w: World, u: nat, l: nat) {
    l < |w.levies| && InEstate(w, u, w.levies[l].estate) && w.members[u].role in w.levies[l].roles
  }

  predicate Reminded(w: World, u: nat, l: nat) {
    Applies(w, u, l) && !Paid(w.payments, u, l)
  }

  /** The reminders of one levy, for the first k members. */
  function ForLevy(w: World, l: nat, f: Frame, k: nat): seq<Reminder> {
    if k == 0 then []
    else ForLevy(w, l, f, k - 1) + (if Reminded(w, k - 1, l) then [Reminder(k - 1, l, f)] else [])
  }

  /** Levy l falls due on the date that the frame looks for. */
  predicate Hit(w: World, f: Frame, l: nat) {
    l < |w.levies| && DueOn(w.levies[l], Target(w.now, f))
  }

  /** The reminders of one frame, for the first k levies. */
  function ForFrame(w: World, f: Frame, k: nat): seq<Reminder> {
    if k == 0 then []
    else ForFrame(w, f, k - 1)
         + (if Hit(w, f, k - 1) then ForLevy(w, k - 1, f, |w.members|) else [])
  }

  function Daily(w: World): seq<Reminder> {
    ForFrame(w, SevenDays, |w.levies|) + ForFrame(w, ThreeDays, |w.levies|)
    + ForFrame(w, Today, |w.levies|) + ForFrame(w, Late, |w.levies|)
  }

  // ------------------------------------------------------------- how often

  function Times(rs: seq<Reminder>, u: nat, l: nat): nat {
    if rs == [] then 0
    else Times(rs[..|rs| - 1], u, l) + (if rs[|rs| - 1].user == u && rs[|rs| - 1].levy == l then 1 else 0)
  }

  lemma {:induction false} TimesConcat(a: seq<Reminder>, b: seq<Reminder>, u: nat, l: nat)
    ensures Times(a + b, u, l) == Times(a, u, l) + Times(b, u, l)
  {
    if b == [] {
      assert a + b == a;
    } else {
      TimesConcat(a, b[..|b| - 1], u, l);
      assert (a + b)[..|a + b| - 1] == a + b[..|b| - 1];
    }
  }

  lemma TimesOne(r: Reminder, u: nat, l: nat)
    ensures Times([r], u, l) == if r.user == u && r.levy == l then 1 else 0
  {
    assert [r][..0] == [];
  }

  lemma {:induction false} TimesForLevy(w: World, m: nat, f: Frame, k: nat, u: nat, l: nat)
    ensures Times(ForLevy(w, m, f, k), u, l) == if m == l && u < k && Reminded(w, u, l) then 1 else 0
  {
    if k > 0 {
      TimesForLevy(w, m, f, k - 1, u, l);
      var last := if Reminded(w, k - 1, m) then [Reminder(k - 1, m, f)] else [];
      TimesConcat(ForLevy(w, m, f, k - 1), last, u, l);
      TimesOne(Reminder(k - 1, m, f), u, l);
    }
  }

  lemma TimesStep(w: World, f: Frame, k: nat, u: nat, l: nat)
    requires k < |w.levies|
    ensures Times(ForFrame(w, f, k + 1), u, l)
         == Times(ForFrame(w, f, k), u, l) + (if k == l && Hit(w, f, k) && Reminded(w, u, l) then 1 else 0)
  {
    var last := if Hit(w, f, k) then ForLevy(w, k, f, |w.members|) else [];
    assert ForFrame(w, f, k + 1) == ForFrame(w, f, k) + last;
    TimesConcat(ForFrame(w, f, k), last, u, l);
    TimesForLevy(w, k, f, |w.members|, u, l);
  }

  lemma {:induction false} TimesForFrame(w: World, f: Frame, k: nat, u: nat, l: nat)
    requires k <= |w.levies|
    ensures Times(ForFrame(w, f, k), u, l) == if l < k && Hit(w, f, l) && Reminded(w, u, l) then 1 else 0
  {
    if k > 0 {
      TimesForFrame(w, f, k - 1, u, l);
      TimesStep(w, f, k - 1, u, l);
    }
  }

  /** The days, relative to the due day, on which a reminder goes out. */
  predicate ReminderDay(today: int, dueDay: int) {
    today == dueDay - 7 || today == dueDay - 3 || today == dueDay || today == dueDay + 1
  }

  /** One run reminds a user of a levy exactly once if the levy is live, applies to the user, is unpaid
      and falls due in 7 days, in 3 days, today or yesterday, and not at all otherwise. */
  lemma DailyReminderExactly(w: World, u: nat, l: nat)
    ensures Times(Daily(w), u, l)
         == if Reminded(w, u, l) && w.levies[l].active && !w.levies[l].deleted
               && ReminderDay(DayOf(w.now), DayOf(w.levies[l].due)) then 1 else 0
  {
    var n := |w.levies|;
    var a, b, c, d := ForFrame(w, SevenDays, n), ForFrame(w, ThreeDays, n), ForFrame(w, Today, n), ForFrame(w, Late, n);
    TimesForFrame(w, SevenDays, n, u, l);
    TimesForFrame(w, ThreeDays, n, u, l);
    TimesForFrame(w, Today, n, u, l);
    TimesForFrame(w, Late, n, u, l);
    TimesConcat(a, b, u, l);
    TimesConcat(a + b, c, u, l);
    TimesConcat(a + b + c, d, u, l);
    if l < n {
      var due := w.levies[l].due;
      WindowIsDay(due, Target(w.now, SevenDays));
      WindowIsDay(due, Target(w.now, ThreeDays));
      WindowIsDay(due, Target(w.now, Today));
      WindowIsDay(due, Target(w.now, Late));
    }
  }

  lemma {:induction false} InForLevy(w: World, l: nat, f: Frame, k: nat, r: Reminder)
    ensures r in ForLevy(w, l, f, k) <==> r.user < k && Reminded(w, r.user, l) && r == Reminder(r.user, l, f)
  {
    if k > 0 { InForLevy(w, l, f, k - 1, r); }
  }

  lemma InNextFrame(w: World, f: Frame, k: nat, r: Reminder)
    ensures r in ForFrame(w, f, k + 1)
       <==> r in ForFrame(w, f, k) || (r.levy == k && r.frame == f && Hit(w, f, k) && Reminded(w, r.user, k))
  {
    var last := if Hit(w, f, k) then ForLevy(w, k, f, |w.members|) else [];
    assert ForFrame(w, f, k + 1) == ForFrame(w, f, k) + last;
    InForLevy(w, k, f, |w.members|, r);
  }

  lemma {:induction false} InForFrame(w: World, f: Frame, k: nat, r: Reminder)
    requires k <= |w.levies|
    ensures r in ForFrame(w, f, k) <==> r.levy < k && r.frame == f && Hit(w, f, r.levy) && Reminded(w, r.user, r.levy)
  {
    if k > 0 {
      InForFrame(w, f, k - 1, r);
      InNextFrame(w, f, k - 1, r);
    }
  }

  /** Days from the due day to the day of the reminder. */
  function Lead(f: Frame): int {
    match f
    case SevenDays => -7
    case ThreeDays => -3
    case Today => 0
    case Late => 1
  }

  /** Which reminders go out, in full: to a present member of the levy's estate in one of its roles, about
      a live levy without a verified payment of the pair, and in the frame of the day. */
  lemma RemindersExactly(w: World, r: Reminder)
    ensures r in Daily(w)
       <==> && r.user < |w.members| && !w.members[r.user].deleted && r.levy < |w.levies|
            && var levy := w.levies[r.levy];
               && levy.active && !levy.deleted
               && w.members[r.user].estate == Some(levy.estate) && w.members[r.user].role in levy.roles
               && (forall p :: p in w.payments ==> !(p.user == r.user && p.levy == r.levy && p.status == Status.Verified))
               && w.now / 86400000 == levy.due / 86400000 + Lead(r.frame)
  {
    var n := |w.levies|;
    InForFrame(w, SevenDays, n, r);
    InForFrame(w, ThreeDays, n, r);
    InForFrame(w, Today, n, r);
    InForFrame(w, Late, n, r);
    if r.levy < n { WindowIsDay(w.levies[r.levy].due, Target(w.now, r.frame)); }
    UnpaidExactly(w.payments, r.user, r.levy);
  }

  // ------------------------------------------------------------- over many days

  /** One run a day, later runs on later days, for a levy whose due date stays. */
  ghost predicate Schedule(ws: seq<World>, l: nat, dueDay: int) {
    && (forall i :: 0 <= i < |ws| && l < |ws[i].levies| ==> DayOf(ws[i].levies[l].due) == dueDay)
    && (forall i, j :: 0 <= i < j < |ws| ==> DayOf(ws[i].now) < DayOf(ws[j].now))
  }

  function TotalTimes(ws: seq<World>, u: nat, l: nat): nat {
    if ws == [] then 0 else TotalTimes(ws[..|ws| - 1], u, l) + Times(Daily(ws[|ws| - 1]), u, l)
  }

  /** Reminder days not after a given day. */
  function DaysUpTo(today: int, dueDay: int): nat {
    (if today >= dueDay - 7 then 1 else 0) + (if today >= dueDay - 3 then 1 else 0)
    + (if today >= dueDay then 1 else 0) + (if today >= dueDay + 1 then 1 else 0)
  }

  lemma {:induction false} TotalWithinDays(ws: seq<World>, u: nat, l: nat, dueDay: int)
    requires Schedule(ws, l, dueDay)
    ensures TotalTimes(ws, u, l) <= if ws == [] then 0 else DaysUpTo(DayOf(ws[|ws| - 1].now), dueDay)
  {
    if ws != [] {
      var front, w := ws[..|ws| - 1], ws[|ws| - 1];
      TotalWithinDays(front, u, l, dueDay);
      DailyReminderExactly(w, u, l);
      if front != [] { assert DayOf(ws[|ws| - 2].now) < DayOf(w.now); }
    }
  }

  /** Over any number of daily runs a user is reminded of a levy at most four times. */
  lemma AtMostFourReminders(ws: seq<World>, u: nat, l: nat, dueDay: int)
    requires Schedule(ws, l, dueDay)
    ensures TotalTimes(ws, u, l) <= 4
  {
    TotalWithinDays(ws, u, l, dueDay);
  }

  lemma {:induction false} AllSent(ws: seq<World>, u: nat, l: nat, dueDay: int, first: int)
    requires Schedule(ws, l, dueDay)
    requires forall i :: 0 <= i < |ws| ==> DayOf(ws[i].now) == first + i
    requires forall i :: 0 <= i < |ws| ==> Reminded(ws[i], u, l) && ws[i].levies[l].active && !ws[i].levies[l].deleted
    ensures TotalTimes(ws, u, l) == DaysUpTo(first + |ws| - 1, dueDay) - DaysUpTo(first - 1, dueDay)
  {
    if ws != [] {
      var front, w := ws[..|ws| - 1], ws[|ws| - 1];
      AllSent(front, u, l, dueDay, first);
      DailyReminderExactly(w, u, l);
      assert Reminded(ws[|ws| - 1], u, l);
    }
  }

  /** And exactly four times if it runs every day from a week before the due day to the day after it
      while the levy stays live and unpaid. */
  lemma FourRemindersIfUnpaid(ws: seq<World>, u: nat, l: nat, dueDay: int)
    requires Schedule(ws, l, dueDay) && |ws| >= 9
    requires forall i :: 0 <= i < |ws| ==> DayOf(ws[i].now) == dueDay - 7 + i
    requires forall i :: 0 <= i < |ws| ==> Reminded(ws[i], u, l) && ws[i].levies[l].active && !ws[i].levies[l].deleted
    ensures TotalTimes(ws, u, l) == 4
  {
    AllSent(ws, u, l, dueDay, dueDay - 7);
  }

  /** No reminder after a verified payment, whatever commands follow it. */
  lemma NoReminderOncePaid(w: World, cs: seq<Command>, later: World, u: nat, l: nat)
    requires Paid(w.payments, u, l) && later.payments == Run(w.payments, cs)
    ensures Times(Daily(later), u, l) == 0
  {
    PaidForever(w.payments, cs, u, l);
    DailyReminderExactly(later, u, l);
  }

  // ------------------------------------------------------------- the job as code

  method SendRemindersForDate(w: World, f: Frame) returns (sent: seq<Reminder>)
    ensures sent == ForFrame(w, f, |w.levies|)
  {
    sent := [];
    var target := Target(w.now, f);
    for l := 0 to |w.levies|
      invariant sent == ForFrame(w, f, l)
    {
      if DueOn(w.levies[l], target) {
        ghost var before := sent;
        for u := 0 to |w.members|
          invariant sent == before + ForLevy(w, l, f, u)
        {
          if Applies(w, u, l) {
            var hasPaid := Paid(w.payments, u, l);
            if !hasPaid {
              sent := sent + [Reminder(u, l, f)];
            }
          }
        }
      }
    }
  }

  method SendDailyReminders(w: World) returns (sent: seq<Reminder>)
    ensures sent == Daily(w)
    ensures forall u: nat, l: nat :: Times(sent, u, l) <= 1
  {
    var week := SendRemindersForDate(w, SevenDays);
    var soon := SendRemindersForDate(w, ThreeDays);
    var today := SendRemindersForDate(w, Today);
    var late := SendRemindersForDate(w, Late);
    sent := week + soon + today + late;
    forall u: nat, l: nat ensures Times(sent, u, l) <= 1 { DailyReminderExactly(w, u, l); }
  }
}
