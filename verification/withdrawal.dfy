/**
 The withdrawal guard: per-transaction, daily and monthly limits, a cooling period and a velocity score
 over the withdrawal table. Times are in milliseconds, amounts in minor units; the local calendar is
 a pair of functions giving the start of the day and of the month.
 */
module Withdrawals {
  import opened Common

  datatype Kyc = NoKyc | PendingKyc | Verified | RejectedKyc
  datatype Status = Pending | Processing | Approved | Completed | Failed | Rejected

  datatype Withdrawal = Withdrawal(user: nat, amount: int, requestedAt: int, status: Status, flagReason: Option<string>)

  datatype Limits = Limits(daily: int, perTransaction: int, monthly: int)

  function LimitsOf(kyc: Kyc): Limits {
    match kyc
    case NoKyc => Limits(5_000_000 * 100, 1_000_000 * 100, 20_000_000 * 100)
    case PendingKyc => Limits(25_000_000 * 100, 10_000_000 * 100, 100_000_000 * 100)
    case Verified => Limits(100_000_000 * 100, 50_000_000 * 100, 500_000_000 * 100)
    case RejectedKyc => Limits(1_000_000 * 100, 500_000 * 100, 5_000_000 * 100)
  }

  const MINUTE := 60000
  const HOUR := 60 * MINUTE
  const DAY := 24 * HOUR
  const COOLING_MINUTES := 60

  // ---------- queries ----------

  /** The statuses the limit queries add up; a withdrawal being processed is not among them. */
  predicate Counts(s: Status) {
    s == Pending || s == Approved || s == Completed
  }

  function SumSince(rows: seq<Withdrawal>, user: nat, since: int): int {
    if rows == [] then 0
    else
      var last := rows[|rows| - 1];
      SumSince(rows[..|rows| - 1], user, since) +
      if last.user == user && last.requestedAt >= since && Counts(last.status) then last.amount else 0
  }

  function CountSince(rows: seq<Withdrawal>, user: nat, since: int): nat {
    if rows == [] then 0
    else
      var last := rows[|rows| - 1];
      CountSince(rows[..|rows| - 1], user, since) + if last.user == user && last.requestedAt >= since then 1 else 0
  }

  /** The time of the user's latest request. */
  function LastRequest(rows: seq<Withdrawal>, user: nat): (at: Option<int>)
    ensures at.Some? ==> exists k :: 0 <= k < |rows| && rows[k].user == user && rows[k].requestedAt == at.value
    ensures forall k :: 0 <= k < |rows| && rows[k].user == user ==> at.Some? && rows[k].requestedAt <= at.value
  {
    if rows == [] then None
    else
      var earlier, last := LastRequest(rows[..|rows| - 1], user), rows[|rows| - 1];
      assert forall k :: 0 <= k < |rows| - 1 ==> rows[..|rows| - 1][k] == rows[k];
      if last.user == user && (earlier.None? || earlier.value <= last.requestedAt) then
        Some(last.requestedAt)
      else earlier
  }

  function MinutesSince(at: Option<int>, now: int): Option<int> {
    if at.None? then None else Some((now - at.value) / MINUTE)
  }

  function Score(hourly: nat, daily: nat, weekly: nat): int {
    (if hourly >= 3 then 40 else if hourly >= 2 then 20 else 0)
    + (if daily >= 10 then 30 else if daily >= 5 then 15 else 0)
    + (if weekly >= 30 then 30 else if weekly >= 20 then 15 else 0)
  }

  function VelocityScore(rows: seq<Withdrawal>, user: nat, now: int): int {
    Score(CountSince(rows, user, now - HOUR), CountSince(rows, user, now - DAY), CountSince(rows, user, now - 7 * DAY))
  }

  // ---------- the check ----------

  datatype Reason = OverTransactionLimit | OverDailyLimit(remaining: int) | OverMonthlyLimit(remaining: int) | StillCooling(minutes: int)

  datatype LimitCheck = LimitCheck(
    reason: Option<Reason>, dailyUsed: int, monthlyUsed: int, limits: Limits,
    lastRequest: Option<int>, minutesSince: Option<int>, velocityScore: int, isFlagged: bool)
  {
    predicate CanWithdraw() {
      reason.None?
    }
  }

  datatype Calendar = Calendar(day: int -> int, month: int -> int)

  /** The month query starts from the month of today's start. */
  function MonthStart(cal: Calendar, now: int): int {
    cal.month(cal.day(now))
  }

  function Check(cal: Calendar, kyc: Kyc, rows: seq<Withdrawal>, user: nat, amount: int, now: int): LimitCheck {
    var limits := LimitsOf(kyc);
    var dailyUsed := SumSince(rows, user, cal.day(now));
    var monthlyUsed := SumSince(rows, user, MonthStart(cal, now));
    var last := LastRequest(rows, user);
    var minutes := MinutesSince(last, now);
    var score := VelocityScore(rows, user, now);
    var reason :=
      if amount > limits.perTransaction then Some(OverTransactionLimit)
      else if dailyUsed + amount > limits.daily then Some(OverDailyLimit(limits.daily - dailyUsed))
      else if monthlyUsed + amount > limits.monthly then Some(OverMonthlyLimit(limits.monthly - monthlyUsed))
      else if minutes.Some? && minutes.value < COOLING_MINUTES then Some(StillCooling(COOLING_MINUTES - minutes.value))
      else None;
    LimitCheck(reason, dailyUsed, monthlyUsed, limits, last, minutes, score, score >= 75)
  }

  // ---------- runs ----------

  datatype World = World(now: int, rows: seq<Withdrawal>)

  /** A request is checked and, when admitted, stored as pending; anything may move a row to another status. */
  datatype Event = Request(user: nat, amount: int) | Move(row: nat, status: Status) | Wait(ms: nat)

  function Step(cal: Calendar, kyc: nat -> Kyc, w: World, e: Event): World {
    match e
    case Request(user, amount) =>
      if Check(cal, kyc(user), w.rows, user, amount, w.now).CanWithdraw() then
        w.(rows := w.rows + [Withdrawal(user, amount, w.now, Pending, None)])
      else w
    case Move(i, status) => if i < |w.rows| then w.(rows := w.rows[i := w.rows[i].(status := status)]) else w
    case Wait(ms) => w.(now := w.now + ms)
  }

  function Run(cal: Calendar, kyc: nat -> Kyc, w: World, run: seq<Event>): World {
    if run == [] then w else Step(cal, kyc, Run(cal, kyc, w, run[..|run| - 1]), run[|run| - 1])
  }

  // ---------- cooling and the score ----------

  /** No row lies in the future, and one user's requests are an hour apart. */
  ghost predicate Spaced(w: World) {
    && (forall k :: 0 <= k < |w.rows| ==> w.rows[k].requestedAt <= w.now)
    && (forall j, k :: 0 <= j < k < |w.rows| && w.rows[j].user == w.rows[k].user ==> w.rows[k].requestedAt - w.rows[j].requestedAt >= HOUR)
  }

  lemma CooledDown(cal: Calendar, kyc: Kyc, w: World, user: nat, amount: int)
    requires Check(cal, kyc, w.rows, user, amount, w.now).CanWithdraw()
    ensures forall k :: 0 <= k < |w.rows| && w.rows[k].user == user ==> w.now - w.rows[k].requestedAt >= HOUR
  {
    hide SumSince, CountSince, LastRequest, LimitsOf;
  }

  lemma StepKeepsSpacing(cal: Calendar, kyc: nat -> Kyc, w: World, e: Event)
    requires Spaced(w)
    ensures Spaced(Step(cal, kyc, w, e))
  {
    hide Check;
    if e.Request? && Check(cal, kyc(e.user), w.rows, e.user, e.amount, w.now).CanWithdraw() {
      CooledDown(cal, kyc(e.user), w, e.user, e.amount);
    }
  }

  lemma {:induction false} EveryRunIsSpaced(cal: Calendar, kyc: nat -> Kyc, start: int, run: seq<Event>)
    ensures Spaced(Run(cal, kyc, World(start, []), run))
  {
    if run != [] {
      EveryRunIsSpaced(cal, kyc, start, run[..|run| - 1]);
      StepKeepsSpacing(cal, kyc, Run(cal, kyc, World(start, []), run[..|run| - 1]), run[|run| - 1]);
    }
  }

  /** With requests an hour apart and none younger than the bound, at most the one at the bound is counted. */
  lemma {:induction false} AtMostOneAtBound(rows: seq<Withdrawal>, user: nat, since: int)
    requires forall k :: 0 <= k < |rows| && rows[k].user == user ==> rows[k].requestedAt <= since
    requires forall j, k :: 0 <= j < k < |rows| && rows[j].user == rows[k].user ==> rows[k].requestedAt - rows[j].requestedAt >= HOUR
    ensures CountSince(rows, user, since) <= 1
    ensures CountSince(rows, user, since) == 1 ==> exists k :: 0 <= k < |rows| && rows[k].user == user && rows[k].requestedAt == since
  {
    if rows != [] {
      var front, last := rows[..|rows| - 1], rows[|rows| - 1];
      AtMostOneAtBound(front, user, since);
      if CountSince(front, user, since) == 1 {
        var k :| 0 <= k < |front| && front[k].user == user && front[k].requestedAt == since;
        assert rows[k].requestedAt == since;
      }
    }
  }

  /** On every run an admitted request scores at most 60, so the warning for flagged users is never reached. */
  lemma AdmittedIsNeverFlagged(cal: Calendar, kyc: nat -> Kyc, start: int, run: seq<Event>, user: nat, amount: int)
    ensures var w := Run(cal, kyc, World(start, []), run);
            var check := Check(cal, kyc(user), w.rows, user, amount, w.now);
            check.CanWithdraw() ==> check.velocityScore <= 60 && !check.isFlagged
  {
    hide Run, SumSince, LimitsOf;
    var w := Run(cal, kyc, World(start, []), run);
    EveryRunIsSpaced(cal, kyc, start, run);
    if Check(cal, kyc(user), w.rows, user, amount, w.now).CanWithdraw() {
      CooledDown(cal, kyc(user), w, user, amount);
      AtMostOneAtBound(w.rows, user, w.now - HOUR);
    }
  }

  /** The user's requests since a moment. */
  ghost function RequestsSince(rows: seq<Withdrawal>, user: nat, since: int): set<nat> {
    set k | 0 <= k < |rows| && rows[k].user == user && rows[k].requestedAt >= since
  }

  lemma {:induction false} CountIsRequests(rows: seq<Withdrawal>, user: nat, since: int)
    ensures CountSince(rows, user, since) == |RequestsSince(rows, user, since)|
  {
    if rows != [] {
      var n := |rows| - 1;
      CountIsRequests(rows[..n], user, since);
      var before, now := RequestsSince(rows[..n], user, since), RequestsSince(rows, user, since);
      assert now == before + if rows[n].user == user && rows[n].requestedAt >= since then {n} else {};
    }
  }

  /** The points for three windows of an hour, a day and a week; together they flag only two full windows and the third half full. */
  lemma FlaggedExactly(cal: Calendar, kyc: Kyc, rows: seq<Withdrawal>, user: nat, amount: int, now: int)
    ensures var hourly, daily, weekly :=
        |RequestsSince(rows, user, now - 3600000)|, |RequestsSince(rows, user, now - 86400000)|, |RequestsSince(rows, user, now - 604800000)|;
      var check := Check(cal, kyc, rows, user, amount, now);
      && (check.isFlagged <==>
            || (hourly >= 3 && daily >= 10 && weekly >= 20)
            || (hourly >= 3 && daily >= 5 && weekly >= 30)
            || (hourly >= 2 && daily >= 10 && weekly >= 30))
      && (check.velocityScore == 0 <==> hourly < 2 && daily < 5 && weekly < 20)
      && (check.velocityScore == 100 <==> hourly >= 3 && daily >= 10 && weekly >= 30)
      && (daily < 5 && weekly < 20 ==> check.velocityScore == if hourly >= 3 then 40 else if hourly == 2 then 20 else 0)
      && (hourly < 2 && weekly < 20 ==> check.velocityScore == if daily >= 10 then 30 else if daily >= 5 then 15 else 0)
      && (hourly < 2 && daily < 5 ==> check.velocityScore == if weekly >= 30 then 30 else if weekly >= 20 then 15 else 0)
  {
    CountIsRequests(rows, user, now - HOUR);
    CountIsRequests(rows, user, now - DAY);
    CountIsRequests(rows, user, now - 7 * DAY);
    hide CountSince, RequestsSince, SumSince, LastRequest, LimitsOf;
  }

  // ---------- limits ----------

  /** A start-of-period function: never later than its argument, monotone, constant within a period. */
  ghost predicate IsPeriod(start: int -> int) {
    && (forall t :: start(t) <= t)
    && (forall s, t :: s <= t ==> start(s) <= start(t))
    && (forall t :: start(start(t)) == start(t))
  }

  /** Months begin with the start of a day. */
  ghost predicate IsCalendar(cal: Calendar) {
    IsPeriod(cal.day) && IsPeriod(cal.month) && forall t :: cal.month(cal.day(t)) == cal.month(t)
  }

  /** What one user's counted requests of one period add up to. */
  function PeriodSum(rows: seq<Withdrawal>, user: nat, start: int -> int, period: int): int {
    if rows == [] then 0
    else
      var last := rows[|rows| - 1];
      PeriodSum(rows[..|rows| - 1], user, start, period) +
      if last.user == user && start(last.requestedAt) == period && Counts(last.status) then last.amount else 0
  }

  lemma {:induction false} SinceStartIsPeriod(rows: seq<Withdrawal>, user: nat, start: int -> int, now: int)
    requires IsPeriod(start) && forall k :: 0 <= k < |rows| ==> rows[k].requestedAt <= now
    ensures SumSince(rows, user, start(now)) == PeriodSum(rows, user, start, start(now))
  {
    if rows != [] {
      SinceStartIsPeriod(rows[..|rows| - 1], user, start, now);
      var at := rows[|rows| - 1].requestedAt;
      assert start(at) <= at && start(at) <= start(now);
      if at >= start(now) {
        assert start(start(now)) <= start(at);
      }
    }
  }

  /** A request is admitted exactly when it fits what is left of its day and month and the user has waited an hour. */
  lemma AdmittedExactly(cal: Calendar, kyc: Kyc, w: World, user: nat, amount: int)
    requires IsCalendar(cal) && forall k :: 0 <= k < |w.rows| ==> w.rows[k].requestedAt <= w.now
    ensures Check(cal, kyc, w.rows, user, amount, w.now).CanWithdraw() <==> (
              && amount <= LimitsOf(kyc).perTransaction
              && PeriodSum(w.rows, user, cal.day, cal.day(w.now)) + amount <= LimitsOf(kyc).daily
              && PeriodSum(w.rows, user, cal.month, cal.month(w.now)) + amount <= LimitsOf(kyc).monthly
              && (forall k :: 0 <= k < |w.rows| && w.rows[k].user == user ==> w.now - w.rows[k].requestedAt >= HOUR))
  {
    hide SumSince, CountSince, LimitsOf, PeriodSum, LastRequest;
    SinceStartIsPeriod(w.rows, user, cal.day, w.now);
    SinceStartIsPeriod(w.rows, user, cal.month, w.now);
  }

  /** What a user of each standing may withdraw at once, in a day and in a month, in whole rupiah. */
  predicate InRupiah(kyc: Kyc, perTransaction: int, daily: int, monthly: int) {
    match kyc
    case NoKyc => (perTransaction, daily, monthly) == (1_000_000, 5_000_000, 20_000_000)
    case PendingKyc => (perTransaction, daily, monthly) == (10_000_000, 25_000_000, 100_000_000)
    case Verified => (perTransaction, daily, monthly) == (50_000_000, 100_000_000, 500_000_000)
    case RejectedKyc => (perTransaction, daily, monthly) == (500_000, 1_000_000, 5_000_000)
  }

  /**
   The first rule a request breaks is the one reported, with what is left of the limit or the least number of
   minutes to wait. Limits are in rupiah and amounts in hundredths of it; a period's sum is over its requests.
   */
  lemma RefusedExactly(cal: Calendar, kyc: Kyc, w: World, user: nat, amount: int, perTransaction: int, daily: int, monthly: int)
    requires IsCalendar(cal) && (forall k :: 0 <= k < |w.rows| ==> w.rows[k].requestedAt <= w.now)
    requires InRupiah(kyc, perTransaction, daily, monthly)
    ensures var check := Check(cal, kyc, w.rows, user, amount, w.now);
      var today, thisMonth := PeriodSum(w.rows, user, cal.day, cal.day(w.now)), PeriodSum(w.rows, user, cal.month, cal.month(w.now));
      && check.dailyUsed == today && check.monthlyUsed == thisMonth
      && (if amount > 100 * perTransaction then check.reason == Some(OverTransactionLimit)
          else if today + amount > 100 * daily then check.reason == Some(OverDailyLimit(100 * daily - today))
          else if thisMonth + amount > 100 * monthly then check.reason == Some(OverMonthlyLimit(100 * monthly - thisMonth))
          else check.reason.None? || check.reason.value.StillCooling?)
  {
    hide SumSince, CountSince, PeriodSum, LastRequest;
    SinceStartIsPeriod(w.rows, user, cal.day, w.now);
    SinceStartIsPeriod(w.rows, user, cal.month, w.now);
  }

  /** Who is told to wait has asked within the last hour, and the minutes given are the fewest after which that is an hour ago. */
  lemma WaitIsLeast(cal: Calendar, kyc: Kyc, rows: seq<Withdrawal>, user: nat, amount: int, now: int)
    requires forall k :: 0 <= k < |rows| ==> rows[k].requestedAt <= now
    requires var reason := Check(cal, kyc, rows, user, amount, now).reason; reason.Some? && reason.value.StillCooling?
    ensures var minutes := Check(cal, kyc, rows, user, amount, now).reason.value.minutes;
      && minutes > 0
      && (forall k :: 0 <= k < |rows| && rows[k].user == user ==> now + minutes * 60000 - rows[k].requestedAt >= 3600000)
      && (exists k :: 0 <= k < |rows| && rows[k].user == user && now + (minutes - 1) * 60000 - rows[k].requestedAt < 3600000)
  {
    hide SumSince, CountSince, LimitsOf;
    var k :| 0 <= k < |rows| && rows[k].user == user && rows[k].requestedAt == LastRequest(rows, user).value;
    hide LastRequest;
    var minutes := Check(cal, kyc, rows, user, amount, now).reason.value.minutes;
    assert now + (minutes - 1) * 60000 - rows[k].requestedAt < 3600000;
  }

  /** No day and no month of any user holds more than its limit. */
  ghost predicate Within(cal: Calendar, kyc: nat -> Kyc, w: World) {
    forall user, period :: PeriodWithin(cal, kyc, w.rows, user, period)
  }

  predicate PeriodWithin(cal: Calendar, kyc: nat -> Kyc, rows: seq<Withdrawal>, user: nat, period: int) {
    && PeriodSum(rows, user, cal.day, period) <= LimitsOf(kyc(user)).daily
    && PeriodSum(rows, user, cal.month, period) <= LimitsOf(kyc(user)).monthly
  }

  ghost predicate Tidy(w: World) {
    forall k :: 0 <= k < |w.rows| ==> w.rows[k].requestedAt <= w.now && w.rows[k].amount >= 0
  }

  /** Requests ask for no negative amount, and rows move only between statuses as given. */
  predicate Allowed(w: World, e: Event, moves: set<(Status, Status)>) {
    match e
    case Request(_, amount) => amount >= 0
    case Move(i, status) => i < |w.rows| ==> (w.rows[i].status, status) in moves
    case Wait(_) => true
  }

  /** No move brings a withdrawal back into the sums. */
  ghost predicate NeverRecounted(moves: set<(Status, Status)>) {
    forall a, b :: (a, b) in moves && !Counts(a) ==> !Counts(b)
  }

  lemma {:induction false} MoveShrinksSum(rows: seq<Withdrawal>, user: nat, start: int -> int, period: int, i: nat, status: Status)
    requires i < |rows| && rows[i].amount >= 0 && (Counts(status) ==> Counts(rows[i].status))
    ensures PeriodSum(rows[i := rows[i].(status := status)], user, start, period) <= PeriodSum(rows, user, start, period)
  {
    var n := |rows| - 1;
    var moved := rows[i := rows[i].(status := status)];
    if i == n {
      assert moved[..n] == rows[..n];
    } else {
      MoveShrinksSum(rows[..n], user, start, period, i, status);
      assert moved[..n] == rows[..n][i := rows[i].(status := status)];
    }
  }

  lemma RequestKeepsWithin(cal: Calendar, kyc: nat -> Kyc, w: World, user: nat, amount: int)
    requires IsCalendar(cal) && Tidy(w) && Within(cal, kyc, w) && amount >= 0
    requires Check(cal, kyc(user), w.rows, user, amount, w.now).CanWithdraw()
    ensures Within(cal, kyc, w.(rows := w.rows + [Withdrawal(user, amount, w.now, Pending, None)]))
  {
    hide Check, LimitsOf;
    AdmittedExactly(cal, kyc(user), w, user, amount);
    var longer := w.rows + [Withdrawal(user, amount, w.now, Pending, None)];
    assert longer[..|longer| - 1] == w.rows;
    forall u: nat, period: int
      ensures PeriodWithin(cal, kyc, longer, u, period)
    {
      assert PeriodWithin(cal, kyc, w.rows, u, period);
    }
  }

  lemma MoveKeepsWithin(cal: Calendar, kyc: nat -> Kyc, w: World, i: nat, status: Status)
    requires Tidy(w) && Within(cal, kyc, w) && i < |w.rows| && (Counts(status) ==> Counts(w.rows[i].status))
    ensures Within(cal, kyc, w.(rows := w.rows[i := w.rows[i].(status := status)]))
  {
    hide PeriodSum, LimitsOf;
    var moved := w.rows[i := w.rows[i].(status := status)];
    forall u: nat, period: int
      ensures PeriodWithin(cal, kyc, moved, u, period)
    {
      assert PeriodWithin(cal, kyc, w.rows, u, period);
      MoveShrinksSum(w.rows, u, cal.day, period, i, status);
      MoveShrinksSum(w.rows, u, cal.month, period, i, status);
    }
  }

  lemma StepStaysWithin(cal: Calendar, kyc: nat -> Kyc, moves: set<(Status, Status)>, w: World, e: Event)
    requires IsCalendar(cal) && NeverRecounted(moves)
    requires Tidy(w) && Within(cal, kyc, w) && Allowed(w, e, moves)
    ensures Within(cal, kyc, Step(cal, kyc, w, e)) && Tidy(Step(cal, kyc, w, e))
  {
    hide Check, Within;
    match e
    case Request(user, amount) =>
      if Check(cal, kyc(user), w.rows, user, amount, w.now).CanWithdraw() {
        RequestKeepsWithin(cal, kyc, w, user, amount);
      }
    case Move(i, status) =>
      if i < |w.rows| {
        MoveKeepsWithin(cal, kyc, w, i, status);
      }
    case Wait(ms) =>
      SameRowsWithin(cal, kyc, w, Step(cal, kyc, w, e));
  }

  lemma SameRowsWithin(cal: Calendar, kyc: nat -> Kyc, w: World, v: World)
    requires w.rows == v.rows && Within(cal, kyc, w)
    ensures Within(cal, kyc, v)
  {
  }

  lemma SumOfTwo(x: Withdrawal, y: Withdrawal, user: nat, start: int -> int, period: int)
    ensures PeriodSum([x, y], user, start, period) ==
            (if x.user == user && start(x.requestedAt) == period && Counts(x.status) then x.amount else 0)
            + (if y.user == user && start(y.requestedAt) == period && Counts(y.status) then y.amount else 0)
  {
    assert [x, y][..1] == [x] && [x][..0] == [];
    assert PeriodSum([x], user, start, period) == PeriodSum([x][..0], user, start, period) +
      if x.user == user && start(x.requestedAt) == period && Counts(x.status) then x.amount else 0;
  }

  /** Every event of the run respects the moves where it happens. */
  ghost predicate AllowedRun(cal: Calendar, kyc: nat -> Kyc, w: World, run: seq<Event>, moves: set<(Status, Status)>) {
    forall i :: 0 <= i < |run| ==> Allowed(Run(cal, kyc, w, run[..i]), run[i], moves)
  }

  lemma OneMoreEvent(cal: Calendar, kyc: nat -> Kyc, w: World, run: seq<Event>, e: Event)
    ensures Run(cal, kyc, w, run + [e]) == Step(cal, kyc, Run(cal, kyc, w, run), e)
  {
    assert (run + [e])[..|run + [e]| - 1] == run;
  }

  /** A verified user's two withdrawals of half the daily limit; the first fails, a third takes its place, and the first is completed after all. */
  function LateCompletion(): seq<Event> {
    var half := LimitsOf(Verified).perTransaction;
    [Request(0, half), Wait(HOUR), Request(0, half), Move(0, Failed)] + [Wait(HOUR)] + [Request(0, half)] + [Move(0, Completed)]
  }

  lemma HalfLimitIsAdmitted(cal: Calendar, kyc: nat -> Kyc, w: World)
    requires IsCalendar(cal) && kyc(0) == Verified && (forall k :: 0 <= k < |w.rows| ==> w.rows[k].requestedAt <= w.now - HOUR)
    requires PeriodSum(w.rows, 0, cal.day, cal.day(w.now)) <= LimitsOf(Verified).perTransaction
    requires PeriodSum(w.rows, 0, cal.month, cal.month(w.now)) <= LimitsOf(Verified).perTransaction
    ensures Step(cal, kyc, w, Request(0, LimitsOf(Verified).perTransaction)) ==
            w.(rows := w.rows + [Withdrawal(0, LimitsOf(Verified).perTransaction, w.now, Pending, None)])
  {
    hide Check, PeriodSum;
    AdmittedExactly(cal, Verified, w, 0, LimitsOf(Verified).perTransaction);
  }

  lemma SameDay(cal: Calendar, start: int, at: int, end: int)
    requires IsCalendar(cal) && start <= at <= end && cal.day(start) == cal.day(end)
    ensures cal.day(at) == cal.day(start) && cal.month(at) == cal.month(start)
  {
    assert cal.month(cal.day(at)) == cal.month(at) && cal.month(cal.day(start)) == cal.month(start);
  }

  /** A late completion, as the disbursement webhook performs it without looking at the old status, breaks the daily limit. */
  lemma LateCompletionBreaksLimit(cal: Calendar, kyc: nat -> Kyc, start: int)
    requires IsCalendar(cal) && kyc(0) == Verified && cal.day(start) == cal.day(start + 2 * HOUR)
    ensures var w := Run(cal, kyc, World(start, []), LateCompletion());
            PeriodSum(w.rows, 0, cal.day, cal.day(start)) > LimitsOf(Verified).daily
  {
    hide Check, Run, IsPeriod;
    var half := LimitsOf(Verified).perTransaction;
    var w0 := World(start, []);
    SameDay(cal, start, start + HOUR, start + 2 * HOUR);
    SameDay(cal, start, start + 2 * HOUR, start + 2 * HOUR);
    var a := Withdrawal(0, half, start, Pending, None);
    var b := Withdrawal(0, half, start + HOUR, Pending, None);
    var c := Withdrawal(0, half, start + 2 * HOUR, Pending, None);
    FirstHalves(cal, kyc, start);
    var run4 := [Request(0, half), Wait(HOUR), Request(0, half), Move(0, Failed)];
    var w5 := World(start + 2 * HOUR, [a.(status := Failed), b]);
    OneMoreEvent(cal, kyc, w0, run4, Wait(HOUR));
    SumOfTwo(w5.rows[0], w5.rows[1], 0, cal.day, cal.day(start));
    SumOfTwo(w5.rows[0], w5.rows[1], 0, cal.month, cal.month(start));
    HalfLimitIsAdmitted(cal, kyc, w5);
    OneMoreEvent(cal, kyc, w0, run4 + [Wait(HOUR)], Request(0, half));
    OneMoreEvent(cal, kyc, w0, run4 + [Wait(HOUR)] + [Request(0, half)], Move(0, Completed));
    var rows := Run(cal, kyc, w0, LateCompletion()).rows;
    assert rows == [a.(status := Completed), b, c];
    assert rows[..2] == [a.(status := Completed), b];
    SumOfTwo(rows[0], rows[1], 0, cal.day, cal.day(start));
  }

  lemma FirstHalf(cal: Calendar, kyc: nat -> Kyc, start: int)
    requires IsCalendar(cal) && kyc(0) == Verified
    ensures var half := LimitsOf(Verified).perTransaction;
            Run(cal, kyc, World(start, []), [Request(0, half), Wait(HOUR)]) ==
            World(start + HOUR, [Withdrawal(0, half, start, Pending, None)])
  {
    hide Check, Run, IsPeriod, PeriodSum;
    var half := LimitsOf(Verified).perTransaction;
    var w0 := World(start, []);
    NoEvents(cal, kyc, w0);
    NoRows(0, cal.day, cal.day(start));
    NoRows(0, cal.month, cal.month(start));
    HalfLimitIsAdmitted(cal, kyc, w0);
    assert [] + [Request(0, half)] == [Request(0, half)];
    assert [Request(0, half)] + [Wait(HOUR)] == [Request(0, half), Wait(HOUR)];
    OneMoreEvent(cal, kyc, w0, [], Request(0, half));
    OneMoreEvent(cal, kyc, w0, [Request(0, half)], Wait(HOUR));
  }

  lemma NoRows(user: nat, start: int -> int, period: int)
    ensures PeriodSum([], user, start, period) == 0
  {
  }

  lemma OneRow(x: Withdrawal, user: nat, start: int -> int, period: int)
    requires x.amount >= 0
    ensures PeriodSum([x], user, start, period) <= x.amount
  {
    assert [x][..0] == [];
    NoRows(user, start, period);
  }

  lemma FirstHalves(cal: Calendar, kyc: nat -> Kyc, start: int)
    requires IsCalendar(cal) && kyc(0) == Verified
    ensures var half := LimitsOf(Verified).perTransaction;
            Run(cal, kyc, World(start, []), [Request(0, half), Wait(HOUR), Request(0, half), Move(0, Failed)]) ==
            World(start + HOUR, [Withdrawal(0, half, start, Failed, None), Withdrawal(0, half, start + HOUR, Pending, None)])
  {
    hide Check, Run, IsPeriod, PeriodSum;
    var half := LimitsOf(Verified).perTransaction;
    var w0, now := World(start, []), start + HOUR;
    var a, b := Withdrawal(0, half, start, Pending, None), Withdrawal(0, half, now, Pending, None);
    FirstHalf(cal, kyc, start);
    OneRow(a, 0, cal.day, cal.day(now));
    OneRow(a, 0, cal.month, cal.month(now));
    HalfLimitIsAdmitted(cal, kyc, World(now, [a]));
    var first := [Request(0, half), Wait(HOUR)];
    OneMoreEvent(cal, kyc, w0, first, Request(0, half));
    OneMoreEvent(cal, kyc, w0, first + [Request(0, half)], Move(0, Failed));
    assert first + [Request(0, half)] + [Move(0, Failed)] == [Request(0, half), Wait(HOUR), Request(0, half), Move(0, Failed)];
    assert [a] + [b] == [a, b] && [a, b][0 := a.(status := Failed)] == [a.(status := Failed), b];
  }

  lemma NoEvents(cal: Calendar, kyc: nat -> Kyc, w: World)
    ensures Run(cal, kyc, w, []) == w
  {
  }

  // ---------- the limits over whole runs, exactly ----------

  /** The statuses a stored request can come to have: from pending along the moves. */
  ghost predicate Reachable(moves: set<(Status, Status)>, path: seq<Status>) {
    && |path| > 0 && path[0] == Pending
    && (forall i :: 0 <= i < |path| - 1 ==> (path[i], path[i + 1]) in moves)
  }

  ghost predicate CanBecome(moves: set<(Status, Status)>, s: Status) {
    exists path :: Reachable(moves, path) && path[|path| - 1] == s
  }

  /** No move brings a withdrawal that is out of the sums back into them, from a status a request can come to have. */
  ghost predicate RecountsNobody(moves: set<(Status, Status)>) {
    forall a, b :: (a, b) in moves && CanBecome(moves, a) && !Counts(a) ==> !Counts(b)
  }

  ghost predicate StatusesReachable(w: World, moves: set<(Status, Status)>) {
    forall k :: 0 <= k < |w.rows| ==> CanBecome(moves, w.rows[k].status)
  }

  lemma PendingIsReachable(moves: set<(Status, Status)>)
    ensures CanBecome(moves, Pending)
  {
    assert Reachable(moves, [Pending]) && [Pending][0] == Pending;
  }

  lemma MoveIsReachable(moves: set<(Status, Status)>, a: Status, b: Status)
    requires CanBecome(moves, a) && (a, b) in moves
    ensures CanBecome(moves, b)
  {
    var path :| Reachable(moves, path) && path[|path| - 1] == a;
    assert Reachable(moves, path + [b]) && (path + [b])[|path + [b]| - 1] == b;
  }

  lemma StepKeepsReachable(cal: Calendar, kyc: nat -> Kyc, w: World, e: Event, moves: set<(Status, Status)>)
    requires StatusesReachable(w, moves) && Allowed(w, e, moves)
    ensures StatusesReachable(Step(cal, kyc, w, e), moves)
  {
    hide Check, CanBecome;
    PendingIsReachable(moves);
    if e.Move? && e.row < |w.rows| {
      MoveIsReachable(moves, w.rows[e.row].status, e.status);
    }
  }

  /** The given move as the only one: what a single step looks at. */
  lemma ReachableStepStaysWithin(cal: Calendar, kyc: nat -> Kyc, moves: set<(Status, Status)>, w: World, e: Event)
    requires IsCalendar(cal) && RecountsNobody(moves) && StatusesReachable(w, moves)
    requires Tidy(w) && Within(cal, kyc, w) && Allowed(w, e, moves)
    ensures Within(cal, kyc, Step(cal, kyc, w, e)) && Tidy(Step(cal, kyc, w, e))
  {
    hide Within, Check, CanBecome, Step;
    var single := if e.Move? && e.row < |w.rows| then {(w.rows[e.row].status, e.status)} else {};
    StepStaysWithin(cal, kyc, single, w, e);
  }

  lemma {:induction false} EveryRunStaysWithin(cal: Calendar, kyc: nat -> Kyc, start: int, run: seq<Event>, moves: set<(Status, Status)>)
    requires IsCalendar(cal) && RecountsNobody(moves) && AllowedRun(cal, kyc, World(start, []), run, moves)
    ensures var w := Run(cal, kyc, World(start, []), run);
            Within(cal, kyc, w) && Tidy(w) && StatusesReachable(w, moves)
  {
    var w0 := World(start, []);
    if run != [] {
      var front := run[..|run| - 1];
      forall i | 0 <= i < |front|
        ensures Allowed(Run(cal, kyc, w0, front[..i]), front[i], moves)
      {
        assert front[..i] == run[..i];
      }
      EveryRunStaysWithin(cal, kyc, start, front, moves);
      hide Within, Step, StatusesReachable, RecountsNobody;
      ReachableStepStaysWithin(cal, kyc, moves, Run(cal, kyc, w0, front), run[|run| - 1]);
      StepKeepsReachable(cal, kyc, Run(cal, kyc, w0, front), run[|run| - 1], moves);
    } else {
      forall user: nat
        ensures LimitsOf(kyc(user)).daily > 0 && LimitsOf(kyc(user)).monthly > 0
      {
      }
    }
  }

  /** The run respects the moves and leads from an empty table to this world. */
  ghost predicate Leads(cal: Calendar, kyc: nat -> Kyc, start: int, run: seq<Event>, w: World, moves: set<(Status, Status)>) {
    Run(cal, kyc, World(start, []), run) == w && AllowedRun(cal, kyc, World(start, []), run, moves)
  }

  lemma Extend(cal: Calendar, kyc: nat -> Kyc, start: int, run: seq<Event>, w: World, e: Event, moves: set<(Status, Status)>)
    returns (longer: seq<Event>, after: World)
    requires Leads(cal, kyc, start, run, w, moves) && Allowed(w, e, moves)
    ensures after == Step(cal, kyc, w, e) && Leads(cal, kyc, start, longer, after, moves)
  {
    hide Allowed, Step;
    longer, after := run + [e], Step(cal, kyc, w, e);
    OneMoreEvent(cal, kyc, World(start, []), run, e);
    forall i | 0 <= i < |longer|
      ensures Allowed(Run(cal, kyc, World(start, []), longer[..i]), longer[i], moves)
    {
      if i < |run| {
        assert longer[..i] == run[..i];
      } else {
        assert longer[..i] == run;
      }
    }
  }

  /** So many hours later. */
  function At(start: int, k: nat): int {
    if k == 0 then start else At(start, k - 1) + HOUR
  }

  lemma {:induction false} LaterIsLater(start: int, j: nat, k: nat)
    requires j <= k
    ensures start <= At(start, j) <= At(start, k) && (j < k ==> At(start, k) - At(start, j) >= HOUR)
  {
    if j < k {
      LaterIsLater(start, j, k - 1);
    } else if k > 0 {
      LaterIsLater(start, j - 1, k - 1);
    }
  }

  /** A fifth of the daily limit: within the per-transaction limit at every level. */
  function Fifth(kyc: Kyc): int {
    LimitsOf(kyc).daily / 5
  }

  /** One request in the given status, and so many pending ones an hour apart after it, each a fifth of the daily limit. */
  function Hourly(kyc: Kyc, start: int, status: Status, k: nat): seq<Withdrawal> {
    if k == 0 then [Withdrawal(0, Fifth(kyc), start, status, None)]
    else Hourly(kyc, start, status, k - 1) + [Withdrawal(0, Fifth(kyc), At(start, k), Pending, None)]
  }

  lemma {:induction false} HourlyRows(kyc: Kyc, start: int, status: Status, k: nat)
    ensures |Hourly(kyc, start, status, k)| == k + 1 && Hourly(kyc, start, status, k)[0] == Withdrawal(0, Fifth(kyc), start, status, None)
    ensures forall j: nat :: 0 <= j <= k ==> Hourly(kyc, start, status, k)[j].requestedAt == At(start, j)
    ensures forall to: Status :: Hourly(kyc, start, status, k)[0 := Withdrawal(0, Fifth(kyc), start, to, None)] == Hourly(kyc, start, to, k)
  {
    if k > 0 {
      HourlyRows(kyc, start, status, k - 1);
      var front := Hourly(kyc, start, status, k - 1);
      forall to: Status
        ensures Hourly(kyc, start, status, k)[0 := Withdrawal(0, Fifth(kyc), start, to, None)] == Hourly(kyc, start, to, k)
      {
        assert front[0 := Withdrawal(0, Fifth(kyc), start, to, None)] == Hourly(kyc, start, to, k - 1);
      }
    }
  }

  /** So many fifths. */
  function Fifths(kyc: Kyc, k: nat): int {
    if k == 0 then 0 else Fifths(kyc, k - 1) + Fifth(kyc)
  }

  lemma OneMoreHour(kyc: Kyc, start: int, status: Status, k: nat, period: int -> int)
    requires period(At(start, k + 1)) == period(start)
    ensures PeriodSum(Hourly(kyc, start, status, k + 1), 0, period, period(start)) ==
            PeriodSum(Hourly(kyc, start, status, k), 0, period, period(start)) + Fifth(kyc)
  {
    hide Fifth;
    var rows := Hourly(kyc, start, status, k + 1);
    assert rows[..|rows| - 1] == Hourly(kyc, start, status, k);
  }

  lemma FirstHour(kyc: Kyc, start: int, status: Status, period: int -> int)
    ensures PeriodSum(Hourly(kyc, start, status, 0), 0, period, period(start)) == Fifths(kyc, if Counts(status) then 1 else 0)
  {
    hide Fifth;
    var x := Withdrawal(0, Fifth(kyc), start, status, None);
    assert [x][..0] == [];
    NoRows(0, period, period(start));
  }

  lemma {:induction false} HourlySum(kyc: Kyc, start: int, status: Status, k: nat, period: int -> int)
    requires forall j: nat :: 0 <= j <= k ==> period(At(start, j)) == period(start)
    ensures PeriodSum(Hourly(kyc, start, status, k), 0, period, period(start)) == Fifths(kyc, k + if Counts(status) then 1 else 0)
  {
    hide PeriodSum, Hourly, Fifth;
    if k == 0 {
      FirstHour(kyc, start, status, period);
    } else {
      HourlySum(kyc, start, status, k - 1, period);
      assert period(At(start, k)) == period(start);
      OneMoreHour(kyc, start, status, k - 1, period);
    }
  }

  /** A day and a month of the calendar that the six requests fit into. */
  predicate LongDay(cal: Calendar, start: int) {
    cal.day(start) == cal.day(At(start, 5))
  }

  lemma SameHours(cal: Calendar, start: int)
    requires IsCalendar(cal) && LongDay(cal, start)
    ensures forall j: nat :: 0 <= j <= 5 ==> cal.day(At(start, j)) == cal.day(start) && cal.month(At(start, j)) == cal.month(start)
  {
    forall j: nat | 0 <= j <= 5
      ensures cal.day(At(start, j)) == cal.day(start) && cal.month(At(start, j)) == cal.month(start)
    {
      LaterIsLater(start, j, 5);
      SameDay(cal, start, At(start, j), At(start, 5));
    }
  }

  lemma HourlyIsOld(kyc: Kyc, start: int, status: Status, k: nat, j: nat)
    requires j <= k
    ensures j < |Hourly(kyc, start, status, k)| && At(start, k + 1) - Hourly(kyc, start, status, k)[j].requestedAt >= HOUR
  {
    hide Hourly;
    HourlyRows(kyc, start, status, k);
    LaterIsLater(start, j, k + 1);
  }

  lemma RoomForFifth(cal: Calendar, kyc: Kyc, start: int, status: Status, k: nat)
    requires IsCalendar(cal) && LongDay(cal, start) && k < 5 && !Counts(status)
    ensures var rows, now, q, limits := Hourly(kyc, start, status, k), At(start, k + 1), Fifth(kyc), LimitsOf(kyc);
      && q <= limits.perTransaction
      && PeriodSum(rows, 0, cal.day, cal.day(now)) + q <= limits.daily
      && PeriodSum(rows, 0, cal.month, cal.month(now)) + q <= limits.monthly
  {
    hide PeriodSum, Hourly, Fifth, Fifths, LimitsOf, IsCalendar, LongDay;
    SameHours(cal, start);
    HourlySum(kyc, start, status, k, cal.day);
    HourlySum(kyc, start, status, k, cal.month);
    FifthsFit(kyc, k);
    var next := k + 1;
    assert cal.day(At(start, next)) == cal.day(start) && cal.month(At(start, next)) == cal.month(start);
  }

  /** The next hour's request fits as long as the counted fifths leave room. */
  lemma NextFifthIsAdmitted(cal: Calendar, kyc: nat -> Kyc, start: int, status: Status, k: nat)
    requires IsCalendar(cal) && LongDay(cal, start) && k < 5 && !Counts(status)
    ensures var w := World(At(start, k + 1), Hourly(kyc(0), start, status, k));
      Step(cal, kyc, w, Request(0, Fifth(kyc(0)))) == World(w.now, Hourly(kyc(0), start, status, k + 1))
  {
    var w := World(At(start, k + 1), Hourly(kyc(0), start, status, k));
    hide Check, PeriodSum, Hourly, Fifth, LimitsOf, IsCalendar, LongDay;
    RoomForFifth(cal, kyc(0), start, status, k);
    HourlyRows(kyc(0), start, status, k);
    forall j: nat | 0 <= j < |w.rows|
      ensures w.now - w.rows[j].requestedAt >= HOUR
    {
      HourlyIsOld(kyc(0), start, status, k, j);
    }
    AdmittedExactly(cal, kyc(0), w, 0, Fifth(kyc(0)));
    HourlyGrows(kyc(0), start, status, k);
  }

  lemma HourlyGrows(kyc: Kyc, start: int, status: Status, k: nat)
    ensures Hourly(kyc, start, status, k + 1) == Hourly(kyc, start, status, k) + [Withdrawal(0, Fifth(kyc), At(start, k + 1), Pending, None)]
  {
  }

  lemma FifthsFit(kyc: Kyc, k: nat)
    requires k < 5
    ensures var q, limits := Fifth(kyc), LimitsOf(kyc);
      0 < q <= limits.perTransaction && Fifths(kyc, k) + q <= limits.daily <= limits.monthly && Fifths(kyc, 6) > limits.daily
  {
    FifthsAre(kyc);
  }

  lemma FifthsAre(kyc: Kyc)
    ensures Fifths(kyc, 0) == 0 && Fifths(kyc, 1) == Fifth(kyc) && Fifths(kyc, 2) == 2 * Fifth(kyc) && Fifths(kyc, 3) == 3 * Fifth(kyc)
    ensures Fifths(kyc, 4) == 4 * Fifth(kyc) && Fifths(kyc, 5) == 5 * Fifth(kyc) && Fifths(kyc, 6) == 6 * Fifth(kyc)
  {
    hide Fifth;
    assert Fifths(kyc, 2) == 2 * Fifth(kyc);
    assert Fifths(kyc, 4) == 4 * Fifth(kyc);
  }

  /** Along a path of moves the first request comes to have the path's last status. */
  lemma {:induction false} FollowPath(cal: Calendar, kyc: nat -> Kyc, start: int, moves: set<(Status, Status)>, path: seq<Status>)
    returns (run: seq<Event>, w: World)
    requires IsCalendar(cal) && Reachable(moves, path)
    ensures Leads(cal, kyc, start, run, w, moves) && w == World(start, Hourly(kyc(0), start, path[|path| - 1], 0))
    decreases |path|
  {
    if |path| == 1 {
      run, w := FirstFifth(cal, kyc, start, moves);
    } else {
      var front := path[..|path| - 1];
      run, w := FollowPath(cal, kyc, start, moves, front);
      hide Leads, Fifth;
      HourlyRows(kyc(0), start, front[|front| - 1], 0);
      assert (path[|path| - 2], path[|path| - 1]) in moves;
      run, w := Extend(cal, kyc, start, run, w, Move(0, path[|path| - 1]), moves);
    }
  }

  lemma FirstFifth(cal: Calendar, kyc: nat -> Kyc, start: int, moves: set<(Status, Status)>) returns (run: seq<Event>, w: World)
    requires IsCalendar(cal)
    ensures Leads(cal, kyc, start, run, w, moves) && w == World(start, Hourly(kyc(0), start, Pending, 0))
  {
    run, w := [], World(start, []);
    assert Leads(cal, kyc, start, run, w, moves);
    var q := Fifth(kyc(0));
    FifthsFit(kyc(0), 0);
    NoRows(0, cal.day, cal.day(start));
    NoRows(0, cal.month, cal.month(start));
    hide Check, Leads, Fifth, LimitsOf, PeriodSum;
    AdmittedExactly(cal, kyc(0), w, 0, q);
    run, w := Extend(cal, kyc, start, run, w, Request(0, q), moves);
    assert w.rows == [Withdrawal(0, q, start, Pending, None)];
  }

  /** An hour later, the next of the five. */
  lemma FillHour(cal: Calendar, kyc: nat -> Kyc, start: int, moves: set<(Status, Status)>, status: Status, k: nat, run0: seq<Event>)
    returns (run: seq<Event>, w: World)
    requires IsCalendar(cal) && LongDay(cal, start) && k < 5 && !Counts(status)
    requires Leads(cal, kyc, start, run0, World(At(start, k), Hourly(kyc(0), start, status, k)), moves)
    ensures Leads(cal, kyc, start, run, w, moves) && w == World(At(start, k + 1), Hourly(kyc(0), start, status, k + 1))
  {
    var rows := Hourly(kyc(0), start, status, k);
    NextFifthIsAdmitted(cal, kyc, start, status, k);
    assert Fifth(kyc(0)) >= 0 && At(start, k + 1) == At(start, k) + HOUR;
    hide Leads, Hourly, Check, Fifth, At, IsCalendar, LongDay;
    run, w := Extend(cal, kyc, start, run0, World(At(start, k), rows), Wait(HOUR), moves);
    run, w := Extend(cal, kyc, start, run, World(At(start, k + 1), rows), Request(0, Fifth(kyc(0))), moves);
  }

  /** Hour by hour five more requests fill the day. */
  lemma {:induction false} FillDay(cal: Calendar, kyc: nat -> Kyc, start: int, moves: set<(Status, Status)>, status: Status, k: nat, run0: seq<Event>)
    returns (run: seq<Event>, w: World)
    requires IsCalendar(cal) && LongDay(cal, start) && k <= 5 && !Counts(status)
    requires Leads(cal, kyc, start, run0, World(start, Hourly(kyc(0), start, status, 0)), moves)
    ensures Leads(cal, kyc, start, run, w, moves) && w == World(At(start, k), Hourly(kyc(0), start, status, k))
    decreases k
  {
    hide Leads, Hourly, IsCalendar, LongDay;
    if k == 0 {
      run, w := run0, World(start, Hourly(kyc(0), start, status, 0));
    } else {
      run, w := FillDay(cal, kyc, start, moves, status, k - 1, run0);
      run, w := FillHour(cal, kyc, start, moves, status, k - 1, run);
    }
  }

  /** A request that leaves the sums, five more that fill the day, and the first one counted again. */
  lemma RecountingExceeds(cal: Calendar, kyc: nat -> Kyc, start: int, moves: set<(Status, Status)>, a: Status, b: Status)
    returns (run: seq<Event>)
    requires IsCalendar(cal) && LongDay(cal, start) && CanBecome(moves, a) && (a, b) in moves && !Counts(a) && Counts(b)
    ensures AllowedRun(cal, kyc, World(start, []), run, moves) && !Within(cal, kyc, Run(cal, kyc, World(start, []), run))
  {
    var path :| Reachable(moves, path) && path[|path| - 1] == a;
    var w;
    run, w := FollowPath(cal, kyc, start, moves, path);
    run, w := FillDay(cal, kyc, start, moves, a, 5, run);
    HourlyRows(kyc(0), start, a, 5);
    run, w := RecountFirst(cal, kyc, start, moves, a, b, run);
    SameHours(cal, start);
    HourlySum(kyc(0), start, b, 5, cal.day);
    FifthsFit(kyc(0), 4);
    assert !PeriodWithin(cal, kyc, w.rows, 0, cal.day(start));
  }

  lemma RecountFirst(cal: Calendar, kyc: nat -> Kyc, start: int, moves: set<(Status, Status)>, a: Status, b: Status, run0: seq<Event>)
    returns (run: seq<Event>, w: World)
    requires Leads(cal, kyc, start, run0, World(At(start, 5), Hourly(kyc(0), start, a, 5)), moves) && (a, b) in moves
    ensures Leads(cal, kyc, start, run, w, moves) && w.rows == Hourly(kyc(0), start, b, 5)
  {
    hide Leads, Hourly, Fifth;
    HourlyRows(kyc(0), start, a, 5);
    run, w := Extend(cal, kyc, start, run0, World(At(start, 5), Hourly(kyc(0), start, a, 5)), Move(0, b), moves);
  }

  /** From an empty table, every run that respects the moves keeps every day and month of every user within its limit. */
  ghost predicate RunsStayWithin(cal: Calendar, kyc: nat -> Kyc, moves: set<(Status, Status)>) {
    forall start: int, run: seq<Event> :: AllowedRun(cal, kyc, World(start, []), run, moves) ==> Within(cal, kyc, Run(cal, kyc, World(start, []), run))
  }

  /**
   On a calendar with a day of more than five hours, the limits hold over all runs exactly when no status a
   request can come to have, and that is out of the sums, moves back into them.
   */
  lemma LimitsHoldExactly(cal: Calendar, kyc: nat -> Kyc, moves: set<(Status, Status)>, start: int)
    requires IsCalendar(cal) && LongDay(cal, start)
    ensures RunsStayWithin(cal, kyc, moves) <==> RecountsNobody(moves)
  {
    hide Within, AllowedRun, Run, CanBecome, Counts;
    if RecountsNobody(moves) {
      forall start: int, run: seq<Event> | AllowedRun(cal, kyc, World(start, []), run, moves)
        ensures Within(cal, kyc, Run(cal, kyc, World(start, []), run))
      {
        EveryRunStaysWithin(cal, kyc, start, run, moves);
      }
    } else {
      var a, b :| (a, b) in moves && CanBecome(moves, a) && !Counts(a) && Counts(b);
      var run := RecountingExceeds(cal, kyc, start, moves, a, b);
    }
  }

  /** A request that leaves pending for processing, failure or rejection and can come back from there breaks the limits. */
  lemma ReturningBreaksLimits(cal: Calendar, kyc: nat -> Kyc, moves: set<(Status, Status)>, start: int, out: Status, back: Status)
    requires IsCalendar(cal) && LongDay(cal, start)
    requires out in {Processing, Failed, Rejected} && back in {Pending, Approved, Completed}
    requires (Pending, out) in moves && (out, back) in moves
    ensures !RunsStayWithin(cal, kyc, moves)
  {
    PendingIsReachable(moves);
    MoveIsReachable(moves, Pending, out);
    hide CanBecome, RunsStayWithin;
    LimitsHoldExactly(cal, kyc, moves, start);
  }

  /** Whatever else statuses do, limits hold when what is being processed, failed or rejected stays among these. */
  lemma NoReturnKeepsLimits(cal: Calendar, kyc: nat -> Kyc, moves: set<(Status, Status)>, start: int)
    requires IsCalendar(cal) && LongDay(cal, start)
    requires forall a, b :: (a, b) in moves && a in {Processing, Failed, Rejected} ==> b in {Processing, Failed, Rejected}
    ensures RunsStayWithin(cal, kyc, moves)
  {
    hide CanBecome, RunsStayWithin;
    LimitsHoldExactly(cal, kyc, moves, start);
  }

  // ---------- the service ----------

  class WithdrawalGuardService {
    const cal: Calendar
    var users: map<nat, Kyc>
    var withdrawals: seq<Withdrawal>

    constructor (cal: Calendar)
      ensures this.cal == cal && users == map[] && withdrawals == []
    {
      this.cal := cal;
      users, withdrawals := map[], [];
    }

    method CheckWithdrawalLimits(user: nat, amount: int, now: int) returns (check: LimitCheck)
      ensures check == Check(cal, if user in users then users[user] else NoKyc, withdrawals, user, amount, now)
    {
      hide SumSince, CountSince, LastRequest, LimitsOf;
      var kycStatus := if user in users then users[user] else NoKyc;
      var limits := LimitsOf(kycStatus);
      var today := cal.day(now);
      var dailyUsed := SumSince(withdrawals, user, today);
      var monthlyUsed := SumSince(withdrawals, user, cal.month(today));
      var last := LastRequest(withdrawals, user);
      var minutes := MinutesSince(last, now);
      var velocityScore := CalculateVelocityScore(user, now);
      check := LimitCheck(None, dailyUsed, monthlyUsed, limits, last, minutes, velocityScore, velocityScore >= 75);
      if amount > limits.perTransaction {
        return check.(reason := Some(OverTransactionLimit));
      }
      if dailyUsed + amount > limits.daily {
        return check.(reason := Some(OverDailyLimit(limits.daily - dailyUsed)));
      }
      if monthlyUsed + amount > limits.monthly {
        return check.(reason := Some(OverMonthlyLimit(limits.monthly - monthlyUsed)));
      }
      if minutes.Some? && minutes.value < COOLING_MINUTES {
        return check.(reason := Some(StillCooling(COOLING_MINUTES - minutes.value)));
      }
    }

    method CalculateVelocityScore(user: nat, now: int) returns (score: int)
      ensures score == VelocityScore(withdrawals, user, now) && 0 <= score <= 100
    {
      hide CountSince;
      var hourly := CountSince(withdrawals, user, now - HOUR);
      var daily := CountSince(withdrawals, user, now - DAY);
      var weekly := CountSince(withdrawals, user, now - 7 * DAY);
      score := 0;
      if hourly >= 3 { score := score + 40; } else if hourly >= 2 { score := score + 20; }
      if daily >= 10 { score := score + 30; } else if daily >= 5 { score := score + 15; }
      if weekly >= 30 { score := score + 30; } else if weekly >= 20 { score := score + 15; }
    }

    /** Marks one stored withdrawal; an unknown one is an error and changes nothing. */
    method FlagWithdrawal(row: nat, reason: string) returns (found: bool)
      modifies this`withdrawals
      ensures found <==> row < |old(withdrawals)|
      ensures withdrawals ==
              if found then old(withdrawals)[row := old(withdrawals)[row].(flagReason := Some(reason))] else old(withdrawals)
    {
      found := row < |withdrawals|;
      if found {
        withdrawals := withdrawals[row := withdrawals[row].(flagReason := Some(reason))];
      }
    }
  }
}
