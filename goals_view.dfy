/** The Goals page: each goal's progress, what is left, the days left until
    its deadline and the chip colour; and the "Add Goal" dialog, which adds
    a goal only once all three of its fields are filled in. */
module GoalsView {
  import opened Base
  import opened ClientStore
  import opened ClientTotals

  /** `1000 * 60 * 60 * 24` */
  const MsPerDay: int := 86400000

  /** The day number, counted from 1970-01-01, of the 1st of March of year
      `y` in the proleptic Gregorian calendar. Years are counted from March,
      so a leap day falls at the end of its year. */
  function MarchFirst(y: int): int {
    var era := y / 400;
    var yoe := y - era * 400;
    era * 146097 + yoe * 365 + yoe / 4 - yoe / 100 - 719468
  }

  /** Days from the 1st of March to a date, months counted from March. */
  function DayOfMarchYear(month: int, day: int): int {
    (153 * ((month + 9) % 12) + 2) / 5 + day - 1
  }

  /** The day number of a calendar date counted from 1970-01-01: a
      date-only string is read as midnight UTC, so `new Date(deadline)` is
      this many days of milliseconds. */
  function EpochDay(d: Date): int {
    MarchFirst(if d.month <= 2 then d.year - 1 else d.year) + DayOfMarchYear(d.month, d.day)
  }

  /** Consecutive days of a month are one day apart. */
  lemma NextDayIsOneLater(y: int, m: int, d: int)
    ensures EpochDay(Date(y, m, d + 1)) == EpochDay(Date(y, m, d)) + 1
  {
  }

  /** Day 0 is 1970-01-01, the epoch of JavaScript's `Date`. */
  lemma EpochIsDayZero()
    ensures EpochDay(Date(1970, 1, 1)) == 0
    ensures EpochDay(Date(2024, 3, 1)) == 19783
  {
    assert MarchFirst(1969) == 4 * 146097 + 369 * 365 + 92 - 3 - 719468;
    assert MarchFirst(2024) == 5 * 146097 + 24 * 365 + 6 - 719468;
  }

  /** The first of a month follows the last day of the month before. */
  lemma NextMonthIsOneLater(y: int, m: int)
    requires 0 <= y <= 9999 && 1 <= m < 12
    ensures EpochDay(Date(y, m + 1, 1)) == EpochDay(Date(y, m, DaysInMonth(y, m))) + 1
  {
    if m == 2 {
      MarchFollowsFebruary(y);
    } else {
      MonthStep(y, m);
    }
  }

  /** Within one March-based year, the first of a month is one day after
      the last day of the month before. */
  lemma MonthStep(y: int, m: int)
    requires 1 <= m < 12 && m != 2
    ensures DayOfMarchYear(m + 1, 1) == DayOfMarchYear(m, DaysInMonth(y, m)) + 1
  {
  }

  /** The 1st of March follows the 28th or, in a leap year, the 29th of
      February. */
  lemma MarchFollowsFebruary(y: int)
    requires 0 <= y <= 9999
    ensures EpochDay(Date(y, 3, 1)) == EpochDay(Date(y, 2, DaysInMonth(y, 2))) + 1
  {
    var d := DaysInMonth(y, 2);
    assert DayOfMarchYear(3, 1) == 0 && DayOfMarchYear(2, d) == 336 + d;
    YearLength(y);
  }

  /** A March-based year has 337 days before its February, which has 28
      days or, by the leap-year rule, 29. */
  lemma YearLength(y: int)
    requires 0 <= y <= 9999
    ensures MarchFirst(y) == MarchFirst(y - 1) + 337 + DaysInMonth(y, 2)
  {
    var q, r := y / 400, y % 400;
    assert MarchFirst(y) == q * 146097 + r * 365 + r / 4 - r / 100 - 719468;
    if r == 0 {
      assert (y - 1) / 400 == q - 1 && (y - 1) - (q - 1) * 400 == 399;
    } else {
      assert (y - 1) / 400 == q && (y - 1) - q * 400 == r - 1;
      LeapStep(y);
    }
  }

  /** Within one 400-year era, the days a year boundary adds follow the
      leap-year rule. */
  lemma LeapStep(y: int)
    requires 0 <= y && y % 400 != 0
    ensures var r := y % 400; r / 4 - (r - 1) / 4 - (r / 100 - (r - 1) / 100) == DaysInMonth(y, 2) - 28
  {
    var q, r := y / 400, y % 400;
    StepDiv(r, 4);
    StepDiv(r, 100);
    ModOfMultiple(100 * q, r, 4);
    ModOfMultiple(4 * q, r, 100);
  }

  /** Adding a multiple of `k` keeps the remainder modulo `k`. */
  lemma ModOfMultiple(a: int, b: int, k: int)
    requires k == 4 || k == 100
    ensures (k * a + b) % k == b % k
  {
    var x := k * a + b;
    var t := x / k - a - b / k;
    assert k * t == b % k - x % k;
    assert -k < k * t < k;
    assert t == 0;
  }

  /** Stepping from `r - 1` to `r` raises `r / k` exactly at multiples of `k`. */
  lemma StepDiv(r: int, k: int)
    requires 1 <= r && (k == 4 || k == 100)
    ensures r / k - (r - 1) / k == (if r % k == 0 then 1 else 0)
  {
    if k == 4 {
      assert r / 4 - (r - 1) / 4 == (if r % 4 == 0 then 1 else 0);
    } else {
      assert r / 100 - (r - 1) / 100 == (if r % 100 == 0 then 1 else 0);
    }
  }

  /** New Year's Day follows the 31st of December. */
  lemma NextYearIsOneLater(y: int)
    requires 0 <= y <= 9999
    ensures EpochDay(Date(y + 1, 1, 1)) == EpochDay(Date(y, 12, 31)) + 1
  {
  }

  function DeadlineMs(d: Date): int {
    EpochDay(d) * MsPerDay
  }

  /** `Math.ceil(a / b)` for a positive divisor: the least `r` with `a <= r * b`. */
  function CeilDiv(a: int, b: int): (r: int)
    requires b > 0
    ensures (r - 1) * b < a <= r * b
  {
    if a % b == 0 then a / b else a / b + 1
  }

  /** Whole multiples of the divisor need no rounding. */
  lemma CeilDivExact(k: int, b: int)
    requires b > 0
    ensures CeilDiv(k * b, b) == k
  {
    var r := CeilDiv(k * b, b);
    assert (r - 1 - k) * b < 0 <= (r - k) * b;
  }

  datatype Progress = Progress(percentage: real, remaining: real, daysLeft: int)

  /** `getGoalProgress`, with the clock reading `nowMs` as a parameter. A zero
      target would divide by zero, so the target must be non-zero. */
  function GoalProgress(g: Goal, nowMs: int): (p: Progress)
    requires g.target != 0.0
    ensures p.percentage * g.target == g.current * 100.0
    ensures g.current + p.remaining == g.target
    ensures (p.daysLeft - 1) * MsPerDay < DeadlineMs(g.deadline) - nowMs <= p.daysLeft * MsPerDay
  {
    Progress(g.current / g.target * 100.0, g.target - g.current, CeilDiv(DeadlineMs(g.deadline) - nowMs, MsPerDay))
  }

  /** The "(n days left)" text appears exactly while the deadline is still
      ahead; once it has passed the count is zero or negative. */
  lemma DaysLeftShownBeforeDeadline(g: Goal, nowMs: int)
    requires g.target != 0.0
    ensures GoalProgress(g, nowMs).daysLeft > 0 <==> DeadlineMs(g.deadline) > nowMs
  {
    var n := GoalProgress(g, nowMs).daysLeft;
    if n > 0 {
      assert (n - 1) * MsPerDay >= 0;
    } else {
      assert n * MsPerDay <= 0;
    }
  }

  /** `getProgressColor` on the Goals page: the more progress, the greener. */
  function GoalTone(percentage: real): (t: Tone)
    ensures t == Success <==> percentage >= 80.0
    ensures t == Error <==> percentage < 50.0
  {
    if percentage >= 80.0 then Success
    else if percentage >= 50.0 then Warning
    else Error
  }

  /** The colour never becomes more alarming as progress grows. */
  lemma GoalToneMonotone(p: real, q: real)
    requires p <= q
    ensures Severity(GoalTone(q)) <= Severity(GoalTone(p))
  {
  }

  /** A goal reached or passed always shows as a success. */
  lemma ReachedGoalIsSuccess(g: Goal, nowMs: int)
    requires g.target > 0.0 && g.current >= g.target
    ensures GoalTone(GoalProgress(g, nowMs).percentage) == Success
  {
    var p := GoalProgress(g, nowMs).percentage;
    assert (p - 100.0) * g.target >= 0.0;
  }

  // ------------------------------------------------------------- dialog

  /** The dialog's text fields, as typed. */
  datatype GoalForm = GoalForm(name: string, target: string, deadline: string)

  const EmptyGoalForm := GoalForm("", "", "")

  /** `formData.name && formData.target && formData.deadline` */
  predicate Complete(f: GoalForm) {
    f.name != "" && f.target != "" && f.deadline != ""
  }

  class GoalsPage {
    var openDialog: bool
    var form: GoalForm

    constructor ()
      ensures !openDialog && form == EmptyGoalForm
    {
      openDialog, form := false, EmptyGoalForm;
    }

    /** `handleOpenDialog`: the form keeps what it holds. */
    method OpenDialog()
      modifies this
      ensures openDialog && form == old(form)
    {
      openDialog := true;
    }

    /** `handleCloseDialog`: closing also empties the form. */
    method CloseDialog()
      modifies this
      ensures !openDialog && form == EmptyGoalForm
    {
      openDialog, form := false, EmptyGoalForm;
    }

    /** `handleSubmit`. `target` and `deadline` are what `parseFloat` and
        `new Date` make of the typed text, and `id` the new record's id. A
        complete form adds one goal and closes the dialog; an incomplete one
        changes nothing and the dialog stays as it was. */
    method Submit(store: Store, id: string, target: real, deadline: Date)
      modifies this, store
      ensures Complete(old(form)) ==>
                && store.goals == old(store.goals) + [Entry(id, Goal(old(form.name), target, 0.0, deadline))]
                && store.expenses == old(store.expenses) && store.categories == old(store.categories)
                && store.budgets == old(store.budgets)
                && !openDialog && form == EmptyGoalForm
      ensures !Complete(old(form)) ==> unchanged(this) && unchanged(store)
    {
      if Complete(form) {
        store.AddGoal(id, GoalInput(form.name, target, deadline, None));
        CloseDialog();
      }
    }
  }
}
