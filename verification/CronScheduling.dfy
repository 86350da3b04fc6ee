/**
 The fallback search as the job service's source of cron times (agent/scheduler.py:138-181, 607-615):
 it keeps what the service assumes of such a source, and the runs in which it finds nothing.
 A time zone is a fixed offset from the service's clock.
 */
module CronScheduling {
  import opened Clock
  import opened Text
  import opened Cron
  import S = Scheduler
  import R = SchedulerRuns

  /** next_cron_fire without APScheduler: to local time, search, and back. */
  ghost function FallbackFire(cal: Calendar, offset: int): S.CronFire {
    (expr: string, t: int) => Located(Fallback(expr, cal, t + offset), offset)
  }

  function Located(local: Option<int>, offset: int): Option<int> {
    if local.Some? then Some(local.value * SECOND - offset) else None
  }

  lemma FallbackFireIs(cal: Calendar, offset: int, e: string, t: int)
    ensures FallbackFire(cal, offset)(e, t) == Located(Fallback(e, cal, t + offset), offset)
  {
    hide Fallback;
  }

  lemma LaterFire(cal: Calendar, offset: int, e: string, t: int)
    ensures var r := FallbackFire(cal, offset)(e, t); r.Some? ==> r.value > t
  {
    FallbackIsNext(e, cal, t + offset);
    FallbackFireIs(cal, offset, e, t);
    hide FallbackFire, Fallback, CronOk, FieldsOf, Matches, NoneMatches, Words, Points;
  }

  /** A time the search finds is later than the time asked about, so the service's assumption holds. */
  lemma FallbackFireOk(cal: Calendar, offset: int)
    ensures S.CronOk(FallbackFire(cal, offset))
    ensures forall e: string, t: int :: FallbackFire(cal, offset)(e, t).Some? ==> FallbackFire(cal, offset)(e, t).value > t
  {
    hide FallbackFire;
    var cron := FallbackFire(cal, offset);
    forall e: string, t: int | cron(e, t).Some? ensures cron(e, t).value > t {
      LaterFire(cal, offset, e, t);
    }
  }

  /** With the fallback, rescheduling a cron job raises exactly for a bad expression or an empty year ahead. */
  lemma RaisesIff(cal: Calendar, offset: int, job: S.Job, now: int)
    requires job.cron != ""
    ensures var parts, after := Words(job.cron), S.RescheduleAfter(job, now) + offset;
            S.Raises(FallbackFire(cal, offset), job, now) <==>
            job.trigger == S.Every && (CronOk(parts) ==> NoneMatches(parts, cal, after, Points(parts)))
  {
    FallbackIsNext(job.cron, cal, S.RescheduleAfter(job, now) + offset);
    FallbackFireIs(cal, offset, job.cron, S.RescheduleAfter(job, now));
    hide FallbackFire, Fallback, CronOk, FieldsOf, Matches, NoneMatches, Words, Points;
  }

  // ── a date once a year ─────────────────────────────────────────

  /** The fields of midnight on a date, as in `0 0 29 2 *`. */
  function DateFields(day: nat, month: nat): seq<string> {
    [Decimal(0), Decimal(0), Decimal(day), Decimal(month), "*"]
  }

  function DateExpr(day: nat, month: nat): string {
    Joined(DateFields(day, month), ' ')
  }

  predicate IsDate(cal: Calendar, n: int, day: nat, month: nat) {
    cal.dayOf(n) == day && cal.monthOf(n) == month
  }

  lemma DateWords(day: nat, month: nat)
    ensures Words(DateExpr(day, month)) == DateFields(day, month)
  {
    SpacelessNumber(0);
    SpacelessNumber(day);
    SpacelessNumber(month);
    hide Words, Joined, Decimal;
    WordsJoined(DateFields(day, month));
  }

  lemma DateExprNotEmpty(day: nat, month: nat)
    ensures DateExpr(day, month) != ""
  {
    hide Decimal, Joined;
    DateWords(day, month);
    assert Words("") == [];
  }

  lemma FieldsByPart(parts: seq<string>)
    requires |parts| == 5
    ensures CronOk(parts) <==>
      FieldOk(parts[0], 0, 59) && FieldOk(parts[1], 0, 23) && FieldOk(parts[2], 1, 31)
      && FieldOk(parts[3], 1, 12) && FieldOk(DayOfWeek(parts[4]), 0, 6)
    ensures var fields := Fields({0}, FieldSet(parts[0], 0, 59), FieldSet(parts[1], 0, 23), FieldSet(parts[2], 1, 31),
                                 FieldSet(parts[3], 1, 12), FieldSet(DayOfWeek(parts[4]), 0, 6));
            CronOk(parts) ==> FieldsOf(parts) == fields
  {
    hide FieldOk, FieldSet, Replace;
  }

  lemma Midnight(t: int)
    ensures t % 60 == 0 && t / 60 % 60 == 0 && t / 3600 % 24 == 0 <==> t % DAY == 0
  {
    var m, h := t / 60, t / 3600;
    assert h == m / 60 && t / DAY == h / 24;
    assert t % DAY == 3600 * (h % 24) + 60 * (m % 60) + t % 60;
  }

  lemma StarDay()
    ensures DayOfWeek("*") == "*"
  {
  }

  lemma DateFieldsOk(day: nat, month: nat)
    requires 1 <= day <= 31 && 1 <= month <= 12
    ensures var parts := DateFields(day, month);
            && CronOk(parts)
            && var f := FieldsOf(parts);
            && f.second == {0} && f.minute == {0} && f.hour == {0} && f.dom == {day} && f.month == {month}
            && forall v :: v in f.dow <==> 0 <= v <= 6
  {
    hide FieldOk, FieldSet, Decimal, Replace, DayOfWeek, CronOk, FieldsOf;
    StarDay();
    PlainNumber(0, 0, 59);
    PlainNumber(0, 0, 23);
    PlainNumber(day, 1, 31);
    PlainNumber(month, 1, 12);
    Star(0, 6);
    FieldsByPart(DateFields(day, month));
  }

  lemma MidnightMatches(f: Fields, day: nat, month: nat, cal: Calendar, t: int)
    requires f.second == {0} && f.minute == {0} && f.hour == {0} && f.dom == {day} && f.month == {month}
    requires forall v :: v in f.dow <==> 0 <= v <= 6
    ensures Matches(f, cal, t) <==> t % DAY == 0 && IsDate(cal, t / DAY, day, month)
  {
    Midnight(t);
    assert 0 <= CronDow(t / DAY) <= 6;
    hide CronDow;
  }

  /** Such an expression matches midnight of its date and no other second. */
  lemma DateMatchesIff(day: nat, month: nat, cal: Calendar, t: int)
    requires 1 <= day <= 31 && 1 <= month <= 12 && CronOk(DateFields(day, month))
    ensures Matches(FieldsOf(DateFields(day, month)), cal, t) <==> t % DAY == 0 && IsDate(cal, t / DAY, day, month)
  {
    hide *;
    DateFieldsOk(day, month);
    MidnightMatches(FieldsOf(DateFields(day, month)), day, month, cal, t);
  }

  /** Two such dates are at least so many days apart. */
  ghost predicate DaysApart(cal: Calendar, day: nat, month: nat, gap: nat) {
    forall a: int, b: int :: a < b && IsDate(cal, a, day, month) && IsDate(cal, b, day, month) ==> a + gap <= b
  }

  /** The grid points of a search lie in the 366 days after its start. */
  lemma PointsWithinYear(parts: seq<string>, after: int, k: nat)
    requires k < Points(parts)
    ensures after < Point(parts, after, k) * SECOND <= (after / SECOND + 366 * DAY) * SECOND
  {
  }

  /** No midnight of the date lies in the year after a time in the three years after day n. */
  lemma NoDateAhead(cal: Calendar, day: nat, month: nat, n: int, after: int, t: int)
    requires DaysApart(cal, day, month, 1461) && IsDate(cal, n, day, month)
    requires n * DAY * SECOND < after < (n + 1095) * DAY * SECOND
    requires after < t * SECOND <= (after / SECOND + 366 * DAY) * SECOND
    ensures !(t % DAY == 0 && IsDate(cal, t / DAY, day, month))
  {
    hide IsDate;
    var d := t / DAY;
    assert n * DAY <= t < (n + 1461) * DAY;
    assert n <= d < n + 1461;
    assert t % DAY == 0 ==> t == d * DAY > n * DAY;
  }

  /** After a date that comes less than once in four years, for three years, the search finds nothing. */
  lemma RareDateFindsNothing(cal: Calendar, day: nat, month: nat, n: int, after: int)
    requires 1 <= day <= 31 && 1 <= month <= 12
    requires DaysApart(cal, day, month, 1461) && IsDate(cal, n, day, month)
    requires n * DAY * SECOND < after < (n + 1095) * DAY * SECOND
    ensures Fallback(DateExpr(day, month), cal, after) == None
  {
    var parts := DateFields(day, month);
    DateWords(day, month);
    DateFieldsOk(day, month);
    FallbackIsNext(DateExpr(day, month), cal, after);
    hide Fallback, Words, CronOk, FieldsOf, Matches, DateFields, DateExpr, Point, Points, DaysApart, IsDate;
    forall k | 0 <= k < Points(parts) ensures !Matches(FieldsOf(parts), cal, Point(parts, after, k)) {
      PointsWithinYear(parts, after, k);
      NoDateAhead(cal, day, month, n, after, Point(parts, after, k));
      DateMatchesIff(day, month, cal, Point(parts, after, k));
    }
  }

  /** Rescheduling the occurrence of such a date raises. */
  lemma RareDateRaises(cal: Calendar, offset: int, r: S.Job, now: int, day: nat, month: nat, n: int)
    requires 1 <= day <= 31 && 1 <= month <= 12 && r.trigger == S.Every && r.cron == DateExpr(day, month)
    requires DaysApart(cal, day, month, 1461) && IsDate(cal, n, day, month)
    requires r.fireAt + offset == n * DAY * SECOND && now + offset + 1 < (n + 1095) * DAY * SECOND
    ensures S.Raises(FallbackFire(cal, offset), r, now)
  {
    hide Fallback, FallbackFire, DateExpr, S.FirstAfter, DaysApart, IsDate;
    DateExprNotEmpty(day, month);
    RareDateFindsNothing(cal, day, month, n, S.RescheduleAfter(r, now) + offset);
    FallbackFireIs(cal, offset, r.cron, S.RescheduleAfter(r, now));
  }

  /**
   The 29th of February: its occurrence ran at midnight of day n; whenever its task ends in the next
   three years, no next time is found, and if the job was not cancelled the same occurrence is
   started again.
   */
  lemma LeapDayStartsAgain(cal: Calendar, offset: int, s: S.Service, k: nat, now: int, ok: bool, n: int)
    requires R.Sound(s) && k < |s.running| && s.running[k] in s.jobs
    requires s.running[k].trigger == S.Every && s.running[k].cron == DateExpr(29, 2)
    requires DaysApart(cal, 29, 2, 1461) && IsDate(cal, n, 29, 2)
    requires s.running[k].fireAt + offset == n * DAY * SECOND && now + offset + 1 < (n + 1095) * DAY * SECOND
    ensures var cron, r := FallbackFire(cal, offset), s.running[k];
            var m := S.Step(cron, s, S.Finish(k, now, ok));
            exists es :: R.AllFresh(cron, m, es) && R.Clocked(now, es)
                         && R.StartsAgain(m, R.After(cron, m, es), r.id, r.fireAt)
  {
    hide *;
    FallbackFireOk(cal, offset);
    RareDateRaises(cal, offset, s.running[k], now, 29, 2, n);
    R.StartedAgainIff(FallbackFire(cal, offset), s, k, now, ok);
  }

  const EMPTY := S.Service([], {}, [], [], [], {})

  /** The service with one waiting job. */
  ghost predicate Lone(s: S.Service, job: S.Job) {
    s.jobs == [job] && s.inFlight == {} && s.running == []
  }

  function StartOf(job: S.Job): S.Started {
    S.Started(job.id, job.fireAt, job.trigger)
  }

  lemma LoneStart(job: S.Job, now: int)
    requires job.enabled && job.fireAt <= now
    ensures S.Starting([job], {}, now, 0) == [job] && S.Ids([job]) == {job.id} && S.LogOf([job]) == [StartOf(job)]
  {
    assert [job][..0] == [] && [job][0].id in S.Ids([job]);
    assert S.Ids([]) == {};
  }

  /** A tick at the time of the only job, or later, starts it. */
  lemma LoneTick(cron: S.CronFire, s: S.Service, job: S.Job, now: int)
    requires Lone(s, job) && job.enabled && job.fireAt <= now
    ensures var n := S.Step(cron, s, S.Tick(now, 0));
            n.jobs == [job] && n.running == [job] && n.inFlight == {job.id} && n.log == s.log + [StartOf(job)]
  {
    LoneStart(job, now);
    hide S.Starting, S.Ids, S.LogOf, StartOf;
  }

  /** The end of its task, when rescheduling raises, leaves it waiting as it was. */
  lemma LoneFinish(cron: S.CronFire, s: S.Service, job: S.Job, now: int)
    requires s.jobs == [job] && s.running == [job] && s.inFlight == {job.id} && S.Raises(cron, job, now)
    ensures var n := S.Step(cron, s, S.Finish(0, now, false)); Lone(n, job) && n.log == s.log
  {
    hide S.AdvanceEvery;
    assert S.TableAfter(cron, [job], job, now, false) == [job] by {
      assert job in [job];
      assert [job][1..] == [];
    }
    assert [job][..0] + [job][1..] == [] && {job.id} - {job.id} == {};
  }

  lemma LoneAdd(cron: S.CronFire, job: S.Job)
    ensures Lone(S.Step(cron, EMPTY, S.Add(job)), job) && S.Step(cron, EMPTY, S.Add(job)).log == []
  {
  }

  /**
   A whole run, from the empty service and on a clock that never runs backwards, in which one
   occurrence of a 29th of February starts twice.
   */
  lemma LeapDayTwice(cal: Calendar, offset: int, job: S.Job, start: int, now: int, again: int, n: int)
    requires job.enabled && job.trigger == S.Every && job.cron == DateExpr(29, 2)
    requires DaysApart(cal, 29, 2, 1461) && IsDate(cal, n, 29, 2) && job.fireAt + offset == n * DAY * SECOND
    requires job.fireAt <= start <= now <= again && now + offset + 1 < (n + 1095) * DAY * SECOND
    ensures var cron := FallbackFire(cal, offset);
            var once := S.Step(cron, S.Step(cron, EMPTY, S.Add(job)), S.Tick(start, 0));
            var twice := S.Step(cron, S.Step(cron, once, S.Finish(0, now, false)), S.Tick(again, 0));
            twice.log == [StartOf(job), StartOf(job)]
  {
    hide *;
    var cron := FallbackFire(cal, offset);
    var added := S.Step(cron, EMPTY, S.Add(job));
    var once := S.Step(cron, added, S.Tick(start, 0));
    RareDateRaises(cal, offset, job, now, 29, 2, n);
    LoneAdd(cron, job);
    LoneTick(cron, added, job, start);
    LoneFinish(cron, once, job, now);
    LoneTick(cron, S.Step(cron, once, S.Finish(0, now, false)), job, again);
  }
}
