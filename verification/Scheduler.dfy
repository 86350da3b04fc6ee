/**
 The job service of agent/scheduler.py as a state machine: ticks start tasks, tasks finish in any
 order, jobs are added and cancelled in between.  Times are microseconds on one clock.
 */
module Scheduler {
  import opened Clock
  import opened Text

  const GRACE := 300 * SECOND

  datatype Trigger = At | After | Every
  datatype Tier = Instant | Soft

  datatype Job = Job(id: string, trigger: Trigger, tier: Tier, fireAt: int, interval: nat, cron: string,
                     name: string, enabled: bool, runCount: nat)

  /** The next fire time of a cron expression after a time; None where the computation raises. */
  type CronFire = (string, int) -> Option<int>

  /** What is assumed of it: a time it finds is not in the past. */
  ghost predicate CronOk(cron: CronFire) {
    forall e: string, t: int :: cron(e, t).Some? ==> cron(e, t).value >= t
  }

  // ── recurrence ─────────────────────────────────────────────────

  /** interval_seconds or 3600 */
  function Period(job: Job): (p: int)
    ensures p > 0
  {
    (if job.interval > 0 then job.interval else 3600) * SECOND
  }

  function FirstAfter(next: int, period: int, after: int): int
    requires period > 0
    decreases after - next
  {
    if next > after then next else FirstAfter(next + period, period, after)
  }

  function AdvanceEvery(cron: CronFire, job: Job, after: int): Option<int> {
    if job.cron != "" then cron(job.cron, after)
    else Some(FirstAfter(job.fireAt + Period(job), Period(job), after))
  }

  /** The result is the first time on the job's own grid, at least one period on, after the limit. */
  lemma {:induction false} FirstAfterSpec(next: int, period: int, after: int) returns (k: nat)
    requires period > 0
    ensures FirstAfter(next, period, after) == next + k * period > after
    ensures k > 0 ==> next + k * period - period <= after
    decreases after - next
  {
    if next > after {
      k := 0;
    } else {
      var m := FirstAfterSpec(next + period, period, after);
      k := m + 1;
      assert (m + 1) * period == m * period + period;
    }
  }

  /** The time k periods after the job's fire time; without an interval the period is an hour. */
  function GridTime(job: Job, k: nat): int {
    job.fireAt + k * ((if job.interval == 0 then 3600 else job.interval) * SECOND)
  }

  /** The first time after the limit that is on the job's grid, one period on at the earliest. */
  ghost predicate NextOnGrid(job: Job, after: int, t: int) {
    t > after && exists k: nat :: k >= 1 && t == GridTime(job, k) && (k == 1 || GridTime(job, k - 1) <= after)
  }

  /** What the next fire time of a recurring job is. */
  ghost predicate NextTime(cron: CronFire, job: Job, after: int, t: int) {
    if job.cron != "" then cron(job.cron, after) == Some(t) else NextOnGrid(job, after, t)
  }

  lemma AdvanceFinds(cron: CronFire, job: Job, after: int)
    ensures var fire := AdvanceEvery(cron, job, after);
            && (fire.Some? ==> NextTime(cron, job, after, fire.value))
            && (fire.None? ==> job.cron != "" && cron(job.cron, after).None?)
  {
    if job.cron == "" {
      var p := Period(job);
      var m := FirstAfterSpec(job.fireAt + p, p, after);
      var t := job.fireAt + p + m * p;
      assert (m + 1) * p == m * p + p;
      assert GridTime(job, m + 1) == t && GridTime(job, m) == t - p;
    }
  }

  /** Rescheduling, when it finds a time, lands strictly after both the clock and the nominal time it replaces. */
  lemma RescheduleIsLater(cron: CronFire, job: Job, now: int)
    requires CronOk(cron)
    ensures var next := AdvanceEvery(cron, job, RescheduleAfter(job, now));
            next.Some? ==> next.value > now && next.value > job.fireAt
    ensures job.cron == "" ==> AdvanceEvery(cron, job, RescheduleAfter(job, now)).Some?
  {
    if job.cron == "" {
      var k := FirstAfterSpec(job.fireAt + Period(job), Period(job), RescheduleAfter(job, now));
    }
  }

  function RescheduleAfter(job: Job, now: int): int {
    (if now > job.fireAt then now else job.fireAt) + 1
  }

  // ── the job table, in insertion order like a dict ─────────────

  function Ids(jobs: seq<Job>): set<string> {
    set i | 0 <= i < |jobs| :: jobs[i].id
  }

  function Without(jobs: seq<Job>, ids: set<string>): seq<Job> {
    if jobs == [] then []
    else
      var last := jobs[|jobs| - 1];
      Without(jobs[..|jobs| - 1], ids) + if last.id in ids then [] else [last]
  }

  predicate Listed(jobs: seq<Job>, id: string) {
    exists i :: 0 <= i < |jobs| && jobs[i].id == id
  }

  /** _jobs[job.id] = job: in place if the key exists, else at the end. */
  function Put(jobs: seq<Job>, job: Job): seq<Job> {
    if jobs == [] then [job]
    else if jobs[0].id == job.id then [job] + jobs[1..]
    else [jobs[0]] + Put(jobs[1..], job)
  }

  /** A change of a job object shows in the table while the object is there. */
  function Touch(jobs: seq<Job>, job: Job, changed: Job): seq<Job> {
    if job in jobs then Put(jobs, changed) else jobs
  }

  // ── states and events ──────────────────────────────────────────

  /** A task that was started: which job, for which nominal time. */
  datatype Started = Started(id: string, fireAt: int, trigger: Trigger)

  /**
   jobs, inFlight and disk are the service's own; running are the tasks that have not finished;
   log records every start and used every id ever seen, for stating what happens over a run.
   */
  datatype Service = Service(jobs: seq<Job>, inFlight: set<string>, disk: seq<Job>, running: seq<Job>,
                             log: seq<Started>, used: set<string>)

  datatype Event =
    | Add(job: Job)
    | Cancel(id: string)
    | CancelByName(name: string)
    | Tick(now: int, lead: nat)
    | Finish(task: nat, now: int, ok: bool)   // the task ends, normally or by an exception

  function ActualTrigger(job: Job, lead: nat): int {
    if job.tier == Instant then job.fireAt else job.fireAt - lead
  }

  predicate Due(job: Job, inFlight: set<string>, now: int, lead: nat) {
    job.enabled && job.id !in inFlight && ActualTrigger(job, lead) <= now
  }

  /** The jobs a tick starts, each once. */
  function Starting(jobs: seq<Job>, inFlight: set<string>, now: int, lead: nat): seq<Job> {
    if jobs == [] then []
    else
      var front, last := Starting(jobs[..|jobs| - 1], inFlight, now, lead), jobs[|jobs| - 1];
      front + if Due(last, inFlight + Ids(front), now, lead) then [last] else []
  }

  function LogOf(jobs: seq<Job>): (l: seq<Started>)
    ensures |l| == |jobs|
    ensures forall i :: 0 <= i < |jobs| ==> l[i] == Started(jobs[i].id, jobs[i].fireAt, jobs[i].trigger)
  {
    seq(|jobs|, i requires 0 <= i < |jobs| => Started(jobs[i].id, jobs[i].fireAt, jobs[i].trigger))
  }

  function Named(jobs: seq<Job>, name: string): set<string> {
    set i | 0 <= i < |jobs| && jobs[i].name == name :: jobs[i].id
  }

  /** run_count goes up when the job ran without an error. */
  function Counted(job: Job, ok: bool): Job {
    if ok then job.(runCount := job.runCount + 1) else job
  }

  /** The task's rescheduling finds no next time, so its `finally` raises. */
  predicate Raises(cron: CronFire, job: Job, now: int) {
    job.trigger == Every && AdvanceEvery(cron, job, RescheduleAfter(job, now)).None?
  }

  /** The job as a recurring task leaves it behind. */
  function Rescheduled(cron: CronFire, job: Job, now: int, ok: bool): Job
    requires job.trigger == Every && !Raises(cron, job, now)
  {
    Counted(job, ok).(fireAt := AdvanceEvery(cron, job, RescheduleAfter(job, now)).value)
  }

  /** The job as a recurring task that finds a next time leaves it. */
  ghost predicate NextEntry(cron: CronFire, job: Job, now: int, ok: bool, j: Job) {
    && j == job.(fireAt := j.fireAt, runCount := job.runCount + if ok then 1 else 0)
    && NextTime(cron, job, (if now > job.fireAt then now else job.fireAt) + 1, j.fireAt)
  }

  lemma {:induction false} PutIn(jobs: seq<Job>, job: Job)
    ensures job in Put(jobs, job) && forall j :: j in Put(jobs, job) ==> j == job || j in jobs
  {
    if jobs != [] && jobs[0].id != job.id {
      PutIn(jobs[1..], job);
      assert jobs == [jobs[0]] + jobs[1..];
    }
  }

  /** The table after a task: rescheduled, removed, or with its old fire time when rescheduling raises. */
  function TableAfter(cron: CronFire, jobs: seq<Job>, job: Job, now: int, ok: bool): seq<Job> {
    if job.trigger != Every then Without(jobs, {job.id})
    else if Raises(cron, job, now) then Touch(jobs, job, Counted(job, ok))
    else Put(jobs, Rescheduled(cron, job, now, ok))
  }

  function Step(cron: CronFire, s: Service, e: Event): Service {
    match e
    case Add(job) =>
      var jobs := Put(s.jobs, job);
      s.(jobs := jobs, disk := jobs, used := s.used + {job.id})
    case Cancel(id) =>
      if id !in Ids(s.jobs) then s
      else s.(jobs := Without(s.jobs, {id}), disk := Without(s.jobs, {id}))
    case CancelByName(name) =>
      var gone := Named(s.jobs, name);
      if gone == {} then s
      else s.(jobs := Without(s.jobs, gone), disk := Without(s.jobs, gone))
    case Tick(now, lead) =>
      var start := Starting(s.jobs, s.inFlight, now, lead);
      s.(inFlight := s.inFlight + Ids(start), running := s.running + start, log := s.log + LogOf(start))
    case Finish(k, now, ok) =>
      if k >= |s.running| then s
      else
        var job := s.running[k];
        var jobs := TableAfter(cron, s.jobs, job, now, ok);
        s.(jobs := jobs, disk := if Raises(cron, job, now) then s.disk else jobs, inFlight := s.inFlight - {job.id},
           running := s.running[..k] + s.running[k + 1..])
  }

  /** A recurring job whose time passed while the process was down. */
  predicate Missed(job: Job, now: int) {
    job.enabled && job.fireAt <= now && job.trigger == Every
  }

  /** What becomes of a persisted job at start-up, unless computing its next time raises. */
  function RecoverOne(cron: CronFire, job: Job, now: int): Option<Job>
    requires Missed(job, now) ==> AdvanceEvery(cron, job, now).Some?
  {
    if !job.enabled then None
    else if job.fireAt > now then Some(job)
    else if job.trigger == Every then Some(job.(fireAt := AdvanceEvery(cron, job, now).value))
    else if now - job.fireAt <= GRACE then Some(job)
    else None
  }

  /** The table after start-up; None when the computation for some job raises, which ends start-up. */
  function Recover(cron: CronFire, stored: seq<Job>, now: int): Option<seq<Job>> {
    if stored == [] then Some([])
    else
      var front, last := Recover(cron, stored[..|stored| - 1], now), stored[|stored| - 1];
      if front.None? || (Missed(last, now) && AdvanceEvery(cron, last, now).None?) then None
      else
        var r := RecoverOne(cron, last, now);
        Some(if r.Some? then Put(front.value, r.value) else front.value)
  }

  /** The service as a load_and_recover that does not raise leaves it. */
  function Start(cron: CronFire, stored: seq<Job>, now: int): Service
    requires Recover(cron, stored, now).Some?
  {
    var jobs := Recover(cron, stored, now).value;
    Service(jobs, {}, stored, [], [], Ids(jobs))
  }

  // ── the code ───────────────────────────────────────────────────

  class SchedulerService {
    const cron: CronFire
    var jobs: seq<Job>
    var inFlight: set<string>
    var disk: seq<Job>
    var running: seq<Job>
    ghost var log: seq<Started>
    ghost var used: set<string>

    ghost function State(): Service reads this {
      Service(jobs, inFlight, disk, running, log, used)
    }

    constructor (cron: CronFire, stored: seq<Job>)
      ensures this.cron == cron && State() == Service([], {}, stored, [], [], {})
    {
      this.cron := cron;
      jobs, inFlight, disk, running, log, used := [], {}, stored, [], [], {};
    }

    method AdvanceEveryLoop(job: Job, after: int) returns (fire: Option<int>)
      ensures fire == AdvanceEvery(cron, job, after)
      ensures fire.Some? ==> NextTime(cron, job, after, fire.value)
      ensures fire.None? ==> job.cron != "" && cron(job.cron, after).None?
    {
      AdvanceFinds(cron, job, after);
      if job.cron != "" {
        return cron(job.cron, after);
      }
      var interval := (if job.interval > 0 then job.interval else 3600) * SECOND;
      var next := job.fireAt + interval;
      while next <= after
        invariant FirstAfter(next, interval, after) == FirstAfter(job.fireAt + interval, interval, after)
        decreases after - next
      {
        next := next + interval;
      }
      return Some(next);
    }

    /** Returns false when the exception of a cron computation ends start-up. */
    method LoadAndRecover(now: int) returns (ok: bool)
      requires State() == Service([], {}, disk, [], [], {})
      modifies this
      ensures ok <==> Recover(cron, old(disk), now).Some?
      ensures ok ==> State() == Start(cron, old(disk), now)
      ensures disk == old(disk) && inFlight == {} && running == [] && log == []
    {
      var stored := disk;
      for i := 0 to |stored|
        invariant Recover(cron, stored[..i], now) == Some(jobs)
        invariant disk == stored == old(disk) && inFlight == {} && running == [] && log == []
      {
        assert stored[..i + 1][..i] == stored[..i];
        var job := stored[i];
        if !job.enabled {
          continue;
        }
        if job.fireAt <= now {
          var age := now - job.fireAt;
          if job.trigger == Every {
            var next := AdvanceEveryLoop(job, now);
            if next.None? {
              NoRecovery(cron, stored, i + 1, now);
              return false;
            }
            jobs := Put(jobs, job.(fireAt := next.value));
          } else if age <= GRACE {
            jobs := Put(jobs, job);
          }
        } else {
          jobs := Put(jobs, job);
        }
      }
      assert stored[..|stored|] == stored;
      used := Ids(jobs);
      return true;
    }

    method AddJob(job: Job)
      modifies this
      ensures State() == Step(cron, old(State()), Add(job))
    {
      jobs := Put(jobs, job);
      disk := jobs;
      used := used + {job.id};
    }

    method CancelJob(id: string) returns (found: bool)
      modifies this
      ensures State() == Step(cron, old(State()), Cancel(id))
      ensures found <==> id in Ids(old(jobs))
    {
      if !Listed(jobs, id) {
        return false;
      }
      jobs := Without(jobs, {id});
      disk := jobs;
      return true;
    }

    method CancelJobByName(name: string) returns (cancelled: set<string>)
      modifies this
      ensures State() == Step(cron, old(State()), CancelByName(name))
      ensures cancelled == Named(old(jobs), name)
    {
      cancelled := Named(jobs, name);
      if cancelled != {} {
        jobs := Without(jobs, cancelled);
        disk := jobs;
      }
    }

    method DoTick(now: int, lead: nat)
      modifies this
      ensures State() == Step(cron, old(State()), Tick(now, lead))
    {
      ghost var start: seq<Job> := [];
      var all := jobs;
      hide Starting, LogOf, Ids;
      StartingNone(inFlight, now, lead);
      for i := 0 to |all|
        invariant start == Starting(all[..i], old(inFlight), now, lead)
        invariant inFlight == old(inFlight) + Ids(start) && running == old(running) + start && log == old(log) + LogOf(start)
        invariant jobs == old(jobs) && disk == old(disk) && used == old(used)
      {
        StartingStep(all, i, old(inFlight), now, lead);
        var job := all[i];
        if !job.enabled || job.id in inFlight {
          continue;
        }
        var trigger := if job.tier == Instant then job.fireAt else job.fireAt - lead;
        if trigger <= now {
          inFlight := inFlight + {job.id};
          running := running + [job];
          log := log + [Started(job.id, job.fireAt, job.trigger)];
          IdsSnoc(start, job);
          start := start + [job];
        }
      }
      assert all[..|all|] == all;
    }

    /**
     The end of _execute_and_reschedule for task k, after the job ran or raised.  When rescheduling
     raises, the job is already out of the in-flight set and nothing else of the `finally` happens;
     the job object, which the table shares, has been counted.
     */
    method FinishTask(k: nat, now: int, ok: bool) returns (raised: bool)
      requires k < |running|
      modifies this
      ensures State() == Step(cron, old(State()), Finish(k, now, ok))
      ensures raised == Raises(cron, old(running)[k], now)
      ensures old(running)[k].trigger == Every && !raised ==> exists j :: j in jobs && NextEntry(cron, old(running)[k], now, ok, j)
    {
      hide Put, Without, FirstAfter, Ids, NextTime;
      var job := running[k];
      running := running[..k] + running[k + 1..];
      inFlight := inFlight - {job.id};
      if job.trigger == Every {
        var rescheduleAfter := (if now > job.fireAt then now else job.fireAt) + 1;
        var next := AdvanceEveryLoop(job, rescheduleAfter);
        if next.None? {
          jobs := Touch(jobs, job, Counted(job, ok));
          return true;
        }
        PutIn(jobs, Counted(job, ok).(fireAt := next.value));
        jobs := Put(jobs, Counted(job, ok).(fireAt := next.value));
        assert NextEntry(cron, job, now, ok, Counted(job, ok).(fireAt := next.value));
      } else {
        jobs := Without(jobs, {job.id});
      }
      disk := jobs;
      return false;
    }
  }

  lemma {:induction false} NoRecovery(cron: CronFire, stored: seq<Job>, n: nat, now: int)
    requires n <= |stored| && Recover(cron, stored[..n], now).None?
    ensures Recover(cron, stored, now).None?
    decreases |stored| - n
  {
    if n < |stored| {
      assert stored[..n + 1][..n] == stored[..n];
      NoRecovery(cron, stored, n + 1, now);
    } else {
      assert stored[..n] == stored;
    }
  }

  lemma StartingNone(inFlight: set<string>, now: int, lead: nat)
    ensures Starting([], inFlight, now, lead) == [] && LogOf([]) == [] && Ids([]) == {}
  {
  }

  lemma StartingStep(jobs: seq<Job>, n: nat, inFlight: set<string>, now: int, lead: nat)
    requires n < |jobs|
    ensures var front := Starting(jobs[..n], inFlight, now, lead);
            Starting(jobs[..n + 1], inFlight, now, lead)
            == if Due(jobs[n], inFlight + Ids(front), now, lead) then front + [jobs[n]] else front
  {
    assert jobs[..n + 1][..n] == jobs[..n];
  }

  lemma IdsSnoc(jobs: seq<Job>, job: Job)
    ensures Ids(jobs + [job]) == Ids(jobs) + {job.id}
    ensures LogOf(jobs + [job]) == LogOf(jobs) + [Started(job.id, job.fireAt, job.trigger)]
  {
    var all := jobs + [job];
    assert forall i :: 0 <= i < |jobs| ==> all[i] == jobs[i];
    assert all[|jobs|] == job;
    forall x | x in Ids(jobs) ensures x in Ids(all) {
      var i :| 0 <= i < |jobs| && jobs[i].id == x;
      assert all[i].id == x;
    }
  }
}
