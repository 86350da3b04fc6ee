/** What every run of the job service keeps, and exactly when it does not (agent/scheduler.py). */
module SchedulerRuns {
  import opened Text
  import opened Scheduler

  // ── the invariants ─────────────────────────────────────────────

  ghost predicate DistinctIds(jobs: seq<Job>) {
    forall i, j :: 0 <= i < j < |jobs| ==> jobs[i].id != jobs[j].id
  }

  /** Two starts of one id are of a recurring job, the second for no earlier nominal time. */
  ghost predicate NeverBack(log: seq<Started>) {
    forall i, k :: 0 <= i < k < |log| && log[i].id == log[k].id ==>
      log[k].trigger == Every && log[i].fireAt <= log[k].fireAt
  }

  /** Starts of one id are of a recurring job and for later and later nominal times. */
  ghost predicate NoRepeats(log: seq<Started>) {
    forall i, k :: 0 <= i < k < |log| && log[i].id == log[k].id ==>
      log[k].trigger == Every && log[i].fireAt < log[k].fireAt
  }

  /** No start of the job was for a later time than its own. */
  ghost predicate PastOf(j: Job, log: seq<Started>) {
    forall i :: 0 <= i < |log| && log[i].id == j.id ==> log[i].fireAt <= j.fireAt
  }

  /** If the job has been started before, it is recurring. */
  ghost predicate Recurs(j: Job, log: seq<Started>) {
    forall i :: 0 <= i < |log| && log[i].id == j.id ==> j.trigger == Every
  }

  /** All its starts were for earlier times. */
  ghost predicate Ahead(j: Job, log: seq<Started>) {
    forall i :: 0 <= i < |log| && log[i].id == j.id ==> log[i].fireAt < j.fireAt
  }

  ghost predicate LogKnown(log: seq<Started>, used: set<string>) {
    forall i :: 0 <= i < |log| ==> log[i].id in used
  }

  /** At most one task runs for a job, and the in-flight set says which. */
  ghost predicate OneEach(s: Service) {
    DistinctIds(s.jobs) && DistinctIds(s.running) && s.inFlight == Ids(s.running)
  }

  /** While a task runs, the table's entry of its id, if any, is the job it was started with. */
  ghost predicate Shared(s: Service) {
    && (forall j :: j in s.jobs ==> j.id in s.used)
    && (forall r :: r in s.running ==> r.id in s.used && r.enabled)
    && (forall j, r :: j in s.jobs && r in s.running && j.id == r.id ==> j == r)
  }

  /** Jobs and tasks are not behind their starts, and a one-shot that was started is not waiting. */
  ghost predicate InOrder(s: Service) {
    && (forall j :: j in s.jobs ==> PastOf(j, s.log))
    && (forall r :: r in s.running ==> PastOf(r, s.log))
    && (forall j :: j in s.jobs && j.id !in s.inFlight ==> Recurs(j, s.log))
    && LogKnown(s.log, s.used) && NeverBack(s.log)
  }

  /** What holds at all times, whatever raises. */
  ghost predicate Sound(s: Service) {
    OneEach(s) && Shared(s) && InOrder(s)
  }

  /** What holds while no rescheduling has raised: waiting jobs are ahead of all their starts. */
  ghost predicate OnTime(s: Service) {
    NoRepeats(s.log) && forall j :: j in s.jobs && j.id !in s.inFlight ==> Ahead(j, s.log)
  }

  /** Adds bring ids never used before. */
  predicate Fresh(s: Service, e: Event) {
    e.Add? ==> e.job.id !in s.used
  }

  /** The event is the end of a task whose rescheduling raises. */
  predicate Failing(cron: CronFire, s: Service, e: Event) {
    e.Finish? && e.task < |s.running| && Raises(cron, s.running[e.task], e.now)
  }

  // ── the table operations ───────────────────────────────────────

  lemma {:induction false} WithoutSpec(jobs: seq<Job>, ids: set<string>)
    ensures forall j :: j in Without(jobs, ids) <==> j in jobs && j.id !in ids
    ensures DistinctIds(jobs) ==> DistinctIds(Without(jobs, ids))
  {
    if jobs != [] {
      var front, last := jobs[..|jobs| - 1], jobs[|jobs| - 1];
      assert jobs == front + [last];
      WithoutSpec(front, ids);
      var w := Without(front, ids);
      assert forall i :: 0 <= i < |w| ==> w[i] in front;
    }
  }

  lemma {:induction false} PutSpec(jobs: seq<Job>, job: Job)
    requires DistinctIds(jobs)
    ensures forall j :: j in Put(jobs, job) <==> j == job || (j in jobs && j.id != job.id)
    ensures DistinctIds(Put(jobs, job))
  {
    if jobs != [] {
      var first, rest := jobs[0], jobs[1..];
      assert jobs == [first] + rest;
      FirstApart(first, rest);
      if first.id != job.id {
        PutSpec(rest, job);
        FirstApart(first, Put(rest, job));
      } else {
        FirstApart(job, rest);
      }
      hide DistinctIds;
    }
  }

  lemma FirstApart(first: Job, rest: seq<Job>)
    ensures DistinctIds([first] + rest) <==> DistinctIds(rest) && forall j :: j in rest ==> j.id != first.id
  {
    var all := [first] + rest;
    if DistinctIds(all) {
      ApartFromFirst(first, rest);
    }
    if DistinctIds(rest) && forall j :: j in rest ==> j.id != first.id {
      forall i, k | 0 <= i < k < |all| ensures all[i].id != all[k].id {
        assert all[k] == rest[k - 1] && (i > 0 ==> all[i] == rest[i - 1]);
      }
    }
  }

  lemma ApartFromFirst(first: Job, rest: seq<Job>)
    requires DistinctIds([first] + rest)
    ensures DistinctIds(rest) && forall j :: j in rest ==> j.id != first.id
  {
    var all := [first] + rest;
    forall i, k | 0 <= i < k < |rest| ensures rest[i].id != rest[k].id {
      assert all[i + 1].id != all[k + 1].id;
    }
    forall j | j in rest ensures j.id != first.id {
      var i :| 0 <= i < |rest| && rest[i] == j;
      assert all[0].id != all[i + 1].id;
    }
  }

  /** An enabled job not in flight is due at its fire time, a soft one by the lead earlier. */
  predicate Startable(j: Job, inFlight: set<string>, now: int, lead: nat) {
    j.enabled && j.id !in inFlight && now >= j.fireAt - if j.tier == Soft then lead else 0
  }

  lemma {:induction false} StartingSpec(jobs: seq<Job>, inFlight: set<string>, now: int, lead: nat)
    requires DistinctIds(jobs)
    ensures var st := Starting(jobs, inFlight, now, lead);
            && DistinctIds(st)
            && (forall j :: j in st <==> j in jobs && Startable(j, inFlight, now, lead))
  {
    if jobs != [] {
      hide DistinctIds, Startable, Ids, Due;
      var front, last := jobs[..|jobs| - 1], jobs[|jobs| - 1];
      FrontLast(jobs);
      LastApart(front, last);
      StartingSpec(front, inFlight, now, lead);
      var st := Starting(front, inFlight, now, lead);
      NotInIds(st, last.id);
      DueIff(last, inFlight, Ids(st), now, lead);
      LastApart(st, last);
    }
  }

  lemma DueIff(j: Job, inFlight: set<string>, started: set<string>, now: int, lead: nat)
    requires j.id !in started
    ensures Due(j, inFlight + started, now, lead) <==> Startable(j, inFlight, now, lead)
  {
  }

  lemma LastApart(front: seq<Job>, last: Job)
    ensures DistinctIds(front + [last]) <==> DistinctIds(front) && forall j :: j in front ==> j.id != last.id
  {
    var all := front + [last];
    SnocFront(front, last);
    if DistinctIds(all) {
      forall j | j in front ensures j.id != last.id {
        var i :| 0 <= i < |front| && front[i] == j;
        assert all[i].id != all[|front|].id;
      }
      forall i, k | 0 <= i < k < |front| ensures front[i].id != front[k].id {
        assert all[i].id != all[k].id;
      }
    }
  }

  lemma IdsAdd(a: seq<Job>, b: seq<Job>)
    ensures Ids(a + b) == Ids(a) + Ids(b)
    ensures DistinctIds(a) && DistinctIds(b) && Ids(a) !! Ids(b) ==> DistinctIds(a + b)
  {
    var all := a + b;
    assert forall i :: 0 <= i < |a| ==> all[i] == a[i] && a[i].id in Ids(a);
    assert forall i :: |a| <= i < |all| ==> all[i] == b[i - |a|] && b[i - |a|].id in Ids(b);
    forall x | x in Ids(a) + Ids(b) ensures x in Ids(all) {
      if x in Ids(a) {
        var i :| 0 <= i < |a| && a[i].id == x;
        assert all[i].id == x;
      } else {
        var i :| 0 <= i < |b| && b[i].id == x;
        assert all[|a| + i].id == x;
      }
    }
  }

  lemma StartedIds(jobs: seq<Job>, inFlight: set<string>, now: int, lead: nat)
    requires DistinctIds(jobs)
    ensures Ids(Starting(jobs, inFlight, now, lead)) !! inFlight
    ensures forall j :: j in jobs ==> (j.id in Ids(Starting(jobs, inFlight, now, lead)) <==> j in Starting(jobs, inFlight, now, lead))
  {
    StartingSpec(jobs, inFlight, now, lead);
    var st := Starting(jobs, inFlight, now, lead);
    assert forall i :: 0 <= i < |st| ==> st[i] in st;
    forall j | j in jobs && j.id in Ids(st) ensures j in st {
      var i :| 0 <= i < |st| && st[i].id == j.id;
      assert st[i] in jobs;
    }
  }

  lemma InIds(jobs: seq<Job>, j: Job)
    requires j in jobs
    ensures j.id in Ids(jobs)
  {
  }

  /** Task k leaves the running ones, and its id with it. */
  lemma TaskRemoved(running: seq<Job>, k: nat)
    requires k < |running| && DistinctIds(running)
    ensures var rest := running[..k] + running[k + 1..];
            && DistinctIds(rest) && Ids(rest) == Ids(running) - {running[k].id}
            && (forall r :: r in rest ==> r in running)
  {
    var rest := running[..k] + running[k + 1..];
    assert forall i :: 0 <= i < |rest| ==> rest[i] == running[if i < k then i else i + 1];
    forall x | x in Ids(running) && x != running[k].id ensures x in Ids(rest) {
      var i :| 0 <= i < |running| && running[i].id == x;
      assert rest[if i < k then i else i - 1] == running[i];
    }
  }

  lemma NotInIds(jobs: seq<Job>, id: string)
    ensures id !in Ids(jobs) <==> forall j :: j in jobs ==> j.id != id
  {
    assert forall i :: 0 <= i < |jobs| ==> jobs[i] in jobs;
  }

  // ── what one event does ────────────────────────────────────────

  /** j is what the end of task r leaves in the table. */
  ghost predicate LeftBy(cron: CronFire, r: Job, now: int, ok: bool, j: Job) {
    r.trigger == Every
    && if Raises(cron, r, now) then j == r.(runCount := r.runCount + if ok then 1 else 0)
       else NextEntry(cron, r, now, ok, j) && j.fireAt > r.fireAt
  }

  /** The table after the end of task r: its own entry if it left one, all others as they were. */
  ghost predicate TableLeft(cron: CronFire, jobs: seq<Job>, r: Job, now: int, ok: bool, t: seq<Job>) {
    && (forall j :: j in t && j.id == r.id ==> LeftBy(cron, r, now, ok, j))
    && (forall j: Job :: j.id != r.id ==> (j in t <==> j in jobs))
    && (r.id in Ids(t) <==> r.trigger == Every && (Raises(cron, r, now) ==> r in jobs))
  }

  lemma RescheduledSpec(cron: CronFire, r: Job, now: int, ok: bool)
    requires CronOk(cron) && r.trigger == Every && !Raises(cron, r, now)
    ensures LeftBy(cron, r, now, ok, Rescheduled(cron, r, now, ok)) && Rescheduled(cron, r, now, ok).id == r.id
  {
    AdvanceFinds(cron, r, RescheduleAfter(r, now));
    RescheduleIsLater(cron, r, now);
    hide NextTime, AdvanceEvery;
  }

  lemma TableAfterSpec(cron: CronFire, jobs: seq<Job>, r: Job, now: int, ok: bool)
    requires CronOk(cron) && DistinctIds(jobs) && (r.id in Ids(jobs) ==> r in jobs)
    ensures var t := TableAfter(cron, jobs, r, now, ok);
            DistinctIds(t) && TableLeft(cron, jobs, r, now, ok, t)
  {
    hide Put, Without, Ids, DistinctIds, AdvanceEvery, FirstAfter, NextEntry, Raises, Rescheduled;
    NotInIds(jobs, r.id);
    NotInIds(TableAfter(cron, jobs, r, now, ok), r.id);
    if r.trigger != Every {
      WithoutSpec(jobs, {r.id});
    } else if Raises(cron, r, now) {
      PutSpec(jobs, Counted(r, ok));
    } else {
      RescheduledSpec(cron, r, now, ok);
      PutSpec(jobs, Rescheduled(cron, r, now, ok));
    }
  }

  function StartedBy(s: Service, e: Event): seq<Job> {
    if e.Tick? then Starting(s.jobs, s.inFlight, e.now, e.lead) else []
  }

  /** The one task an event ends, if it ends one. */
  function Ended(s: Service, e: Event): Option<Job> {
    if e.Finish? && e.task < |s.running| then Some(s.running[e.task]) else None
  }

  predicate EndsId(s: Service, e: Event, id: string) {
    Ended(s, e).Some? && Ended(s, e).value.id == id
  }

  /** Where an entry of the table after an event comes from. */
  ghost predicate Entry(cron: CronFire, s: Service, e: Event, j: Job) {
    if EndsId(s, e, j.id) then
      var r := Ended(s, e).value;
      LeftBy(cron, r, e.now, e.ok, j) && (Raises(cron, r, e.now) ==> r in s.jobs)
    else j in s.jobs || (e.Add? && j == e.job)
  }

  /** Where the table, the tasks and the starts after an event come from. */
  ghost predicate Explained(cron: CronFire, s: Service, e: Event, n: Service) {
    && n.log == s.log + LogOf(StartedBy(s, e))
    && n.used == s.used + (if e.Add? then {e.job.id} else {})
    && (forall x :: x in s.inFlight ==> (x in n.inFlight <==> !EndsId(s, e, x)))
    && (forall j :: j in StartedBy(s, e) ==> j.id in n.inFlight)
    && (forall j :: j in n.jobs ==> Entry(cron, s, e, j))
    && (forall r :: r in n.running ==> r in s.running || r in StartedBy(s, e))
  }

  lemma StartedFromTable(s: Service, e: Event)
    requires OneEach(s)
    ensures var st := StartedBy(s, e);
            DistinctIds(st) && forall j :: j in st ==> j in s.jobs && j.enabled && j.id !in s.inFlight
  {
    if e.Tick? {
      StartingSpec(s.jobs, s.inFlight, e.now, e.lead);
    }
  }

  lemma FinishExplained(cron: CronFire, s: Service, k: nat, now: int, ok: bool)
    requires Sound(s) && CronOk(cron) && k < |s.running|
    ensures Explained(cron, s, Finish(k, now, ok), Step(cron, s, Finish(k, now, ok)))
  {
    hide TableAfter, Ids, DistinctIds, InOrder, LeftBy, Raises, LogOf;
    var e, r := Finish(k, now, ok), s.running[k];
    assert Ended(s, e) == Some(r);
    assert r in s.running;
    TaskRemoved(s.running, k);
    EntryOf(s, r);
    TableAfterSpec(cron, s.jobs, r, now, ok);
    NotInIds(TableAfter(cron, s.jobs, r, now, ok), r.id);
    NothingLogged(s.log);
  }

  lemma NothingLogged(log: seq<Started>)
    ensures log + LogOf([]) == log
  {
  }

  /** A running task's id is in the table only with the task's own job. */
  lemma EntryOf(s: Service, r: Job)
    requires Shared(s) && r in s.running
    ensures r.id in Ids(s.jobs) <==> r in s.jobs
  {
    NotInIds(s.jobs, r.id);
  }

  lemma TickExplained(cron: CronFire, s: Service, now: int, lead: nat)
    ensures Explained(cron, s, Tick(now, lead), Step(cron, s, Tick(now, lead)))
  {
    var st := Starting(s.jobs, s.inFlight, now, lead);
    hide Starting, LogOf, Ids;
    forall j | j in st ensures j.id in Ids(st) {
      InIds(st, j);
    }
  }

  lemma RemoveExplained(cron: CronFire, s: Service, e: Event, ids: set<string>)
    requires e.Cancel? || e.CancelByName?
    ensures Explained(cron, s, e, s.(jobs := Without(s.jobs, ids), disk := Without(s.jobs, ids)))
  {
    WithoutSpec(s.jobs, ids);
    assert s.log + LogOf([]) == s.log;
    hide LogOf, Without, Raises;
  }

  lemma AddExplained(cron: CronFire, s: Service, job: Job)
    requires DistinctIds(s.jobs)
    ensures Explained(cron, s, Add(job), Step(cron, s, Add(job)))
  {
    PutSpec(s.jobs, job);
    assert s.log + LogOf([]) == s.log;
    hide LogOf, Put, Raises;
  }

  lemma StepExplained(cron: CronFire, s: Service, e: Event)
    requires Sound(s) && CronOk(cron)
    ensures Explained(cron, s, e, Step(cron, s, e))
  {
    assert s.log + LogOf([]) == s.log;
    hide Starting, Without, TableAfter, LogOf, Shared, InOrder, LeftBy, DistinctIds;
    match e
    case Add(job) => AddExplained(cron, s, job);
    case Cancel(id) => RemoveExplained(cron, s, e, {id});
    case CancelByName(name) => RemoveExplained(cron, s, e, Named(s.jobs, name));
    case Tick(now, lead) => TickExplained(cron, s, now, lead);
    case Finish(k, now, ok) =>
      if k < |s.running| {
        FinishExplained(cron, s, k, now, ok);
      }
  }

  lemma SameJob(jobs: seq<Job>, j: Job, k: Job)
    requires DistinctIds(jobs) && j in jobs && k in jobs && j.id == k.id
    ensures j == k
  {
  }

  lemma TickKeepsOneEach(cron: CronFire, s: Service, now: int, lead: nat)
    requires OneEach(s)
    ensures OneEach(Step(cron, s, Tick(now, lead)))
  {
    StartingSpec(s.jobs, s.inFlight, now, lead);
    StartedIds(s.jobs, s.inFlight, now, lead);
    IdsAdd(s.running, Starting(s.jobs, s.inFlight, now, lead));
    hide Starting, Ids, DistinctIds;
  }

  lemma FinishKeepsOneEach(cron: CronFire, s: Service, k: nat, now: int, ok: bool)
    requires OneEach(s) && Shared(s) && CronOk(cron) && k < |s.running|
    ensures OneEach(Step(cron, s, Finish(k, now, ok)))
  {
    TaskRemoved(s.running, k);
    EntryOf(s, s.running[k]);
    TableAfterSpec(cron, s.jobs, s.running[k], now, ok);
    hide TableAfter, Ids, DistinctIds, Shared, Raises;
  }

  lemma StepKeepsOneEach(cron: CronFire, s: Service, e: Event)
    requires OneEach(s) && Shared(s) && CronOk(cron)
    ensures OneEach(Step(cron, s, e))
  {
    hide Ids, DistinctIds, Shared, Put, Without, Starting, TableAfter;
    match e
    case Add(job) => PutSpec(s.jobs, job);
    case Cancel(id) => WithoutSpec(s.jobs, {id});
    case CancelByName(name) => WithoutSpec(s.jobs, Named(s.jobs, name));
    case Tick(now, lead) => TickKeepsOneEach(cron, s, now, lead);
    case Finish(k, now, ok) =>
      if k < |s.running| {
        FinishKeepsOneEach(cron, s, k, now, ok);
      }
  }

  /** After an event, an entry and a running task of one id are one job. */
  lemma StepKeepsPairs(cron: CronFire, s: Service, e: Event, n: Service, j: Job, r: Job)
    requires Sound(s) && Fresh(s, e) && Explained(cron, s, e, n) && n.inFlight == Ids(n.running)
    requires j in n.jobs && r in n.running && j.id == r.id
    ensures j == r
  {
    StartedFromTable(s, e);
    InIds(n.running, r);
    hide StartedBy, InOrder, Ids, LeftBy, Ended;
    if r in s.running {
      InIds(s.running, r);
    } else if j in s.jobs {
      SameJob(s.jobs, j, r);
    }
  }

  lemma EntryUsed(cron: CronFire, s: Service, e: Event, j: Job)
    requires Shared(s) && Entry(cron, s, e, j)
    ensures j.id in s.used || (e.Add? && j == e.job)
  {
    hide Raises;
    if EndsId(s, e, j.id) {
      assert Ended(s, e).value in s.running;
    }
  }

  lemma TaskUsed(s: Service, e: Event, r: Job)
    requires OneEach(s) && Shared(s) && (r in s.running || r in StartedBy(s, e))
    ensures r.id in s.used && r.enabled
  {
    StartedFromTable(s, e);
    hide StartedBy, OneEach;
  }

  lemma StepKeepsShared(cron: CronFire, s: Service, e: Event)
    requires Sound(s) && CronOk(cron) && Fresh(s, e)
    ensures Shared(Step(cron, s, e))
  {
    var n := Step(cron, s, e);
    StepExplained(cron, s, e);
    StepKeepsOneEach(cron, s, e);
    assert OneEach(s) && Shared(s);
    hide Sound, Step, StartedBy, Entry, LogOf, Ids, DistinctIds;
    forall j | j in n.jobs ensures j.id in n.used {
      EntryUsed(cron, s, e, j);
    }
    forall r | r in n.running ensures r.id in n.used && r.enabled {
      TaskUsed(s, e, r);
    }
    forall j, r | j in n.jobs && r in n.running && j.id == r.id ensures j == r {
      StepKeepsPairs(cron, s, e, n, j, r);
    }
    hide OneEach, Explained;
  }

  lemma LogExtended(log: seq<Started>, start: seq<Job>, used: set<string>)
    requires LogKnown(log, used) && NeverBack(log) && DistinctIds(start)
    requires forall j :: j in start ==> j.id in used && PastOf(j, log) && Recurs(j, log)
    ensures LogKnown(log + LogOf(start), used) && NeverBack(log + LogOf(start))
    ensures NoRepeats(log) && (forall j :: j in start ==> Ahead(j, log)) ==> NoRepeats(log + LogOf(start))
  {
    var n, all := |log|, log + LogOf(start);
    assert forall i :: 0 <= i < n ==> all[i] == log[i];
    forall i | n <= i < |all|
      ensures all[i] == Started(start[i - n].id, start[i - n].fireAt, start[i - n].trigger)
      ensures start[i - n] in start
    {
    }
  }

  lemma PastsExtended(log: seq<Started>, start: seq<Job>, j: Job)
    requires forall k :: k in start && k.id == j.id ==> k == j
    ensures PastOf(j, log) ==> PastOf(j, log + LogOf(start))
    ensures Recurs(j, log) && (j in start ==> j.trigger == Every) ==> Recurs(j, log + LogOf(start))
    ensures Ahead(j, log) && j !in start ==> Ahead(j, log + LogOf(start))
  {
    var n, all := |log|, log + LogOf(start);
    assert forall i :: 0 <= i < n ==> all[i] == log[i];
    forall i | n <= i < |all|
      ensures all[i].id == start[i - n].id && all[i].fireAt == start[i - n].fireAt && start[i - n] in start
    {
    }
  }

  /** Nothing with a new id was ever started. */
  lemma NewIdUnknown(log: seq<Started>, used: set<string>, j: Job)
    requires LogKnown(log, used) && j.id !in used
    ensures PastOf(j, log) && Recurs(j, log) && Ahead(j, log)
  {
  }

  /** The entry a task leaves is no further back than the task was, and recurring. */
  lemma LeftInOrder(cron: CronFire, r: Job, now: int, ok: bool, j: Job, log: seq<Started>)
    requires LeftBy(cron, r, now, ok, j) && PastOf(r, log)
    ensures PastOf(j, log) && Recurs(j, log)
    ensures !Raises(cron, r, now) ==> Ahead(j, log)
  {
    hide Raises;
  }

  /** Everything in the table after an event, seen against the log before it. */
  lemma EntriesInOrder(cron: CronFire, s: Service, e: Event, j: Job)
    requires Sound(s) && CronOk(cron) && Fresh(s, e) && Entry(cron, s, e, j)
    ensures PastOf(j, s.log)
    ensures (j.id in s.inFlight ==> EndsId(s, e, j.id)) ==> Recurs(j, s.log)
    ensures (j.id in s.inFlight ==> EndsId(s, e, j.id)) && OnTime(s) && !Failing(cron, s, e) ==> Ahead(j, s.log)
  {
    hide PastOf, Recurs, Ahead, LogKnown, NeverBack, NoRepeats, Raises;
    if EndsId(s, e, j.id) {
      var r := Ended(s, e).value;
      assert r in s.running;
      LeftInOrder(cron, r, e.now, e.ok, j, s.log);
    } else if j !in s.jobs {
      NewIdUnknown(s.log, s.used, j);
    }
  }

  lemma StartedInOrder(s: Service, e: Event)
    requires Sound(s)
    ensures forall j :: j in StartedBy(s, e) ==> j.id in s.used && PastOf(j, s.log) && Recurs(j, s.log)
    ensures OnTime(s) ==> forall j :: j in StartedBy(s, e) ==> Ahead(j, s.log)
  {
    StartedFromTable(s, e);
    hide StartedBy, PastOf, Recurs, Ahead, LogKnown, NeverBack, NoRepeats;
  }

  /** A start by this event with the id of an entry after it is that very entry. */
  lemma StartedIsEntry(cron: CronFire, s: Service, e: Event, j: Job)
    requires Sound(s) && Fresh(s, e) && Entry(cron, s, e, j)
    ensures forall k :: k in StartedBy(s, e) && k.id == j.id ==> k == j
  {
    StartedFromTable(s, e);
    if e.Tick? {
      hide StartedBy, InOrder;
      forall k | k in StartedBy(s, e) && k.id == j.id ensures k == j {
        SameJob(s.jobs, k, j);
      }
    }
  }

  lemma StepKeepsEntries(cron: CronFire, s: Service, e: Event, j: Job)
    requires Sound(s) && CronOk(cron) && Fresh(s, e) && j in Step(cron, s, e).jobs
    ensures var n := Step(cron, s, e);
            && PastOf(j, n.log)
            && (j.id !in n.inFlight ==> Recurs(j, n.log))
            && (j.id !in n.inFlight && OnTime(s) && !Failing(cron, s, e) ==> Ahead(j, n.log))
  {
    StepExplained(cron, s, e);
    hide Step, StartedBy, OneEach, Shared, InOrder, PastOf, Recurs, Ahead, OnTime, Entry, Ended;
    EntriesInOrder(cron, s, e, j);
    StartedIsEntry(cron, s, e, j);
    PastsExtended(s.log, StartedBy(s, e), j);
  }

  lemma StepKeepsTasks(cron: CronFire, s: Service, e: Event, r: Job)
    requires Sound(s) && CronOk(cron) && r in Step(cron, s, e).running
    ensures PastOf(r, Step(cron, s, e).log)
  {
    StepExplained(cron, s, e);
    StartedFromTable(s, e);
    StartedInOrder(s, e);
    var st := StartedBy(s, e);
    assert forall k :: k in st && k.id == r.id ==> k == r by {
      if r in s.running {
        InIds(s.running, r);
      }
    }
    hide Step, StartedBy, Shared, PastOf, Recurs, Ahead, OnTime, Entry, Ended;
    PastsExtended(s.log, st, r);
  }

  lemma StepKeepsLog(cron: CronFire, s: Service, e: Event)
    requires Sound(s) && CronOk(cron)
    ensures var n := Step(cron, s, e);
            && LogKnown(n.log, n.used) && NeverBack(n.log)
            && (OnTime(s) ==> NoRepeats(n.log))
  {
    StepExplained(cron, s, e);
    StartedFromTable(s, e);
    StartedInOrder(s, e);
    hide Step, StartedBy, Shared, PastOf, Recurs, Ahead, Entry, Ended, NeverBack, NoRepeats;
    LogExtended(s.log, StartedBy(s, e), s.used);
  }

  /** Every event, also the end of a task that raises, keeps what holds at all times. */
  lemma StepKeepsSound(cron: CronFire, s: Service, e: Event)
    requires Sound(s) && CronOk(cron) && Fresh(s, e)
    ensures Sound(Step(cron, s, e))
  {
    hide OneEach, Shared, PastOf, Recurs, Ahead, NoRepeats, NeverBack, LogKnown, Step;
    StepKeepsOneEach(cron, s, e);
    StepKeepsShared(cron, s, e);
    StepKeepsLog(cron, s, e);
    var n := Step(cron, s, e);
    forall j | j in n.jobs ensures PastOf(j, n.log) && (j.id !in n.inFlight ==> Recurs(j, n.log)) {
      StepKeepsEntries(cron, s, e, j);
    }
    forall r | r in n.running ensures PastOf(r, n.log) {
      StepKeepsTasks(cron, s, e, r);
    }
  }

  /** Every other event keeps waiting jobs ahead of their starts. */
  lemma StepKeepsOnTime(cron: CronFire, s: Service, e: Event)
    requires Sound(s) && OnTime(s) && CronOk(cron) && Fresh(s, e) && !Failing(cron, s, e)
    ensures OnTime(Step(cron, s, e))
  {
    StepKeepsLog(cron, s, e);
    hide Sound, PastOf, Recurs, Ahead, NoRepeats, NeverBack, LogKnown, Step, Failing;
    var n := Step(cron, s, e);
    forall j | j in n.jobs && j.id !in n.inFlight ensures Ahead(j, n.log) {
      StepKeepsEntries(cron, s, e, j);
    }
  }

  // ── whole runs ─────────────────────────────────────────────────

  function After(cron: CronFire, s: Service, es: seq<Event>): Service {
    if es == [] then s else Step(cron, After(cron, s, es[..|es| - 1]), es[|es| - 1])
  }

  ghost predicate AllFresh(cron: CronFire, s: Service, es: seq<Event>) {
    forall i :: 0 <= i < |es| ==> Fresh(After(cron, s, es[..i]), es[i])
  }

  ghost predicate NoneFailing(cron: CronFire, s: Service, es: seq<Event>) {
    forall i :: 0 <= i < |es| ==> !Failing(cron, After(cron, s, es[..i]), es[i])
  }

  predicate Timed(e: Event) {
    e.Tick? || e.Finish?
  }

  /** The clock does not run backwards, and starts no earlier than `from`. */
  ghost predicate Clocked(from: int, es: seq<Event>) {
    && (forall i :: 0 <= i < |es| && Timed(es[i]) ==> from <= es[i].now)
    && (forall i, j :: 0 <= i < j < |es| && Timed(es[i]) && Timed(es[j]) ==> es[i].now <= es[j].now)
  }

  lemma Front(cron: CronFire, s: Service, es: seq<Event>)
    requires es != []
    ensures var front, last := es[..|es| - 1], es[|es| - 1];
            && After(cron, s, es) == Step(cron, After(cron, s, front), last)
            && (AllFresh(cron, s, es) ==> AllFresh(cron, s, front) && Fresh(After(cron, s, front), last))
            && (NoneFailing(cron, s, es) ==> NoneFailing(cron, s, front) && !Failing(cron, After(cron, s, front), last))
  {
    var front := es[..|es| - 1];
    assert forall i :: 0 <= i < |front| ==> front[i] == es[i] && front[..i] == es[..i];
    hide Step, Fresh, Failing;
  }

  /**
   Over every interleaving of ticks, completions, failures, adds of fresh ids and cancels, whatever
   raises: at most one task per job runs at a time, the in-flight set is exactly the running ids,
   and a job started again is recurring, so a one-shot starts at most once in the life of the process.
   */
  lemma {:induction false} AlwaysOneAtATime(cron: CronFire, s: Service, es: seq<Event>)
    requires Sound(s) && CronOk(cron) && AllFresh(cron, s, es)
    ensures var e := After(cron, s, es);
            Sound(e) && DistinctIds(e.running) && e.inFlight == Ids(e.running) && NeverBack(e.log)
  {
    if es != [] {
      Front(cron, s, es);
      hide After, AllFresh, Step, Fresh;
      var front := es[..|es| - 1];
      AlwaysOneAtATime(cron, s, front);
      StepKeepsSound(cron, After(cron, s, front), es[|es| - 1]);
    }
  }

  /** As long as no rescheduling raises, no job is started twice for one nominal time. */
  lemma {:induction false} NeverTwice(cron: CronFire, s: Service, es: seq<Event>)
    requires Sound(s) && OnTime(s) && CronOk(cron) && AllFresh(cron, s, es) && NoneFailing(cron, s, es)
    ensures OnTime(After(cron, s, es)) && NoRepeats(After(cron, s, es).log)
  {
    if es != [] {
      Front(cron, s, es);
      hide After, AllFresh, NoneFailing, Step, Fresh, Failing, Sound;
      var front := es[..|es| - 1];
      AlwaysOneAtATime(cron, s, front);
      NeverTwice(cron, s, front);
      StepKeepsOnTime(cron, After(cron, s, front), es[|es| - 1]);
    }
  }

  // ── when an occurrence is started again ────────────────────────

  ghost predicate StartsLater(before: Service, after: Service, id: string) {
    exists i :: |before.log| <= i < |after.log| && after.log[i].id == id
  }

  ghost predicate StartsAgain(before: Service, after: Service, id: string, fireAt: int) {
    exists i :: |before.log| <= i < |after.log| && after.log[i].id == id && after.log[i].fireAt == fireAt
  }

  /** All that is left of the id is past the time t. */
  ghost predicate Passed(s: Service, id: string, t: int) {
    && id in s.used
    && (forall j :: j in s.jobs && j.id == id ==> j.fireAt > t)
    && (forall r :: r in s.running && r.id == id ==> r.fireAt > t)
  }

  lemma EntryPassed(cron: CronFire, s: Service, e: Event, j: Job, id: string, t: int)
    requires Fresh(s, e) && Passed(s, id, t) && Entry(cron, s, e, j) && j.id == id
    ensures j.fireAt > t
  {
    hide Raises;
    if EndsId(s, e, j.id) {
      assert Ended(s, e).value in s.running;
    }
  }

  lemma StepKeepsPassed(cron: CronFire, s: Service, e: Event, id: string, t: int)
    requires Sound(s) && CronOk(cron) && Fresh(s, e) && Passed(s, id, t)
    ensures var n := Step(cron, s, e);
            && Passed(n, id, t) && |s.log| <= |n.log|
            && forall i :: |s.log| <= i < |n.log| && n.log[i].id == id ==> n.log[i].fireAt > t
    ensures s.log == Step(cron, s, e).log[..|s.log|]
  {
    StepExplained(cron, s, e);
    StartedFromTable(s, e);
    var n, st := Step(cron, s, e), StartedBy(s, e);
    hide Step, StartedBy, OneEach, Shared, InOrder, Entry, LogOf;
    forall j | j in n.jobs && j.id == id ensures j.fireAt > t {
      EntryPassed(cron, s, e, j, id, t);
    }
    assert forall i :: 0 <= i < |st| ==> st[i] in st;
  }

  lemma {:induction false} PassedStays(cron: CronFire, s: Service, es: seq<Event>, id: string, t: int)
    requires Sound(s) && CronOk(cron) && AllFresh(cron, s, es) && Passed(s, id, t)
    ensures var n := After(cron, s, es);
            && Passed(n, id, t) && |s.log| <= |n.log|
            && forall i :: |s.log| <= i < |n.log| && n.log[i].id == id ==> n.log[i].fireAt > t
  {
    if es != [] {
      Front(cron, s, es);
      hide After, AllFresh, Step, Fresh, Sound, Passed;
      var front := es[..|es| - 1];
      AlwaysOneAtATime(cron, s, front);
      PassedStays(cron, s, front, id, t);
      var m := After(cron, s, front);
      StepKeepsPassed(cron, m, es[|es| - 1], id, t);
      var n := After(cron, s, es);
      assert forall i :: 0 <= i < |m.log| ==> n.log[i] == m.log[i];
    }
  }

  /** A tick at its time or later starts a waiting enabled job. */
  lemma TickStarts(cron: CronFire, s: Service, j: Job, now: int)
    requires OneEach(s) && j in s.jobs && j.enabled && j.id !in s.inFlight && j.fireAt <= now
    ensures StartsAgain(s, Step(cron, s, Tick(now, 0)), j.id, j.fireAt)
  {
    hide Starting, Ids, LogOf;
    StartingSpec(s.jobs, s.inFlight, now, 0);
    var st := Starting(s.jobs, s.inFlight, now, 0);
    assert j in st;
    TickLogs(cron, s, now);
    hide *;
    LoggedStart(s.log, st, j);
    StartsAgainBy(s, Step(cron, s, Tick(now, 0)), j);
  }

  lemma TickLogs(cron: CronFire, s: Service, now: int)
    ensures Step(cron, s, Tick(now, 0)).log == s.log + LogOf(Starting(s.jobs, s.inFlight, now, 0))
  {
    hide Starting, LogOf, Ids;
  }

  /** The entry of a started job is in the log from then on. */
  ghost predicate LoggedFrom(log: seq<Started>, n: nat, j: Job) {
    exists i :: n <= i < |log| && log[i].id == j.id && log[i].fireAt == j.fireAt
  }

  lemma LoggedStart(log: seq<Started>, st: seq<Job>, j: Job)
    requires j in st
    ensures LoggedFrom(log + LogOf(st), |log|, j)
  {
    var i :| 0 <= i < |st| && st[i] == j;
    var more := LogOf(st);
    assert (log + more)[|log| + i] == more[i];
  }

  lemma StartsAgainBy(before: Service, after: Service, j: Job)
    requires LoggedFrom(after.log, |before.log|, j)
    ensures StartsAgain(before, after, j.id, j.fireAt)
  {
  }

  lemma OneTick(cron: CronFire, s: Service, j: Job, from: int)
    requires OneEach(s) && j in s.jobs && j.enabled && j.id !in s.inFlight
    ensures exists es :: AllFresh(cron, s, es) && Clocked(from, es) && StartsAgain(s, After(cron, s, es), j.id, j.fireAt)
  {
    var now := if from > j.fireAt then from else j.fireAt;
    TickStarts(cron, s, j, now);
    var es := [Tick(now, 0)];
    assert es[..0] == [];
    assert AllFresh(cron, s, es) && Clocked(from, es);
    hide Step;
    assert After(cron, s, es) == Step(cron, s, es[0]);
  }

  /** What the end of task k leaves of its id. */
  lemma AfterFinish(cron: CronFire, s: Service, k: nat, now: int, ok: bool)
    requires Sound(s) && CronOk(cron) && k < |s.running|
    ensures var n, r := Step(cron, s, Finish(k, now, ok)), s.running[k];
            && Sound(n) && n.log == s.log && r.id in n.used && r.id !in n.inFlight
            && TableLeft(cron, s.jobs, r, now, ok, n.jobs) && r.enabled
            && (forall q :: q in n.running ==> q.id != r.id)
  {
    var e, r := Finish(k, now, ok), s.running[k];
    var n := Step(cron, s, e);
    assert r in s.running;
    EntryOf(s, r);
    InIds(s.running, r);
    TableAfterSpec(cron, s.jobs, r, now, ok);
    assert n.jobs == TableAfter(cron, s.jobs, r, now, ok);
    TaskRemoved(s.running, k);
    NotInIds(n.running, r.id);
    hide Step, InOrder, TableAfter, Ids, Raises, LeftBy;
    StepKeepsSound(cron, s, e);
  }

  /**
   An occurrence can be started again, in some later run, if and only if its rescheduling found no
   next time while the job was still in the table; if not, not even a clock set back does it.
   */
  lemma StartedAgainIff(cron: CronFire, s: Service, k: nat, now: int, ok: bool)
    requires Sound(s) && CronOk(cron) && k < |s.running|
    ensures var n, r := Step(cron, s, Finish(k, now, ok)), s.running[k];
            && ((exists es :: AllFresh(cron, n, es) && Clocked(now, es) && StartsAgain(n, After(cron, n, es), r.id, r.fireAt))
                <==> Raises(cron, r, now) && r in s.jobs)
            && ((exists es :: AllFresh(cron, n, es) && StartsAgain(n, After(cron, n, es), r.id, r.fireAt))
                <==> Raises(cron, r, now) && r in s.jobs)
  {
    var n, r := Step(cron, s, Finish(k, now, ok)), s.running[k];
    AfterFinish(cron, s, k, now, ok);
    NotInIds(n.jobs, r.id);
    hide Step, InOrder, Ids, Raises, AllFresh, Clocked, After;
    if Raises(cron, r, now) && r in s.jobs {
      assert r.id in Ids(n.jobs) || r.trigger != Every;
      RaisesRecurs(cron, r, now);
      var j :| j in n.jobs && j.id == r.id;
      OneTick(cron, n, j, now);
    } else {
      assert Passed(n, r.id, r.fireAt);
      forall es | AllFresh(cron, n, es) ensures !StartsAgain(n, After(cron, n, es), r.id, r.fireAt) {
        PassedStays(cron, n, es, r.id, r.fireAt);
      }
    }
  }

  lemma RaisesRecurs(cron: CronFire, r: Job, now: int)
    ensures Raises(cron, r, now) ==> r.trigger == Every
  {
    hide AdvanceEvery;
  }

  // ── when a cancelled job runs again ────────────────────────────

  /** The end of the task, at some clock from `from` on, can put its job back into the table. */
  ghost predicate CanReturn(cron: CronFire, r: Job, from: int) {
    r.trigger == Every && exists now :: now >= from && !Raises(cron, r, now)
  }

  /** The id was used, is not in the table, and from `from` on no running task of it can put it back. */
  ghost predicate Gone(cron: CronFire, s: Service, id: string, from: int) {
    && id in s.used
    && (forall j :: j in s.jobs ==> j.id != id)
    && (forall r :: r in s.running && r.id == id ==> !CanReturn(cron, r, from))
  }

  lemma StepKeepsGone(cron: CronFire, s: Service, e: Event, id: string, from: int)
    requires Sound(s) && CronOk(cron) && Fresh(s, e) && Gone(cron, s, id, from) && (Timed(e) ==> e.now >= from)
    ensures var n := Step(cron, s, e);
            && Gone(cron, n, id, from) && s.log <= n.log
            && forall i :: |s.log| <= i < |n.log| ==> n.log[i].id != id
  {
    StepExplained(cron, s, e);
    StartedFromTable(s, e);
    var n, st := Step(cron, s, e), StartedBy(s, e);
    hide Step, StartedBy, OneEach, Shared, InOrder, LogOf;
    forall j | j in n.jobs ensures j.id != id {
      NoEntry(cron, s, e, j, id, from);
    }
    hide Entry, EndsId, Raises, Ended;
    assert forall i :: 0 <= i < |st| ==> st[i] in st;
  }

  lemma NoEntry(cron: CronFire, s: Service, e: Event, j: Job, id: string, from: int)
    requires Fresh(s, e) && Gone(cron, s, id, from) && (Timed(e) ==> e.now >= from) && Entry(cron, s, e, j)
    ensures j.id != id
  {
    if EndsId(s, e, j.id) {
      var r := Ended(s, e).value;
      assert r in s.running;
      hide Raises;
      assert Raises(cron, r, e.now) ==> r in s.jobs;
    }
  }

  /** A job that is gone is never started again, whatever happens from then on. */
  lemma {:induction false} CancelledStaysGone(cron: CronFire, s: Service, es: seq<Event>, id: string, from: int)
    requires Sound(s) && CronOk(cron) && AllFresh(cron, s, es) && Gone(cron, s, id, from)
    requires forall i :: 0 <= i < |es| && Timed(es[i]) ==> from <= es[i].now
    ensures var n := After(cron, s, es);
            && Gone(cron, n, id, from) && s.log <= n.log
            && forall i :: |s.log| <= i < |n.log| ==> n.log[i].id != id
  {
    if es != [] {
      Front(cron, s, es);
      hide After, AllFresh, Step, Fresh, Sound, Gone;
      var front := es[..|es| - 1];
      AlwaysOneAtATime(cron, s, front);
      CancelledStaysGone(cron, s, front, id, from);
      StepKeepsGone(cron, After(cron, s, front), es[|es| - 1], id, from);
    }
  }

  /** A task that finds a next time leaves its job in the table, waiting. */
  lemma TaskReturns(cron: CronFire, s: Service, k: nat, now: int) returns (j: Job)
    requires Sound(s) && CronOk(cron) && k < |s.running| && s.running[k].trigger == Every && !Raises(cron, s.running[k], now)
    ensures var m := Step(cron, s, Finish(k, now, true));
            && OneEach(m) && m.log == s.log
            && j in m.jobs && j.id == s.running[k].id && j.enabled && j.id !in m.inFlight
  {
    var m := Step(cron, s, Finish(k, now, true));
    hide Step, OneEach, Shared, InOrder, Ids, Raises, NextTime;
    AfterFinish(cron, s, k, now, true);
    NotInIds(m.jobs, s.running[k].id);
    j :| j in m.jobs && j.id == s.running[k].id;
  }

  /** A running recurring job comes back and starts again, in two events, from any table. */
  lemma ReturnAndStart(cron: CronFire, s: Service, k: nat, now: int)
    requires Sound(s) && CronOk(cron) && k < |s.running| && s.running[k].trigger == Every && !Raises(cron, s.running[k], now)
    ensures exists es :: AllFresh(cron, s, es) && Clocked(now, es) && StartsLater(s, After(cron, s, es), s.running[k].id)
  {
    hide Step, Sound, OneEach, AllFresh, After, Raises, Clocked;
    var e := Finish(k, now, true);
    var j := TaskReturns(cron, s, k, now);
    var tick := Tick(if now > j.fireAt then now else j.fireAt, 0);
    TickStarts(cron, Step(cron, s, e), j, tick.now);
    TwoEvents(cron, s, e, tick);
    InTime(e, tick);
    assert AllFresh(cron, s, [e, tick]);
  }

  lemma InTime(first: Event, second: Event)
    requires Timed(first) && Timed(second) && first.now <= second.now
    ensures Clocked(first.now, [first, second])
  {
  }

  lemma TwoEvents(cron: CronFire, s: Service, first: Event, second: Event)
    ensures After(cron, s, [first, second]) == Step(cron, Step(cron, s, first), second)
    ensures !first.Add? && !second.Add? ==> AllFresh(cron, s, [first, second])
  {
    hide Step;
    assert [first, second][..1] == [first] && [first][..0] == [];
    assert After(cron, s, [first]) == Step(cron, s, first);
  }

  /**
   A cancelled job is started again in some later run if and only if a task of it is running, it is
   recurring, and there is a clock still to come for which its rescheduling finds a next time.
   */
  lemma CancelledStartsAgainIff(cron: CronFire, s: Service, id: string, now: int)
    requires Sound(s) && CronOk(cron) && id in Ids(s.jobs)
    ensures var n := Step(cron, s, Cancel(id));
            (exists es :: AllFresh(cron, n, es) && Clocked(now, es) && StartsLater(n, After(cron, n, es), id))
            <==> exists r :: r in s.running && r.id == id && CanReturn(cron, r, now)
  {
    var n := Step(cron, s, Cancel(id));
    WithoutSpec(s.jobs, {id});
    NotInIds(s.jobs, id);
    StepKeepsSound(cron, s, Cancel(id));
    hide Sound, AllFresh, Raises, After;
    if r :| r in s.running && r.id == id && CanReturn(cron, r, now) {
      var k :| 0 <= k < |s.running| && s.running[k] == r;
      var later :| later >= now && !Raises(cron, r, later);
      ReturnAndStart(cron, n, k, later);
      assert forall es :: Clocked(later, es) ==> Clocked(now, es);
      hide Clocked;
    } else {
      assert Gone(cron, n, id, now);
      forall es | AllFresh(cron, n, es) && Clocked(now, es) ensures !StartsLater(n, After(cron, n, es), id) {
        CancelledStaysGone(cron, n, es, id, now);
      }
    }
  }

  /** A recurring job with an interval always finds a next time. */
  lemma IntervalCanReturn(cron: CronFire, r: Job, from: int)
    requires CronOk(cron) && r.cron == ""
    ensures CanReturn(cron, r, from) <==> r.trigger == Every
  {
    assert !Raises(cron, r, from);
  }

  /**
   What the end of a task leaves: its job is in the table if and only if the job is recurring and,
   should rescheduling raise, was still there; and then only its fire time and run count changed.
   All other jobs stay.
   */
  lemma FinishedJobReturnsIff(cron: CronFire, s: Service, k: nat, now: int, ok: bool)
    requires Sound(s) && CronOk(cron) && k < |s.running|
    ensures var n, r := Step(cron, s, Finish(k, now, ok)), s.running[k];
            && (r.id in Ids(n.jobs) <==> r.trigger == Every && (Raises(cron, r, now) ==> r in s.jobs))
            && (forall j :: j in n.jobs && j.id == r.id ==>
                  if Raises(cron, r, now) then j == r.(runCount := r.runCount + if ok then 1 else 0)
                  else NextEntry(cron, r, now, ok, j))
            && (forall j: Job :: j.id != r.id ==> (j in n.jobs <==> j in s.jobs))
  {
    hide Step, Sound, CronOk, Ids, Raises, NextEntry, InOrder;
    AfterFinish(cron, s, k, now, ok);
  }

  // ── the table and the file ─────────────────────────────────────

  /** Adding, cancelling and ticking leave all other jobs as they are. */
  lemma OtherEventsOnTable(cron: CronFire, s: Service, e: Event)
    requires DistinctIds(s.jobs) && !e.Finish?
    ensures forall j :: j in Step(cron, s, e).jobs <==>
      match e {
        case Add(job) => j == job || (j in s.jobs && j.id != job.id)
        case Cancel(id) => j in s.jobs && j.id != id
        case CancelByName(name) => j in s.jobs && j.name != name
        case Tick(_, _) => j in s.jobs
        case Finish(_, _, _) => false
      }
  {
    match e
    case Add(job) => PutSpec(s.jobs, job);
    case Cancel(id) =>
      WithoutSpec(s.jobs, {id});
      NotInIds(s.jobs, id);
    case CancelByName(name) =>
      WithoutSpec(s.jobs, Named(s.jobs, name));
      NamedSpec(s.jobs, name);
    case Tick(_, _) =>
    case Finish(_, _, _) =>
  }

  lemma NamedSpec(jobs: seq<Job>, name: string)
    requires DistinctIds(jobs)
    ensures forall j :: j in jobs ==> (j.id in Named(jobs, name) <==> j.name == name)
  {
  }

  /** The event changes the job table, or would if there were something to change. */
  predicate Saves(cron: CronFire, s: Service, e: Event) {
    match e
    case Add(_) => true
    case Cancel(id) => exists j :: j in s.jobs && j.id == id
    case CancelByName(name) => exists j :: j in s.jobs && j.name == name
    case Tick(_, _) => false
    case Finish(k, now, _) => k < |s.running| && !Raises(cron, s.running[k], now)
  }

  /** Such an event leaves the file and the table the same; any other leaves the file as it was. */
  lemma StepSaves(cron: CronFire, s: Service, e: Event)
    ensures Step(cron, s, e).disk == if Saves(cron, s, e) then Step(cron, s, e).jobs else s.disk
  {
    hide Raises, Put, Without, TableAfter, Starting;
    if e.Cancel? {
      NotInIds(s.jobs, e.id);
    }
    if e.CancelByName? {
      NotNamed(s.jobs, e.name);
    }
  }

  lemma NotNamed(jobs: seq<Job>, name: string)
    ensures Named(jobs, name) == {} <==> forall j :: j in jobs ==> j.name != name
  {
    forall j | j in jobs && j.name == name ensures j.id in Named(jobs, name) {
    }
    assert forall i :: 0 <= i < |jobs| ==> jobs[i] in jobs;
  }

  /** Every run keeps a job that is gone off the file, once it is. */
  lemma {:induction false} GoneFromFile(cron: CronFire, s: Service, es: seq<Event>, id: string, from: int)
    requires Sound(s) && CronOk(cron) && AllFresh(cron, s, es) && Gone(cron, s, id, from) && id !in Ids(s.disk)
    requires forall i :: 0 <= i < |es| && Timed(es[i]) ==> from <= es[i].now
    ensures id !in Ids(After(cron, s, es).disk)
  {
    if es != [] {
      Front(cron, s, es);
      hide AllFresh, Step, Fresh, Sound, Ids, Saves, Raises;
      var front := es[..|es| - 1];
      GoneFromFile(cron, s, front, id, from);
      StepSaves(cron, After(cron, s, front), es[|es| - 1]);
      CancelledStaysGone(cron, s, es, id, from);
      NotInIds(After(cron, s, es).jobs, id);
    }
  }

  /**
   A job cancelled while no task of it can put it back is in the table of no later start-up: in
   particular one that was cancelled while it was not running.
   */
  lemma CancelledNotRecovered(cron: CronFire, s: Service, es: seq<Event>, id: string, from: int, now: int)
    requires Sound(s) && CronOk(cron) && id in Ids(s.jobs)
    requires forall r :: r in s.running && r.id == id ==> !CanReturn(cron, r, from)
    requires AllFresh(cron, Step(cron, s, Cancel(id)), es)
    requires forall i :: 0 <= i < |es| && Timed(es[i]) ==> from <= es[i].now
    ensures var disk := After(cron, Step(cron, s, Cancel(id)), es).disk;
            Recover(cron, disk, now).Some? ==> id !in Ids(Recover(cron, disk, now).value)
  {
    var n := Step(cron, s, Cancel(id));
    WithoutSpec(s.jobs, {id});
    NotInIds(s.jobs, id);
    NotInIds(n.jobs, id);
    StepKeepsSound(cron, s, Cancel(id));
    hide Sound, AllFresh, Raises, After, CanReturn, Without, Ids, Recover;
    assert Gone(cron, n, id, from);
    GoneFromFile(cron, n, es, id, from);
    var disk := After(cron, n, es).disk;
    if Recover(cron, disk, now).Some? {
      RecoveredIds(cron, disk, now);
    }
  }

  /** Start-up brings back persisted ids only. */
  lemma {:induction false} RecoveredIds(cron: CronFire, stored: seq<Job>, now: int)
    requires Recover(cron, stored, now).Some?
    ensures Ids(Recover(cron, stored, now).value) <= Ids(stored)
  {
    if stored != [] {
      var front, last := stored[..|stored| - 1], stored[|stored| - 1];
      assert stored == front + [last];
      RecoveredIds(cron, front, now);
      IdsSnoc(front, last);
      var r := RecoverOne(cron, last, now);
      hide AdvanceEvery, Put, Ids;
      if r.Some? {
        PutIds(Recover(cron, front, now).value, r.value);
      }
    }
  }

  lemma PutIds(jobs: seq<Job>, job: Job)
    ensures Ids(Put(jobs, job)) <= Ids(jobs) + {job.id}
  {
    PutIn(jobs, job);
    hide Put;
    forall x | x in Ids(Put(jobs, job)) ensures x in Ids(jobs) + {job.id} {
      var i :| 0 <= i < |Put(jobs, job)| && Put(jobs, job)[i].id == x;
      assert Put(jobs, job)[i] in Put(jobs, job);
    }
  }

  // ── start-up ───────────────────────────────────────────────────

  /** Start-up dies exactly when some recurring job is overdue and its next time cannot be computed. */
  lemma {:induction false} RecoverRaisesIff(cron: CronFire, stored: seq<Job>, now: int)
    ensures Recover(cron, stored, now).None? <==>
      exists j :: j in stored && Missed(j, now) && AdvanceEvery(cron, j, now).None?
  {
    if stored != [] {
      var front, last := stored[..|stored| - 1], stored[|stored| - 1];
      assert stored == front + [last];
      RecoverRaisesIff(cron, front, now);
      assert last in stored;
      hide AdvanceEvery, Missed, RecoverOne, Put;
    }
  }

  lemma {:induction false} RecoverDistinct(cron: CronFire, stored: seq<Job>, now: int)
    requires DistinctIds(stored) && Recover(cron, stored, now).Some?
    ensures DistinctIds(Recover(cron, stored, now).value)
  {
    if stored != [] {
      var front, last := stored[..|stored| - 1], stored[|stored| - 1];
      RecoverDistinct(cron, front, now);
      hide AdvanceEvery, Missed, RecoverOne, Put;
      var r := RecoverOne(cron, last, now);
      if r.Some? {
        PutSpec(Recover(cron, front, now).value, r.value);
      }
    }
  }

  lemma StartIsSound(cron: CronFire, stored: seq<Job>, now: int)
    requires DistinctIds(stored) && Recover(cron, stored, now).Some?
    ensures Sound(Start(cron, stored, now)) && OnTime(Start(cron, stored, now))
  {
    RecoverDistinct(cron, stored, now);
    hide Recover;
  }

  /** Enabled, and recurring, not yet due, or a one-shot no more than five minutes late. */
  predicate Worth(job: Job, now: int) {
    job.enabled && (job.trigger == Every || job.fireAt + GRACE >= now)
  }

  /** What recovery may do to a job it keeps: only missed recurring jobs move, to their next time after the clock. */
  ghost predicate Revived(cron: CronFire, job: Job, j: Job, now: int) {
    if job.trigger == Every && job.fireAt <= now then j == job.(fireAt := j.fireAt) && NextTime(cron, job, now, j.fireAt)
    else j == job
  }

  lemma RecoverOneSpec(cron: CronFire, job: Job, now: int)
    requires CronOk(cron) && (Missed(job, now) ==> AdvanceEvery(cron, job, now).Some?)
    ensures var r := RecoverOne(cron, job, now);
            (r.Some? <==> Worth(job, now)) && (r.Some? ==> r.value.id == job.id && Revived(cron, job, r.value, now))
  {
    AdvanceFinds(cron, job, now);
    hide NextTime;
  }

  /** One more persisted job. */
  lemma RecoverStep(cron: CronFire, stored: seq<Job>, now: int)
    requires DistinctIds(stored) && CronOk(cron) && stored != [] && Recover(cron, stored, now).Some?
    ensures var front, last := stored[..|stored| - 1], stored[|stored| - 1];
            && DistinctIds(front) && last !in front && Recover(cron, front, now).Some?
            && forall j :: j in Recover(cron, stored, now).value
                 <==> (Worth(last, now) && j == RecoverOne(cron, last, now).value)
                      || (j in Recover(cron, front, now).value && (Worth(last, now) ==> j.id != last.id))
  {
    var front, last := stored[..|stored| - 1], stored[|stored| - 1];
    assert Recover(cron, front, now).Some? && (Missed(last, now) ==> AdvanceEvery(cron, last, now).Some?);
    var r, rf := RecoverOne(cron, last, now), Recover(cron, front, now).value;
    assert Recover(cron, stored, now).value == if r.Some? then Put(rf, r.value) else rf;
    RecoverOneSpec(cron, last, now);
    RecoverDistinct(cron, front, now);
    hide Recover, RecoverOne, Put, AdvanceEvery, Worth, Revived;
    if r.Some? {
      PutSpec(rf, r.value);
    }
  }

  /** Recovered jobs have the ids of persisted ones. */
  lemma {:induction false} RecoverFrom(cron: CronFire, stored: seq<Job>, now: int)
    requires DistinctIds(stored) && CronOk(cron) && Recover(cron, stored, now).Some?
    ensures forall j :: j in Recover(cron, stored, now).value ==> exists i :: 0 <= i < |stored| && stored[i].id == j.id
  {
    if stored != [] {
      var front, last := stored[..|stored| - 1], stored[|stored| - 1];
      RecoverStep(cron, stored, now);
      RecoverOneSpec(cron, last, now);
      RecoverFrom(cron, front, now);
      hide Recover, RecoverOne, Worth, Revived, AdvanceEvery;
      forall j | j in Recover(cron, stored, now).value ensures exists i :: 0 <= i < |stored| && stored[i].id == j.id {
        if j in Recover(cron, front, now).value {
          var i :| 0 <= i < |front| && front[i].id == j.id;
          assert stored[i].id == j.id;
        } else {
          assert stored[|stored| - 1].id == j.id;
        }
      }
    }
  }

  /** A start-up that succeeds keeps a persisted job if and only if it is worth keeping. */
  lemma {:induction false} RecoverKeepsIff(cron: CronFire, stored: seq<Job>, now: int, job: Job)
    requires DistinctIds(stored) && CronOk(cron) && job in stored && Recover(cron, stored, now).Some?
    ensures (exists j :: j in Recover(cron, stored, now).value && j.id == job.id) <==> Worth(job, now)
    ensures Worth(job, now) ==> exists j :: j in Recover(cron, stored, now).value && j.id == job.id && Revived(cron, job, j, now)
  {
    var front, last := stored[..|stored| - 1], stored[|stored| - 1];
    assert stored == front + [last];
    RecoverStep(cron, stored, now);
    RecoverOneSpec(cron, last, now);
    RecoverFrom(cron, front, now);
    hide Recover, RecoverOne, Revived, Worth, AdvanceEvery;
    if job == last {
      assert forall i :: 0 <= i < |front| ==> stored[i] == front[i];
      if Worth(job, now) {
        var j := RecoverOne(cron, last, now).value;
        assert j in Recover(cron, stored, now).value;
      }
    } else {
      RecoverKeepsIff(cron, front, now, job);
      SameJobLast(stored, job);
    }
  }

  lemma SameJobLast(jobs: seq<Job>, j: Job)
    requires DistinctIds(jobs) && j in jobs && j != jobs[|jobs| - 1]
    ensures j.id != jobs[|jobs| - 1].id
  {
  }
}
