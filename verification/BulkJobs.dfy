/** Bulk jobs under concurrency: each job has a worker goroutine that takes small
    steps, and CancelJob and other jobs act in between.  In particular, an attempt on a
    license reads and checks it in one step and writes it back in another. */
module BulkJobs {
  import opened Basics
  import opened BulkRevoke

  datatype Status = Pending | InProgress | Completed | Failed | Cancelled

  /** What GetJobStatus shows. */
  datatype Job = Job(status: Status, totalItems: nat, processedItems: nat, report: Report, message: string)

  const CANCEL_MESSAGE := "Job was cancelled"

  function NewJob(total: nat): Job {
    Job(Pending, total, 0, Report(0, 0, []), "")
  }

  /** Where the worker is: before its first update, about to look for a cancel before
      item i, about to read the license of item i, about to write back what it has
      read, about to record item i, past the last item, gone. */
  datatype Pc =
    | Starting
    | Checking(i: nat)
    | Trying(i: nat, attempt: nat)
    | Writing(i: nat, attempt: nat, license: License)
    | Recording(i: nat, ok: bool)
    | Finishing
    | Done

  datatype Task = Task(ids: seq<int>, pc: Pc, job: Job)

  datatype World = World(licenses: Licenses, tasks: seq<Task>)

  /** `Work` is the next step of a worker; its read or write, if it makes one, meets `t`. */
  datatype Step = Work(j: nat, t: Try) | Cancel(j: nat)

  function AfterCancel(job: Job): Job {
    if job.status.Completed? || job.status.Failed? then job else job.(status := Cancelled)
  }

  /** One item into the books. */
  function Record(job: Job, i: nat, id: int, ok: bool): Job {
    var r := job.report;
    job.(processedItems := i + 1,
         report := if ok then r.(success := r.success + 1)
                   else r.(failure := r.failure + 1, failedIds := r.failedIds + [id]))
  }

  /** The item to take up after item i-1, if there is one. */
  function At(ids: seq<int>, i: nat): Pc {
    if i < |ids| then Checking(i) else Finishing
  }

  /** After an attempt that met an error. */
  function Missed(i: nat, attempt: nat): Pc {
    if attempt + 1 < MAX_RETRIES then Trying(i, attempt + 1) else Recording(i, false)
  }

  function WorkerStep(m: Licenses, task: Task, t: Try): (Licenses, Task) {
    var job := task.job;
    match task.pc
    case Starting => (m, task.(pc := At(task.ids, 0), job := job.(status := InProgress)))
    case Checking(i) =>
      if job.status.Cancelled?
      then (m, task.(pc := Done, job := job.(status := Failed, message := CANCEL_MESSAGE)))
      else (m, task.(pc := Trying(i, 0)))
    case Trying(i, a) =>
      if i >= |task.ids| then (m, task)
      else
        var id := task.ids[i];
        if t.fault.GetFails? || id !in m then (m, task.(pc := Missed(i, a)))
        else if m[id].revokedAt.Some? then (m, task.(pc := Recording(i, false)))
        else (m, task.(pc := Writing(i, a, m[id])))
    case Writing(i, a, l) =>
      if i >= |task.ids| then (m, task)
      else if t.fault.UpdateFails? then (m, task.(pc := Missed(i, a)))
      else (m[task.ids[i] := l.(revokedAt := Some(t.now))], task.(pc := Recording(i, true)))
    case Recording(i, ok) =>
      if i >= |task.ids| then (m, task)
      else (m, task.(pc := At(task.ids, i + 1), job := Record(job, i, task.ids[i], ok)))
    case Finishing => (m, task.(pc := Done, job := job.(status := Completed)))
    case Done => (m, task)
  }

  function Next(w: World, s: Step): World {
    if s.j >= |w.tasks| then w
    else match s
      case Work(j, t) =>
        var (m, task) := WorkerStep(w.licenses, w.tasks[j], t);
        World(m, w.tasks[j := task])
      case Cancel(j) =>
        w.(tasks := w.tasks[j := w.tasks[j].(job := AfterCancel(w.tasks[j].job))])
  }

  function Run(w: World, steps: seq<Step>): World {
    if steps == [] then w else Next(Run(w, steps[..|steps| - 1]), steps[|steps| - 1])
  }

  lemma RunSnoc(w: World, steps: seq<Step>, s: Step)
    ensures Run(w, steps + [s]) == Next(Run(w, steps), s)
  {
    assert (steps + [s])[..|steps|] == steps;
  }

  /** Any number of jobs just submitted, each with at least one license. */
  ghost predicate Fresh(w: World) {
    forall j :: 0 <= j < |w.tasks| ==>
      var t := w.tasks[j];
      |t.ids| > 0 && t.pc == Starting && t.job == NewJob(|t.ids|)
  }

  // ---------- the books of every reachable job are in order ----------

  function ItemsDone(task: Task): nat {
    match task.pc
    case Starting => 0
    case Checking(i) => i
    case Trying(i, _) => i
    case Writing(i, _, _) => i
    case Recording(i, _) => i
    case Finishing => |task.ids|
    case Done => task.job.processedItems
  }

  ghost predicate Booked(task: Task, flags: seq<bool>) {
    && |flags| == task.job.processedItems <= |task.ids|
    && task.job.report == Tally(task.ids, flags)
  }

  ghost predicate InOrder(task: Task) {
    && |task.ids| > 0
    && task.job.totalItems == |task.ids|
    && task.job.processedItems == ItemsDone(task)
    && (exists flags :: Booked(task, flags))
    && (match task.pc
        case Starting => task.job.status in {Pending, Cancelled}
        case Checking(i) => i < |task.ids| && task.job.status in {InProgress, Cancelled}
        case Trying(i, a) => i < |task.ids| && a < MAX_RETRIES && task.job.status in {InProgress, Cancelled}
        case Writing(i, a, _) => i < |task.ids| && a < MAX_RETRIES && task.job.status in {InProgress, Cancelled}
        case Recording(i, _) => i < |task.ids| && task.job.status in {InProgress, Cancelled}
        case Finishing => task.job.status in {InProgress, Cancelled}
        case Done =>
          (task.job.status == Completed && task.job.processedItems == |task.ids|) ||
          (task.job.status == Failed && task.job.processedItems < |task.ids|))
  }

  lemma RecordBooks(task: Task, flags: seq<bool>, i: nat, ok: bool)
    requires i < |task.ids| && Booked(task, flags) && task.job.processedItems == i
    ensures Booked(task.(job := Record(task.job, i, task.ids[i], ok)), flags + [ok])
  {
    assert (flags + [ok])[..i] == flags;
  }

  lemma WorkerStepInOrder(m: Licenses, task: Task, t: Try)
    requires InOrder(task)
    ensures InOrder(WorkerStep(m, task, t).1)
  {
    var flags :| Booked(task, flags);
    var task' := WorkerStep(m, task, t).1;
    if task.pc.Recording? {
      RecordBooks(task, flags, task.pc.i, task.pc.ok);
      assert Booked(task', flags + [task.pc.ok]);
    } else {
      assert Booked(task', flags);
    }
  }

  lemma CancelInOrder(task: Task)
    requires InOrder(task)
    ensures InOrder(task.(job := AfterCancel(task.job)))
  {
    var flags :| Booked(task, flags);
    assert Booked(task.(job := AfterCancel(task.job)), flags);
  }

  lemma {:induction false} RunInOrder(w: World, steps: seq<Step>, j: nat)
    requires Fresh(w) && j < |w.tasks|
    ensures |Run(w, steps).tasks| == |w.tasks|
    ensures InOrder(Run(w, steps).tasks[j]) && Run(w, steps).tasks[j].ids == w.tasks[j].ids
    decreases |steps|
  {
    if steps == [] {
      assert Booked(w.tasks[j], []);
    } else {
      var before, s := Run(w, steps[..|steps| - 1]), steps[|steps| - 1];
      RunInOrder(w, steps[..|steps| - 1], j);
      if s.j == j {
        if s.Work? {
          WorkerStepInOrder(before.licenses, before.tasks[j], s.t);
        } else {
          CancelInOrder(before.tasks[j]);
        }
      }
    }
  }

  /** Every state of every job that GetJobStatus can show, under every interleaving:
      the counts add up to the items processed, and FailedIDs are the ids at some of
      the first `processed` positions, in order. */
  lemma JobBooksInOrder(w: World, steps: seq<Step>, j: nat)
    requires Fresh(w) && j < |w.tasks|
    ensures |Run(w, steps).tasks| == |w.tasks|
    ensures
      var ids, job := w.tasks[j].ids, Run(w, steps).tasks[j].job;
      && job.report.success + job.report.failure == job.processedItems <= job.totalItems == |ids|
      && |job.report.failedIds| == job.report.failure
      && (exists ps: seq<nat> ::
            && |ps| == job.report.failure
            && (forall k :: 0 <= k < |ps| ==> ps[k] < job.processedItems && job.report.failedIds[k] == ids[ps[k]])
            && (forall a, b :: 0 <= a < b < |ps| ==> ps[a] < ps[b]))
      && (job.status == Completed ==> job.processedItems == job.totalItems)
      && (job.status == Failed ==> job.processedItems < job.totalItems)
  {
    RunInOrder(w, steps, j);
    var task := Run(w, steps).tasks[j];
    var flags :| Booked(task, flags);
    TallyMeaning(task.ids, flags);
    FailedPositionsMeaning(flags);
    var ps := FailedPositions(flags);
    assert |ps| == task.job.report.failure;
  }

  // ---------- what a cancel achieves ----------

  /** A worker that has started and still has an item whose check lies ahead. */
  predicate CheckAhead(task: Task) {
    match task.pc
    case Checking(_) => true
    case Trying(i, _) => i + 1 < |task.ids|
    case Writing(i, _, _) => i + 1 < |task.ids|
    case Recording(i, _) => i + 1 < |task.ids|
    case _ => false
  }

  /** The job is going to end, or has ended, as failed. */
  predicate Doomed(task: Task) {
    (task.pc == Done && task.job.status == Failed) || (task.job.status == Cancelled && CheckAhead(task))
  }

  /** The k-th step is a cancel of job j that lands with a check ahead. */
  predicate CancelHits(w: World, steps: seq<Step>, j: nat, k: nat)
    requires k < |steps|
  {
    steps[k] == Cancel(j) &&
    var before := Run(w, steps[..k]);
    j < |before.tasks| && CheckAhead(before.tasks[j])
  }

  predicate EffectiveCancel(w: World, steps: seq<Step>, j: nat) {
    exists k :: 0 <= k < |steps| && CancelHits(w, steps, j, k)
  }

  /** A longer run has the hits of the shorter one, and perhaps its last step. */
  lemma EffectiveCancelSnoc(w: World, steps: seq<Step>, j: nat)
    requires steps != []
    ensures EffectiveCancel(w, steps, j) <==>
      EffectiveCancel(w, steps[..|steps| - 1], j) || CancelHits(w, steps, j, |steps| - 1)
  {
    var n := |steps| - 1;
    var init := steps[..n];
    forall k: nat | k < n
      ensures CancelHits(w, init, j, k) <==> CancelHits(w, steps, j, k)
    {
      assert init[..k] == steps[..k];
    }
    if EffectiveCancel(w, init, j) {
      var k :| 0 <= k < n && CancelHits(w, init, j, k);
      assert CancelHits(w, steps, j, k);
    }
  }

  lemma StepDoom(w: World, s: Step, j: nat)
    requires j < |w.tasks| && InOrder(w.tasks[j])
    ensures
      var task, task' := w.tasks[j], Next(w, s).tasks[j];
      Doomed(task') <==> Doomed(task) || (s == Cancel(j) && CheckAhead(task))
  {
  }

  lemma {:induction false} DoomedIffCancelled(w: World, steps: seq<Step>, j: nat)
    requires Fresh(w) && j < |w.tasks|
    ensures |Run(w, steps).tasks| == |w.tasks|
    ensures Doomed(Run(w, steps).tasks[j]) <==> EffectiveCancel(w, steps, j)
    decreases |steps|
  {
    RunInOrder(w, steps, j);
    if steps != [] {
      var n := |steps| - 1;
      DoomedIffCancelled(w, steps[..n], j);
      RunInOrder(w, steps[..n], j);
      StepDoom(Run(w, steps[..n]), steps[n], j);
      EffectiveCancelSnoc(w, steps, j);
    }
  }

  /** A finished job is failed if some cancel landed after the start with an item
      still unchecked; otherwise it is completed, whatever cancels it received. */
  lemma CancelTheorem(w: World, steps: seq<Step>, j: nat)
    requires Fresh(w) && j < |w.tasks|
    ensures |Run(w, steps).tasks| == |w.tasks|
    ensures
      var task := Run(w, steps).tasks[j];
      task.pc == Done ==> task.job.status == (if EffectiveCancel(w, steps, j) then Failed else Completed)
  {
    DoomedIffCancelled(w, steps, j);
    RunInOrder(w, steps, j);
  }

  /** A doomed job that had `p` items processed when it was doomed, at the check if
      `checking`. */
  ghost predicate DoomedSince(task: Task, p: nat, checking: bool) {
    && Doomed(task)
    && p <= task.job.processedItems <= p + (if checking then 0 else 1)
    && (checking || task.job.processedItems == p + 1 ==> task.pc.Checking? || task.pc.Done?)
  }

  lemma StepDoomedSince(w: World, s: Step, j: nat, p: nat, checking: bool)
    requires j < |w.tasks| && InOrder(w.tasks[j]) && DoomedSince(w.tasks[j], p, checking)
    ensures DoomedSince(Next(w, s).tasks[j], p, checking)
  {
    if s == Cancel(j) {
      assert Next(w, s).tasks[j] == w.tasks[j].(job := AfterCancel(w.tasks[j].job));
    } else if s.j == j {
      assert Next(w, s).tasks[j] == WorkerStep(w.licenses, w.tasks[j], s.t).1;
    }
  }

  /** Once doomed, a job processes at most one more item, and none if the cancel came
      at its check. */
  lemma {:induction false} AtMostOneMoreItem(w: World, steps: seq<Step>, more: seq<Step>, j: nat)
    requires Fresh(w) && j < |w.tasks|
    requires |Run(w, steps).tasks| == |w.tasks| && Doomed(Run(w, steps).tasks[j])
    ensures |Run(w, steps + more).tasks| == |w.tasks|
    ensures
      var before := Run(w, steps).tasks[j];
      DoomedSince(Run(w, steps + more).tasks[j], before.job.processedItems, before.pc.Checking?)
    decreases |more|
  {
    RunInOrder(w, steps + more, j);
    if more == [] {
      assert steps + more == steps;
    } else {
      var init, s := more[..|more| - 1], more[|more| - 1];
      AtMostOneMoreItem(w, steps, init, j);
      RunInOrder(w, steps + init, j);
      assert steps + more == (steps + init) + [s];
      RunSnoc(w, steps + init, s);
      var before := Run(w, steps).tasks[j];
      StepDoomedSince(Run(w, steps + init), s, j, before.job.processedItems, before.pc.Checking?);
    }
  }

  // ---------- every worker ends ----------

  /** An upper bound on the steps the worker still takes: eight for every item (the
      check, three attempts of two steps, the record), one to start and one to finish. */
  function StepsLeft(task: Task): int {
    var n := |task.ids|;
    match task.pc
    case Starting => 8 * n + 2
    case Checking(i) => 8 * (n - i) + 1
    case Trying(i, a) => 8 * (n - i) - 2 * a
    case Writing(i, a, _) => 8 * (n - i) - 2 * a - 1
    case Recording(i, _) => 8 * (n - i) - 6
    case Finishing => 1
    case Done => 0
  }

  function WorkSteps(steps: seq<Step>, j: nat): nat {
    if steps == [] then 0
    else
      var s := steps[|steps| - 1];
      WorkSteps(steps[..|steps| - 1], j) + (if s.Work? && s.j == j then 1 else 0)
  }

  /** Whatever else happens, a worker is gone once it has been scheduled 8n + 2 times. */
  lemma {:induction false} EveryWorkerEnds(w: World, steps: seq<Step>, j: nat)
    requires Fresh(w) && j < |w.tasks|
    ensures |Run(w, steps).tasks| == |w.tasks|
    ensures
      var task := Run(w, steps).tasks[j];
      && 0 <= StepsLeft(task)
      && (task.pc != Done ==> WorkSteps(steps, j) + StepsLeft(task) <= 8 * |w.tasks[j].ids| + 2)
      && (WorkSteps(steps, j) >= 8 * |w.tasks[j].ids| + 2 ==> task.pc == Done)
    decreases |steps|
  {
    RunInOrder(w, steps, j);
    if steps != [] {
      var init, s := steps[..|steps| - 1], steps[|steps| - 1];
      EveryWorkerEnds(w, init, j);
      RunInOrder(w, init, j);
      if s.Work? && s.j == j {
        WorkerProgress(Run(w, init).licenses, Run(w, init).tasks[j], s.t);
      }
    }
  }

  lemma WorkerProgress(m: Licenses, task: Task, t: Try)
    requires InOrder(task)
    ensures var task' := WorkerStep(m, task, t).1;
      (task.pc == Done ==> task'.pc == Done) && (task.pc != Done ==> 0 <= StepsLeft(task') < StepsLeft(task))
  {
  }

  // ---------- the worker itself ----------

  /** The record in the job store, which the worker and CancelJob update in place. */
  class BulkJobStatus {
    var status: Status
    const totalItems: nat
    var processedItems: nat
    var successCount: nat
    var failureCount: nat
    var failedIds: seq<int>
    var errorMessage: string

    constructor (total: nat)
      ensures Value() == NewJob(total)
    {
      status, totalItems, processedItems := Pending, total, 0;
      successCount, failureCount, failedIds, errorMessage := 0, 0, [], "";
    }

    function Value(): Job
      reads this
    {
      Job(status, totalItems, processedItems, Report(successCount, failureCount, failedIds), errorMessage)
    }

    method SetStatus(s: Status, message: string)
      modifies this`status, this`errorMessage
      ensures Value() == old(Value()).(status := s, message := message)
    {
      status, errorMessage := s, message;
    }

    method RecordItem(i: nat, id: int, success: bool)
      modifies this
      ensures Value() == Record(old(Value()), i, id, success)
    {
      processedItems := i + 1;
      if success {
        successCount := successCount + 1;
      } else {
        failureCount := failureCount + 1;
        failedIds := failedIds + [id];
      }
    }

    /** CancelJob: an error, and no effect, on a job that has ended. */
    method CancelJob() returns (ok: bool)
      modifies this
      ensures Value() == AfterCancel(old(Value()))
      ensures ok <==> old(status) != Completed && old(status) != Failed
    {
      if status == Completed || status == Failed {
        return false;
      }
      status := Cancelled;
      return true;
    }
  }

  /** Submission: the job starts pending and its worker at the beginning. */
  method BulkRevokeLicensesAsync(ids: seq<int>) returns (r: Result<BulkJobStatus>)
    ensures r.ValidationError? <==> ids == []
    ensures r.Ok? ==> fresh(r.value) && r.value.Value() == NewJob(|ids|)
    ensures r.Ok? ==> Fresh(World(map[], [Task(ids, Starting, r.value.Value())]))
  {
    if |ids| == 0 {
      return ValidationError;
    }
    var job := new BulkJobStatus(|ids|);
    r := Ok(job);
  }

  function Alone(m: Licenses, ids: seq<int>, pc: Pc, job: Job): World {
    World(m, [Task(ids, pc, job)])
  }

  /** One more step of the only job. */
  lemma AloneStep(w: World, steps: seq<Step>, s: Step, m: Licenses, task: Task)
    requires s.j == 0 && Run(w, steps) == World(m, [task])
    ensures Run(w, steps + [s]) ==
      if s.Cancel? then World(m, [task.(job := AfterCancel(task.job))])
      else var (m', task') := WorkerStep(m, task, s.t); World(m', [task'])
  {
    RunSnoc(w, steps, s);
    assert [task][0 := task.(job := AfterCancel(task.job))] == [task.(job := AfterCancel(task.job))];
    if s.Work? {
      var task' := WorkerStep(m, task, s.t).1;
      assert [task][0 := task'] == [task'];
    }
  }

  /** One attempt of the only job is a step or two. */
  lemma AttemptSteps(w: World, steps: seq<Step>, m: Licenses, ids: seq<int>, i: nat, a: nat, job: Job, t: Try)
    returns (steps': seq<Step>)
    requires i < |ids| && Run(w, steps) == Alone(m, ids, Trying(i, a), job)
    ensures var (m', o) := Attempt(m, ids[i], t);
      Run(w, steps') == Alone(m', ids, if o.Error? then Missed(i, a) else Recording(i, o.Revoked?), job)
  {
    AloneStep(w, steps, Work(0, t), m, Task(ids, Trying(i, a), job));
    steps' := steps + [Work(0, t)];
    if !t.fault.GetFails? && Revocable(m, ids[i]) {
      AloneStep(w, steps', Work(0, t), m, Task(ids, Writing(i, a, m[ids[i]]), job));
      steps' := steps' + [Work(0, t)];
    }
  }

  /** The attempts on one item are steps of the worker. */
  lemma {:induction false} RetrySteps(w: World, steps: seq<Step>, m: Licenses, ids: seq<int>, i: nat, a: nat,
                                      job: Job, tries: seq<Try>)
    returns (steps': seq<Step>)
    requires i < |ids| && a + |tries| == MAX_RETRIES && |tries| > 0
    requires Run(w, steps) == Alone(m, ids, Trying(i, a), job)
    ensures var (m', ok) := Retry(m, ids[i], tries);
      Run(w, steps') == Alone(m', ids, Recording(i, ok), job)
    decreases |tries|
  {
    steps' := AttemptSteps(w, steps, m, ids, i, a, job, tries[0]);
    var (m1, o) := Attempt(m, ids[i], tries[0]);
    if o.Error? {
      if |tries| > 1 {
        steps' := RetrySteps(w, steps', m1, ids, i, a + 1, job, tries[1..]);
      } else {
        assert Retry(m1, ids[i], tries[1..]) == (m1, false);
      }
    }
  }

  /** The first position before whose check a cancel lands; the length if none. */
  function FirstCancel(cancels: seq<bool>): nat {
    if cancels == [] || cancels[0] then 0 else 1 + FirstCancel(cancels[1..])
  }

  lemma {:induction false} FirstCancelIs(cancels: seq<bool>, i: nat)
    requires i <= |cancels| && (forall k :: 0 <= k < i ==> !cancels[k])
    requires i < |cancels| ==> cancels[i]
    ensures FirstCancel(cancels) == i
    decreases i
  {
    if i > 0 {
      FirstCancelIs(cancels[1..], i - 1);
    }
  }

  const IDLE := Work(0, Try(NoFault, 0))

  /** How a worker ends that runs alone, its job cancelled just before the checks
      that `cancels` marks: the store and the job. */
  function SoloResult(m: Licenses, ids: seq<int>, tries: seq<seq<Try>>, cancels: seq<bool>): (Licenses, Job)
    requires |ids| == |tries| == |cancels|
  {
    FirstCancelBound(cancels);
    var k := FirstCancel(cancels);
    ProcessLength(m, ids[..k], tries[..k]);
    var (m', flags) := Process(m, ids[..k], tries[..k]);
    (m', if k == |ids| then Job(Completed, |ids|, k, Tally(ids, flags), "")
         else Job(Failed, |ids|, k, Tally(ids, flags), CANCEL_MESSAGE))
  }

  lemma {:induction false} FirstCancelBound(cancels: seq<bool>)
    ensures FirstCancel(cancels) <= |cancels|
    ensures forall k :: 0 <= k < FirstCancel(cancels) ==> !cancels[k]
    ensures FirstCancel(cancels) < |cancels| ==> cancels[FirstCancel(cancels)]
    decreases |cancels|
  {
    if cancels != [] && !cancels[0] {
      FirstCancelBound(cancels[1..]);
    }
  }

  function Underway(m: Licenses, ids: seq<int>, tries: seq<seq<Try>>, i: nat): (Licenses, Job)
    requires |ids| == |tries| && i <= |ids|
  {
    ProcessLength(m, ids[..i], tries[..i]);
    var (m', flags) := Process(m, ids[..i], tries[..i]);
    (m', Job(InProgress, |ids|, i, Tally(ids, flags), ""))
  }

  lemma UnderwayTurn(m: Licenses, ids: seq<int>, tries: seq<seq<Try>>, i: nat)
    requires |ids| == |tries| && i < |ids|
    ensures
      var (m1, job) := Underway(m, ids, tries, i);
      var (m2, ok) := Retry(m1, ids[i], tries[i]);
      Underway(m, ids, tries, i + 1) == (m2, Record(job, i, ids[i], ok))
  {
    ProcessLength(m, ids[..i], tries[..i]);
    var (m1, flags) := Process(m, ids[..i], tries[..i]);
    OneMoreItem(m, ids, tries, i, flags, Retry(m1, ids[i], tries[i]).1);
  }

  /** One turn of the loop, from the check of item i to the next. */
  lemma SoloTurn(w: World, steps: seq<Step>, m: Licenses, ids: seq<int>, i: nat, job: Job, tries: seq<Try>)
    returns (steps': seq<Step>)
    requires i < |ids| && |tries| == MAX_RETRIES && job.status == InProgress
    requires Run(w, steps) == Alone(m, ids, Checking(i), job)
    ensures var (m', ok) := Retry(m, ids[i], tries);
      Run(w, steps') == Alone(m', ids, At(ids, i + 1), Record(job, i, ids[i], ok))
  {
    AloneStep(w, steps, IDLE, m, Task(ids, Checking(i), job));
    var made := RetrySteps(w, steps + [IDLE], m, ids, i, 0, job, tries);
    var (m', ok) := Retry(m, ids[i], tries);
    AloneStep(w, made, IDLE, m', Task(ids, Recording(i, ok), job));
    steps' := made + [IDLE];
  }

  lemma {:induction false} SoloSteps(m: Licenses, ids: seq<int>, tries: seq<seq<Try>>, early: bool, i: nat)
    returns (steps: seq<Step>)
    requires |ids| == |tries| && i <= |ids|
    requires forall k :: 0 <= k < |tries| ==> |tries[k]| == MAX_RETRIES
    ensures var (m', job) := Underway(m, ids, tries, i);
      Run(Alone(m, ids, Starting, NewJob(|ids|)), steps) == Alone(m', ids, At(ids, i), job)
    decreases i
  {
    var w := Alone(m, ids, Starting, NewJob(|ids|));
    if i == 0 {
      assert Run(w, []) == w;
      var job := NewJob(|ids|);
      steps := [];
      if early {
        AloneStep(w, steps, Cancel(0), m, Task(ids, Starting, job));
        steps, job := steps + [Cancel(0)], AfterCancel(job);
      }
      AloneStep(w, steps, IDLE, m, Task(ids, Starting, job));
      steps := steps + [IDLE];
    } else {
      steps := SoloSteps(m, ids, tries, early, i - 1);
      var (m1, job) := Underway(m, ids, tries, i - 1);
      steps := SoloTurn(w, steps, m1, ids, i - 1, job, tries[i - 1]);
      UnderwayTurn(m, ids, tries, i - 1);
    }
  }

  /** The worker's loop is a run of the transition system, with a cancel while the job
      is pending if `early` and one after the last item's check if `late`. */
  lemma SoloRun(m: Licenses, ids: seq<int>, tries: seq<seq<Try>>, early: bool, cancels: seq<bool>, late: bool)
    returns (steps: seq<Step>)
    requires |ids| == |tries| == |cancels|
    requires forall k :: 0 <= k < |tries| ==> |tries[k]| == MAX_RETRIES
    ensures var (m', job) := SoloResult(m, ids, tries, cancels);
      Run(Alone(m, ids, Starting, NewJob(|ids|)), steps) == Alone(m', ids, Done, job)
  {
    FirstCancelBound(cancels);
    var w, k := Alone(m, ids, Starting, NewJob(|ids|)), FirstCancel(cancels);
    var (m', job) := Underway(m, ids, tries, k);
    steps := SoloSteps(m, ids, tries, early, k);
    if k < |ids| || late {
      AloneStep(w, steps, Cancel(0), m', Task(ids, At(ids, k), job));
      steps := steps + [Cancel(0)];
      job := AfterCancel(job);
    }
    AloneStep(w, steps, IDLE, m', Task(ids, At(ids, k), job));
    steps := steps + [IDLE];
  }

  /** The worker goroutine.  CancelJob may have been called while the job was pending;
      `cancels[i]` says that it is called between the check for item i-1, or the start,
      and the check for item i, and the last one that it is called after the check for
      the last item. */
  method ProcessRevokeLicensesAsync(repo: LicenseRepository, job: BulkJobStatus, ids: seq<int>,
                                    tries: seq<seq<Try>>, cancels: seq<bool>)
    requires repo.Valid() && |ids| == |tries| && |cancels| == |ids| + 1
    requires forall i :: 0 <= i < |tries| ==> |tries[i]| == MAX_RETRIES
    requires job.Value() == NewJob(|ids|) || job.Value() == AfterCancel(NewJob(|ids|))
    modifies repo, job
    ensures repo.Valid()
    ensures (repo.licenses, job.Value()) == SoloResult(old(repo.licenses), ids, tries, cancels[..|ids|])
  {
    ghost var m, checks := repo.licenses, cancels[..|ids|];
    job.SetStatus(InProgress, "");
    var i := 0;
    while i < |ids|
      invariant 0 <= i <= |ids| && repo.Valid()
      invariant forall k :: 0 <= k < i ==> !checks[k]
      invariant (repo.licenses, job.Value()) == Underway(m, ids, tries, i)
    {
      if cancels[i] {
        var _ := job.CancelJob();
      }
      if job.status == Cancelled {
        job.SetStatus(Failed, CANCEL_MESSAGE);
        FirstCancelIs(checks, i);
        return;
      }
      var success, _ := ProcessLicenseRevocationWithRetry(repo, ids[i], tries[i]);
      UnderwayTurn(m, ids, tries, i);
      job.RecordItem(i, ids[i], success);
      i := i + 1;
    }
    FirstCancelIs(checks, i);
    if cancels[|ids|] {
      var _ := job.CancelJob();
    }
    job.SetStatus(Completed, "");
  }

  // ---------- every run without an effective cancel ----------

  /** The outcomes recorded so far, item by item. */
  function Outcomes(w: World, steps: seq<Step>): seq<bool> {
    if steps == [] then []
    else
      var init, s := steps[..|steps| - 1], steps[|steps| - 1];
      var before := Run(w, init);
      Outcomes(w, init) +
        if s.Work? && s.j < |before.tasks| && before.tasks[s.j].pc.Recording? then [before.tasks[s.j].pc.ok] else []
  }

  /** The last of three attempts on a license that can be revoked meets a fault. */
  predicate Exhausts(w: World, s: Step) {
    s.Work? && s.j < |w.tasks| &&
    var task := w.tasks[s.j];
    || (task.pc.Trying? && task.pc.attempt == MAX_RETRIES - 1 && s.t.fault.GetFails? &&
        task.pc.i < |task.ids| && Revocable(w.licenses, task.ids[task.pc.i]))
    || (task.pc.Writing? && task.pc.attempt == MAX_RETRIES - 1 && s.t.fault.UpdateFails?)
  }

  /** That happens somewhere in the run. */
  predicate Exhausted(w: World, steps: seq<Step>) {
    exists k :: 0 <= k < |steps| && ExhaustsAt(w, steps, k)
  }

  predicate ExhaustsAt(w: World, steps: seq<Step>, k: nat)
    requires k < |steps|
  {
    Exhausts(Run(w, steps[..k]), steps[k])
  }

  lemma ExhaustedSnoc(w: World, steps: seq<Step>)
    requires steps != []
    ensures var n := |steps| - 1;
      Exhausted(w, steps) <==> Exhausted(w, steps[..n]) || Exhausts(Run(w, steps[..n]), steps[n])
  {
    var n := |steps| - 1;
    var init := steps[..n];
    forall k: nat | k < n
      ensures ExhaustsAt(w, init, k) <==> ExhaustsAt(w, steps, k)
    {
      assert init[..k] == steps[..k];
    }
    assert ExhaustsAt(w, steps, n) <==> Exhausts(Run(w, init), steps[n]);
    if Exhausted(w, init) {
      var k :| 0 <= k < n && ExhaustsAt(w, init, k);
      assert ExhaustsAt(w, steps, k);
    }
  }

  /** The outcomes recorded, and the one about to be. */
  function Settled(task: Task, flags: seq<bool>): seq<bool> {
    if task.pc.Recording? then flags + [task.pc.ok] else flags
  }

  /** The only job of a run from m and its recorded outcomes. */
  ghost predicate Only(m: Licenses, ids: seq<int>, w: World, flags: seq<bool>) {
    && |w.tasks| == 1 && w.tasks[0].ids == ids && InOrder(w.tasks[0]) && Booked(w.tasks[0], flags)
    && (w.tasks[0].job.status != Failed ==> w.tasks[0].job.message == "")
    && w.licenses.Keys == m.Keys
    && (w.tasks[0].pc.Writing? ==>
          var id := ids[w.tasks[0].pc.i];
          Revocable(w.licenses, id) && w.licenses[id] == w.tasks[0].pc.license)
  }

  /** It goes as without faults, unless some item has used up its attempts in vain. */
  ghost predicate Follows(m: Licenses, ids: seq<int>, w: World, flags: seq<bool>, exhausted: bool) {
    && Only(m, ids, w, flags)
    && var settled := Settled(w.tasks[0], flags);
      && |settled| <= |ids|
      && (exhausted <==> settled != FaultFree(m, ids[..|settled|]))
      && (!exhausted ==> Right(m, ids, w.licenses, settled))
  }

  lemma {:induction false} FaultFreeLength(m: Licenses, ids: seq<int>)
    ensures |FaultFree(m, ids)| == |ids|
  {
    if ids != [] {
      FaultFreeLength(m, ids[..|ids| - 1]);
    }
  }

  /** One more outcome, right or wrong. */
  lemma OneMoreSettled(m: Licenses, ids: seq<int>, settled: seq<bool>, ok: bool)
    requires |settled| < |ids|
    ensures var i := |settled|;
      settled + [ok] == FaultFree(m, ids[..i + 1]) <==>
        settled == FaultFree(m, ids[..i]) && (ok <==> Revocable(m, ids[i]) && ids[i] !in ids[..i])
  {
    var i := |settled|;
    assert ids[..i + 1][..i] == ids[..i];
    FaultFreeLength(m, ids[..i]);
    var want := FaultFree(m, ids[..i]);
    assert (settled + [ok])[..i] == settled && (settled + [ok])[i] == ok;
    assert (want + [Revocable(m, ids[i]) && ids[i] !in ids[..i]])[..i] == want;
  }

  lemma TryOnly(m: Licenses, ids: seq<int>, w: World, s: Step, flags: seq<bool>)
    requires Only(m, ids, w, flags) && s.Work? && s.j == 0 && (w.tasks[0].pc.Trying? || w.tasks[0].pc.Writing?)
    ensures Only(m, ids, Next(w, s), flags)
  {
    WorkerStepInOrder(w.licenses, w.tasks[0], s.t);
    assert Booked(Next(w, s).tasks[0], flags);
  }

  /** The outcomes so far are right, and the licenses are as these say. */
  ghost predicate Right(m: Licenses, ids: seq<int>, now: Licenses, settled: seq<bool>) {
    && |settled| <= |ids| && settled == FaultFree(m, ids[..|settled|])
    && forall id :: id in m ==> (Revocable(now, id) <==> Revocable(m, id) && id !in ids[..|settled|])
  }

  /** Without a write the next item comes out right exactly if it has no revocable license. */
  lemma FailureRight(m: Licenses, ids: seq<int>, now: Licenses, flags: seq<bool>)
    requires |flags| < |ids| && now.Keys == m.Keys && Right(m, ids, now, flags)
    ensures flags + [false] == FaultFree(m, ids[..|flags| + 1]) <==> !Revocable(now, ids[|flags|])
    ensures !Revocable(now, ids[|flags|]) ==> Right(m, ids, now, flags + [false])
  {
    var i := |flags|;
    OneMoreSettled(m, ids, flags, false);
    assert forall id :: id in ids[..i + 1] <==> id in ids[..i] || id == ids[i];
  }

  /** With a write the revocable license of the next item comes out right. */
  lemma SuccessRight(m: Licenses, ids: seq<int>, now: Licenses, flags: seq<bool>, at: int)
    requires |flags| < |ids| && now.Keys == m.Keys && Right(m, ids, now, flags) && Revocable(now, ids[|flags|])
    ensures var id := ids[|flags|];
      Right(m, ids, now[id := now[id].(revokedAt := Some(at))], flags + [true])
  {
    var i := |flags|;
    OneMoreSettled(m, ids, flags, true);
    assert forall id :: id in ids[..i + 1] <==> id in ids[..i] || id == ids[i];
  }

  lemma TryFollows(m: Licenses, ids: seq<int>, w: World, s: Step, flags: seq<bool>, exhausted: bool)
    requires Follows(m, ids, w, flags, exhausted) && s.Work? && s.j == 0
    requires w.tasks[0].pc.Trying? || w.tasks[0].pc.Writing?
    ensures Follows(m, ids, Next(w, s), flags, exhausted || Exhausts(w, s))
  {
    var pc, pc' := w.tasks[0].pc, Next(w, s).tasks[0].pc;
    TryOnly(m, ids, w, s, flags);
    if pc'.Recording? {
      OneMoreSettled(m, ids, flags, pc'.ok);
      if !exhausted {
        if pc'.ok {
          SuccessRight(m, ids, w.licenses, flags, s.t.now);
        } else {
          FailureRight(m, ids, w.licenses, flags);
        }
      }
    }
  }

  lemma RecordFollows(m: Licenses, ids: seq<int>, w: World, s: Step, flags: seq<bool>, exhausted: bool)
    requires Follows(m, ids, w, flags, exhausted) && s.Work? && s.j == 0 && w.tasks[0].pc.Recording?
    ensures Follows(m, ids, Next(w, s), flags + [w.tasks[0].pc.ok], exhausted)
  {
    var task := w.tasks[0];
    WorkerStepInOrder(w.licenses, task, s.t);
    RecordBooks(task, flags, task.pc.i, task.pc.ok);
  }

  lemma OtherFollows(m: Licenses, ids: seq<int>, w: World, s: Step, flags: seq<bool>, exhausted: bool)
    requires Follows(m, ids, w, flags, exhausted)
    requires s.Work? && s.j == 0 ==>
      !w.tasks[0].pc.Trying? && !w.tasks[0].pc.Writing? && !w.tasks[0].pc.Recording?
    ensures Follows(m, ids, Next(w, s), flags, exhausted)
  {
    if s.j == 0 {
      if s.Work? {
        WorkerStepInOrder(w.licenses, w.tasks[0], s.t);
      } else {
        CancelInOrder(w.tasks[0]);
      }
      assert Booked(Next(w, s).tasks[0], flags);
    }
  }

  lemma {:induction false} RunFollows(m: Licenses, ids: seq<int>, steps: seq<Step>)
    requires ids != []
    ensures var w := Alone(m, ids, Starting, NewJob(|ids|));
      Follows(m, ids, Run(w, steps), Outcomes(w, steps), Exhausted(w, steps))
    decreases |steps|
  {
    var w := Alone(m, ids, Starting, NewJob(|ids|));
    if steps == [] {
      assert Booked(w.tasks[0], []);
    } else {
      var init, s := steps[..|steps| - 1], steps[|steps| - 1];
      RunFollows(m, ids, init);
      ExhaustedSnoc(w, steps);
      var before, flags := Run(w, init), Outcomes(w, init);
      assert flags + [] == flags;
      if s.Work? && s.j == 0 && (before.tasks[0].pc.Trying? || before.tasks[0].pc.Writing?) {
        TryFollows(m, ids, before, s, flags, Exhausted(w, init));
      } else if s.Work? && s.j == 0 && before.tasks[0].pc.Recording? {
        RecordFollows(m, ids, before, s, flags, Exhausted(w, init));
      } else {
        OtherFollows(m, ids, before, s, flags, Exhausted(w, init));
      }
    }
  }

  /** The synchronous operation on a database that never fails. */
  lemma SyncFaultFree(m: Licenses, ids: seq<int>, plain: seq<Try>)
    requires |plain| == |ids| && forall i :: 0 <= i < |ids| ==> plain[i].fault.NoFault?
    ensures var (ms, sync) := Process(m, ids, Singletons(plain));
      && |sync| == |ids|
      && sync == FaultFree(m, ids)
      && ms.Keys == m.Keys
      && forall id :: id in m ==> (Revocable(ms, id) <==> Revocable(m, id) && id !in ids)
  {
    var singles := Singletons(plain);
    forall i | 0 <= i < |ids|
      ensures SomeTryWorks(singles[i])
    {
      assert singles[i][0].fault.NoFault?;
    }
    ProcessLength(m, ids, singles);
    ProcessMeaning(m, ids, singles);
  }

  /** The end of a run of one job without an effective cancel. */
  lemma UncancelledEnd(m: Licenses, ids: seq<int>, steps: seq<Step>)
    requires ids != []
    requires var w := Alone(m, ids, Starting, NewJob(|ids|));
      var w' := Run(w, steps);
      |w'.tasks| == 1 && w'.tasks[0].pc == Done && !EffectiveCancel(w, steps, 0)
    ensures
      var w := Alone(m, ids, Starting, NewJob(|ids|));
      var w', flags := Run(w, steps), Outcomes(w, steps);
      && |flags| == |ids|
      && w'.tasks[0].job == Job(Completed, |ids|, |ids|, Tally(ids, flags), "")
      && w'.licenses.Keys == m.Keys
      && (flags == FaultFree(m, ids) <==> !Exhausted(w, steps))
      && (flags == FaultFree(m, ids) ==>
            forall id :: id in m ==> (Revocable(w'.licenses, id) <==> Revocable(m, id) && id !in ids))
  {
    RunFollows(m, ids, steps);
    CancelTheorem(Alone(m, ids, Starting, NewJob(|ids|)), steps, 0);
    assert ids[..|ids|] == ids;
  }

  /** In every run of one job that ends without an effective cancel -- overwritten
      cancels included -- the job completes with the report of its outcomes, and these
      are the ones of the synchronous operation on a database that never fails exactly
      when no license that could be revoked has all its attempts hit.  The licenses
      revoked are then the same. */
  lemma {:induction false} UncancelledJobMatchesSync(m: Licenses, ids: seq<int>, steps: seq<Step>, plain: seq<Try>)
    requires ids != [] && |plain| == |ids| && forall i :: 0 <= i < |ids| ==> plain[i].fault.NoFault?
    requires var w := Alone(m, ids, Starting, NewJob(|ids|));
      var w' := Run(w, steps);
      |w'.tasks| == 1 && w'.tasks[0].pc == Done && !EffectiveCancel(w, steps, 0)
    ensures
      var w := Alone(m, ids, Starting, NewJob(|ids|));
      var w', flags := Run(w, steps), Outcomes(w, steps);
      var (ms, sync) := Process(m, ids, Singletons(plain));
      && |flags| == |sync| == |ids|
      && w'.tasks[0].job == Job(Completed, |ids|, |ids|, Tally(ids, flags), "")
      && (flags == sync <==> !Exhausted(w, steps))
      && (flags == sync ==> RevokedIds(w'.licenses) == RevokedIds(ms))
  {
    var w := Alone(m, ids, Starting, NewJob(|ids|));
    var w' := Run(w, steps);
    UncancelledEnd(m, ids, steps);
    SyncFaultFree(m, ids, plain);
    var ms := Process(m, ids, Singletons(plain)).0;
    if !Exhausted(w, steps) {
      forall id | id in m
        ensures id in RevokedIds(w'.licenses) <==> id in RevokedIds(ms)
      {
        assert Revocable(w'.licenses, id) <==> Revocable(ms, id);
      }
    }
  }
}
