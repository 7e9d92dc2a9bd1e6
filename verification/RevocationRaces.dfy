/** Do the success counts of concurrent bulk jobs add up to the licenses they revoke?

    A job may write back a license that another job has revoked since it was read.
    Such an overwrite is counted as a success and revokes nothing. */
module RevocationRaces {
  import opened Basics
  import opened BulkRevoke
  import opened BulkJobs

  function SuccessOf(task: Task): nat {
    task.job.report.success
  }

  /** A revocation made and not yet recorded. */
  function UnrecordedOf(task: Task): nat {
    if task.pc.Recording? && task.pc.i < |task.ids| && task.pc.ok then 1 else 0
  }

  function TotalSuccess(tasks: seq<Task>): nat {
    if tasks == [] then 0 else SuccessOf(tasks[0]) + TotalSuccess(tasks[1..])
  }

  function TotalUnrecorded(tasks: seq<Task>): nat {
    if tasks == [] then 0 else UnrecordedOf(tasks[0]) + TotalUnrecorded(tasks[1..])
  }

  /** The step writes to a license that is revoked; the worker has read it unrevoked. */
  predicate Overwrites(w: World, s: Step) {
    s.Work? && s.j < |w.tasks| &&
    var task := w.tasks[s.j];
    task.pc.Writing? && task.pc.i < |task.ids| && !s.t.fault.UpdateFails? &&
    task.ids[task.pc.i] in RevokedIds(w.licenses)
  }

  predicate OverwritesAt(w: World, steps: seq<Step>, k: nat)
    requires k < |steps|
  {
    Overwrites(Run(w, steps[..k]), steps[k])
  }

  function OverwriteCount(w: World, steps: seq<Step>): nat {
    if steps == [] then 0
    else
      var init, s := steps[..|steps| - 1], steps[|steps| - 1];
      OverwriteCount(w, init) + (if Overwrites(Run(w, init), s) then 1 else 0)
  }

  // ---------- the balance ----------

  lemma {:induction false} TotalsAfterUpdate(tasks: seq<Task>, j: nat, t: Task)
    requires j < |tasks|
    ensures TotalSuccess(tasks[j := t]) == TotalSuccess(tasks) - SuccessOf(tasks[j]) + SuccessOf(t)
    ensures TotalUnrecorded(tasks[j := t]) == TotalUnrecorded(tasks) - UnrecordedOf(tasks[j]) + UnrecordedOf(t)
    decreases |tasks|
  {
    var tasks' := tasks[j := t];
    if j == 0 {
      assert tasks'[1..] == tasks[1..];
    } else {
      assert tasks'[1..] == tasks[1..][j - 1 := t];
      TotalsAfterUpdate(tasks[1..], j - 1, t);
    }
  }

  /** Licenses are neither added nor removed, differ in their revocation at most, and
      not at all if they were revoked before the jobs. */
  ghost predicate OnlyRevoked(m: Licenses, m': Licenses) {
    && m'.Keys == m.Keys
    && (forall id :: id in m && m[id].revokedAt.Some? ==> m'[id] == m[id])
    && (forall id :: id in m ==> m'[id].(revokedAt := m[id].revokedAt) == m[id])
  }

  /** What a worker is about to write back is the license as it was before the jobs. */
  ghost predicate ReadOf(m: Licenses, task: Task) {
    task.pc.Writing? && task.pc.i < |task.ids| ==>
      var id := task.ids[task.pc.i];
      Revocable(m, id) && task.pc.license == m[id]
  }

  ghost predicate Sound(m: Licenses, w: World) {
    && OnlyRevoked(m, w.licenses)
    && (forall j :: 0 <= j < |w.tasks| ==> InOrder(w.tasks[j]) && ReadOf(m, w.tasks[j]))
  }

  lemma RevokedAfterWrite(m: Licenses, id: int, l: License)
    requires id in m && l.revokedAt.Some?
    ensures RevokedIds(m[id := l]) == RevokedIds(m) + {id}
  {
  }

  lemma WorkBalance(m: Licenses, now: Licenses, task: Task, t: Try)
    requires OnlyRevoked(m, now) && InOrder(task) && ReadOf(m, task)
    ensures
      var (now', task') := WorkerStep(now, task, t);
      var overwrites := task.pc.Writing? && !t.fault.UpdateFails? && task.ids[task.pc.i] in RevokedIds(now);
      && OnlyRevoked(m, now') && ReadOf(m, task')
      && RevokedIds(now) <= RevokedIds(now')
      && |RevokedIds(now')| + (if overwrites then 1 else 0) + SuccessOf(task) + UnrecordedOf(task) ==
           |RevokedIds(now)| + SuccessOf(task') + UnrecordedOf(task')
  {
    if task.pc.Writing? {
      var id := task.ids[task.pc.i];
      RevokedAfterWrite(now, id, task.pc.license.(revokedAt := Some(t.now)));
      if id in RevokedIds(now) {
        assert RevokedIds(now) + {id} == RevokedIds(now);
      }
    }
  }

  lemma StepBalance(m: Licenses, w: World, s: Step)
    requires Sound(m, w)
    ensures
      var w' := Next(w, s);
      && Sound(m, w') && |w'.tasks| == |w.tasks|
      && RevokedIds(w.licenses) <= RevokedIds(w'.licenses)
      && |RevokedIds(w'.licenses)| + (if Overwrites(w, s) then 1 else 0) +
           TotalSuccess(w.tasks) + TotalUnrecorded(w.tasks) ==
         |RevokedIds(w.licenses)| + TotalSuccess(w'.tasks) + TotalUnrecorded(w'.tasks)
  {
    if s.j < |w.tasks| {
      var task, w' := w.tasks[s.j], Next(w, s);
      TotalsAfterUpdate(w.tasks, s.j, w'.tasks[s.j]);
      if s.Work? {
        WorkBalance(m, w.licenses, task, s.t);
        WorkerStepInOrder(w.licenses, task, s.t);
      } else {
        CancelInOrder(task);
      }
    }
  }

  /** Under every interleaving and at every moment: newly revoked licenses and
      overwrites make up the successes, recorded or not.  Licenses that were revoked
      before stay as they were. */
  lemma {:induction false} RevocationsCounted(w: World, steps: seq<Step>)
    requires Fresh(w)
    ensures
      var w' := Run(w, steps);
      && |w'.tasks| == |w.tasks|
      && Sound(w.licenses, w')
      && RevokedIds(w.licenses) <= RevokedIds(w'.licenses)
      && |RevokedIds(w'.licenses)| + OverwriteCount(w, steps) ==
           |RevokedIds(w.licenses)| + TotalSuccess(w'.tasks) + TotalUnrecorded(w'.tasks)
    decreases |steps|
  {
    if steps == [] {
      FreshTotals(w.tasks);
      forall j | 0 <= j < |w.tasks|
        ensures InOrder(w.tasks[j])
      {
        assert Booked(w.tasks[j], []);
      }
    } else {
      var init, s := steps[..|steps| - 1], steps[|steps| - 1];
      RevocationsCounted(w, init);
      StepBalance(w.licenses, Run(w, init), s);
    }
  }

  lemma {:induction false} FreshTotals(tasks: seq<Task>)
    requires forall j :: 0 <= j < |tasks| ==> tasks[j].pc == Starting && SuccessOf(tasks[j]) == 0
    ensures TotalSuccess(tasks) == 0 && TotalUnrecorded(tasks) == 0
    decreases |tasks|
  {
    if tasks != [] {
      FreshTotals(tasks[1..]);
    }
  }

  lemma {:induction false} AllRecorded(tasks: seq<Task>)
    requires forall j :: 0 <= j < |tasks| ==> tasks[j].pc == Done
    ensures TotalUnrecorded(tasks) == 0
    decreases |tasks|
  {
    if tasks != [] {
      AllRecorded(tasks[1..]);
    }
  }

  function NewlyRevoked(w: World, steps: seq<Step>): nat {
    |RevokedIds(Run(w, steps).licenses) - RevokedIds(w.licenses)|
  }

  lemma NewlyRevokedIs(w: World, steps: seq<Step>)
    requires RevokedIds(w.licenses) <= RevokedIds(Run(w, steps).licenses)
    ensures NewlyRevoked(w, steps) == |RevokedIds(Run(w, steps).licenses)| - |RevokedIds(w.licenses)|
  {
    var before, after := RevokedIds(w.licenses), RevokedIds(Run(w, steps).licenses);
    assert after == before + (after - before);
  }

  /** When every worker has gone, the success counts of all jobs add up to the licenses
      they revoked plus the overwrites: to the former exactly if nothing was
      overwritten. */
  lemma {:induction false} SuccessesAreRevocations(w: World, steps: seq<Step>)
    requires Fresh(w)
    requires forall j :: 0 <= j < |Run(w, steps).tasks| ==> Run(w, steps).tasks[j].pc == Done
    ensures
      var w' := Run(w, steps);
      && OnlyRevoked(w.licenses, w'.licenses)
      && TotalSuccess(w'.tasks) == NewlyRevoked(w, steps) + OverwriteCount(w, steps)
      && (TotalSuccess(w'.tasks) == NewlyRevoked(w, steps) <==>
            forall k: nat :: k < |steps| ==> !OverwritesAt(w, steps, k))
  {
    RevocationsCounted(w, steps);
    NewlyRevokedIs(w, steps);
    AllRecorded(Run(w, steps).tasks);
    CountedIfAny(w, steps);
  }

  lemma {:induction false} CountedIfAny(w: World, steps: seq<Step>)
    ensures OverwriteCount(w, steps) == 0 <==> forall k: nat :: k < |steps| ==> !OverwritesAt(w, steps, k)
    decreases |steps|
  {
    if steps != [] {
      var n := |steps| - 1;
      var init := steps[..n];
      CountedIfAny(w, init);
      forall k: nat | k < n
        ensures OverwritesAt(w, init, k) <==> OverwritesAt(w, steps, k)
      {
        assert init[..k] == steps[..k];
      }
      assert OverwritesAt(w, steps, n) <==> Overwrites(Run(w, init), steps[n]);
    }
  }

  // ---------- when a license was revoked ----------

  /** The step writes the license. */
  predicate Writes(w: World, s: Step, id: int) {
    s.Work? && s.j < |w.tasks| &&
    var task := w.tasks[s.j];
    task.pc.Writing? && task.pc.i < |task.ids| && !s.t.fault.UpdateFails? && task.ids[task.pc.i] == id
  }

  /** The clock reading of the last step that wrote it. */
  function LastWritten(w: World, steps: seq<Step>, id: int): Option<int> {
    if steps == [] then None
    else
      var init, s := steps[..|steps| - 1], steps[|steps| - 1];
      if Writes(Run(w, init), s, id) then Some(s.t.now) else LastWritten(w, init, id)
  }

  lemma StepWrites(m: Licenses, w: World, s: Step, id: int)
    requires Sound(m, w) && id in m
    ensures id in Next(w, s).licenses
    ensures Next(w, s).licenses[id] ==
      if Writes(w, s, id) then m[id].(revokedAt := Some(s.t.now)) else w.licenses[id]
  {
    if s.Work? && s.j < |w.tasks| {
      assert InOrder(w.tasks[s.j]) && ReadOf(m, w.tasks[s.j]);
    }
  }

  /** In every run, a license is revoked at the instant of the last step that wrote it,
      and is otherwise as it was. */
  lemma {:induction false} RevokedWhenWritten(w: World, steps: seq<Step>, id: int)
    requires Fresh(w) && id in w.licenses
    ensures id in Run(w, steps).licenses
    ensures Run(w, steps).licenses[id] ==
      match LastWritten(w, steps, id)
      case None => w.licenses[id]
      case Some(at) => w.licenses[id].(revokedAt := Some(at))
    decreases |steps|
  {
    if steps != [] {
      var init := steps[..|steps| - 1];
      RevokedWhenWritten(w, init, id);
      RevocationsCounted(w, init);
      StepWrites(w.licenses, Run(w, init), steps[|steps| - 1], id);
    }
  }

  // ---------- which jobs can get in each other's way ----------

  /** Two jobs list the same license, and it is there to be revoked. */
  ghost predicate Share(w: World, j: nat, k: nat, id: int) {
    j < k < |w.tasks| && id in w.tasks[j].ids && id in w.tasks[k].ids && Revocable(w.licenses, id)
  }

  /** In every run, at every moment, the successes are the licenses newly revoked. */
  ghost predicate CountsExact(w: World) {
    forall steps: seq<Step> ::
      NewlyRevoked(w, steps) == TotalSuccess(Run(w, steps).tasks) + TotalUnrecorded(Run(w, steps).tasks)
  }

  /** Nobody has written what a worker is about to write back. */
  ghost predicate StillUnrevoked(w: World) {
    forall j :: 0 <= j < |w.tasks| && w.tasks[j].pc.Writing? && w.tasks[j].pc.i < |w.tasks[j].ids| ==>
      Revocable(w.licenses, w.tasks[j].ids[w.tasks[j].pc.i])
  }

  lemma UnsharedStep(w0: World, w: World, s: Step)
    requires Sound(w0.licenses, w) && StillUnrevoked(w) && |w.tasks| == |w0.tasks|
    requires forall j :: 0 <= j < |w.tasks| ==> w.tasks[j].ids == w0.tasks[j].ids
    requires forall j: nat, k: nat, id :: !Share(w0, j, k, id)
    ensures StillUnrevoked(Next(w, s)) && !Overwrites(w, s)
  {
    if s.Work? && s.j < |w.tasks| && w.tasks[s.j].pc.Writing? {
      var written := w.tasks[s.j].ids[w.tasks[s.j].pc.i];
      forall k: nat | k < |w.tasks| && k != s.j
        ensures written !in w.tasks[k].ids
      {
        assert !Share(w0, k, s.j, written) && !Share(w0, s.j, k, written);
      }
    }
  }

  lemma {:induction false} UnsharedRun(w: World, steps: seq<Step>)
    requires Fresh(w) && forall j: nat, k: nat, id :: !Share(w, j, k, id)
    ensures StillUnrevoked(Run(w, steps)) && OverwriteCount(w, steps) == 0
    decreases |steps|
  {
    if steps != [] {
      var init := steps[..|steps| - 1];
      UnsharedRun(w, init);
      RevocationsCounted(w, init);
      forall j | 0 <= j < |w.tasks|
        ensures Run(w, init).tasks[j].ids == w.tasks[j].ids
      {
        RunInOrder(w, init, j);
      }
      UnsharedStep(w, Run(w, init), steps[|steps| - 1]);
    }
  }

  // ---------- a run that overwrites ----------

  /** The run has brought job j to `task`, without an overwrite, and changed nothing else. */
  ghost predicate Brought(w: World, steps: seq<Step>, x: World, j: nat, task: Task) {
    && j < |x.tasks| && Run(w, steps) == x.(tasks := x.tasks[j := task])
    && OverwriteCount(w, steps) == 0
  }

  lemma BringOn(w: World, steps: seq<Step>, x: World, j: nat, task: Task, t: Try, task': Task)
    requires Brought(w, steps, x, j, task) && !task.pc.Writing?
    requires WorkerStep(x.licenses, task, t) == (x.licenses, task')
    ensures Brought(w, steps + [Work(j, t)], x, j, task')
  {
    RunSnoc(w, steps, Work(j, t));
    assert x.tasks[j := task][j := task'] == x.tasks[j := task'];
    assert (steps + [Work(j, t)])[..|steps|] == steps;
  }

  const READ_FAILS := Try(GetFails, 0)
  const GOES_WELL := Try(NoFault, 0)

  /** An item whose three reads fail is passed over. */
  lemma PassOver(w: World, steps: seq<Step>, x: World, j: nat, task: Task) returns (steps': seq<Step>, task': Task)
    requires Brought(w, steps, x, j, task) && task.pc.Checking? && task.pc.i + 1 < |task.ids|
    requires task.job.status != Cancelled
    ensures Brought(w, steps', x, j, task') && task'.pc == Checking(task.pc.i + 1)
    ensures task'.ids == task.ids && task'.job.status != Cancelled
  {
    var i := task.pc.i;
    BringOn(w, steps, x, j, task, GOES_WELL, task.(pc := Trying(i, 0)));
    steps' := steps + [Work(j, GOES_WELL)];
    BringOn(w, steps', x, j, task.(pc := Trying(i, 0)), READ_FAILS, task.(pc := Trying(i, 1)));
    steps' := steps' + [Work(j, READ_FAILS)];
    BringOn(w, steps', x, j, task.(pc := Trying(i, 1)), READ_FAILS, task.(pc := Trying(i, 2)));
    steps' := steps' + [Work(j, READ_FAILS)];
    BringOn(w, steps', x, j, task.(pc := Trying(i, 2)), READ_FAILS, task.(pc := Recording(i, false)));
    steps' := steps' + [Work(j, READ_FAILS)];
    task' := task.(pc := Checking(i + 1), job := Record(task.job, i, task.ids[i], false));
    BringOn(w, steps', x, j, task.(pc := Recording(i, false)), GOES_WELL, task');
    steps' := steps' + [Work(j, GOES_WELL)];
  }

  lemma {:induction false} BringToCheck(w: World, steps: seq<Step>, x: World, j: nat, task: Task, p: nat)
    returns (steps': seq<Step>, task': Task)
    requires Brought(w, steps, x, j, task) && task.pc.Starting? && p < |task.ids|
    ensures Brought(w, steps', x, j, task') && task'.pc == Checking(p)
    ensures task'.ids == task.ids && task'.job.status != Cancelled
    decreases p
  {
    if p == 0 {
      task' := task.(pc := Checking(0), job := task.job.(status := InProgress));
      BringOn(w, steps, x, j, task, GOES_WELL, task');
      steps' := steps + [Work(j, GOES_WELL)];
    } else {
      steps', task' := BringToCheck(w, steps, x, j, task, p - 1);
      steps', task' := PassOver(w, steps', x, j, task');
    }
  }

  /** A job can be brought to the point where it has read a license it lists. */
  lemma {:induction false} BringToWrite(w: World, steps: seq<Step>, x: World, j: nat, id: int)
    returns (steps': seq<Step>, task': Task)
    requires j < |x.tasks| && Run(w, steps) == x && OverwriteCount(w, steps) == 0
    requires x.tasks[j].pc.Starting? && id in x.tasks[j].ids && Revocable(x.licenses, id)
    ensures Brought(w, steps', x, j, task') && task'.pc.Writing? && task'.pc.license == x.licenses[id]
    ensures task'.pc.i < |task'.ids| && task'.ids[task'.pc.i] == id
  {
    var p: nat :| p < |x.tasks[j].ids| && x.tasks[j].ids[p] == id;
    assert x.tasks[j := x.tasks[j]] == x.tasks;
    var task: Task;
    steps', task := BringToCheck(w, steps, x, j, x.tasks[j], p);
    BringOn(w, steps', x, j, task, GOES_WELL, task.(pc := Trying(p, 0)));
    steps' := steps' + [Work(j, GOES_WELL)];
    task' := task.(pc := Writing(p, 0, x.licenses[id]));
    BringOn(w, steps', x, j, task.(pc := Trying(p, 0)), GOES_WELL, task');
    steps' := steps' + [Work(j, GOES_WELL)];
  }

  lemma OverwriteSnoc(w: World, steps: seq<Step>, s: Step)
    ensures OverwriteCount(w, steps + [s]) ==
      OverwriteCount(w, steps) + (if Overwrites(Run(w, steps), s) then 1 else 0)
  {
    assert (steps + [s])[..|steps|] == steps;
  }

  ghost predicate AboutToWrite(task: Task, id: int) {
    task.pc.Writing? && task.pc.i < |task.ids| && task.ids[task.pc.i] == id
  }

  lemma OneWrites(w: World, steps: seq<Step>, j: nat, id: int)
    requires j < |Run(w, steps).tasks| && AboutToWrite(Run(w, steps).tasks[j], id)
    ensures var y, y' := Run(w, steps), Run(w, steps + [Work(j, GOES_WELL)]);
      && id in y'.licenses && id in RevokedIds(y'.licenses) && |y'.tasks| == |y.tasks|
      && (forall k :: 0 <= k < |y.tasks| && k != j ==> y'.tasks[k] == y.tasks[k])
      && OverwriteCount(w, steps + [Work(j, GOES_WELL)]) ==
           OverwriteCount(w, steps) + (if id in RevokedIds(y.licenses) then 1 else 0)
  {
    OverwriteSnoc(w, steps, Work(j, GOES_WELL));
    RunSnoc(w, steps, Work(j, GOES_WELL));
  }

  lemma BothWrite(w: World, steps: seq<Step>, j: nat, k: nat, id: int) returns (steps': seq<Step>)
    requires var y := Run(w, steps);
      && j < k < |y.tasks| && AboutToWrite(y.tasks[j], id) && AboutToWrite(y.tasks[k], id)
      && id !in RevokedIds(y.licenses) && OverwriteCount(w, steps) == 0
    ensures OverwriteCount(w, steps') == 1 && id in RevokedIds(Run(w, steps').licenses)
  {
    OneWrites(w, steps, j, id);
    OneWrites(w, steps + [Work(j, GOES_WELL)], k, id);
    steps' := steps + [Work(j, GOES_WELL)] + [Work(k, GOES_WELL)];
  }

  /** Both jobs read the license, then both write it. */
  lemma {:induction false} SharedOverwrites(w: World, j: nat, k: nat, id: int) returns (steps: seq<Step>)
    requires Fresh(w) && Share(w, j, k, id)
    ensures OverwriteCount(w, steps) == 1 && id in RevokedIds(Run(w, steps).licenses)
  {
    var first, second: Task;
    steps, first := BringToWrite(w, [], w, j, id);
    var x := Run(w, steps);
    steps, second := BringToWrite(w, steps, x, k, id);
    var y := Run(w, steps);
    assert y.tasks[j] == first && y.tasks[k] == second && y.licenses == w.licenses;
    steps := BothWrite(w, steps, j, k, id);
  }

  /** The counts are exact in every run exactly if no two of the jobs list a license
      that can be revoked. */
  lemma {:induction false} ExactIffNothingShared(w: World)
    requires Fresh(w)
    ensures CountsExact(w) <==> !exists j: nat, k: nat, id :: Share(w, j, k, id)
  {
    if j: nat, k: nat, id :| Share(w, j, k, id) {
      var steps := SharedOverwrites(w, j, k, id);
      RevocationsCounted(w, steps);
      NewlyRevokedIs(w, steps);
    } else {
      forall steps: seq<Step>
        ensures NewlyRevoked(w, steps) == TotalSuccess(Run(w, steps).tasks) + TotalUnrecorded(Run(w, steps).tasks)
      {
        UnsharedRun(w, steps);
        RevocationsCounted(w, steps);
        NewlyRevokedIs(w, steps);
      }
    }
  }

  /** The least case: two jobs on license 1 end with two successes and one license
      revoked. */
  lemma {:induction false} TwoJobsOneLicense(l: License) returns (w: World, steps: seq<Step>)
    requires l.revokedAt.None?
    ensures Fresh(w) && w.licenses == map[1 := l] && |w.tasks| == 2 && w.tasks[0].ids == w.tasks[1].ids == [1]
    ensures TotalSuccess(Run(w, steps).tasks) + TotalUnrecorded(Run(w, steps).tasks) == 2
    ensures NewlyRevoked(w, steps) == 1
  {
    var task := Task([1], Starting, NewJob(1));
    w := World(map[1 := l], [task, task]);
    assert Share(w, 0, 1, 1);
    steps := SharedOverwrites(w, 0, 1, 1);
    RevocationsCounted(w, steps);
    NewlyRevokedIs(w, steps);
    var after := RevokedIds(Run(w, steps).licenses);
    assert after == {1} && RevokedIds(w.licenses) == {};
  }
}
