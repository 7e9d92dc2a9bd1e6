/** Bulk revocation: the synchronous loop, one item with retries, and the outcome of
    a list as a function of which calls to the database fail. */
module BulkRevoke {
  import opened Basics

  datatype License = License(id: int, userId: int, expiresAt: int, revokedAt: Option<int>)

  type Licenses = map<int, License>

  /** What the database does to one attempt: nothing, or the read or the write fails. */
  datatype Fault = NoFault | GetFails | UpdateFails

  /** One attempt: its fault and the clock reading it would store. */
  datatype Try = Try(fault: Fault, now: int)

  datatype Outcome = Revoked | AlreadyRevoked | Error

  const MAX_RETRIES := 3

  predicate Revocable(m: Licenses, id: int) {
    id in m && m[id].revokedAt.None?
  }

  /** Read, check, write.  A failing write leaves the store as it was. */
  function Attempt(m: Licenses, id: int, t: Try): (Licenses, Outcome) {
    if t.fault.GetFails? || id !in m then (m, Error)
    else if m[id].revokedAt.Some? then (m, AlreadyRevoked)
    else if t.fault.UpdateFails? then (m, Error)
    else (m[id := m[id].(revokedAt := Some(t.now))], Revoked)
  }

  /** Attempts until one is not an error. */
  function Retry(m: Licenses, id: int, tries: seq<Try>): (Licenses, bool) {
    if tries == [] then (m, false)
    else
      var (m', o) := Attempt(m, id, tries[0]);
      if o.Error? then Retry(m', id, tries[1..]) else (m', o.Revoked?)
  }

  /** The store and the success of every position after a list is processed, each
      item with its own tries. */
  function Process(m: Licenses, ids: seq<int>, tries: seq<seq<Try>>): (Licenses, seq<bool>)
    requires |ids| == |tries|
  {
    if ids == [] then (m, [])
    else
      var n := |ids| - 1;
      var (m', flags) := Process(m, ids[..n], tries[..n]);
      var (m'', ok) := Retry(m', ids[n], tries[n]);
      (m'', flags + [ok])
  }

  lemma {:induction false} ProcessLength(m: Licenses, ids: seq<int>, tries: seq<seq<Try>>)
    requires |ids| == |tries|
    ensures |Process(m, ids, tries).1| == |ids|
  {
    if ids != [] {
      ProcessLength(m, ids[..|ids| - 1], tries[..|ids| - 1]);
    }
  }

  // ---------- reports ----------

  datatype Report = Report(success: nat, failure: nat, failedIds: seq<int>)

  /** The report that a list of outcomes calls for. */
  function Tally(ids: seq<int>, flags: seq<bool>): Report
    requires |flags| <= |ids|
  {
    if flags == [] then Report(0, 0, [])
    else
      var n := |flags| - 1;
      var r := Tally(ids, flags[..n]);
      if flags[n] then r.(success := r.success + 1)
      else r.(failure := r.failure + 1, failedIds := r.failedIds + [ids[n]])
  }

  /** The positions of the failures, in order. */
  function FailedPositions(flags: seq<bool>): seq<nat> {
    if flags == [] then []
    else FailedPositions(flags[..|flags| - 1]) + (if flags[|flags| - 1] then [] else [|flags| - 1])
  }

  lemma {:induction false} FailedPositionsMeaning(flags: seq<bool>)
    ensures var ps := FailedPositions(flags);
      && (forall k :: 0 <= k < |ps| ==> ps[k] < |flags| && !flags[ps[k]])
      && (forall j, k :: 0 <= j < k < |ps| ==> ps[j] < ps[k])
      && (forall i :: 0 <= i < |flags| && !flags[i] ==> i in ps)
  {
    if flags != [] {
      var n := |flags| - 1;
      FailedPositionsMeaning(flags[..n]);
      var before, ps := FailedPositions(flags[..n]), FailedPositions(flags);
      forall i | 0 <= i < |flags| && !flags[i]
        ensures i in ps
      {
        if i < n {
          assert !flags[..n][i];
          assert i in before;
        } else {
          assert ps[|before|] == n;
        }
      }
    }
  }

  /** Counts add up; FailedIDs are the ids at the failed positions, in list order. */
  lemma {:induction false} TallyMeaning(ids: seq<int>, flags: seq<bool>)
    requires |flags| <= |ids|
    ensures
      var r, ps := Tally(ids, flags), FailedPositions(flags);
      && r.success + r.failure == |flags|
      && |r.failedIds| == r.failure == |ps|
      && (forall k :: 0 <= k < |ps| ==> ps[k] < |flags| && r.failedIds[k] == ids[ps[k]])
  {
    if flags != [] {
      TallyMeaning(ids, flags[..|flags| - 1]);
    }
  }

  // ---------- the repository and the synchronous operation ----------

  class LicenseRepository {
    var licenses: Licenses

    ghost predicate Valid()
      reads this
    {
      forall id :: id in licenses ==> licenses[id].id == id
    }

    constructor (licenses: Licenses)
      ensures this.licenses == licenses
    {
      this.licenses := licenses;
    }

    method GetById(id: int, fault: Fault) returns (r: Option<License>)
      ensures r == if fault.GetFails? || id !in licenses then None else Some(licenses[id])
    {
      r := if fault.GetFails? || id !in licenses then None else Some(licenses[id]);
    }

    method Update(license: License, fault: Fault) returns (ok: bool)
      modifies this
      ensures ok == !fault.UpdateFails?
      ensures licenses == if ok then old(licenses)[license.id := license] else old(licenses)
    {
      ok := !fault.UpdateFails?;
      if ok {
        licenses := licenses[license.id := license];
      }
    }
  }

  datatype Result<+T> = Ok(value: T) | ValidationError

  datatype BulkRevokeResponse = BulkRevokeResponse(totalRequested: nat, report: Report)

  function Singletons(tries: seq<Try>): (r: seq<seq<Try>>)
    ensures |r| == |tries|
  {
    seq(|tries|, i requires 0 <= i < |tries| => [tries[i]])
  }

  /** The next item extends what has been processed and tallied. */
  lemma OneMoreItem(m: Licenses, ids: seq<int>, tries: seq<seq<Try>>, i: nat, flags: seq<bool>, ok: bool)
    requires |ids| == |tries| && i < |ids| && |flags| == i
    ensures
      var (m1, done) := Process(m, ids[..i], tries[..i]);
      done == flags && Retry(m1, ids[i], tries[i]).1 == ok ==>
        Process(m, ids[..i + 1], tries[..i + 1]) == (Retry(m1, ids[i], tries[i]).0, flags + [ok])
    ensures var r, r' := Tally(ids, flags), Tally(ids, flags + [ok]);
      r' == if ok then r.(success := r.success + 1)
            else r.(failure := r.failure + 1, failedIds := r.failedIds + [ids[i]])
  {
    assert ids[..i + 1][..i] == ids[..i] && tries[..i + 1][..i] == tries[..i];
    assert (flags + [ok])[..i] == flags;
  }

  method BulkRevokeLicenses(repo: LicenseRepository, ids: seq<int>, tries: seq<Try>)
    returns (r: Result<BulkRevokeResponse>)
    requires repo.Valid() && |tries| == |ids|
    modifies repo
    ensures repo.Valid()
    ensures ids == [] ==> r == ValidationError && repo.licenses == old(repo.licenses)
    ensures ids != [] ==>
      var (m, flags) := Process(old(repo.licenses), ids, Singletons(tries));
      |flags| == |ids| && repo.licenses == m && r == Ok(BulkRevokeResponse(|ids|, Tally(ids, flags)))
  {
    if |ids| == 0 {
      return ValidationError;
    }
    ghost var all := Singletons(tries);
    ghost var flags: seq<bool> := [];
    var success, failure, failedIds := 0, 0, [];
    var i := 0;
    while i < |ids|
      invariant 0 <= i <= |ids| && repo.Valid()
      invariant (repo.licenses, flags) == Process(old(repo.licenses), ids[..i], all[..i])
      invariant |flags| == i && Report(success, failure, failedIds) == Tally(ids, flags)
    {
      ghost var before, ok := repo.licenses, false;
      var id, fault := ids[i], tries[i].fault;
      var got := repo.GetById(id, fault);
      if got.None? {
        failure, failedIds := failure + 1, failedIds + [id];
      } else if got.value.revokedAt.Some? {
        failure, failedIds := failure + 1, failedIds + [id];
      } else {
        var saved := repo.Update(got.value.(revokedAt := Some(tries[i].now)), fault);
        if saved {
          success, ok := success + 1, true;
        } else {
          failure, failedIds := failure + 1, failedIds + [id];
        }
      }
      RetryOnce(before, id, tries[i]);
      OneMoreItem(old(repo.licenses), ids, all, i, flags, ok);
      flags := flags + [ok];
      i := i + 1;
    }
    assert ids[..i] == ids && all[..i] == all;
    r := Ok(BulkRevokeResponse(|ids|, Report(success, failure, failedIds)));
  }

  lemma RetryOnce(m: Licenses, id: int, t: Try)
    ensures var (m', o) := Attempt(m, id, t); Retry(m, id, [t]) == (m', o.Revoked?)
  {
    assert [t][1..] == [];
    assert Retry(Attempt(m, id, t).0, id, []) == (Attempt(m, id, t).0, false);
  }

  /** One item of an asynchronous job: up to three attempts, sleeping 100 and then
      200 milliseconds in between. */
  method ProcessLicenseRevocationWithRetry(repo: LicenseRepository, id: int, tries: seq<Try>)
    returns (success: bool, slept: int)
    requires repo.Valid() && |tries| == MAX_RETRIES
    modifies repo
    ensures repo.Valid()
    ensures (repo.licenses, success) == Retry(old(repo.licenses), id, tries)
    ensures slept in {0, 100, 300}
  {
    var retryDelay := 100;
    slept := 0;
    var attempt := 0;
    while attempt < MAX_RETRIES
      invariant 0 <= attempt <= MAX_RETRIES && repo.licenses == old(repo.licenses) && repo.Valid()
      invariant Retry(old(repo.licenses), id, tries) == Retry(repo.licenses, id, tries[attempt..])
      invariant attempt == 0 ==> slept == 0 && retryDelay == 100
      invariant attempt == 1 ==> slept == 0 && retryDelay == 100
      invariant attempt == 2 ==> slept == 100 && retryDelay == 200
      invariant attempt == 3 ==> slept == 300
    {
      assert tries[attempt..][0] == tries[attempt] && tries[attempt..][1..] == tries[attempt + 1..];
      if attempt > 0 {
        slept := slept + retryDelay;
        retryDelay := retryDelay * 2;
      }
      var fault := tries[attempt].fault;
      var got := repo.GetById(id, fault);
      if got.Some? {
        if got.value.revokedAt.Some? {
          return false, slept;
        }
        var saved := repo.Update(got.value.(revokedAt := Some(tries[attempt].now)), fault);
        if saved {
          return true, slept;
        }
      }
      attempt := attempt + 1;
    }
    return false, slept;
  }

  // ---------- retries hide transient faults ----------

  /** Which positions succeed when nothing ever fails: each revocable id once. */
  function FaultFree(m: Licenses, ids: seq<int>): seq<bool> {
    if ids == [] then []
    else
      var n := |ids| - 1;
      FaultFree(m, ids[..n]) + [Revocable(m, ids[n]) && ids[n] !in ids[..n]]
  }

  predicate SomeTryWorks(tries: seq<Try>) {
    exists k :: 0 <= k < |tries| && tries[k].fault.NoFault?
  }

  /** The k-th attempt is the first that no fault hits. */
  predicate FirstToWork(tries: seq<Try>, k: nat) {
    k < |tries| && tries[k].fault.NoFault? && forall j :: 0 <= j < k ==> !tries[j].fault.NoFault?
  }

  function RevokedIds(m: Licenses): set<int> {
    set id | id in m && m[id].revokedAt.Some?
  }

  lemma FirstOfRest(tries: seq<Try>)
    requires tries != []
    ensures !tries[0].fault.NoFault? ==> forall k: nat :: FirstToWork(tries[1..], k) <==> FirstToWork(tries, k + 1)
    ensures !tries[0].fault.NoFault? ==> !FirstToWork(tries, 0)
  {
    if !tries[0].fault.NoFault? {
      forall k: nat
        ensures FirstToWork(tries[1..], k) <==> FirstToWork(tries, k + 1)
      {
        assert forall j :: 0 <= j < |tries[1..]| ==> tries[1..][j] == tries[j + 1];
        if FirstToWork(tries, k + 1) {
          forall j | 0 <= j < k
            ensures !tries[1..][j].fault.NoFault?
          {
            assert tries[1..][j] == tries[j + 1];
          }
        }
      }
    }
  }

  /** One item succeeds exactly when its license can be revoked and some attempt is
      not hit by a fault; then only that license changes, and its revocation time is the
      clock reading of the first such attempt. */
  lemma {:induction false} RetryMeaning(m: Licenses, id: int, tries: seq<Try>)
    ensures var (m', ok) := Retry(m, id, tries);
      && (ok <==> Revocable(m, id) && SomeTryWorks(tries))
      && m'.Keys == m.Keys
      && (!ok ==> m' == m)
      && (ok ==> exists k :: FirstToWork(tries, k))
      && (forall k: nat :: ok && FirstToWork(tries, k) ==> m' == m[id := m[id].(revokedAt := Some(tries[k].now))])
  {
    if tries != [] {
      var t := tries[0];
      var o := Attempt(m, id, t).1;
      if o.Error? {
        RetryMeaning(m, id, tries[1..]);
        if SomeTryWorks(tries) && Revocable(m, id) {
          var k :| 0 <= k < |tries| && tries[k].fault.NoFault?;
          assert tries[1..][k - 1] == tries[k];
        }
        if SomeTryWorks(tries[1..]) {
          var k :| 0 <= k < |tries[1..]| && tries[1..][k].fault.NoFault?;
          assert tries[k + 1] == tries[1..][k];
        }
        FirstOfRest(tries);
      } else if o.Revoked? {
        assert tries[0].fault.NoFault?;
        assert FirstToWork(tries, 0);
      }
    }
  }

  /** Processing matches the fault-free outcome exactly when every item that should
      succeed has an attempt that works; and then the revocable ids of the list, and
      no others, are revoked. */
  lemma {:induction false} ProcessMeaning(m: Licenses, ids: seq<int>, tries: seq<seq<Try>>)
    requires |ids| == |tries|
    ensures |FaultFree(m, ids)| == |ids|
    ensures var (m', flags) := Process(m, ids, tries);
      && m'.Keys == m.Keys
      && (flags == FaultFree(m, ids) <==>
            forall i :: 0 <= i < |ids| && FaultFree(m, ids)[i] ==> SomeTryWorks(tries[i]))
      && (flags == FaultFree(m, ids) ==>
            forall id :: id in m ==> (Revocable(m', id) <==> Revocable(m, id) && id !in ids))
  {
    if ids != [] {
      var n := |ids| - 1;
      var (m1, flags1) := Process(m, ids[..n], tries[..n]);
      var want1, want := FaultFree(m, ids[..n]), FaultFree(m, ids);
      ProcessMeaning(m, ids[..n], tries[..n]);
      ProcessLength(m, ids[..n], tries[..n]);
      RetryMeaning(m1, ids[n], tries[n]);
      var (m', flags) := Process(m, ids, tries);
      assert want == want1 + [want[n]] && flags == flags1 + [flags[n]];
      assert forall id :: id in ids <==> id in ids[..n] || id == ids[n];
      if flags1 == want1 {
        assert flags[n] <==> want[n] && SomeTryWorks(tries[n]);
      } else {
        var i :| 0 <= i < n && want1[i] && !SomeTryWorks(tries[..n][i]);
        assert want[i] && !SomeTryWorks(tries[i]);
        assert flags[..n] == flags1 && want[..n] == want1;
      }
      if flags == want {
        assert flags[..n] == flags1 && want[..n] == want1;
      }
    }
  }

  /** A job with three attempts per item reports and revokes exactly what the
      synchronous operation does on a database that never fails -- duplicates, unknown
      and already revoked ids included -- if and only if no item that should succeed
      has all its attempts hit. */
  lemma RetriesMatchFaultFree(m: Licenses, ids: seq<int>, tries: seq<seq<Try>>, plain: seq<Try>)
    requires |ids| == |tries| == |plain|
    requires forall i :: 0 <= i < |plain| ==> plain[i].fault.NoFault?
    ensures
      var (ma, async) := Process(m, ids, tries);
      var (ms, sync) := Process(m, ids, Singletons(plain));
      && |async| == |sync| == |ids|
      && (async == sync <==> forall i :: 0 <= i < |ids| && sync[i] ==> SomeTryWorks(tries[i]))
      && (async == sync ==> Tally(ids, async) == Tally(ids, sync) && RevokedIds(ma) == RevokedIds(ms))
  {
    var singles := Singletons(plain);
    forall i | 0 <= i < |ids|
      ensures SomeTryWorks(singles[i])
    {
      assert singles[i][0].fault.NoFault?;
    }
    ProcessLength(m, ids, tries);
    ProcessLength(m, ids, singles);
    ProcessMeaning(m, ids, tries);
    ProcessMeaning(m, ids, singles);
    var (ma, async) := Process(m, ids, tries);
    var ms := Process(m, ids, singles).0;
    if async == FaultFree(m, ids) {
      forall id | id in m
        ensures id in RevokedIds(ma) <==> id in RevokedIds(ms)
      {
        assert Revocable(ma, id) <==> Revocable(ms, id);
      }
    }
  }
}
