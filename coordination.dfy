/** The epic coordinator (and its renamed copy, the wave coordinator): the tasks of a group run in
    batches of `maxParallel`, their results are gathered in a map keyed by task, and groups run one
    after another until one of them does not complete. */
module Coordination {
  import opened Common
  import TE = TaskExecutor

  // =======================================================================================
  // Batches

  function Min(a: int, b: int): int { if a <= b then a else b }

  /** The batches `batchTasks` cuts from position `i` on: `tasks.slice(i, i + size)` each time. */
  function BatchesFrom(tasks: seq<string>, size: int, i: nat): seq<seq<string>>
    requires size > 0
    decreases |tasks| - i
  {
    if i >= |tasks| then [] else [tasks[i..Min(i + size, |tasks|)]] + BatchesFrom(tasks, size, i + size)
  }

  /** `batchTasks`; with `size <= 0` the source's loop does not end unless there are no tasks. */
  function Batches(tasks: seq<string>, size: int): seq<seq<string>>
    requires size > 0 || tasks == []
  {
    if tasks == [] then [] else BatchesFrom(tasks, size, 0)
  }

  /** The batches put back together. */
  function Flatten(batches: seq<seq<string>>): seq<string>
    decreases |batches|
  {
    if batches == [] then [] else batches[0] + Flatten(batches[1..])
  }

  lemma {:induction false} BatchesFromFlatten(tasks: seq<string>, size: int, i: nat)
    requires size > 0 && i <= |tasks|
    ensures Flatten(BatchesFrom(tasks, size, i)) == tasks[i..]
    decreases |tasks| - i
  {
    if i < |tasks| {
      var j := Min(i + size, |tasks|);
      var rest := BatchesFrom(tasks, size, i + size);
      if i + size <= |tasks| {
        BatchesFromFlatten(tasks, size, i + size);
      } else {
        assert rest == [];
      }
      assert ([tasks[i..j]] + rest)[1..] == rest;
      assert tasks[i..] == tasks[i..j] + tasks[j..];
    }
  }

  /** The batches concatenate back to the task list. */
  lemma BatchesFlatten(tasks: seq<string>, size: int)
    requires size > 0 || tasks == []
    ensures Flatten(Batches(tasks, size)) == tasks
  {
    if tasks != [] {
      BatchesFromFlatten(tasks, size, 0);
    }
  }

  lemma MulMono(a: int, b: int, s: int)
    requires a <= b && s >= 0
    ensures a * s <= b * s
  {
    assert b * s - a * s == (b - a) * s;
  }

  /** The quotient is the `q` with `q * s <= a < (q + 1) * s`. */
  lemma DivUnique(a: int, s: int, q: int)
    requires s > 0 && q * s <= a < q * s + s
    ensures a / s == q
  {
    var d := a / s;
    assert a == d * s + a % s && 0 <= a % s < s;
    if d < q {
      MulMono(d + 1, q, s);
    } else if d > q {
      MulMono(q + 1, d, s);
    }
  }

  lemma DivStep(x: int, size: int)
    requires size > 0 && x >= 0
    ensures (x + size) / size == x / size + 1
  {
    var q := x / size;
    assert q * size <= x < q * size + size;
    assert (q + 1) * size == q * size + size;
    DivUnique(x + size, size, q + 1);
  }

  lemma DivOne(y: int, size: int)
    requires 1 <= y <= size
    ensures (y + size - 1) / size == 1
  {
    DivUnique(y + size - 1, size, 1);
  }

  lemma {:induction false} BatchesFromCount(tasks: seq<string>, size: int, i: nat)
    requires size > 0 && i <= |tasks|
    ensures |BatchesFrom(tasks, size, i)| == (|tasks| - i + size - 1) / size
    decreases |tasks| - i
  {
    if i < |tasks| {
      if i + size <= |tasks| {
        BatchesFromCount(tasks, size, i + size);
        DivStep(|tasks| - (i + size) + size - 1, size);
      } else {
        DivOne(|tasks| - i, size);
      }
    }
  }

  lemma {:induction false} BatchesFromSizes(tasks: seq<string>, size: int, i: nat)
    requires size > 0 && i <= |tasks|
    ensures forall k :: 0 <= k < |BatchesFrom(tasks, size, i)| ==> 1 <= |BatchesFrom(tasks, size, i)[k]| <= size
    ensures forall k :: 0 <= k < |BatchesFrom(tasks, size, i)| - 1 ==> |BatchesFrom(tasks, size, i)[k]| == size
    decreases |tasks| - i
  {
    if i < |tasks| {
      var b := BatchesFrom(tasks, size, i);
      var rest := BatchesFrom(tasks, size, i + size);
      assert |b[0]| == Min(i + size, |tasks|) - i;
      if i + size < |tasks| {
        BatchesFromSizes(tasks, size, i + size);
        assert |b[0]| == size;
      } else {
        assert rest == [];
      }
      forall k | 1 <= k < |b|
        ensures b[k] == rest[k - 1] && 1 <= |b[k]| <= size && (k < |b| - 1 ==> |b[k]| == size)
      {
        assert b[k] == rest[k - 1];
        assert 1 <= |rest[k - 1]| <= size;
        assert k - 1 < |rest| - 1 ==> |rest[k - 1]| == size;
      }
    }
  }

  /** Every batch holds `size` tasks except the last, which holds between one and `size`; there are
      `⌈n / size⌉` of them. */
  lemma BatchesShape(tasks: seq<string>, size: int)
    requires size > 0
    ensures var b := Batches(tasks, size);
            && |b| == (|tasks| + size - 1) / size
            && (forall k :: 0 <= k < |b| ==> 1 <= |b[k]| <= size)
            && (forall k :: 0 <= k < |b| - 1 ==> |b[k]| == size)
  {
    if tasks != [] {
      BatchesFromCount(tasks, size, 0);
      BatchesFromSizes(tasks, size, 0);
    }
  }

  // =======================================================================================
  // Results of a group

  /** What a call to the task executor gives: its result, or the error it throws. */
  datatype Execution = Returned(result: TE.TaskResult) | Raised(message: string)

  /** The executor as the coordinator sees it: the call for the task at position `k` of the group's
      list, with the given iteration ceiling. */
  type Runner = (nat, string, int) -> Execution

  /** The ceiling every call is made with. */
  const DefaultMaxIterations: int := 10

  /** `executeTaskWithErrorHandling`: the executor's result, or an `error` result with no iterations
      and the thrown message. */
  function Settle(e: Execution): TE.TaskResult
  {
    match e
    case Returned(result) => result
    case Raised(message) => TE.TaskResult(TE.Error, 0, "", Some(message))
  }

  /** The call for the task at position `k`, settled. */
  function CallResult(tasks: seq<string>, run: Runner, k: nat): TE.TaskResult
    requires k < |tasks|
  {
    Settle(run(k, tasks[k], DefaultMaxIterations))
  }

  /** The results map after the first `n` tasks: each call stores its result under its task. */
  function ResultsOf(tasks: seq<string>, run: Runner, n: nat): map<string, TE.TaskResult>
    requires n <= |tasks|
  {
    if n == 0 then map[] else ResultsOf(tasks, run, n - 1)[tasks[n - 1] := CallResult(tasks, run, n - 1)]
  }

  /** `Array.from(results.values()).every(r => r.status === "complete")`. */
  predicate AllComplete(results: map<string, TE.TaskResult>)
  {
    forall id :: id in results ==> results[id].status == TE.Complete
  }

  /** `pending | running | complete | failed`. */
  datatype GroupStatus = Pending | Running | Complete | Failed

  /** `EpicResult` / `WaveResult`, without the duration. */
  datatype GroupResult = GroupResult(number: int, results: map<string, TE.TaskResult>, allComplete: bool)

  function GroupResultOf(number: int, tasks: seq<string>, run: Runner): GroupResult
  {
    var results := ResultsOf(tasks, run, |tasks|);
    GroupResult(number, results, AllComplete(results))
  }

  /** The status a group is left in once it has run. */
  function StatusAfter(r: GroupResult): GroupStatus
  {
    if r.allComplete then Complete else Failed
  }

  /** Position `k` is the last occurrence of its task among the first `n` positions. */
  predicate LastBefore(tasks: seq<string>, k: nat, n: nat)
    requires n <= |tasks|
  {
    k < n && forall j :: k < j < n ==> tasks[j] != tasks[k]
  }

  /** Position `k` is the last occurrence of its task in the list. */
  predicate IsLast(tasks: seq<string>, k: nat)
  {
    LastBefore(tasks, k, |tasks|)
  }

  /** The map is keyed by exactly the listed tasks. */
  lemma {:induction false} ResultsOfKeys(tasks: seq<string>, run: Runner, n: nat)
    requires n <= |tasks|
    ensures ResultsOf(tasks, run, n).Keys == set k | 0 <= k < n :: tasks[k]
    decreases n
  {
    if n > 0 {
      ResultsOfKeys(tasks, run, n - 1);
    }
  }

  /** Each key holds the result of the task's last call: a duplicate keeps the later result. */
  lemma {:induction false} ResultsOfLast(tasks: seq<string>, run: Runner, n: nat)
    requires n <= |tasks|
    ensures forall k :: 0 <= k && LastBefore(tasks, k, n) ==>
              tasks[k] in ResultsOf(tasks, run, n) && ResultsOf(tasks, run, n)[tasks[k]] == CallResult(tasks, run, k)
    decreases n
  {
    if n > 0 {
      ResultsOfLast(tasks, run, n - 1);
      forall k | 0 <= k && LastBefore(tasks, k, n)
        ensures tasks[k] in ResultsOf(tasks, run, n)
        ensures ResultsOf(tasks, run, n)[tasks[k]] == CallResult(tasks, run, k)
      {
        if k < n - 1 {
          assert tasks[k] != tasks[n - 1];
          assert LastBefore(tasks, k, n - 1);
        }
      }
    }
  }

  /** Every key of the group's map is the task of some last call. */
  lemma {:induction false} LastOccurrence(tasks: seq<string>, k: nat)
    requires k < |tasks|
    ensures exists j :: k <= j && IsLast(tasks, j) && tasks[j] == tasks[k]
    decreases |tasks| - k
  {
    if !IsLast(tasks, k) {
      var j :| k < j < |tasks| && tasks[j] == tasks[k];
      LastOccurrence(tasks, j);
    }
  }

  /** `allComplete` holds iff the last call of every listed task returned `complete`; in particular
      it holds for a group with no tasks. */
  lemma AllCompleteIff(number: int, tasks: seq<string>, run: Runner)
    ensures GroupResultOf(number, tasks, run).allComplete <==>
              forall k :: IsLast(tasks, k) ==> CallResult(tasks, run, k).status == TE.Complete
  {
    var m := ResultsOf(tasks, run, |tasks|);
    ResultsOfKeys(tasks, run, |tasks|);
    ResultsOfLast(tasks, run, |tasks|);
    if forall k :: IsLast(tasks, k) ==> CallResult(tasks, run, k).status == TE.Complete {
      forall id | id in m ensures m[id].status == TE.Complete {
        var k :| 0 <= k < |tasks| && tasks[k] == id;
        LastOccurrence(tasks, k);
      }
    }
  }

  /** A thrown error at a task's last call makes the group fail. */
  lemma RaisedFails(number: int, tasks: seq<string>, run: Runner, k: nat)
    requires IsLast(tasks, k) && run(k, tasks[k], DefaultMaxIterations).Raised?
    ensures !GroupResultOf(number, tasks, run).allComplete
  {
    AllCompleteIff(number, tasks, run);
  }

  // =======================================================================================
  // Groups in sequence

  /** An epic (or a wave): its number, its task identifiers and its status, which the coordinator
      updates in place. */
  class Group {
    const number: int
    const tasks: seq<string>
    var status: GroupStatus

    constructor (number: int, tasks: seq<string>)
      ensures this.number == number && this.tasks == tasks && status == Pending
    {
      this.number := number;
      this.tasks := tasks;
      status := Pending;
    }
  }

  /** The result each group would give when run with its runner. */
  function Planned(groups: seq<Group>, runs: nat -> Runner): seq<GroupResult>
  {
    seq(|groups|, k requires 0 <= k < |groups| => GroupResultOf(groups[k].number, groups[k].tasks, runs(k)))
  }

  /** What `executeAllEpics` returns when the groups would give `planned`: their results in order,
      up to and including the first that is not `allComplete`. */
  function UpToFailure(planned: seq<GroupResult>): seq<GroupResult>
  {
    if planned == [] then []
    else [planned[0]] + (if planned[0].allComplete then UpToFailure(planned[1..]) else [])
  }

  /** The returned results are a non-empty prefix of the planned ones (when any group exists),
      every one but the last completed, and the run stops early only after a group that did not. */
  lemma {:induction false} UpToFailureSpec(planned: seq<GroupResult>)
    ensures var rs := UpToFailure(planned);
            && |rs| <= |planned|
            && (planned != [] ==> |rs| >= 1)
            && rs == planned[..|rs|]
            && (forall k :: 0 <= k < |rs| - 1 ==> rs[k].allComplete)
            && (|rs| < |planned| ==> !rs[|rs| - 1].allComplete)
  {
    if planned != [] {
      var r := planned[0];
      if r.allComplete {
        UpToFailureSpec(planned[1..]);
        var rest := UpToFailure(planned[1..]);
        assert UpToFailure(planned) == [r] + rest;
        assert [r] + planned[1..][..|rest|] == planned[..|rest| + 1];
        assert forall k :: 1 <= k < |rest| + 1 ==> ([r] + rest)[k] == rest[k - 1];
      }
    }
  }

  /** One step of the run: the result at the front, then the rest only if it completed. */
  lemma UpToFailureAt(planned: seq<GroupResult>, i: nat)
    requires i < |planned|
    ensures UpToFailure(planned[i..]) ==
              [planned[i]] + (if planned[i].allComplete then UpToFailure(planned[i + 1..]) else [])
  {
    assert planned[i..][1..] == planned[i + 1..];
  }

  /** The batch at position `b` is the next stretch of the task list, and the rest follow it. */
  lemma FlattenHead(tasks: seq<string>, batches: seq<seq<string>>, b: nat, done: nat)
    requires b < |batches| && done <= |tasks| && tasks[done..] == Flatten(batches[b..])
    ensures done + |batches[b]| <= |tasks|
    ensures forall j :: 0 <= j < |batches[b]| ==> tasks[done + j] == batches[b][j]
    ensures tasks[done + |batches[b]|..] == Flatten(batches[b + 1..])
  {
    var batch := batches[b];
    assert batches[b..][1..] == batches[b + 1..];
    assert tasks[done..] == batch + Flatten(batches[b + 1..]);
    forall j | 0 <= j < |batch| ensures tasks[done + j] == batch[j] {
      assert tasks[done..][j] == batch[j];
    }
    assert tasks[done + |batch|..] == tasks[done..][|batch|..];
  }

  lemma PlannedAt(groups: seq<Group>, runs: nat -> Runner, i: nat)
    requires i < |groups|
    ensures Planned(groups, runs)[i] == GroupResultOf(groups[i].number, groups[i].tasks, runs(i))
  {
  }

  lemma AppendOne<T>(a: seq<T>, x: T, b: seq<T>)
    ensures a + [x] + b == a + ([x] + b)
  {
  }

  lemma AppendNothing<T>(a: seq<T>)
    ensures a + [] == a
  {
  }

  class Coordinator {
    const maxParallel: int

    constructor (maxParallel: int := 3)
      ensures this.maxParallel == maxParallel
    {
      this.maxParallel := maxParallel;
    }

    /** `batchTasks`. */
    static method BatchTasks(tasks: seq<string>, batchSize: int) returns (batches: seq<seq<string>>)
      requires batchSize > 0 || tasks == []
      ensures batches == Batches(tasks, batchSize)
    {
      batches := [];
      var i := 0;
      while i < |tasks|
        invariant 0 <= i && (tasks == [] ==> batches == [])
        invariant tasks == [] || batches + BatchesFrom(tasks, batchSize, i) == BatchesFrom(tasks, batchSize, 0)
        decreases |tasks| - i
      {
        batches := batches + [tasks[i..Min(i + batchSize, |tasks|)]];
        i := i + batchSize;
      }
      if tasks != [] {
        assert BatchesFrom(tasks, batchSize, i) == [];
        assert batches + [] == batches;
      }
    }

    /** `executeTaskWithErrorHandling`: the call is made with a ceiling of 10; a thrown error becomes
        an `error` result with no iterations, an empty output and the message. */
    static method ExecuteTaskWithErrorHandling(taskId: string, position: nat, run: Runner)
      returns (result: TE.TaskResult)
      ensures run(position, taskId, 10).Returned? ==> result == run(position, taskId, 10).result
      ensures run(position, taskId, 10).Raised? ==>
                result == TE.TaskResult(TE.Error, 0, "", Some(run(position, taskId, 10).message))
    {
      var e := run(position, taskId, 10);
      match e {
        case Returned(r) => result := r;
        case Raised(message) => result := TE.TaskResult(TE.Error, 0, "", Some(message));
      }
    }

    /** `batch.map(...)` under `Promise.all`: one call per task, results in batch order. */
    static method RunBatch(batch: seq<string>, offset: nat, run: Runner) returns (batchResults: seq<TE.TaskResult>)
      ensures |batchResults| == |batch|
      ensures forall j :: 0 <= j < |batch| ==>
                batchResults[j] == Settle(run(offset + j, batch[j], DefaultMaxIterations))
    {
      batchResults := [];
      var j := 0;
      while j < |batch|
        invariant 0 <= j <= |batch| && |batchResults| == j
        invariant forall l :: 0 <= l < j ==>
                    batchResults[l] == Settle(run(offset + l, batch[l], DefaultMaxIterations))
      {
        var result := ExecuteTaskWithErrorHandling(batch[j], offset + j, run);
        batchResults := batchResults + [result];
        j := j + 1;
      }
    }

    /** `executeEpic` / `executeWave`. */
    method ExecuteGroup(group: Group, run: Runner) returns (r: GroupResult)
      requires maxParallel > 0 || group.tasks == []
      modifies group
      ensures r == GroupResultOf(group.number, group.tasks, run)
      ensures group.status == StatusAfter(r)
    {
      group.status := Running;
      var results := RunTasks(group.tasks, maxParallel, run);
      var allComplete := forall id | id in results :: results[id].status == TE.Complete;
      group.status := if allComplete then Complete else Failed;
      r := GroupResult(group.number, results, allComplete);
    }

    /** The batches of a group run one after the other; each result is stored under its task. */
    static method RunTasks(tasks: seq<string>, batchSize: int, run: Runner)
      returns (results: map<string, TE.TaskResult>)
      requires batchSize > 0 || tasks == []
      ensures results == ResultsOf(tasks, run, |tasks|)
    {
      results := map[];
      var batches := BatchTasks(tasks, batchSize);
      BatchesFlatten(tasks, batchSize);
      var b := 0;
      var done := 0;
      while b < |batches|
        invariant 0 <= b <= |batches| && 0 <= done <= |tasks|
        invariant tasks[done..] == Flatten(batches[b..])
        invariant results == ResultsOf(tasks, run, done)
      {
        var batch := batches[b];
        FlattenHead(tasks, batches, b, done);
        var batchResults := RunBatch(batch, done, run);
        results := StoreBatch(results, tasks, run, done, batch, batchResults);
        done := done + |batch|;
        b := b + 1;
      }
    }

    /** Stores a settled batch into the results map, in batch order. */
    static method StoreBatch(results0: map<string, TE.TaskResult>, tasks: seq<string>, run: Runner,
                             done: nat, batch: seq<string>, batchResults: seq<TE.TaskResult>)
      returns (results: map<string, TE.TaskResult>)
      requires done + |batch| <= |tasks| && |batchResults| == |batch|
      requires forall j :: 0 <= j < |batch| ==> tasks[done + j] == batch[j]
      requires forall j :: 0 <= j < |batch| ==>
                 batchResults[j] == Settle(run(done + j, batch[j], DefaultMaxIterations))
      requires results0 == ResultsOf(tasks, run, done)
      ensures results == ResultsOf(tasks, run, done + |batch|)
    {
      results := results0;
      var j := 0;
      while j < |batch|
        invariant 0 <= j <= |batch|
        invariant results == ResultsOf(tasks, run, done + j)
      {
        results := results[batch[j] := batchResults[j]];
        j := j + 1;
      }
    }

    /** `executeAllEpics` / `executeAllWaves`: the groups run in order until one does not complete;
        that one's result is the last returned, and no later group runs. */
    method ExecuteAll(groups: seq<Group>, runs: nat -> Runner) returns (results: seq<GroupResult>)
      requires forall g :: g in groups ==> maxParallel > 0 || g.tasks == []
      modifies set g | g in groups
      ensures results == UpToFailure(Planned(groups, runs))
      ensures |results| <= |groups|
      ensures forall k :: |results| <= k < |groups| && (forall l :: 0 <= l < |results| ==> groups[l] != groups[k]) ==>
                groups[k].status == old(groups[k].status)
    {
      ghost var planned := Planned(groups, runs);
      results := [];
      var i := 0;
      var going := true;
      while i < |groups| && going
        invariant 0 <= i <= |groups| && |results| == i
        invariant forall k :: i <= k < |groups| && (forall l :: 0 <= l < i ==> groups[l] != groups[k]) ==>
                    groups[k].status == old(groups[k].status)
        invariant going ==> results + UpToFailure(planned[i..]) == UpToFailure(planned)
        invariant !going ==> results == UpToFailure(planned)
      {
        var group := groups[i];
        var r := ExecuteGroup(group, runs(i));
        PlannedAt(groups, runs, i);
        UpToFailureAt(planned, i);
        if r.allComplete {
          AppendOne(results, r, UpToFailure(planned[i + 1..]));
        } else {
          AppendOne(results, r, []);
        }
        results := results + [r];
        going := r.allComplete;
        i := i + 1;
      }
      if going {
        assert planned[i..] == [];
        AppendNothing(results);
      }
    }
  }
}
