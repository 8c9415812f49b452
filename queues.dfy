/** The job bookkeeping of `qeez_stats/queues.py` over rq. The rq job store
    is a map from job id to job record; enqueuing writes the record for its id.
    Workers, which run jobs and fill in their results, are not part of this
    code: a result appears in the model only as a field of the record. */
module Queues {
  import opened Wrappers
  import opened Strings

  const CalcQueue: string := "calc"
  const SaveQueue: string := "save"
  /** Seconds a job may run. */
  const JobTimeout: int := 30
  /** Seconds a save job's result is kept. */
  const SaveResultTtl: int := 30
  /** rq's `-1` for `ttl` and `result_ttl`: never expires. */
  const Forever: int := -1
  /** Seconds a pulled result is kept afterwards: one day. */
  const CachedTtl: int := 24 * 3600
  /** The function path rq records for the collector job. */
  const CollectorFn: string := "qeez_stats.stats.stat_collector"
  const IdPrefix: string := "stat:"

  /** A job's result: a collector's membership (the compute-job ids it
      recorded) or the opaque value a stat function computed. */
  datatype Value = Members(ids: seq<string>) | Opaque(tag: int)

  /** The arguments recorded with a job. */
  datatype Arg = Text(s: string) | Time(t: int) | Packets(m: map<string, string>)

  datatype Job = Job(
    id: string,
    func: string,
    args: seq<Arg>,
    queue: string,
    dependsOn: Option<string>,
    timeout: int,
    resultTtl: int,
    ttl: int,
    result: Option<Value>)

  /** `COLL_ID_FMT % stat`: the collector job of a stat. */
  function CollId(stat: string): string { IdPrefix + stat }

  /** `STAT_ID_FMT % (stat, token)`: the compute job of a stat for a session. */
  function StatId(stat: string, token: string): string { IdPrefix + stat + [':'] + token }

  /** A collector id never equals a compute id when the stat name has no ':'. */
  lemma CollIdNotStatId(stat: string, other: string, token: string)
    requires ':' !in stat
    ensures CollId(stat) != StatId(other, token)
  {
    assert Occurrences(IdPrefix, ':') == 1;
    OccurrencesAbsent(stat, ':');
    OccurrencesAppend(IdPrefix, stat, ':');
    OccurrencesAppend(IdPrefix, other, ':');
    OccurrencesAppend(IdPrefix + other, [':'], ':');
    OccurrencesAppend(IdPrefix + other + [':'], token, ':');
  }

  /** Without that condition the two kinds of id collide. */
  lemma CollIdMeetsStatId()
    ensures CollId("a:b") == StatId("a", "b")
  {
  }

  /** Compute ids of colon-free stat names determine stat and token. */
  lemma StatIdInjective(s1: string, t1: string, s2: string, t2: string)
    requires ':' !in s1 && ':' !in s2
    requires StatId(s1, t1) == StatId(s2, t2)
    ensures s1 == s2 && t1 == t2
  {
    var id := StatId(s1, t1);
    var n := |IdPrefix|;
    assert forall k :: 0 <= k < |s1| ==> id[n + k] == s1[k];
    assert forall k :: 0 <= k < |s2| ==> id[n + k] == s2[k];
    assert id[n + |s1|] == ':' && id[n + |s2|] == ':';
    assert s1 == id[n..n + |s1|] == s2;
    assert t1 == id[n + |s1| + 1..] == t2;
  }

  /** The collector record `enqueue_stat_calc` writes. */
  function CollectorJob(stat: string, token: string): Job
  {
    Job(CollId(stat), CollectorFn, [Text(stat), Text(StatId(stat, token))],
        CalcQueue, None, JobTimeout, Forever, Forever, None)
  }

  /** The compute record `enqueue_stat_calc` writes: it runs the stat's
      function on the token after the collector. */
  function ComputeJob(stat: string, token: string): Job
  {
    Job(StatId(stat, token), stat, [Text(token)],
        CalcQueue, Some(CollId(stat)), JobTimeout, Forever, Forever, None)
  }

  /** The save record `enqueue_stat_save` writes under the id `newId`. */
  function SaveJob(token: string, resDc: map<string, string>, atime: int,
                   saveFnPath: string, newId: string): Job
  {
    Job(newId, saveFnPath, [Text(token), Time(atime), Packets(resDc)],
        SaveQueue, None, JobTimeout, SaveResultTtl, Forever, None)
  }

  /** The job store after `enqueue_stat_calc(stat, token)`. */
  function Submitted(m: map<string, Job>, stat: string, token: string): map<string, Job>
  {
    m[CollId(stat) := CollectorJob(stat, token)][StatId(stat, token) := ComputeJob(stat, token)]
  }

  /** After a submission both records are in the store, the compute job
      depends on the collector, and no other job changed. */
  lemma SubmittedShape(m: map<string, Job>, stat: string, token: string)
    ensures var s := Submitted(m, stat, token);
      && CollId(stat) in s && StatId(stat, token) in s
      && s[StatId(stat, token)].dependsOn == Some(CollId(stat))
      && s[CollId(stat)].dependsOn == None
      && s[CollId(stat)].queue == CalcQueue && s[StatId(stat, token)].queue == CalcQueue
      && s[CollId(stat)].result.None? && s[StatId(stat, token)].result.None?
      && s.Keys == m.Keys + {CollId(stat), StatId(stat, token)}
      && forall id :: id in m && id != CollId(stat) && id != StatId(stat, token) ==> s[id] == m[id]
  {
  }

  /** Submitting the same request again changes nothing more: same ids, same store. */
  lemma SubmitIdempotent(m: map<string, Job>, stat: string, token: string)
    ensures Submitted(Submitted(m, stat, token), stat, token) == Submitted(m, stat, token)
  {
  }

  /** What `fetch_job(id).result` gives: `None` when the job is absent. */
  function ResultOf(m: map<string, Job>, id: string): Option<Value>
  {
    if id in m then m[id].result else None
  }

  /** The job store after `pull_stat_res` on `id`: a job with a result has
      its `ttl` and `result_ttl` set to one day; otherwise nothing changes. */
  function AfterPull(m: map<string, Job>, id: string): map<string, Job>
  {
    if id in m && m[id].result.Some? then m[id := m[id].(ttl := CachedTtl, resultTtl := CachedTtl)]
    else m
  }

  /** A pull returns the stored result unchanged and extends exactly that job;
      a second pull returns the same result and leaves the store as the
      first left it. */
  lemma PullProperties(m: map<string, Job>, id: string)
    ensures ResultOf(AfterPull(m, id), id) == ResultOf(m, id)
    ensures ResultOf(m, id).None? ==> AfterPull(m, id) == m
    ensures ResultOf(m, id).Some? ==>
      && AfterPull(m, id)[id].ttl == CachedTtl && AfterPull(m, id)[id].resultTtl == CachedTtl
      && AfterPull(m, id)[id] == m[id].(ttl := CachedTtl, resultTtl := CachedTtl)
    ensures forall other :: other != id && other in m ==> AfterPull(m, id)[other] == m[other]
    ensures AfterPull(AfterPull(m, id), id) == AfterPull(m, id)
  {
  }

  /** The results `pull_all_stat_res` gathers for the ids a collector
      recorded: the non-`None` results of the jobs present, in id order. */
  function Collect(m: map<string, Job>, ids: seq<string>): (r: seq<Value>)
    ensures |r| <= |ids|
  {
    if |ids| == 0 then []
    else
      var last := ResultOf(m, ids[|ids| - 1]);
      Collect(m, ids[..|ids| - 1]) + (if last.Some? then [last.value] else [])
  }

  /** Gathering over a concatenation concatenates: membership order is kept. */
  lemma {:induction false} CollectAppend(m: map<string, Job>, a: seq<string>, b: seq<string>)
    ensures Collect(m, a + b) == Collect(m, a) + Collect(m, b)
  {
    if |b| == 0 {
      assert a + b == a;
    } else {
      assert (a + b)[..|a + b| - 1] == a + b[..|b| - 1];
      assert (a + b)[|a + b| - 1] == b[|b| - 1];
      CollectAppend(m, a, b[..|b| - 1]);
    }
  }

  /** Every gathered value is the result of a job named in the membership. */
  lemma {:induction false} CollectSound(m: map<string, Job>, ids: seq<string>, v: Value)
    requires v in Collect(m, ids)
    ensures exists i :: 0 <= i < |ids| && ResultOf(m, ids[i]) == Some(v)
  {
    var prefix := ids[..|ids| - 1];
    if v in Collect(m, prefix) {
      CollectSound(m, prefix, v);
      var i :| 0 <= i < |prefix| && ResultOf(m, prefix[i]) == Some(v);
      assert ids[i] == prefix[i];
    } else {
      assert ResultOf(m, ids[|ids| - 1]) == Some(v);
    }
  }

  /** Every job named in the membership that has a result contributes it. */
  lemma {:induction false} CollectComplete(m: map<string, Job>, ids: seq<string>, i: nat)
    requires i < |ids| && ResultOf(m, ids[i]).Some?
    ensures ResultOf(m, ids[i]).value in Collect(m, ids)
  {
    if i < |ids| - 1 {
      var prefix := ids[..|ids| - 1];
      assert prefix[i] == ids[i];
      CollectComplete(m, prefix, i);
    }
  }

  /** The outcome of `pull_all_stat_res`: `None` when the collector job is
      absent or has no result, the gathered results, or the `TypeError` of
      iterating a result that is no membership. */
  datatype Gathered = NoResult | Gathered(results: seq<Value>) | NotIterable

  /** What `get_method_by_path` resolves for a save function: the outcome of
      calling it, either its (boolean) return value or a raised exception. */
  datatype CallOutcome = Returned(value: bool) | Raised

  type SaveFn = (string, int, map<string, string>) -> CallOutcome

  /** `get_method_by_path(path)`: the function registered under the path, if any. */
  function GetMethodByPath(path: string, registry: map<string, SaveFn>): (r: Option<SaveFn>)
    ensures r.Some? <==> path in registry
    ensures r.Some? ==> r.value == registry[path]
  {
    if path in registry then Some(registry[path]) else None
  }

  /** `direct_stat_save`: calls the configured save function in place and
      turns an unresolvable path or a raised exception into `False`. */
  function DirectStatSave(saveFnPath: string, registry: map<string, SaveFn>,
                          token: string, resDc: map<string, string>, atime: int): (ok: bool)
    ensures ok <==>
      saveFnPath in registry && registry[saveFnPath](token, atime, resDc) == Returned(true)
  {
    match GetMethodByPath(saveFnPath, registry)
    case None => false
    case Some(f) =>
      match f(token, atime, resDc)
      case Returned(v) => v
      case Raised => false
  }

  class JobStore {
    /** rq's job hashes, by job id. */
    var jobs: map<string, Job>

    constructor ()
      ensures jobs == map[]
    {
      jobs := map[];
    }

    /** `enqueue_stat_calc(stat, token)`: writes the collector job and then
        the compute job that depends on it, both on the calc queue with a
        30-second timeout and no expiry, and returns the compute job. */
    method EnqueueStatCalc(stat: string, token: string) returns (job: Job)
      modifies this
      ensures job == ComputeJob(stat, token) && job.id == StatId(stat, token)
      ensures jobs == Submitted(old(jobs), stat, token)
    {
      var collector := CollectorJob(stat, token);
      jobs := jobs[collector.id := collector];
      job := ComputeJob(stat, token);
      jobs := jobs[job.id := job];
    }

    /** `enqueue_stat_save(token, resDc, atime)`: a save job on the save
        queue; `newId` is the id rq draws at random. */
    method EnqueueStatSave(token: string, resDc: map<string, string>, atime: int,
                           saveFnPath: string, newId: string) returns (job: Job)
      modifies this
      ensures job.id == newId && job.func == saveFnPath
      ensures job.args == [Text(token), Time(atime), Packets(resDc)]
      ensures job.queue == SaveQueue && job.dependsOn == None && job.result == None
      ensures job.timeout == JobTimeout && job.resultTtl == SaveResultTtl && job.ttl == Forever
      ensures job == SaveJob(token, resDc, atime, saveFnPath, newId)
      ensures jobs == old(jobs)[newId := job]
    {
      job := SaveJob(token, resDc, atime, saveFnPath, newId);
      jobs := jobs[newId := job];
    }

    /** `pull_stat_res(stat, token)`: the compute job's result, if it has one,
        whose job is then kept for another day. */
    method PullStatRes(stat: string, token: string) returns (res: Option<Value>)
      modifies this
      ensures res == ResultOf(old(jobs), StatId(stat, token))
      ensures jobs == AfterPull(old(jobs), StatId(stat, token))
    {
      var id := StatId(stat, token);
      res := None;
      if id in jobs {
        res := jobs[id].result;
      }
      if res.Some? {
        var job := jobs[id];
        jobs := jobs[id := job.(ttl := CachedTtl, resultTtl := CachedTtl)];
      }
    }

    /** `pull_all_stat_res(stat)`: walks the membership the collector job
        returned and keeps the results that are present; reads only. */
    method PullAllStatRes(stat: string) returns (r: Gathered)
      ensures ResultOf(jobs, CollId(stat)).None? ==> r == NoResult
      ensures (ResultOf(jobs, CollId(stat)).Some? && ResultOf(jobs, CollId(stat)).value.Opaque?) ==> r == NotIterable
      ensures forall ids :: ResultOf(jobs, CollId(stat)) == Some(Members(ids)) ==>
        r == Gathered(Collect(jobs, ids))
    {
      var id := CollId(stat);
      if id !in jobs {
        return NoResult;
      }
      var res := jobs[id].result;
      if res.None? {
        return NoResult;
      }
      if !res.value.Members? {
        return NotIterable;
      }
      var ids := res.value.ids;
      var out: seq<Value> := [];
      var i := 0;
      while i < |ids|
        invariant 0 <= i <= |ids|
        invariant out == Collect(jobs, ids[..i])
      {
        var jobRes: Option<Value> := None;
        if ids[i] in jobs {
          jobRes := jobs[ids[i]].result;
        }
        if jobRes.Some? {
          out := out + [jobRes.value];
        }
        assert ids[..i + 1][..i] == ids[..i];
        i := i + 1;
      }
      assert ids[..|ids|] == ids;
      r := Gathered(out);
    }
  }
}
