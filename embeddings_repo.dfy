// The embedding job queue and the stored text embeddings. Both tables hold at
// most one row per (user, source type, source id), so both are maps on that key.
module EmbeddingsRepo {
  import opened Wrappers
  import opened Text

  // `err[:4000]` when a job fails.
  const MaxErrorLength: nat := 4000

  datatype SourceKey = SourceKey(userId: int, sourceType: string, sourceId: int)

  datatype JobStatus = Pending | Processing | Done | Failed

  datatype Job = Job(
    contentText: string,
    model: string,
    dimensions: int,
    status: JobStatus,
    attempts: int,
    lastError: Option<string>,
    lockedAt: Option<real>)

  datatype Embedding = Embedding(contentText: string, vector: seq<real>)

  predicate Distinct<T(==)>(s: seq<T>)
  {
    forall i, j :: 0 <= i < j < |s| ==> s[i] != s[j]
  }

  // The row an enqueue writes, whether it inserts or updates.
  function QueuedJob(text: string, model: string, dimensions: int): (j: Job)
    ensures j.status == Pending && j.attempts == 0 && j.lastError.None? && j.lockedAt.None?
  {
    Job(text, model, dimensions, Pending, 0, None, None)
  }

  // `mark_jobs_processing` on one job.
  function Claimed(j: Job): (r: Job)
    ensures r.status == Processing && r.attempts == j.attempts + 1
    ensures r.(status := j.status, attempts := j.attempts) == j
  {
    j.(status := Processing, attempts := j.attempts + 1)
  }

  // `mark_job_done`.
  function Finished(j: Job): (r: Job)
    ensures r.status == Done && r.lastError.None?
    ensures r.(status := j.status, lastError := j.lastError) == j
  {
    j.(status := Done, lastError := None)
  }

  // `mark_job_failed`: the error is kept to its first 4000 characters.
  function FailedWith(j: Job, err: string): (r: Job)
    ensures r.status == Failed && r.lastError.Some? && |r.lastError.value| <= MaxErrorLength
    ensures |r.lastError.value| <= |err| && r.lastError.value == err[..|r.lastError.value|]
    ensures |r.lastError.value| == if |err| <= MaxErrorLength then |err| else MaxErrorLength
    ensures r.(status := j.status, lastError := j.lastError) == j
  {
    j.(status := Failed, lastError := Some(Take(err, MaxErrorLength)))
  }

  function Pendings(jobs: map<SourceKey, Job>): set<SourceKey>
  {
    set k | k in jobs && jobs[k].status == Pending
  }

  // One change applied to the jobs of the given keys, one after the other.
  function ApplyAll(jobs: map<SourceKey, Job>, keys: seq<SourceKey>, f: Job -> Job): (r: map<SourceKey, Job>)
    requires forall i :: 0 <= i < |keys| ==> keys[i] in jobs
    ensures r.Keys == jobs.Keys
  {
    if keys == [] then jobs
    else
      var r := ApplyAll(jobs, keys[..|keys| - 1], f);
      r[keys[|keys| - 1] := f(r[keys[|keys| - 1]])]
  }

  // With distinct keys every named job is changed once and no other job at all.
  lemma {:induction false} ApplyAllAt(jobs: map<SourceKey, Job>, keys: seq<SourceKey>, f: Job -> Job, k: SourceKey)
    requires forall i :: 0 <= i < |keys| ==> keys[i] in jobs
    requires Distinct(keys) && k in jobs
    ensures ApplyAll(jobs, keys, f)[k] == if k in keys then f(jobs[k]) else jobs[k]
  {
    if keys != [] {
      var init := keys[..|keys| - 1];
      ApplyAllAt(jobs, init, f, k);
      if k == keys[|keys| - 1] {
        assert k !in init by {
          forall i | 0 <= i < |init| ensures init[i] != k {
            assert init[i] == keys[i];
          }
        }
      } else {
        assert k in keys <==> k in init by {
          assert keys == init + [keys[|keys| - 1]];
        }
      }
    }
  }

  // A change that keeps a job's request (text, model, dimensions) keeps every
  // request, whatever keys it is applied to.
  lemma {:induction false} ApplyAllKeepsRequest(jobs: map<SourceKey, Job>, keys: seq<SourceKey>, f: Job -> Job, k: SourceKey)
    requires forall i :: 0 <= i < |keys| ==> keys[i] in jobs
    requires forall j :: f(j).contentText == j.contentText && f(j).model == j.model && f(j).dimensions == j.dimensions
    requires k in jobs
    ensures var r := ApplyAll(jobs, keys, f);
      r[k].contentText == jobs[k].contentText && r[k].model == jobs[k].model && r[k].dimensions == jobs[k].dimensions
  {
    if keys != [] {
      ApplyAllKeepsRequest(jobs, keys[..|keys| - 1], f, k);
    }
  }

  lemma ApplyAllPrefix(jobs: map<SourceKey, Job>, keys: seq<SourceKey>, f: Job -> Job, i: nat)
    requires forall j :: 0 <= j < |keys| ==> keys[j] in jobs
    requires i < |keys|
    ensures var before := ApplyAll(jobs, keys[..i], f);
      ApplyAll(jobs, keys[..i + 1], f) == before[keys[i] := f(before[keys[i]])]
  {
    assert keys[..i + 1][..i] == keys[..i];
  }

  class EmbeddingStore {
    var jobs: map<SourceKey, Job>
    var embeddings: map<SourceKey, Embedding>

    constructor()
      ensures jobs == map[] && embeddings == map[]
    {
      jobs := map[];
      embeddings := map[];
    }

    function PendingKeys(): set<SourceKey>
      reads this
    {
      Pendings(jobs)
    }

    // `enqueue_embedding_job`: insert the job, or put an existing one back in
    // the queue with the new text, model and dimensions.
    method Enqueue(key: SourceKey, contentText: string, model: string, dimensions: int)
      modifies this
      ensures jobs == old(jobs)[key := QueuedJob(contentText, model, dimensions)]
      ensures embeddings == old(embeddings)
    {
      jobs := jobs[key := QueuedJob(contentText, model, dimensions)];
    }

    // `upsert_text_embedding`.
    method UpsertEmbedding(key: SourceKey, contentText: string, vector: seq<real>)
      modifies this
      ensures embeddings == old(embeddings)[key := Embedding(contentText, vector)]
      ensures jobs == old(jobs)
    {
      embeddings := embeddings[key := Embedding(contentText, vector)];
    }

    // `get_pending_jobs`: up to batchSize pending jobs, in no particular order
    // (the query has no ORDER BY); nothing changes.
    method GetPendingJobs(batchSize: nat) returns (claimed: seq<SourceKey>)
      ensures Distinct(claimed)
      ensures forall i :: 0 <= i < |claimed| ==> claimed[i] in PendingKeys()
      ensures |claimed| == if batchSize < |PendingKeys()| then batchSize else |PendingKeys()|
    {
      claimed := [];
      var rest := PendingKeys();
      while |claimed| < batchSize && rest != {}
        invariant rest <= PendingKeys()
        invariant Distinct(claimed)
        invariant forall i :: 0 <= i < |claimed| ==> claimed[i] in PendingKeys() && claimed[i] !in rest
        invariant |claimed| + |rest| == |PendingKeys()|
        invariant |claimed| <= batchSize
        decreases rest
      {
        var k :| k in rest;
        claimed := claimed + [k];
        rest := rest - {k};
      }
    }

    // `mark_jobs_processing`.
    method MarkJobsProcessing(keys: seq<SourceKey>)
      requires forall i :: 0 <= i < |keys| ==> keys[i] in jobs
      modifies this
      ensures jobs == ApplyAll(old(jobs), keys, Claimed)
      ensures embeddings == old(embeddings)
    {
      var i := 0;
      while i < |keys|
        invariant 0 <= i <= |keys|
        invariant jobs == ApplyAll(old(jobs), keys[..i], Claimed)
        invariant embeddings == old(embeddings)
      {
        ApplyAllPrefix(old(jobs), keys, Claimed, i);
        var j := jobs[keys[i]];
        jobs := jobs[keys[i] := j.(status := Processing, attempts := j.attempts + 1)];
        i := i + 1;
      }
      assert keys[..i] == keys;
    }

    // `mark_job_done`.
    method MarkJobDone(key: SourceKey)
      requires key in jobs
      modifies this
      ensures jobs == old(jobs)[key := Finished(old(jobs)[key])]
      ensures embeddings == old(embeddings)
    {
      jobs := jobs[key := jobs[key].(status := Done, lastError := None)];
    }

    // `mark_job_failed`.
    method MarkJobFailed(key: SourceKey, err: string)
      requires key in jobs
      modifies this
      ensures jobs == old(jobs)[key := FailedWith(old(jobs)[key], err)]
      ensures embeddings == old(embeddings)
    {
      jobs := jobs[key := jobs[key].(status := Failed, lastError := Some(Take(err, MaxErrorLength)))];
    }
  }

  // An enqueued job is pending whatever it was before, and no other job
  // enters or leaves the queue.
  lemma EnqueuePending(jobs: map<SourceKey, Job>, key: SourceKey, text: string, model: string, dimensions: int)
    ensures Pendings(jobs[key := QueuedJob(text, model, dimensions)]) == Pendings(jobs) + {key}
  {
  }

  // Claiming distinct jobs moves each one to processing, one attempt up.
  lemma ClaimedJobs(jobs: map<SourceKey, Job>, keys: seq<SourceKey>, k: SourceKey)
    requires forall i :: 0 <= i < |keys| ==> keys[i] in jobs
    requires Distinct(keys) && k in keys
    ensures var r := ApplyAll(jobs, keys, Claimed);
      r[k].status == Processing && r[k].attempts == jobs[k].attempts + 1 && r[k].contentText == jobs[k].contentText
  {
    ApplyAllAt(jobs, keys, Claimed, k);
  }

  // Claimed jobs leave the queue; no other job enters or leaves it.
  lemma {:induction false} ClaimingLeavesQueue(jobs: map<SourceKey, Job>, keys: seq<SourceKey>, k: SourceKey)
    requires forall i :: 0 <= i < |keys| ==> keys[i] in jobs
    ensures k in Pendings(ApplyAll(jobs, keys, Claimed)) <==> k in Pendings(jobs) && k !in keys
  {
    if keys != [] {
      var init := keys[..|keys| - 1];
      ClaimingLeavesQueue(jobs, init, k);
      assert keys == init + [keys[|keys| - 1]];
    }
  }
}
