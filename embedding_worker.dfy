// One pass of the embedding worker's loop: claim a batch of pending jobs,
// mark them processing, embed their texts in one call, store each returned
// vector and mark its job done; when anything in that block raises, every
// claimed job is marked failed with the same error text.
module EmbeddingWorker {
  import opened Wrappers
  import opened EmbeddingsRepo
  import opened Text

  // What the embedding provider did with one batch: the vectors it returned,
  // or the error text of what it raised.
  datatype EmbedResult = Vectors(vectors: seq<seq<real>>) | Raised(error: string)

  // The texts sent to the provider, in claim order.
  function Texts(jobs: map<SourceKey, Job>, keys: seq<SourceKey>): (ts: seq<string>)
    requires forall i :: 0 <= i < |keys| ==> keys[i] in jobs
    ensures |ts| == |keys| && forall i :: 0 <= i < |keys| ==> ts[i] == jobs[keys[i]].contentText
  {
    seq(|keys|, i requires 0 <= i < |keys| => jobs[keys[i]].contentText)
  }

  // How many (job, vector) pairs are written before the block ends: the `zip`
  // stops at the shorter side, and a write that raises (at the given index,
  // with the given error text) stops it there.
  function Written(claimed: seq<SourceKey>, result: EmbedResult, writeFailure: Option<(nat, string)>): (n: nat)
    ensures n <= |claimed|
    ensures result.Raised? ==> n == 0
    ensures result.Vectors? ==> n <= |result.vectors|
  {
    match result
    case Raised(_) => 0
    case Vectors(vs) =>
      var pairs := if |claimed| < |vs| then |claimed| else |vs|;
      if writeFailure.Some? && writeFailure.value.0 < pairs then writeFailure.value.0 else pairs
  }

  // The error the block ends with, if any.
  function Failure(claimed: seq<SourceKey>, result: EmbedResult, writeFailure: Option<(nat, string)>): (e: Option<string>)
    ensures result.Raised? ==> e == Some(result.error)
    ensures result.Vectors? && writeFailure.None? ==> e.None?
  {
    match result
    case Raised(err) => Some(err)
    case Vectors(vs) =>
      var pairs := if |claimed| < |vs| then |claimed| else |vs|;
      if writeFailure.Some? && writeFailure.value.0 < pairs then Some(writeFailure.value.1) else None
  }

  // The embeddings stored for the first n claimed jobs.
  function StoreAll(embeddings: map<SourceKey, Embedding>, jobs: map<SourceKey, Job>, keys: seq<SourceKey>, vs: seq<seq<real>>): (r: map<SourceKey, Embedding>)
    requires forall i :: 0 <= i < |keys| ==> keys[i] in jobs
    requires |keys| <= |vs|
    ensures forall i :: 0 <= i < |keys| ==> keys[i] in r
  {
    if keys == [] then embeddings
    else
      var n := |keys| - 1;
      StoreAll(embeddings, jobs, keys[..n], vs)[keys[n] := Embedding(jobs[keys[n]].contentText, vs[n])]
  }

  function FailAll(err: string): Job -> Job
  {
    j => FailedWith(j, err)
  }

  // The jobs after a pass that claimed `claimed`.
  function JobsAfter(jobs: map<SourceKey, Job>, claimed: seq<SourceKey>, result: EmbedResult, writeFailure: Option<(nat, string)>): map<SourceKey, Job>
    requires forall i :: 0 <= i < |claimed| ==> claimed[i] in jobs
  {
    if claimed == [] then jobs
    else
      var processing := ApplyAll(jobs, claimed, Claimed);
      var done := ApplyAll(processing, claimed[..Written(claimed, result, writeFailure)], Finished);
      match Failure(claimed, result, writeFailure)
      case None => done
      case Some(err) => ApplyAll(done, claimed, FailAll(err))
  }

  // The embeddings after that pass.
  function EmbeddingsAfter(jobs: map<SourceKey, Job>, embeddings: map<SourceKey, Embedding>, claimed: seq<SourceKey>,
                           result: EmbedResult, writeFailure: Option<(nat, string)>): map<SourceKey, Embedding>
    requires forall i :: 0 <= i < |claimed| ==> claimed[i] in jobs
  {
    if claimed == [] || result.Raised? then embeddings
    else StoreAll(embeddings, jobs, claimed[..Written(claimed, result, writeFailure)], result.vectors)
  }

  // The provider is called with the claimed texts and the first job's model
  // and dimensions.
  function ProviderCall(jobs: map<SourceKey, Job>, claimed: seq<SourceKey>): (string, int)
    requires claimed != [] && claimed[0] in jobs
  {
    (jobs[claimed[0]].model, jobs[claimed[0]].dimensions)
  }

  // The write loop: for each (job, vector) pair, store the embedding and mark
  // the job done, until the pairs run out or a write raises.
  method WriteResults(store: EmbeddingStore, claimed: seq<SourceKey>, r: EmbedResult, writeFailure: Option<(nat, string)>)
    returns (failure: Option<string>)
    requires r.Vectors?
    requires forall i :: 0 <= i < |claimed| ==> claimed[i] in store.jobs
    modifies store
    ensures failure == Failure(claimed, r, writeFailure)
    ensures store.jobs == ApplyAll(old(store.jobs), claimed[..Written(claimed, r, writeFailure)], Finished)
    ensures store.embeddings == StoreAll(old(store.embeddings), old(store.jobs), claimed[..Written(claimed, r, writeFailure)], r.vectors)
  {
    var vs := r.vectors;
    failure := None;
    var written := 0;
    while written < |claimed| && written < |vs| && failure.None?
      invariant 0 <= written <= |claimed| && written <= |vs|
      invariant failure.None? ==> written <= Written(claimed, r, writeFailure)
      invariant failure.Some? ==> written == Written(claimed, r, writeFailure) && failure == Failure(claimed, r, writeFailure)
      invariant store.jobs == ApplyAll(old(store.jobs), claimed[..written], Finished)
      invariant store.embeddings == StoreAll(old(store.embeddings), old(store.jobs), claimed[..written], vs)
      decreases |claimed| - written, if failure.None? then 1 else 0
    {
      if writeFailure.Some? && writeFailure.value.0 == written {
        failure := Some(writeFailure.value.1);
      } else {
        var k := claimed[written];
        ApplyAllPrefix(old(store.jobs), claimed, Finished, written);
        assert claimed[..written + 1][..written] == claimed[..written];
        ApplyAllKeepsRequest(old(store.jobs), claimed[..written], Finished, k);
        store.UpsertEmbedding(k, store.jobs[k].contentText, vs[written]);
        store.MarkJobDone(k);
        written := written + 1;
      }
    }
  }

  // The except branch: every claimed job is marked failed with the same text.
  method FailJobs(store: EmbeddingStore, claimed: seq<SourceKey>, err: string)
    requires forall i :: 0 <= i < |claimed| ==> claimed[i] in store.jobs
    modifies store
    ensures store.jobs == ApplyAll(old(store.jobs), claimed, FailAll(err))
    ensures store.embeddings == old(store.embeddings)
  {
    var i := 0;
    while i < |claimed|
      invariant 0 <= i <= |claimed|
      invariant store.jobs == ApplyAll(old(store.jobs), claimed[..i], FailAll(err))
      invariant store.embeddings == old(store.embeddings)
    {
      ApplyAllPrefix(old(store.jobs), claimed, FailAll(err), i);
      store.MarkJobFailed(claimed[i], err);
      i := i + 1;
    }
    assert claimed[..i] == claimed;
  }

  // One iteration of `worker_loop`. The provider is the function `embed`; a
  // write that raises is the optional `writeFailure`.
  method WorkerStep(store: EmbeddingStore, batchSize: nat, embed: (seq<string>, string, int) -> EmbedResult,
                    writeFailure: Option<(nat, string)>) returns (claimed: seq<SourceKey>, result: Option<EmbedResult>)
    modifies store
    ensures Distinct(claimed)
    ensures forall i :: 0 <= i < |claimed| ==> claimed[i] in old(store.PendingKeys())
    ensures |claimed| == if batchSize < |old(store.PendingKeys())| then batchSize else |old(store.PendingKeys())|
    ensures claimed == [] <==> result.None?
    ensures result.Some? ==> result.value == embed(Texts(old(store.jobs), claimed), ProviderCall(old(store.jobs), claimed).0, ProviderCall(old(store.jobs), claimed).1)
    ensures store.jobs == JobsAfter(old(store.jobs), claimed, if result.Some? then result.value else Vectors([]), writeFailure)
    ensures store.embeddings == EmbeddingsAfter(old(store.jobs), old(store.embeddings), claimed, if result.Some? then result.value else Vectors([]), writeFailure)
  {
    claimed := store.GetPendingJobs(batchSize);
    if claimed == [] {
      result := None;
      return;
    }
    ghost var jobs0 := store.jobs;
    store.MarkJobsProcessing(claimed);
    forall i | 0 <= i < |claimed| ensures store.jobs[claimed[i]].contentText == jobs0[claimed[i]].contentText {
      ApplyAllKeepsRequest(jobs0, claimed, Claimed, claimed[i]);
    }
    ApplyAllKeepsRequest(jobs0, claimed, Claimed, claimed[0]);
    var texts := Texts(store.jobs, claimed);
    assert texts == Texts(jobs0, claimed);
    var r := embed(texts, store.jobs[claimed[0]].model, store.jobs[claimed[0]].dimensions);
    result := Some(r);
    var failure: Option<string>;
    if r.Raised? {
      failure := Some(r.error);
    } else {
      ghost var processing := store.jobs;
      failure := WriteResults(store, claimed, r, writeFailure);
      forall k | k in claimed[..Written(claimed, r, writeFailure)] ensures processing[k].contentText == jobs0[k].contentText {
        ApplyAllKeepsRequest(jobs0, claimed, Claimed, k);
      }
      StoreAllSameTexts(old(store.embeddings), processing, jobs0, claimed[..Written(claimed, r, writeFailure)], r.vectors);
    }
    if failure.Some? {
      FailJobs(store, claimed, failure.value);
    }
  }

  // The stored embeddings depend only on the texts of the jobs written.
  lemma {:induction false} StoreAllSameTexts(embeddings: map<SourceKey, Embedding>, a: map<SourceKey, Job>, b: map<SourceKey, Job>,
                                             keys: seq<SourceKey>, vs: seq<seq<real>>)
    requires forall i :: 0 <= i < |keys| ==> keys[i] in a && keys[i] in b
    requires forall k :: k in keys ==> a[k].contentText == b[k].contentText
    requires |keys| <= |vs|
    ensures StoreAll(embeddings, a, keys, vs) == StoreAll(embeddings, b, keys, vs)
  {
    if keys != [] {
      StoreAllSameTexts(embeddings, a, b, keys[..|keys| - 1], vs);
      assert keys[|keys| - 1] in keys;
    }
  }

  lemma {:induction false} StoreAllAt(embeddings: map<SourceKey, Embedding>, jobs: map<SourceKey, Job>, keys: seq<SourceKey>,
                                      vs: seq<seq<real>>, i: nat)
    requires forall j :: 0 <= j < |keys| ==> keys[j] in jobs
    requires |keys| <= |vs| && Distinct(keys) && i < |keys|
    ensures StoreAll(embeddings, jobs, keys, vs)[keys[i]] == Embedding(jobs[keys[i]].contentText, vs[i])
  {
    var n := |keys| - 1;
    if i < n {
      StoreAllAt(embeddings, jobs, keys[..n], vs, i);
    }
  }

  lemma {:induction false} StoreAllElsewhere(embeddings: map<SourceKey, Embedding>, jobs: map<SourceKey, Job>, keys: seq<SourceKey>,
                                             vs: seq<seq<real>>, k: SourceKey)
    requires forall j :: 0 <= j < |keys| ==> keys[j] in jobs
    requires |keys| <= |vs| && k !in keys
    ensures k in StoreAll(embeddings, jobs, keys, vs) <==> k in embeddings
    ensures k in embeddings ==> StoreAll(embeddings, jobs, keys, vs)[k] == embeddings[k]
  {
    if keys != [] {
      StoreAllElsewhere(embeddings, jobs, keys[..|keys| - 1], vs, k);
    }
  }

  // A pass that finds no pending job changes nothing.
  lemma IdlePass(jobs: map<SourceKey, Job>, embeddings: map<SourceKey, Embedding>, result: EmbedResult, writeFailure: Option<(nat, string)>)
    ensures JobsAfter(jobs, [], result, writeFailure) == jobs
    ensures EmbeddingsAfter(jobs, embeddings, [], result, writeFailure) == embeddings
  {
  }

  // Jobs and embeddings of keys that were not claimed are left alone.
  lemma UnclaimedUntouched(jobs: map<SourceKey, Job>, embeddings: map<SourceKey, Embedding>, claimed: seq<SourceKey>,
                           result: EmbedResult, writeFailure: Option<(nat, string)>, k: SourceKey)
    requires forall i :: 0 <= i < |claimed| ==> claimed[i] in jobs
    requires Distinct(claimed) && k !in claimed && k in jobs
    ensures JobsAfter(jobs, claimed, result, writeFailure)[k] == jobs[k]
    ensures var e := EmbeddingsAfter(jobs, embeddings, claimed, result, writeFailure);
      (k in e <==> k in embeddings) && (k in embeddings ==> e[k] == embeddings[k])
  {
    if claimed != [] {
      var n := Written(claimed, result, writeFailure);
      var processing := ApplyAll(jobs, claimed, Claimed);
      ApplyAllAt(jobs, claimed, Claimed, k);
      assert Distinct(claimed[..n]);
      assert k !in claimed[..n];
      ApplyAllAt(processing, claimed[..n], Finished, k);
      var done := ApplyAll(processing, claimed[..n], Finished);
      if Failure(claimed, result, writeFailure).Some? {
        ApplyAllAt(done, claimed, FailAll(Failure(claimed, result, writeFailure).value), k);
      }
      if result.Vectors? {
        StoreAllElsewhere(embeddings, jobs, claimed[..n], result.vectors, k);
      }
    }
  }

  // A pass whose provider call and writes all succeed: the jobs paired with a
  // vector are done and their embeddings stored; the jobs beyond the returned
  // vectors stay processing. Every claimed job has one more attempt.
  lemma SuccessfulPass(jobs: map<SourceKey, Job>, embeddings: map<SourceKey, Embedding>, claimed: seq<SourceKey>,
                       vs: seq<seq<real>>, i: nat)
    requires forall j :: 0 <= j < |claimed| ==> claimed[j] in jobs
    requires Distinct(claimed) && i < |claimed|
    ensures var k := claimed[i]; var r := JobsAfter(jobs, claimed, Vectors(vs), None);
      r[k].attempts == jobs[k].attempts + 1
      && (i < |vs| ==> (r[k].status == Done && r[k].lastError.None?
                        && var e := EmbeddingsAfter(jobs, embeddings, claimed, Vectors(vs), None);
                           k in e && e[k] == Embedding(jobs[k].contentText, vs[i])))
      && (i >= |vs| ==> r[k].status == Processing)
  {
    var k := claimed[i];
    var n := Written(claimed, Vectors(vs), None);
    var processing := ApplyAll(jobs, claimed, Claimed);
    ApplyAllAt(jobs, claimed, Claimed, k);
    ApplyAllAt(processing, claimed[..n], Finished, k);
    if i < n {
      assert claimed[..n][i] == k;
      StoreAllAt(embeddings, jobs, claimed[..n], vs, i);
    } else {
      assert k !in claimed[..n];
    }
  }

  // A pass that raises anywhere in the block leaves every claimed job failed
  // with the error text, one attempt up, including jobs it had already marked
  // done and whose embeddings it had stored.
  lemma FailedPass(jobs: map<SourceKey, Job>, claimed: seq<SourceKey>, result: EmbedResult, writeFailure: Option<(nat, string)>, k: SourceKey)
    requires forall j :: 0 <= j < |claimed| ==> claimed[j] in jobs
    requires Distinct(claimed) && k in claimed
    requires Failure(claimed, result, writeFailure).Some?
    ensures var r := JobsAfter(jobs, claimed, result, writeFailure); var err := Failure(claimed, result, writeFailure).value;
      r[k].status == Failed && r[k].lastError == Some(Take(err, MaxErrorLength)) && r[k].attempts == jobs[k].attempts + 1
  {
    var n := Written(claimed, result, writeFailure);
    var processing := ApplyAll(jobs, claimed, Claimed);
    var done := ApplyAll(processing, claimed[..n], Finished);
    ApplyAllAt(jobs, claimed, Claimed, k);
    ApplyAllKeepsAttempts(processing, claimed[..n], k);
    ApplyAllAt(done, claimed, FailAll(Failure(claimed, result, writeFailure).value), k);
  }

  lemma {:induction false} ApplyAllKeepsAttempts(jobs: map<SourceKey, Job>, keys: seq<SourceKey>, k: SourceKey)
    requires forall j :: 0 <= j < |keys| ==> keys[j] in jobs
    requires k in jobs
    ensures ApplyAll(jobs, keys, Finished)[k].attempts == jobs[k].attempts
  {
    if keys != [] {
      ApplyAllKeepsAttempts(jobs, keys[..|keys| - 1], k);
    }
  }

  // The first job's embedding is stored, yet the job ends failed, when the
  // second write raises.
  lemma DoneJobMarkedFailed(jobs: map<SourceKey, Job>, embeddings: map<SourceKey, Embedding>, claimed: seq<SourceKey>,
                            vs: seq<seq<real>>, err: string)
    requires forall j :: 0 <= j < |claimed| ==> claimed[j] in jobs
    requires Distinct(claimed) && |claimed| >= 2 && |vs| >= 2
    ensures var k := claimed[0];
      EmbeddingsAfter(jobs, embeddings, claimed, Vectors(vs), Some((1, err)))[k] == Embedding(jobs[k].contentText, vs[0])
      && JobsAfter(jobs, claimed, Vectors(vs), Some((1, err)))[k].status == Failed
  {
    assert Written(claimed, Vectors(vs), Some((1, err))) == 1;
    StoreAllAt(embeddings, jobs, claimed[..1], vs, 0);
    FailedPass(jobs, claimed, Vectors(vs), Some((1, err)), claimed[0]);
  }
}
