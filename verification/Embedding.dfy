/** Embedding a batch of jobs: splitting, flattening, and putting vectors back together. */
module Embedding {
  import opened Results
  import opened SplittingLaws
  import Chunking

  type Vector = seq<int>

  datatype Job = Job(uuid: nat, inputHash: string, inputText: string, inputHeader: string)

  datatype Prepared = Prepared(jobIndex: nat, chunk: TextChunk)

  datatype EmbeddedChunk = EmbeddedChunk(chunkIndex: nat, inputText: string, embedding: Vector)

  datatype Document = Document(uuid: nat, inputHash: string, chunks: seq<EmbeddedChunk>)

  datatype Failed = Failed(uuid: nat, inputHash: string, error: string, terminal: bool)

  /** What the provider answers: vectors, or a failure that may be worth a retry. */
  datatype Answer = Vectors(vectors: seq<Vector>) | Failure(message: string, terminal: bool)

  /** The provider; a single request may be answered differently at each position. */
  datatype Provider = Provider(batch: seq<string> -> Answer, single: (nat, string) -> Answer, dimensions: nat)

  const INVALID: string := "invalid embedding response"

  /** The vectors of an answer, if there is one of the right size for every text. */
  function Validated(vectors: seq<Vector>, count: nat, dimensions: nat): (r: Option<seq<Vector>>) {
    if |vectors| == count && forall i :: 0 <= i < |vectors| ==> |vectors[i]| == dimensions then Some(vectors) else None
  }

  // ---- flattening ----

  type Splits = seq<seq<TextChunk>>

  function Tagged(j: nat, chunks: seq<TextChunk>): (ps: seq<Prepared>)
    ensures |ps| == |chunks| && forall c :: 0 <= c < |chunks| ==> ps[c] == Prepared(j, chunks[c])
  {
    seq(|chunks|, c requires 0 <= c < |chunks| => Prepared(j, chunks[c]))
  }

  /** The chunks of all jobs, one job after the other. */
  function Flattened(splits: Splits): (ps: seq<Prepared>) {
    if splits == [] then []
    else Flattened(splits[..|splits| - 1]) + Tagged(|splits| - 1, splits[|splits| - 1])
  }

  /** Where the chunks of job j start. */
  function Offset(splits: Splits, j: nat): (n: nat)
    requires j <= |splits|
  {
    if j == 0 then 0 else Offset(splits, j - 1) + |splits[j - 1]|
  }

  lemma {:induction false} FlattenedPrefix(splits: Splits, j: nat)
    requires j <= |splits|
    ensures |Flattened(splits[..j])| == Offset(splits, j)
    ensures Flattened(splits[..j]) <= Flattened(splits)
    decreases |splits|
  {
    var n := |splits|;
    if j < n {
      FlattenedPrefix(splits[..n - 1], j);
      assert splits[..n - 1][..j] == splits[..j];
      OffsetPrefix(splits, j, n - 1);
    } else {
      assert splits[..j] == splits;
      if n > 0 {
        FlattenedPrefix(splits[..n - 1], n - 1);
        assert splits[..n - 1][..n - 1] == splits[..n - 1];
        OffsetPrefix(splits, n - 1, n - 1);
      }
    }
  }

  lemma {:induction false} OffsetPrefix(splits: Splits, j: nat, k: nat)
    requires j <= k <= |splits|
    ensures Offset(splits[..k], j) == Offset(splits, j)
  {
    if j > 0 {
      OffsetPrefix(splits, j - 1, k);
    }
  }

  /** The c-th chunk of job j. */
  lemma FlattenedAt(splits: Splits, j: nat, c: nat)
    requires j < |splits| && c < |splits[j]|
    ensures Offset(splits, j) + c < |Flattened(splits)|
    ensures Flattened(splits)[Offset(splits, j) + c] == Prepared(j, splits[j][c])
  {
    FlattenedPrefix(splits, j + 1);
    FlattenedPrefix(splits, j);
    assert splits[..j + 1][..j] == splits[..j];
    assert Flattened(splits[..j + 1]) == Flattened(splits[..j]) + Tagged(j, splits[j]);
  }

  predicate JobsInRange(ps: seq<Prepared>, n: nat) {
    forall i :: 0 <= i < |ps| ==> ps[i].jobIndex < n
  }

  lemma {:induction false} FlattenedInRange(splits: Splits)
    ensures JobsInRange(Flattened(splits), |splits|)
  {
    if splits != [] {
      FlattenedInRange(splits[..|splits| - 1]);
    }
  }

  // ---- regrouping ----

  function Embedded(p: Prepared, v: Vector): (e: EmbeddedChunk) {
    EmbeddedChunk(p.chunk.chunkIndex, p.chunk.text, v)
  }

  /** What the first n chunks add to job j. */
  function Collected(ps: seq<Prepared>, vs: seq<Vector>, j: nat, n: nat): (cs: seq<EmbeddedChunk>)
    requires n <= |ps| && n <= |vs|
  {
    if n == 0 then []
    else Collected(ps, vs, j, n - 1) + if ps[n - 1].jobIndex == j then [Embedded(ps[n - 1], vs[n - 1])] else []
  }

  /** A job's own chunks in order, each with its own vector. */
  function Own(splits: Splits, vs: seq<Vector>, j: nat): (cs: seq<EmbeddedChunk>)
    requires j < |splits| && Offset(splits, j) + |splits[j]| <= |vs|
    ensures |cs| == |splits[j]|
    ensures forall c :: 0 <= c < |cs| ==>
              cs[c] == EmbeddedChunk(splits[j][c].chunkIndex, splits[j][c].text, vs[Offset(splits, j) + c])
  {
    seq(|splits[j]|, c requires 0 <= c < |splits[j]| =>
      EmbeddedChunk(splits[j][c].chunkIndex, splits[j][c].text, vs[Offset(splits, j) + c]))
  }

  lemma {:induction false} CollectedOther(ps: seq<Prepared>, vs: seq<Vector>, j: nat, a: nat, b: nat)
    requires a <= b <= |ps| && b <= |vs| && forall i :: a <= i < b ==> ps[i].jobIndex != j
    ensures Collected(ps, vs, j, b) == Collected(ps, vs, j, a)
  {
    if a < b {
      CollectedOther(ps, vs, j, a, b - 1);
    }
  }

  lemma {:induction false} CollectedOwn(splits: Splits, ps: seq<Prepared>, vs: seq<Vector>, j: nat, c: nat)
    requires ps == Flattened(splits) && j < |splits| && c <= |splits[j]|
    requires Offset(splits, j) + |splits[j]| <= |ps| == |vs|
    requires Collected(ps, vs, j, Offset(splits, j)) == []
    ensures Collected(ps, vs, j, Offset(splits, j) + c) == Own(splits, vs, j)[..c]
  {
    if c > 0 {
      CollectedOwn(splits, ps, vs, j, c - 1);
      FlattenedAt(splits, j, c - 1);
      var own := Own(splits, vs, j);
      assert own[..c] == own[..c - 1] + [own[c - 1]];
    }
  }

  /** Positions outside a job's stretch belong to other jobs. */
  lemma Elsewhere(splits: Splits, j: nat, i: nat)
    requires j < |splits| && i < |Flattened(splits)|
    requires i < Offset(splits, j) || i >= Offset(splits, j + 1)
    ensures Flattened(splits)[i].jobIndex != j
  {
    var k := JobAt(splits, i);
    FlattenedAt(splits, k, i - Offset(splits, k));
  }

  lemma {:induction false} OffsetGrows(splits: Splits, j: nat, k: nat)
    requires j <= k <= |splits|
    ensures Offset(splits, j) <= Offset(splits, k)
  {
    if j < k {
      OffsetGrows(splits, j, k - 1);
    }
  }

  lemma {:induction false} JobAt(splits: Splits, i: nat) returns (k: nat)
    requires i < |Flattened(splits)|
    ensures k < |splits| && Offset(splits, k) <= i < Offset(splits, k) + |splits[k]|
    decreases |splits|
  {
    var n := |splits| - 1;
    FlattenedPrefix(splits, n);
    if i < Offset(splits, n) {
      k := JobAt(splits[..n], i);
      OffsetPrefix(splits, k, n);
    } else {
      k := n;
    }
  }

  /** Regrouping the flattened chunks gives each job its own. */
  lemma CollectedIsOwn(splits: Splits, vs: seq<Vector>, j: nat)
    requires j < |splits| && |vs| == |Flattened(splits)|
    ensures Offset(splits, j) + |splits[j]| <= |vs|
    ensures Collected(Flattened(splits), vs, j, |vs|) == Own(splits, vs, j)
  {
    var ps := Flattened(splits);
    var lo, hi := Offset(splits, j), Offset(splits, j + 1);
    FlattenedPrefix(splits, |splits|);
    assert splits[..|splits|] == splits;
    OffsetGrows(splits, j + 1, |splits|);
    forall i | 0 <= i < |ps| && (i < lo || i >= hi)
      ensures ps[i].jobIndex != j
    {
      Elsewhere(splits, j, i);
    }
    CollectedOther(ps, vs, j, 0, lo);
    CollectedOwn(splits, ps, vs, j, |splits[j]|);
    CollectedOther(ps, vs, j, hi, |ps|);
    var own := Own(splits, vs, j);
    assert own[..|splits[j]|] == own;
  }

  /** The documents of the first n jobs that did not fail. */
  function Documents(jobs: seq<Job>, splits: Splits, vs: seq<Vector>, failed: set<nat>, n: nat): (ds: seq<Document>)
    requires n <= |jobs| == |splits| && forall j :: 0 <= j < n ==> Offset(splits, j) + |splits[j]| <= |vs|
  {
    if n == 0 then []
    else
      Documents(jobs, splits, vs, failed, n - 1)
      + if n - 1 in failed then [] else [Document(jobs[n - 1].uuid, jobs[n - 1].inputHash, Own(splits, vs, n - 1))]
  }

  /** The loops that regroup the chunks by job and make one document of each. */
  method Assemble(jobs: seq<Job>, ghost splits: Splits, prepared: seq<Prepared>, vs: seq<Vector>, failed: set<nat>)
    returns (ds: seq<Document>)
    requires |jobs| == |splits| && prepared == Flattened(splits) && |vs| == |prepared|
    ensures forall j :: 0 <= j < |jobs| ==> Offset(splits, j) + |splits[j]| <= |vs|
    ensures ds == Documents(jobs, splits, vs, failed, |jobs|)
  {
    hide Flattened, Offset, Own;
    forall j | 0 <= j < |jobs|
      ensures Offset(splits, j) + |splits[j]| <= |vs| && Collected(prepared, vs, j, |vs|) == Own(splits, vs, j)
    {
      CollectedIsOwn(splits, vs, j);
    }
    FlattenedInRange(splits);
    var chunks: seq<seq<EmbeddedChunk>> := seq(|jobs|, _ => []);
    for i := 0 to |prepared|
      invariant |chunks| == |jobs|
      invariant forall j :: 0 <= j < |jobs| && j !in failed ==> chunks[j] == Collected(prepared, vs, j, i)
    {
      var p := prepared[i];
      if p.jobIndex !in failed {
        chunks := chunks[p.jobIndex := chunks[p.jobIndex] + [Embedded(p, vs[i])]];
      }
    }
    ds := [];
    for j := 0 to |jobs|
      invariant ds == Documents(jobs, splits, vs, failed, j)
    {
      if j !in failed {
        ds := ds + [Document(jobs[j].uuid, jobs[j].inputHash, chunks[j])];
      }
    }
  }

  // ---- one item at a time ----

  /** What a single request yields: a vector, or why it failed. */
  function Single(provider: Provider, i: nat, text: string): (r: Answer)
    ensures r.Vectors? ==> |r.vectors| == 1
  {
    match provider.single(i, text)
    case Failure(message, terminal) => Failure(message, terminal)
    case Vectors(vectors) =>
      var valid := Validated(vectors, 1, provider.dimensions);
      if valid.Some? then Vectors(valid.value) else Failure(INVALID, true)
  }

  predicate Fails(provider: Provider, ps: seq<Prepared>, i: nat)
    requires i < |ps|
  {
    Single(provider, i, ps[i].chunk.text).Failure?
  }

  /** Some request for a chunk of job j fails. */
  predicate JobFails(provider: Provider, ps: seq<Prepared>, j: nat, n: nat)
    requires n <= |ps|
  {
    exists i :: 0 <= i < n && ps[i].jobIndex == j && Fails(provider, ps, i)
  }

  /** The failure of a job is that of its first failing chunk. */
  ghost predicate FirstFailure(provider: Provider, ps: seq<Prepared>, j: nat, failure: (string, bool)) {
    exists i :: 0 <= i < |ps| && IsFirst(provider, ps, j, i)
      && Single(provider, i, ps[i].chunk.text) == Failure(failure.0, failure.1)
  }

  predicate IsFirst(provider: Provider, ps: seq<Prepared>, j: nat, i: nat)
    requires i < |ps|
  {
    ps[i].jobIndex == j && forall k :: 0 <= k < i && ps[k].jobIndex == j ==> !Fails(provider, ps, k)
  }

  /** The loop over the chunks; once a chunk of a job has failed the others are skipped. */
  method RequestEach(provider: Provider, ps: seq<Prepared>)
    returns (vs: seq<Vector>, failures: map<nat, (string, bool)>)
    ensures |vs| == |ps|
    ensures forall j :: j in failures <==> JobFails(provider, ps, j, |ps|)
    ensures forall j <- failures :: FirstFailure(provider, ps, j, failures[j])
    ensures forall i :: 0 <= i < |ps| && ps[i].jobIndex !in failures ==>
              Single(provider, i, ps[i].chunk.text) == Vectors([vs[i]])
  {
    hide Single, FirstFailure, IsFirst;
    vs, failures := [], map[];
    for i := 0 to |ps|
      invariant |vs| == i
      invariant forall j :: j in failures <==> JobFails(provider, ps, j, i)
      invariant forall j <- failures :: FirstFailure(provider, ps, j, failures[j])
      invariant forall k :: 0 <= k < i && ps[k].jobIndex !in failures ==>
                  Single(provider, k, ps[k].chunk.text) == Vectors([vs[k]])
    {
      var p := ps[i];
      if p.jobIndex in failures {
        vs := vs + [[]];
      } else {
        var answer := Single(provider, i, p.chunk.text);
        SingleShape(provider, i, p.chunk.text);
        match answer {
          case Vectors(vectors) =>
            vs := vs + [vectors[0]];
          case Failure(message, terminal) =>
            assert FirstFailure(provider, ps, p.jobIndex, (message, terminal)) by {
              FirstFailureIs(provider, ps, i);
            }
            failures := failures[p.jobIndex := (message, terminal)];
            vs := vs + [[]];
        }
      }
    }
  }

  lemma SingleShape(provider: Provider, i: nat, text: string)
    ensures Single(provider, i, text).Vectors? ==>
              var vs := Single(provider, i, text).vectors; |vs| == 1 && vs == [vs[0]]
  {
  }

  lemma FirstFailureIs(provider: Provider, ps: seq<Prepared>, i: nat)
    requires i < |ps| && Fails(provider, ps, i) && !JobFails(provider, ps, ps[i].jobIndex, i)
    ensures var failure := Single(provider, i, ps[i].chunk.text);
            FirstFailure(provider, ps, ps[i].jobIndex, (failure.message, failure.terminal))
  {
    hide Single;
    assert IsFirst(provider, ps, ps[i].jobIndex, i);
  }

  // ---- the whole batch ----

  /** A failure recorded for a job. */
  datatype Record = Record(job: nat, failed: Failed)

  /** Every failed job has exactly one record, and no other job has one. */
  ghost predicate Recorded(records: seq<Record>, jobs: seq<Job>, failed: set<nat>) {
    && (forall i :: 0 <= i < |records| ==>
          && records[i].job in failed && records[i].job < |jobs|
          && records[i].failed.uuid == jobs[records[i].job].uuid
          && records[i].failed.inputHash == jobs[records[i].job].inputHash)
    && (forall i, k :: 0 <= i < k < |records| ==> records[i].job != records[k].job)
    && forall j <- failed :: HasRecord(records, j)
  }

  predicate HasRecord(records: seq<Record>, j: nat) {
    exists i :: 0 <= i < |records| && records[i].job == j
  }

  lemma RecordedMore(records: seq<Record>, jobs: seq<Job>, failed: set<nat>, r: Record)
    requires Recorded(records, jobs, failed) && r.job !in failed && r.job < |jobs|
    requires r.failed.uuid == jobs[r.job].uuid && r.failed.inputHash == jobs[r.job].inputHash
    ensures Recorded(records + [r], jobs, failed + {r.job})
  {
    var more := records + [r];
    assert more[|records|] == r;
    forall j | j in failed + {r.job}
      ensures HasRecord(more, j)
    {
      if j in failed {
        var i :| 0 <= i < |records| && records[i].job == j;
        assert more[i].job == j;
      }
    }
  }

  /** The vector of every chunk of a job that did not fail answers a request for its text:
      the batch request, or its own. */
  ghost predicate Answers(provider: Provider, ps: seq<Prepared>, vs: seq<Vector>, failed: set<nat>) {
    && |vs| == |ps|
    && (Batch(provider, ps) == Some(vs)
        || forall i :: 0 <= i < |ps| && ps[i].jobIndex !in failed ==>
             Single(provider, i, ps[i].chunk.text) == Vectors([vs[i]]))
  }

  function Texts(ps: seq<Prepared>): (texts: seq<string>) {
    seq(|ps|, i requires 0 <= i < |ps| => ps[i].chunk.text)
  }

  /** The vectors of the batch request, if it is answered properly. */
  function Batch(provider: Provider, ps: seq<Prepared>): (r: Option<seq<Vector>>) {
    match provider.batch(Texts(ps))
    case Failure(_, _) => None
    case Vectors(vectors) => Validated(vectors, |ps|, provider.dimensions)
  }

  ghost predicate SplitOf(job: Job, chunks: seq<TextChunk>) {
    && |chunks| > 0
    && (forall c :: 0 <= c < |chunks| ==> chunks[c].chunkIndex == c && |chunks[c].text| <= Chunking.PROVIDER_MAX)
    && (|job.inputText| <= Chunking.SINGLE_VECTOR_MAX ==> chunks == [TextChunk(0, job.inputText)])
    && (|job.inputText| > Chunking.SINGLE_VECTOR_MAX ==>
          exists bodies :: Embeds(job.inputText, job.inputHeader, bodies, chunks))
  }

  /** What a round of embedding does: some jobs fail, and every other one yields a document
      with its own chunks and vectors. */
  ghost predicate Round(provider: Provider, jobs: seq<Job>, splits: Splits, vs: seq<Vector>, failed: set<nat>,
                        ds: seq<Document>, records: seq<Record>) {
    && |splits| == |jobs| && (forall j :: 0 <= j < |jobs| ==> SplitOf(jobs[j], splits[j]))
    && Answers(provider, Flattened(splits), vs, failed)
    && (forall j :: 0 <= j < |jobs| ==> Offset(splits, j) + |splits[j]| <= |vs|)
    && ds == Documents(jobs, splits, vs, failed, |jobs|)
    && Recorded(records, jobs, failed)
  }

  method EmbedIndividually(provider: Provider, jobs: seq<Job>, ghost splits: Splits, prepared: seq<Prepared>)
    returns (ds: seq<Document>, records: seq<Record>, ghost vs: seq<Vector>, ghost failed: set<nat>)
    requires |jobs| == |splits| && prepared == Flattened(splits)
    ensures Answers(provider, prepared, vs, failed)
    ensures forall j :: 0 <= j < |jobs| ==> Offset(splits, j) + |splits[j]| <= |vs|
    ensures ds == Documents(jobs, splits, vs, failed, |jobs|) && Recorded(records, jobs, failed)
    ensures forall j :: j in failed <==> JobFails(provider, prepared, j, |prepared|)
    ensures forall r <- records :: FirstFailure(provider, prepared, r.job, (r.failed.error, r.failed.terminal))
  {
    hide Flattened, Offset, Documents, Single, FirstFailure, Recorded, Fails;
    var embeddings, failures := RequestEach(provider, prepared);
    vs, failed := embeddings, failures.Keys;
    FlattenedInRange(splits);
    records := [];
    NothingRecorded(jobs);
    var todo := failures.Keys;
    ghost var done: set<nat> := {};
    while todo != {}
      invariant todo + done == failures.Keys && todo !! done && Recorded(records, jobs, done)
      invariant forall r <- records :: FirstFailure(provider, prepared, r.job, (r.failed.error, r.failed.terminal))
    {
      var j :| j in todo;
      var r := Record(j, Failed(jobs[j].uuid, jobs[j].inputHash, failures[j].0, failures[j].1));
      RecordedMore(records, jobs, done, r);
      records, todo, done := records + [r], todo - {j}, done + {j};
    }
    ds := Assemble(jobs, splits, prepared, embeddings, failures.Keys);
  }

  lemma NothingRecorded(jobs: seq<Job>)
    ensures Recorded([], jobs, {})
  {
  }

  /** The first n jobs. */
  function UpTo(n: nat): (js: set<nat>) {
    if n == 0 then {} else UpTo(n - 1) + {n - 1}
  }

  lemma {:induction false} UpToHas(n: nat)
    ensures forall j: nat :: j in UpTo(n) <==> j < n
  {
    if n > 0 {
      UpToHas(n - 1);
    }
  }

  lemma {:induction false} AllFailed(jobs: seq<Job>, splits: Splits, vs: seq<Vector>, n: nat)
    requires n <= |jobs| == |splits| && forall j :: 0 <= j < n ==> Offset(splits, j) + |splits[j]| <= |vs|
    ensures Documents(jobs, splits, vs, UpTo(|jobs|), n) == []
  {
    UpToHas(|jobs|);
    if n > 0 {
      AllFailed(jobs, splits, vs, n - 1);
    }
  }

  /** Recording the whole batch as deferred. */
  method DeferAll(jobs: seq<Job>, message: string) returns (records: seq<Record>)
    ensures Recorded(records, jobs, UpTo(|jobs|))
    ensures forall r <- records :: r.failed.error == message && !r.failed.terminal
  {
    hide Recorded;
    records := [];
    NothingRecorded(jobs);
    for j := 0 to |jobs|
      invariant Recorded(records, jobs, UpTo(j))
      invariant forall r <- records :: r.failed.error == message && !r.failed.terminal
    {
      UpToHas(j);
      var r := Record(j, Failed(jobs[j].uuid, jobs[j].inputHash, message, false));
      RecordedMore(records, jobs, UpTo(j), r);
      records := records + [r];
    }
  }

  lemma NoJobLeft(provider: Provider, ps: seq<Prepared>, vs: seq<Vector>, n: nat)
    requires JobsInRange(ps, n) && |vs| == |ps|
    ensures Answers(provider, ps, vs, UpTo(n))
  {
    UpToHas(n);
  }

  lemma OffsetsFit(splits: Splits, j: nat)
    requires j < |splits|
    ensures Offset(splits, j) + |splits[j]| <= |Flattened(splits)|
  {
    FlattenedPrefix(splits, |splits|);
    assert splits[..|splits|] == splits;
    OffsetGrows(splits, j + 1, |splits|);
  }

  /** One round over the jobs taken. */
  method Tick(provider: Provider, jobs: seq<Job>)
    returns (ds: seq<Document>, records: seq<Record>, ghost splits: Splits, ghost vs: seq<Vector>, ghost failed: set<nat>)
    ensures Round(provider, jobs, splits, vs, failed, ds, records)
  {
    hide SplitOf, Embeds, Recorded, Documents, Answers, Single, Validated;
    splits := [];
    var prepared: seq<Prepared> := [];
    for j := 0 to |jobs|
      invariant |splits| == j && prepared == Flattened(splits)
      invariant forall k :: 0 <= k < j ==> SplitOf(jobs[k], splits[k])
    {
      var chunks := SplitForEmbedding(jobs[j].inputText, jobs[j].inputHeader);
      assert SplitOf(jobs[j], chunks) by {
        SplitIs(jobs[j], chunks);
      }
      assert (splits + [chunks])[..j] == splits;
      splits := splits + [chunks];
      prepared := prepared + Tagged(j, chunks);
    }
    FlattenedInRange(splits);
    forall j | 0 <= j < |jobs|
      ensures Offset(splits, j) + |splits[j]| <= |prepared|
    {
      OffsetsFit(splits, j);
    }
    match provider.batch(Texts(prepared)) {
      case Vectors(vectors) =>
        var valid := Validated(vectors, |prepared|, provider.dimensions);
        if valid.Some? {
          vs, failed, records := valid.value, {}, [];
          BatchAnswers(provider, prepared, vs);
          NothingRecorded(jobs);
          ds := Assemble(jobs, splits, prepared, valid.value, {});
        } else {
          ds, records, vs, failed := EmbedIndividually(provider, jobs, splits, prepared);
        }
      case Failure(message, terminal) =>
        if terminal {
          ds, records, vs, failed := EmbedIndividually(provider, jobs, splits, prepared);
        } else {
          vs, failed := seq(|prepared|, _ => []), UpTo(|jobs|);
          records := DeferAll(jobs, message);
          NoJobLeft(provider, prepared, vs, |jobs|);
          AllFailed(jobs, splits, vs, |jobs|);
          ds := [];
        }
    }
  }

  lemma SplitIs(job: Job, chunks: seq<TextChunk>)
    requires forall i :: 0 <= i < |chunks| ==> chunks[i].chunkIndex == i && |chunks[i].text| <= Chunking.PROVIDER_MAX
    requires |chunks| > 0
    requires |job.inputText| <= Chunking.SINGLE_VECTOR_MAX ==> chunks == [TextChunk(0, job.inputText)]
    requires |job.inputText| > Chunking.SINGLE_VECTOR_MAX ==>
               exists bodies :: Embeds(job.inputText, job.inputHeader, bodies, chunks)
    ensures SplitOf(job, chunks)
  {
    hide Embeds;
  }

  lemma BatchAnswers(provider: Provider, ps: seq<Prepared>, vs: seq<Vector>)
    requires Batch(provider, ps) == Some(vs)
    ensures Answers(provider, ps, vs, {}) && |vs| == |ps|
  {
  }

  // ---- every job is accounted for once ----

  /** How many of the first n jobs did not fail. */
  function Survivors(failed: set<nat>, n: nat): (k: nat) {
    if n == 0 then 0 else Survivors(failed, n - 1) + if n - 1 in failed then 0 else 1
  }

  lemma {:induction false} DocumentAt(jobs: seq<Job>, splits: Splits, vs: seq<Vector>, failed: set<nat>, n: nat, j: nat)
    requires j < n <= |jobs| == |splits| && forall j :: 0 <= j < n ==> Offset(splits, j) + |splits[j]| <= |vs|
    ensures var ds := Documents(jobs, splits, vs, failed, n);
            && |ds| == Survivors(failed, n)
            && (j !in failed ==>
                  var k := Survivors(failed, j);
                  k < |ds| && ds[k] == Document(jobs[j].uuid, jobs[j].inputHash, Own(splits, vs, j)))
  {
    hide Own, Offset;
    if n > 1 {
      if j < n - 1 {
        DocumentAt(jobs, splits, vs, failed, n - 1, j);
      } else {
        DocumentAt(jobs, splits, vs, failed, n - 1, n - 2);
      }
    }
  }

  /** Every job is either recorded as failed exactly once, and then has no document, or has
      exactly one: the documents are those of the other jobs in order, each with the job's
      own split in order and its own vectors. */
  lemma EveryJobOnce(provider: Provider, jobs: seq<Job>, splits: Splits, vs: seq<Vector>, failed: set<nat>,
                     ds: seq<Document>, records: seq<Record>, j: nat)
    requires Round(provider, jobs, splits, vs, failed, ds, records) && j < |jobs|
    ensures |ds| == Survivors(failed, |jobs|)
    ensures j in failed <==> HasRecord(records, j)
    ensures j !in failed ==>
              var k := Survivors(failed, j);
              && k < |ds| && ds[k].uuid == jobs[j].uuid && ds[k].inputHash == jobs[j].inputHash
              && ds[k].chunks == Own(splits, vs, j)
  {
    hide SplitOf, Answers, Own;
    DocumentAt(jobs, splits, vs, failed, |jobs|, j);
  }
}
