/** Assignment 2: the job queue and result queue the server shares with its
    workers, one worker (`peon`) draining the job queue, and the server's
    merge of the results it collected (assignment2.py:129-164, 205-219).

    The two queues are modelled as the fields of one object, each a FIFO
    sequence: `put` appends, `get_nowait` takes the head. */
module QueueBroker {
  import opened Common
  import opened Quality
  import opened Partition
  import opened Merge
  import opened LocalPool

  /** The marker a worker stores as the result of a job it could not run:
      the string `OHNO`, as code points. */
  const ERROR: seq<int> := [79, 72, 78, 79]

  /** `job['fn']`: `calculate_quals`, or a name the worker cannot resolve. */
  datatype Fn = CalculateQualsFn | UnresolvedFn

  /** An entry of the job queue: the sentinel `POISONPILL` (`"STOP"`) or a
      dictionary `{'fn': fn, 'arg': chunk}`. */
  datatype Job = PoisonPill | Task(fn: Fn, arg: seq<Line>)

  /** `result['result']`: a list of column sums, or the `ERROR` string. */
  datatype Payload = Sums(sums: seq<int>) | ErrorMarker

  /** `{'job': job, 'result': result}`. */
  datatype Envelope = Envelope(job: Job, result: Payload)

  /** What running a job yields: `calculate_quals(arg)`, or `ERROR` when
      calling `job['fn']` raises `NameError`. */
  function Apply(job: Job): Payload
    requires job.Task?
  {
    match job.fn
    case CalculateQualsFn => Sums(Quals(job.arg))
    case UnresolvedFn => ErrorMarker
  }

  function Serve(job: Job): Envelope
    requires job.Task?
  {
    Envelope(job, Apply(job))
  }

  predicate AllTasks(jobs: seq<Job>)
  {
    forall k :: 0 <= k < |jobs| ==> jobs[k].Task?
  }

  /** The envelopes a worker produces for a run of tasks, in queue order. */
  function ServeAll(jobs: seq<Job>): (r: seq<Envelope>)
    requires AllTasks(jobs)
    ensures |r| == |jobs| && forall k :: 0 <= k < |jobs| ==> r[k] == Envelope(jobs[k], Apply(jobs[k]))
  {
    seq(|jobs|, k requires 0 <= k < |jobs| => Serve(jobs[k]))
  }

  /** The position of the first sentinel in the job queue. */
  function FirstPill(jobs: seq<Job>): (p: nat)
    requires PoisonPill in jobs
    ensures p < |jobs| && jobs[p] == PoisonPill && AllTasks(jobs[..p])
  {
    if jobs[0] == PoisonPill then 0
    else
      var p := FirstPill(jobs[1..]);
      assert jobs[..p + 1] == [jobs[0]] + jobs[1..][..p];
      p + 1
  }

  /** The worker's answers grow by one envelope per task it takes. */
  lemma ServeAllSnoc(jobs: seq<Job>, k: nat, p: nat)
    requires k < p <= |jobs| && AllTasks(jobs[..p])
    ensures jobs[k].Task? && AllTasks(jobs[..k + 1])
    ensures ServeAll(jobs[..k + 1]) == ServeAll(jobs[..k]) + [Serve(jobs[k])]
  {
    assert jobs[..p][k] == jobs[k];
    assert forall j :: 0 <= j < k + 1 ==> jobs[..k + 1][j] == jobs[..p][j];
  }

  /** The tasks the server sends for a list of chunks (assignment2.py:139-140). */
  function TasksFor(fn: Fn, data: seq<seq<Line>>): (r: seq<Job>)
    ensures |r| == |data| && AllTasks(r)
    ensures forall k :: 0 <= k < |data| ==> r[k] == Task(fn, data[k])
  {
    seq(|data|, k requires 0 <= k < |data| => Task(fn, data[k]))
  }

  /** The shared job queue and result queue. */
  class JobQueues {
    var jobQ: seq<Job>
    var resultQ: seq<Envelope>

    /** `queue.Queue()` twice (assignment2.py:55-56). */
    constructor()
      ensures jobQ == [] && resultQ == []
    {
      jobQ := [];
      resultQ := [];
    }

    /** `for d in data: shared_job_q.put({'fn': fn, 'arg': d})`. */
    method SendData(fn: Fn, data: seq<seq<Line>>)
      modifies this
      ensures jobQ == old(jobQ) + TasksFor(fn, data)
      ensures resultQ == old(resultQ)
    {
      var i := 0;
      while i < |data|
        invariant 0 <= i <= |data|
        invariant jobQ == old(jobQ) + TasksFor(fn, data)[..i]
        invariant resultQ == old(resultQ)
      {
        jobQ := jobQ + [Task(fn, data[i])];
        i := i + 1;
      }
      assert TasksFor(fn, data)[..i] == TasksFor(fn, data);
    }

    /** `shared_job_q.put(POISONPILL)`. */
    method SendPoisonPill()
      modifies this
      ensures jobQ == old(jobQ) + [PoisonPill]
      ensures resultQ == old(resultQ)
    {
      jobQ := jobQ + [PoisonPill];
    }

    /** One pass of the worker loop of `peon` (assignment2.py:207-223): on an
        empty queue nothing changes (the worker sleeps); the sentinel is put
        back and the worker stops; any other job yields exactly one envelope. */
    method PeonStep() returns (stopped: bool)
      modifies this
      ensures old(jobQ) == [] ==> !stopped && jobQ == old(jobQ) && resultQ == old(resultQ)
      ensures old(jobQ) != [] && old(jobQ)[0] == PoisonPill ==>
        stopped && jobQ == old(jobQ)[1..] + [PoisonPill] && resultQ == old(resultQ)
      ensures old(jobQ) != [] && old(jobQ)[0].Task? ==>
        !stopped && jobQ == old(jobQ)[1..] && resultQ == old(resultQ) + [Serve(old(jobQ)[0])]
    {
      if jobQ == [] {
        return false;
      }
      var job := jobQ[0];
      jobQ := jobQ[1..];
      if job == PoisonPill {
        jobQ := jobQ + [PoisonPill];
        return true;
      }
      var result;
      if job.fn == CalculateQualsFn {
        var sums := CalculateQuals(job.arg);
        assert sums == Quals(job.arg);
        result := Sums(sums);
      } else {
        result := ErrorMarker;
      }
      resultQ := resultQ + [Envelope(job, result)];
      stopped := false;
    }

    /** `peon` run to completion by the only worker: every task ahead of the
        first sentinel is answered in queue order, and the sentinel is left at
        the back of the queue for the next worker. */
    method Peon()
      requires PoisonPill in jobQ
      modifies this
      ensures var p := FirstPill(old(jobQ));
        jobQ == old(jobQ)[p + 1..] + [PoisonPill] &&
        resultQ == old(resultQ) + ServeAll(old(jobQ)[..p])
    {
      ghost var jobs := jobQ;
      ghost var p := FirstPill(jobs);
      ghost var k := 0;
      var stopped := false;
      while !stopped
        invariant 0 <= k <= p && AllTasks(jobs[..k])
        invariant !stopped ==> jobQ == jobs[k..] && resultQ == old(resultQ) + ServeAll(jobs[..k])
        invariant stopped ==>
          jobQ == jobs[p + 1..] + [PoisonPill] &&
          resultQ == old(resultQ) + ServeAll(jobs[..p])
        decreases if stopped then 0 else p - k + 1
      {
        assert jobs[k..][0] == jobs[k];
        assert jobs[k..][1..] == jobs[k + 1..];
        if k < p {
          ServeAllSnoc(jobs, k, p);
        }
        stopped := PeonStep();
        if !stopped {
          k := k + 1;
        }
      }
    }

    /** The server's collection loop reads the first `count` envelopes off the
        result queue (assignment2.py:144-151). */
    method TakeResults(count: nat) returns (results: seq<Envelope>)
      requires count <= |resultQ|
      modifies this
      ensures results == old(resultQ)[..count]
      ensures resultQ == old(resultQ)[count..] && jobQ == old(jobQ)
    {
      results := [];
      while |results| < count
        invariant |results| <= count
        invariant results == old(resultQ)[..|results|]
        invariant resultQ == old(resultQ)[|results|..] && jobQ == old(jobQ)
      {
        results := results + [resultQ[0]];
        resultQ := resultQ[1..];
      }
    }
  }

  /** What `zip` iterates for one payload: the column sums, or the characters
      of the `ERROR` string. */
  function Row(p: Payload): seq<int>
  {
    match p
    case Sums(s) => s
    case ErrorMarker => ERROR
  }

  /** `phreds.append(result['result'])` for every result (assignment2.py:161-163). */
  method Phreds(results: seq<Envelope>) returns (phreds: seq<Payload>)
    ensures |phreds| == |results|
    ensures forall k :: 0 <= k < |results| ==> phreds[k] == results[k].result
  {
    phreds := [];
    for k := 0 to |results|
      invariant |phreds| == k
      invariant forall j :: 0 <= j < k ==> phreds[j] == results[j].result
    {
      phreds := phreds + [results[k].result];
    }
  }

  /** `[sum(i) / deler for i in zip(*phreds)]` (assignment2.py:164): nothing
      is added when `zip` yields no column; otherwise a column holding a
      character of `ERROR` makes `sum` raise a TypeError. */
  function MergeResults(phreds: seq<Payload>, deler: int): Result<seq<real>>
  {
    var rows := Map(Row, phreds);
    if MinLen(rows) > 0 && ErrorMarker in phreds then Err(TypeError)
    else DivideAll(ZipSum(rows), deler)
  }

  /** The merge has the length of the shortest result and is never longer
      than any single result. */
  lemma MergeLength(phreds: seq<Payload>, deler: int)
    requires MergeResults(phreds, deler).Ok?
    ensures |MergeResults(phreds, deler).value| == MinLen(Map(Row, phreds))
    ensures forall k :: 0 <= k < |phreds| ==> |MergeResults(phreds, deler).value| <= |Row(phreds[k])|
  {
    ZipSumIsPrefix(Map(Row, phreds));
  }

  /** The merged result does not depend on the order in which results arrived. */
  lemma MergeOrderIndependent(p: seq<Payload>, q: seq<Payload>, deler: int)
    requires multiset(p) == multiset(q)
    ensures MergeResults(p, deler) == MergeResults(q, deler)
  {
    MapPermutation(Row, p, q);
    MergesPermutation(Map(Row, p), Map(Row, q));
    LengthsPermutation(Map(Row, p), Map(Row, q));
    assert ErrorMarker in p <==> ErrorMarker in q by {
      assert ErrorMarker in p <==> ErrorMarker in multiset(p);
      assert ErrorMarker in q <==> ErrorMarker in multiset(q);
    }
  }

  /** The payloads of a full run over the chunks of a file, in send order. */
  function ChunkPayloads(chunks: seq<seq<Line>>): (r: seq<Payload>)
    ensures |r| == |chunks| && forall k :: 0 <= k < |chunks| ==> r[k] == Sums(Quals(chunks[k]))
  {
    seq(|chunks|, k requires 0 <= k < |chunks| => Sums(Quals(chunks[k])))
  }

  /** Whatever order the results of a file's chunks arrive in, the server
      prints entry `i` as column `i`'s score sum divided by `deler`, the
      total record count, for every `i` below the shortest chunk result. */
  lemma MergeOfChunkResults(qualities: seq<Line>, n: nat, phreds: seq<Payload>)
    requires n > 0
    requires multiset(phreds) == multiset(ChunkPayloads(ChunksOf(qualities, n)))
    ensures MergeResults(phreds, |qualities|).Ok?
    ensures var r := MergeResults(phreds, |qualities|).value;
      |r| == MinLen(PoolMap(ChunksOf(qualities, n))) <= MaxLen(qualities) &&
      forall i :: 0 <= i < |r| ==> r[i] == ColumnSum(qualities, i) as real / |qualities| as real
  {
    var chunks := ChunksOf(qualities, n);
    MergeOrderIndependent(phreds, ChunkPayloads(chunks), |qualities|);
    MergeInOrder(chunks, |qualities|);
    ChunkedAverages(qualities, n);
  }

  /** Results in send order merge exactly as the local pool's chunk results do. */
  lemma MergeInOrder(chunks: seq<seq<Line>>, deler: int)
    ensures MergeResults(ChunkPayloads(chunks), deler) == DivideAll(ZipSum(PoolMap(chunks)), deler)
  {
    var inOrder := ChunkPayloads(chunks);
    assert Map(Row, inOrder) == PoolMap(chunks);
    assert ErrorMarker !in inOrder;
  }

  /** One file through the server and a single worker (assignment2.py:129-164,
      261-265): send one task per chunk, let the worker answer them, collect
      as many results as chunks were sent, stop the worker, and merge. No
      output at all when there is no chunk to send. */
  method RunFile(qualities: seq<Line>, nchunks: int) returns (avg: Option<Result<seq<real>>>)
    ensures nchunks <= 0 ==> avg == None
    ensures nchunks > 0 ==> avg == Some(DivideAll(ZipSum(PoolMap(ChunksOf(qualities, nchunks))), |qualities|))
  {
    var data := Chunks(qualities, nchunks);
    if data == [] {
      return None;
    }
    var phreds := ServeChunks(data);
    MergeInOrder(data, |qualities|);
    avg := Some(MergeResults(phreds, |qualities|));
  }

  /** The queue traffic of one file (assignment2.py:139-163): every chunk is
      sent as a task, the worker answers them, and the server collects one
      payload per chunk, in send order. */
  method ServeChunks(data: seq<seq<Line>>) returns (phreds: seq<Payload>)
    ensures phreds == ChunkPayloads(data)
  {
    var queues := new JobQueues();
    queues.SendData(CalculateQualsFn, data);
    queues.SendPoisonPill();
    var tasks := TasksFor(CalculateQualsFn, data);
    assert queues.jobQ == tasks + [PoisonPill] && queues.resultQ == [];
    PillAfterTasks(tasks);
    queues.Peon();
    var results := queues.TakeResults(|data|);
    phreds := Phreds(results);
    ServedPayloads(data);
  }

  /** The sentinel put after a run of tasks is the first one in the queue. */
  lemma PillAfterTasks(tasks: seq<Job>)
    requires AllTasks(tasks)
    ensures PoisonPill in tasks + [PoisonPill]
    ensures var jobs := tasks + [PoisonPill];
      FirstPill(jobs) == |tasks| && ([] + ServeAll(jobs[..FirstPill(jobs)]))[..|tasks|] == ServeAll(tasks)
  {
    var jobs := tasks + [PoisonPill];
    assert jobs[|tasks|] == PoisonPill;
    assert jobs[..|tasks|] == tasks;
    assert [] + ServeAll(tasks) == ServeAll(tasks);
  }

  /** The worker answers the tasks for a file's chunks with the chunks'
      column sums, in order. */
  lemma ServedPayloads(data: seq<seq<Line>>)
    ensures var served := ServeAll(TasksFor(CalculateQualsFn, data));
      |served| == |data| && forall k :: 0 <= k < |data| ==> served[k].result == ChunkPayloads(data)[k]
  {
  }
}
