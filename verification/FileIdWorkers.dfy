/** `fileIdsForPaths`: batches of paths resolved by a bounded pool of workers sharing one cursor. */
module FileIdWorkers {
  import opened Paths
  import opened Sequences

  type FileId = string

  /** The file rows of one repository, by path. */
  type Rows = map<Path, FileId>

  const CHUNK := 500
  const CONCURRENCY := 8

  // ---- Batches ----

  /** Full batches followed by at most one shorter, non-empty one. */
  ghost predicate Chunked(batches: seq<seq<Path>>) {
    forall b :: 0 <= b < |batches| ==>
      0 < |batches[b]| <= CHUNK && (b + 1 < |batches| ==> |batches[b]| == CHUNK)
  }

  method MakeBatches(paths: seq<Path>) returns (batches: seq<seq<Path>>)
    ensures Flat(batches) == paths && Chunked(batches)
    ensures forall b :: 0 <= b < |batches| ==> 0 < |batches[b]| <= 500 && (b + 1 < |batches| ==> |batches[b]| == 500)
  {
    batches := [];
    var i := 0;
    while i < |paths|
      invariant 0 <= i && (i <= |paths| ==> Flat(batches) == paths[..i])
      invariant i > |paths| ==> Flat(batches) == paths
      invariant Chunked(batches) && (i < |paths| ==> forall b :: 0 <= b < |batches| ==> |batches[b]| == CHUNK)
      decreases |paths| - i
    {
      var end := if i + CHUNK <= |paths| then i + CHUNK else |paths|;
      var batch := paths[i..end];
      FlatNext(batches, batch);
      assert paths[..i] + batch == paths[..end];
      batches := batches + [batch];
      assert Flat(batches) == paths[..end];
      assert paths[..|paths|] == paths;
      i := i + CHUNK;
    }
    assert paths[..|paths|] == paths;
  }

  lemma {:induction false} FlatMember(batches: seq<seq<Path>>, p: Path)
    ensures p in Flat(batches) <==> exists b :: 0 <= b < |batches| && p in batches[b]
    decreases |batches|
  {
    if batches != [] {
      var init := batches[..|batches| - 1];
      FlatMember(init, p);
      if b :| 0 <= b < |batches| && p in batches[b] {
        assert b < |init| ==> init[b] == batches[b];
      }
    }
  }

  // ---- The pool ----

  /** At the head of its loop, waiting for a query, or returned. */
  datatype Worker = Ready | InFlight(batch: nat) | Finished

  /** claims logs the batches in the order they were claimed. */
  datatype Pool = Pool(cursor: nat, workers: seq<Worker>, out: Rows, claims: seq<nat>)

  function RowsIn(rows: Rows, batch: seq<Path>): Rows {
    map p | p in rows && p in batch :: rows[p]
  }

  predicate CanStep(pool: Pool, w: nat) {
    w < |pool.workers| && !pool.workers[w].Finished?
  }

  /** The next atomic piece of one worker: claim a batch and query it, or return; or store the rows that arrived. */
  function Step(batches: seq<seq<Path>>, rows: Rows, pool: Pool, w: nat): Pool
    requires CanStep(pool, w)
    requires pool.workers[w].InFlight? ==> pool.workers[w].batch < |batches|
  {
    match pool.workers[w]
    case Ready =>
      if pool.cursor < |batches|
      then pool.(cursor := pool.cursor + 1, workers := pool.workers[w := InFlight(pool.cursor)], claims := pool.claims + [pool.cursor])
      else pool.(workers := pool.workers[w := Finished])
    case InFlight(b) => pool.(workers := pool.workers[w := Ready], out := pool.out + RowsIn(rows, batches[b]))
    case Finished => pool
  }

  function Initial(batches: seq<seq<Path>>): Pool {
    var n := if CONCURRENCY < |batches| then CONCURRENCY else |batches|;
    Pool(0, seq(n, _ => Ready), map[], [])
  }

  // ---- What every interleaving keeps ----

  ghost predicate InFlightAt(pool: Pool, b: nat) {
    exists w :: 0 <= w < |pool.workers| && pool.workers[w] == InFlight(b)
  }

  /** Batch b was claimed and its rows stored. */
  ghost predicate Stored(pool: Pool, b: nat) {
    b < pool.cursor && !InFlightAt(pool, b)
  }

  ghost predicate FromStored(batches: seq<seq<Path>>, pool: Pool, p: Path) {
    exists b: nat :: b < |batches| && Stored(pool, b) && p in batches[b]
  }

  ghost predicate Inv(batches: seq<seq<Path>>, rows: Rows, pool: Pool) {
    && pool.cursor <= |batches|
    && |pool.workers| == (if CONCURRENCY < |batches| then CONCURRENCY else |batches|)
    // every batch below the cursor was claimed exactly once, in order
    && |pool.claims| == pool.cursor && (forall i :: 0 <= i < pool.cursor ==> pool.claims[i] == i)
    // no two workers hold the same batch
    && (forall w :: 0 <= w < |pool.workers| && pool.workers[w].InFlight? ==> pool.workers[w].batch < pool.cursor)
    && (forall v, w :: 0 <= v < w < |pool.workers| && pool.workers[v].InFlight? && pool.workers[w].InFlight? ==>
          pool.workers[v].batch != pool.workers[w].batch)
    // a worker returns only when no batch is left
    && (forall w :: 0 <= w < |pool.workers| && pool.workers[w].Finished? ==> pool.cursor == |batches|)
    // the map holds the rows of the stored batches
    && (forall p :: p in pool.out <==> p in rows && FromStored(batches, pool, p))
    && (forall p :: p in pool.out ==> pool.out[p] == rows[p])
  }

  lemma InitialInv(batches: seq<seq<Path>>, rows: Rows)
    ensures Inv(batches, rows, Initial(batches))
  {
  }

  lemma ClaimKeepsStored(batches: seq<seq<Path>>, rows: Rows, pool: Pool, w: nat)
    requires Inv(batches, rows, pool) && CanStep(pool, w) && pool.workers[w].Ready?
    ensures forall b: nat :: Stored(Step(batches, rows, pool, w), b) <==> Stored(pool, b)
  {
    var next := Step(batches, rows, pool, w);
    forall b: nat
      ensures Stored(next, b) <==> Stored(pool, b)
    {
      if InFlightAt(pool, b) {
        var v :| 0 <= v < |pool.workers| && pool.workers[v] == InFlight(b);
        assert next.workers[v] == InFlight(b);
      }
      if InFlightAt(next, b) {
        var v :| 0 <= v < |next.workers| && next.workers[v] == InFlight(b);
        assert v == w || pool.workers[v] == InFlight(b);
      }
      if pool.cursor < |batches| && b == pool.cursor {
        assert next.workers[w] == InFlight(b);
      }
    }
  }

  lemma CompleteStores(batches: seq<seq<Path>>, rows: Rows, pool: Pool, w: nat)
    requires Inv(batches, rows, pool) && CanStep(pool, w) && pool.workers[w].InFlight?
    ensures forall b: nat :: Stored(Step(batches, rows, pool, w), b) <==> Stored(pool, b) || b == pool.workers[w].batch
  {
    var next := Step(batches, rows, pool, w);
    forall b: nat
      ensures Stored(next, b) <==> Stored(pool, b) || b == pool.workers[w].batch
    {
      if InFlightAt(pool, b) {
        var v :| 0 <= v < |pool.workers| && pool.workers[v] == InFlight(b);
        assert v == w || next.workers[v] == InFlight(b);
      }
      if InFlightAt(next, b) {
        var v :| 0 <= v < |next.workers| && next.workers[v] == InFlight(b);
        assert v != w && pool.workers[v] == InFlight(b);
      }
    }
  }

  lemma StepKeepsInv(batches: seq<seq<Path>>, rows: Rows, pool: Pool, w: nat)
    requires Inv(batches, rows, pool) && CanStep(pool, w)
    ensures Inv(batches, rows, Step(batches, rows, pool, w))
  {
    var next := Step(batches, rows, pool, w);
    if pool.workers[w].Ready? {
      ClaimKeepsStored(batches, rows, pool, w);
      assert forall p :: FromStored(batches, next, p) <==> FromStored(batches, pool, p);
    } else {
      var b := pool.workers[w].batch;
      CompleteStores(batches, rows, pool, w);
      forall p
        ensures FromStored(batches, next, p) <==> FromStored(batches, pool, p) || p in batches[b]
      {
        if p in batches[b] {
          assert Stored(next, b);
        }
      }
    }
  }

  // ---- Termination ----

  function Weight(worker: Worker): nat {
    match worker case Ready => 1 case InFlight(_) => 2 case Finished => 0
  }

  function TotalWeight(workers: seq<Worker>): nat {
    if workers == [] then 0 else Weight(workers[0]) + TotalWeight(workers[1..])
  }

  lemma {:induction false} WeightUpdate(workers: seq<Worker>, w: nat, x: Worker)
    requires w < |workers|
    ensures TotalWeight(workers[w := x]) == TotalWeight(workers) - Weight(workers[w]) + Weight(x)
    decreases w
  {
    if w == 0 {
      assert workers[w := x][1..] == workers[1..];
    } else {
      WeightUpdate(workers[1..], w - 1, x);
      assert workers[w := x][1..] == workers[1..][w - 1 := x];
    }
  }

  /** What is left to do: it falls with every step of every worker. */
  function Work(batches: seq<seq<Path>>, pool: Pool): int {
    3 * (|batches| - pool.cursor) + TotalWeight(pool.workers)
  }

  lemma StepWorks(batches: seq<seq<Path>>, rows: Rows, pool: Pool, w: nat)
    requires Inv(batches, rows, pool) && CanStep(pool, w)
    ensures 0 <= Work(batches, Step(batches, rows, pool, w)) < Work(batches, pool)
  {
    StepKeepsInv(batches, rows, pool, w);
    WeightUpdate(pool.workers, w, Step(batches, rows, pool, w).workers[w]);
    var next := Step(batches, rows, pool, w);
    assert next.workers == pool.workers[w := next.workers[w]];
  }

  // ---- Every interleaving ----

  /** The schedule picks, step by step, a worker that has not returned. */
  ghost predicate Schedules(batches: seq<seq<Path>>, rows: Rows, pool: Pool, schedule: seq<nat>)
    requires Inv(batches, rows, pool)
    decreases |schedule|
  {
    schedule == [] ||
    (&& CanStep(pool, schedule[0])
     && (StepKeepsInv(batches, rows, pool, schedule[0]); Schedules(batches, rows, Step(batches, rows, pool, schedule[0]), schedule[1..])))
  }

  ghost function RunSchedule(batches: seq<seq<Path>>, rows: Rows, pool: Pool, schedule: seq<nat>): (end: Pool)
    requires Inv(batches, rows, pool) && Schedules(batches, rows, pool, schedule)
    ensures Inv(batches, rows, end)
    decreases |schedule|
  {
    if schedule == [] then pool
    else
      StepKeepsInv(batches, rows, pool, schedule[0]);
      RunSchedule(batches, rows, Step(batches, rows, pool, schedule[0]), schedule[1..])
  }

  ghost predicate StartsSchedule(batches: seq<seq<Path>>, rows: Rows, schedule: seq<nat>) {
    InitialInv(batches, rows);
    Schedules(batches, rows, Initial(batches), schedule)
  }

  ghost function RunFromStart(batches: seq<seq<Path>>, rows: Rows, schedule: seq<nat>): (end: Pool)
    requires StartsSchedule(batches, rows, schedule)
    ensures Inv(batches, rows, end)
  {
    InitialInv(batches, rows);
    RunSchedule(batches, rows, Initial(batches), schedule)
  }

  lemma {:induction false} ScheduleBounded(batches: seq<seq<Path>>, rows: Rows, pool: Pool, schedule: seq<nat>)
    requires Inv(batches, rows, pool) && Schedules(batches, rows, pool, schedule)
    ensures |schedule| <= Work(batches, pool)
    decreases |schedule|
  {
    if schedule != [] {
      StepKeepsInv(batches, rows, pool, schedule[0]);
      StepWorks(batches, rows, pool, schedule[0]);
      ScheduleBounded(batches, rows, Step(batches, rows, pool, schedule[0]), schedule[1..]);
    }
  }

  /** When every worker has returned, the map is all rows whose path was asked for. */
  lemma FinishedIsComplete(paths: seq<Path>, batches: seq<seq<Path>>, rows: Rows, pool: Pool)
    requires Flat(batches) == paths && Inv(batches, rows, pool)
    requires forall w: nat :: !CanStep(pool, w)
    ensures pool.out == RowsIn(rows, paths) && pool.cursor == |batches|
  {
    AllStored(batches, rows, pool);
    forall p
      ensures p in pool.out <==> p in rows && p in paths
    {
      FlatMember(batches, p);
    }
  }

  lemma AllStored(batches: seq<seq<Path>>, rows: Rows, pool: Pool)
    requires Inv(batches, rows, pool) && forall w: nat :: !CanStep(pool, w)
    ensures pool.cursor == |batches|
    ensures forall p :: FromStored(batches, pool, p) <==> exists b :: 0 <= b < |batches| && p in batches[b]
  {
    assert forall w: nat :: w < |pool.workers| ==> !CanStep(pool, w) && pool.workers[w].Finished?;
    if batches != [] {
      assert pool.workers[0].Finished?;
    }
    forall p
      ensures FromStored(batches, pool, p) <==> exists b :: 0 <= b < |batches| && p in batches[b]
    {
      if b :| 0 <= b < |batches| && p in batches[b] {
        assert Stored(pool, b);
      }
    }
  }

  /** Under every interleaving: at most eight queries are in flight, each batch is claimed exactly once and in order,
      the number of steps is bounded, and a run that can go no further ends in the same map. */
  lemma EveryInterleaving(paths: seq<Path>, batches: seq<seq<Path>>, rows: Rows, schedule: seq<nat>)
    requires Flat(batches) == paths && StartsSchedule(batches, rows, schedule)
    ensures var end := RunFromStart(batches, rows, schedule);
            && |end.workers| <= 8
            && |schedule| <= 3 * |batches| + 8
            && |end.claims| == end.cursor <= |batches| && (forall i :: 0 <= i < end.cursor ==> end.claims[i] == i)
            && ((forall w: nat :: !CanStep(end, w)) ==> end.out == RowsIn(rows, paths) && end.cursor == |batches|)
  {
    InitialInv(batches, rows);
    var end := RunFromStart(batches, rows, schedule);
    ScheduleBounded(batches, rows, Initial(batches), schedule);
    ReadyWeight(|Initial(batches).workers|);
    assert Initial(batches).workers == seq(|Initial(batches).workers|, _ => Ready);
    if forall w: nat :: !CanStep(end, w) {
      FinishedIsComplete(paths, batches, rows, end);
    }
  }

  lemma {:induction false} ReadyWeight(n: nat)
    ensures TotalWeight(seq(n, _ => Ready)) == n
    decreases n
  {
    if n > 0 {
      ReadyWeight(n - 1);
      assert seq(n, _ => Ready)[1..] == seq(n - 1, _ => Ready);
    }
  }

  /** The function itself, its workers stepping in any order. */
  method FileIdsForPaths(paths: seq<Path>, rows: Rows) returns (out: Rows)
    ensures out == RowsIn(rows, paths)
    ensures forall p :: p in out <==> p in rows && p in paths
    ensures forall p :: p in out ==> out[p] == rows[p]
  {
    var batches := MakeBatches(paths);
    var pool := Initial(batches);
    InitialInv(batches, rows);
    var running := set w: nat | w < |pool.workers| && CanStep(pool, w);
    while running != {}
      invariant Inv(batches, rows, pool)
      invariant forall w: nat :: w in running <==> CanStep(pool, w)
      decreases Work(batches, pool)
    {
      var w :| w in running;
      StepKeepsInv(batches, rows, pool, w);
      StepWorks(batches, rows, pool, w);
      pool := Step(batches, rows, pool, w);
      if pool.workers[w].Finished? {
        running := running - {w};
      }
    }
    FinishedIsComplete(paths, batches, rows, pool);
    out := pool.out;
  }
}
