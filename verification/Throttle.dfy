/** The concurrency bound of `BatchDocumentLoader`. `__init__` builds
    `asyncio.Semaphore(max_concurrent)`, and every `_load_with_semaphore`
    task holds one permit for the length of one `loader.load()`. The event
    loop is abstracted to counts: free permits, and tasks waiting to acquire,
    running their load, and finished. */
module Throttle {
  import opened Wrappers

  /** The text of the `ValueError` `asyncio.Semaphore` raises for a negative
      initial value. */
  const NegativeValueMessage := "Semaphore initial value must be >= 0"

  /** The text of the check the corrected constructor performs. */
  const TooFewPermitsMessage := "max_concurrent must be at least 1"

  /** `asyncio.Semaphore(value)` as the constructor calls it, unchecked: a
      negative value raises, and any other value, zero included, becomes the
      number of free permits. */
  function NewSemaphore(value: int): (r: Result<nat, string>)
    ensures r.Success? <==> value >= 0
    ensures r.Success? ==> r.value == value
    ensures r.Failure? ==> r.error == NegativeValueMessage
  {
    if value < 0 then Failure(NegativeValueMessage) else Success(value)
  }

  /** The constructor with a lower-bound check added: fewer than one
      permit is refused before any semaphore is built. */
  function CheckedSemaphore(value: int): (r: Result<nat, string>)
    ensures r.Success? <==> value >= 1
    ensures r.Success? ==> r.value == value && NewSemaphore(value) == r
    ensures r.Failure? ==> r.error == TooFewPermitsMessage
  {
    if value < 1 then Failure(TooFewPermitsMessage) else NewSemaphore(value)
  }

  /** The state of the tasks `gather` runs on one semaphore. */
  datatype Pool = Pool(permits: nat, waiting: nat, running: nat, finished: nat)

  /** `gather` has just started `loaders` tasks on a semaphore with `permits`
      free permits. */
  function Start(permits: nat, loaders: nat): Pool {
    Pool(permits, loaders, 0, 0)
  }

  /** One scheduler step: a waiting task acquires a free permit and starts its
      load (entering `async with`), or a running task's load ends and it
      releases its permit (leaving `async with`). */
  predicate Step(p: Pool, q: Pool) {
    || (p.permits > 0 && p.waiting > 0 && q == Pool(p.permits - 1, p.waiting - 1, p.running + 1, p.finished))
    || (p.running > 0 && q == Pool(p.permits + 1, p.waiting, p.running - 1, p.finished + 1))
  }

  /** A schedule: a non-empty list of pools, each one step after the last. */
  predicate IsRun(t: seq<Pool>) {
    |t| > 0 && forall i :: 0 <= i < |t| - 1 ==> Step(t[i], t[i + 1])
  }

  /** No task can move: every task that could acquire is blocked, and none is
      running. */
  ghost predicate Stuck(p: Pool) {
    forall q :: !Step(p, q)
  }

  /** Stuck exactly when nothing runs and nobody can acquire. */
  lemma StuckIff(p: Pool)
    ensures Stuck(p) <==> p.running == 0 && (p.permits == 0 || p.waiting == 0)
  {
    if p.running > 0 {
      assert Step(p, Pool(p.permits + 1, p.waiting, p.running - 1, p.finished + 1));
    } else if p.permits > 0 && p.waiting > 0 {
      assert Step(p, Pool(p.permits - 1, p.waiting - 1, p.running + 1, p.finished));
    }
  }

  /** Along any schedule the permits held and free add up to the initial
      permits, so no more than that many loads ever run at once, and no task
      is lost or created. */
  lemma {:induction false} RunKeepsTotals(t: seq<Pool>)
    requires IsRun(t)
    ensures forall i :: 0 <= i < |t| ==>
              && t[i].permits + t[i].running == t[0].permits + t[0].running
              && t[i].waiting + t[i].running + t[i].finished == t[0].waiting + t[0].running + t[0].finished
    decreases |t|
  {
    if |t| > 1 {
      var init := t[..|t| - 1];
      assert IsRun(init) by {
        forall i | 0 <= i < |init| - 1
          ensures Step(init[i], init[i + 1])
        {
          assert init[i] == t[i] && init[i + 1] == t[i + 1];
        }
      }
      RunKeepsTotals(init);
      assert Step(t[|t| - 2], t[|t| - 1]);
      assert init[|init| - 1] == t[|t| - 2];
    }
  }

  /** Every schedule from a start with `permits` permits runs at most
      `permits` loads at once. */
  lemma RunBoundsConcurrency(t: seq<Pool>, permits: nat, loaders: nat)
    requires IsRun(t) && t[0] == Start(permits, loaders)
    ensures forall i :: 0 <= i < |t| ==> t[i].running <= permits
  {
    RunKeepsTotals(t);
  }

  /** The code as written with `max_concurrent` 0: the semaphore is built,
      but with a loader waiting no task can ever acquire it and none is
      running, so the pool cannot take a single step and `gather`, which
      returns only once every task has finished, never returns. */
  lemma ZeroPermitsStall(loaders: nat)
    requires loaders > 0
    ensures NewSemaphore(0) == Success(0)
    ensures Stuck(Start(0, loaders)) && Start(0, loaders).finished < loaders
  {
    StuckIff(Start(0, loaders));
  }

  /** With at least one permit, a schedule that cannot go on has finished
      every task. */
  lemma StuckMeansFinished(t: seq<Pool>, permits: nat, loaders: nat)
    requires permits >= 1
    requires IsRun(t) && t[0] == Start(permits, loaders) && Stuck(t[|t| - 1])
    ensures t[|t| - 1].finished == loaders
  {
    RunKeepsTotals(t);
    StuckIff(t[|t| - 1]);
  }

  /** One schedule that runs every task to the end: a running task finishes
      first, otherwise a waiting one acquires. */
  function Drain(p: Pool): (t: seq<Pool>)
    requires p.permits + p.running >= 1
    ensures IsRun(t) && t[0] == p
    ensures t[|t| - 1].waiting == 0 && t[|t| - 1].running == 0
    ensures t[|t| - 1].finished == p.finished + p.waiting + p.running
    decreases 2 * p.waiting + p.running
  {
    if p.running > 0 then
      var q := Pool(p.permits + 1, p.waiting, p.running - 1, p.finished + 1);
      var rest := Drain(q);
      PrependStep(p, rest);
      [p] + rest
    else if p.waiting > 0 then
      var q := Pool(p.permits - 1, p.waiting - 1, p.running + 1, p.finished);
      var rest := Drain(q);
      PrependStep(p, rest);
      [p] + rest
    else
      [p]
  }

  lemma PrependStep(p: Pool, rest: seq<Pool>)
    requires IsRun(rest) && Step(p, rest[0])
    ensures IsRun([p] + rest)
  {
    var t := [p] + rest;
    forall i | 0 <= i < |t| - 1
      ensures Step(t[i], t[i + 1])
    {
      if i > 0 {
        assert t[i] == rest[i - 1] && t[i + 1] == rest[i];
      }
    }
  }

  /** The corrected constructor: once `max_concurrent` passes the check,
      every batch can run all its loaders to the end, no schedule that stops
      leaves a loader unfinished, and no more than `max_concurrent` loads run
      at once. */
  lemma CheckedPoolCompletes(value: int, loaders: nat)
    requires CheckedSemaphore(value).Success?
    ensures var permits := CheckedSemaphore(value).value;
            var t := Drain(Start(permits, loaders));
            && IsRun(t) && t[0] == Start(permits, loaders)
            && t[|t| - 1].finished == loaders
            && forall i :: 0 <= i < |t| ==> t[i].running <= permits
    ensures forall t: seq<Pool> :: IsRun(t) && t[0] == Start(value, loaders) && Stuck(t[|t| - 1]) ==>
              t[|t| - 1].finished == loaders
  {
    var permits := CheckedSemaphore(value).value;
    RunBoundsConcurrency(Drain(Start(permits, loaders)), permits, loaders);
    forall t: seq<Pool> | IsRun(t) && t[0] == Start(value, loaders) && Stuck(t[|t| - 1])
      ensures t[|t| - 1].finished == loaders
    {
      StuckMeansFinished(t, permits, loaders);
    }
  }
}
