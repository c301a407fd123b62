/**
 * The engine's bookkeeping of device queues. For the graphics family and the
 * compute family it keeps a maximum and an available count; a pipeline that
 * is set up receives the start index `max - available` of each family and
 * the available counts then drop by the pipeline's requirements.
 */
module QueueBudget {
  import opened Common

  /** How many graphics and compute queues a pipeline uses. */
  datatype QueueRequirements = QueueRequirements(graphics: u32, compute: u32)

  /** The queue counters of the graphics and the compute family. */
  datatype Budget = Budget(graphicsMax: u32, graphicsAvailable: u32, computeMax: u32, computeAvailable: u32)

  /** First queue index a pipeline receives in each family. */
  datatype StartIndices = StartIndices(graphics: u32, compute: u32)

  /** No family has more queues available than it has. */
  predicate Consistent(b: Budget)
  {
    b.graphicsAvailable <= b.graphicsMax && b.computeAvailable <= b.computeMax
  }

  /** The requirement fits in what is still available. */
  predicate Fits(b: Budget, req: QueueRequirements)
  {
    req.graphics <= b.graphicsAvailable && req.compute <= b.computeAvailable
  }

  /**
   * The start indices handed to the next pipeline: in a consistent budget,
   * the number of queues of each family already handed out.
   */
  function Starts(b: Budget): (r: StartIndices)
    ensures Consistent(b) ==> r.graphics + b.graphicsAvailable == b.graphicsMax
    ensures Consistent(b) ==> r.compute + b.computeAvailable == b.computeMax
  {
    StartIndices(Sub32(b.graphicsMax, b.graphicsAvailable), Sub32(b.computeMax, b.computeAvailable))
  }

  /**
   * The charge of a requirement as the engine writes it: the available
   * counts are `uint32_t` and are decreased without any check.
   */
  function Charge(b: Budget, req: QueueRequirements): (r: Budget)
    ensures r.graphicsMax == b.graphicsMax && r.computeMax == b.computeMax
    ensures Fits(b, req) ==> r.graphicsAvailable + req.graphics == b.graphicsAvailable
    ensures Fits(b, req) ==> r.computeAvailable + req.compute == b.computeAvailable
  {
    b.(graphicsAvailable := Sub32(b.graphicsAvailable, req.graphics),
       computeAvailable := Sub32(b.computeAvailable, req.compute))
  }

  /**
   * A requirement that fits keeps the budget consistent and moves the start
   * indices on by exactly the requirement, so the pipeline owns the queue
   * ranges [start, start + requirement) of each family.
   */
  lemma ChargeAdvancesStarts(b: Budget, req: QueueRequirements)
    requires Consistent(b) && Fits(b, req)
    ensures Consistent(Charge(b, req))
    ensures Starts(Charge(b, req)).graphics == Starts(b).graphics + req.graphics
    ensures Starts(Charge(b, req)).compute == Starts(b).compute + req.compute
    ensures Starts(Charge(b, req)).graphics <= b.graphicsMax && Starts(Charge(b, req)).compute <= b.computeMax
  {
  }

  /**
   * A requirement larger than what is available makes the available count
   * wrap around to a huge value, and the next start index then lies beyond
   * the family's queues: with 4 graphics queues all taken, one more queue
   * leaves 2^32 - 1 available and the next pipeline starts at index 5.
   */
  lemma ChargeUnderflows()
    ensures Charge(Budget(4, 0, 0, 0), QueueRequirements(1, 0)).graphicsAvailable == U32_MAX
    ensures !Consistent(Charge(Budget(4, 0, 0, 0), QueueRequirements(1, 0)))
    ensures Starts(Charge(Budget(4, 0, 0, 0), QueueRequirements(1, 0))).graphics == 5
  {
  }

  datatype Claimed = Granted(starts: StartIndices, budget: Budget) | Exhausted

  /**
   * The queue claim with the bounds check the counters need: a requirement
   * is granted only when it fits, and the grant carries the start indices
   * and the charged budget.
   */
  function Claim(b: Budget, req: QueueRequirements): (r: Claimed)
    ensures r.Granted? <==> Fits(b, req)
    ensures r.Granted? ==> r.starts == Starts(b)
    ensures r.Granted? ==> r.budget.graphicsAvailable + req.graphics == b.graphicsAvailable
    ensures r.Granted? ==> r.budget.computeAvailable + req.compute == b.computeAvailable
    ensures r.Granted? && Consistent(b) ==> Consistent(r.budget)
  {
    if Fits(b, req) then Granted(Starts(b), Charge(b, req)) else Exhausted
  }

  /** Total graphics and compute queues of a list of requirements. */
  function TotalGraphics(reqs: seq<QueueRequirements>): nat
  {
    if reqs == [] then 0 else TotalGraphics(reqs[..|reqs| - 1]) + reqs[|reqs| - 1].graphics
  }

  function TotalCompute(reqs: seq<QueueRequirements>): nat
  {
    if reqs == [] then 0 else TotalCompute(reqs[..|reqs| - 1]) + reqs[|reqs| - 1].compute
  }

  /** The budget after charging each requirement in turn. */
  function ChargeAll(b: Budget, reqs: seq<QueueRequirements>): Budget
  {
    if reqs == [] then b else Charge(ChargeAll(b, reqs[..|reqs| - 1]), reqs[|reqs| - 1])
  }

  /**
   * Pipelines whose total requirement fits in the initial budget receive
   * back-to-back queue ranges: after all of them the start indices have
   * moved on by exactly the totals, never past the maximum.
   */
  lemma {:induction false} ChargeAllContiguous(b: Budget, reqs: seq<QueueRequirements>)
    requires Consistent(b)
    requires TotalGraphics(reqs) <= b.graphicsAvailable && TotalCompute(reqs) <= b.computeAvailable
    ensures Consistent(ChargeAll(b, reqs))
    ensures ChargeAll(b, reqs).graphicsAvailable == b.graphicsAvailable - TotalGraphics(reqs)
    ensures ChargeAll(b, reqs).computeAvailable == b.computeAvailable - TotalCompute(reqs)
    ensures Starts(ChargeAll(b, reqs)).graphics == Starts(b).graphics + TotalGraphics(reqs)
    ensures Starts(ChargeAll(b, reqs)).compute == Starts(b).compute + TotalCompute(reqs)
    decreases |reqs|
  {
    if reqs != [] {
      var init := reqs[..|reqs| - 1];
      ChargeAllContiguous(b, init);
      ChargeAdvancesStarts(ChargeAll(b, init), reqs[|reqs| - 1]);
    }
  }
}
