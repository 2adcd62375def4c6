/** The arithmetic of the updater's configuration check. */
module UpdaterConfig {
  import opened Wrappers
  import opened GoTypes

  datatype Overflow = PerBatchOverflow | BacklogOverflow | TotalOverflow

  /** The backlog budget plus the request's read time, in unbounded integers. */
  function TrueBudget(maxWait: int, operationTimeout: int, readTimeout: int, queueSize: int): int {
    readTimeout + (queueSize + 1) * (maxWait + operationTimeout)
  }

  /** The guards are exact: an error exactly when the true budget is not a Duration. */
  method WorstCaseAcknowledgementTime(maxWait: int64, operationTimeout: int64, readTimeout: int64, queueSize: int64)
    returns (r: Result<int64, Overflow>)
    requires maxWait > 0 && operationTimeout > 0 && readTimeout > 0 && 1 <= queueSize <= 1_000_000
    ensures r.Ok? <==> TrueBudget(maxWait, operationTimeout, readTimeout, queueSize) <= MAX_INT64
    ensures r.Ok? ==> r.value == TrueBudget(maxWait, operationTimeout, readTimeout, queueSize)
    ensures r == Err(PerBatchOverflow) <==> maxWait + operationTimeout > MAX_INT64
    ensures r == Err(BacklogOverflow) <==>
              maxWait + operationTimeout <= MAX_INT64 < (queueSize + 1) * (maxWait + operationTimeout)
  {
    ghost var sum := maxWait + operationTimeout;
    ghost var product := (queueSize + 1) * sum;
    MoreTimes(queueSize + 1, 1, sum);
    WrapsAround(sum);
    hide Wrap;
    var perBatch := Wrap(maxWait + operationTimeout);
    if perBatch < maxWait {
      return Err(PerBatchOverflow);
    }
    var batchCount := queueSize + 1;
    QuotientGuard(perBatch, batchCount, MAX_INT64);
    assert perBatch * batchCount == product;
    if perBatch > MAX_INT64 / batchCount {
      return Err(BacklogOverflow);
    }
    assert batchCount * perBatch == product;
    var backlog := Wrap(batchCount * perBatch);
    if backlog > MAX_INT64 - readTimeout {
      return Err(TotalOverflow);
    }
    r := Ok(Wrap(readTimeout + backlog));
  }

  /** A sum of two positive int64 values that leaves the range comes out negative. */
  lemma WrapsAround(sum: int)
    requires 0 < sum <= 2 * MAX_INT64
    ensures sum > MAX_INT64 ==> Wrap(sum) < 0
  {
    if sum > MAX_INT64 {
      WrapUnique(sum, sum - TWO_64);
    }
  }
}
