/** The retry loop of the HTTP client, over an arbitrary sequence of attempt outcomes. */
module HttpRetry {
  import opened Basics

  datatype CurlCode =
    | CurlOk
    | CouldntConnect | CouldntResolveHost | CouldntResolveProxy | OperationTimedOut
    | GotNothing | SendError | RecvError | PartialFile
    | OtherCurlError

  predicate IsTransient(c: CurlCode) { !c.CurlOk? && !c.OtherCurlError? }

  /** One attempt: the transfer's code, and the status and body received. */
  datatype Attempt = Attempt(code: CurlCode, status: int, body: Bytes)

  datatype Reply = Reply(status: int, body: Bytes)

  /** An attempt that ends the loop at once: a response that is neither a server error nor a 429,
      or a permanent failure. */
  predicate Final(a: Attempt) {
    if a.code.CurlOk? then a.status < 500 && a.status != 429 else !IsTransient(a.code)
  }

  /** What is tried again: a 429, any status from 500 on, and eight kinds of failed transfer. */
  lemma RetriedExactly(a: Attempt)
    ensures !Final(a) <==>
            || (a.code == CurlOk && (a.status == 429 || a.status >= 500))
            || a.code == CouldntConnect || a.code == CouldntResolveHost || a.code == CouldntResolveProxy
            || a.code == OperationTimedOut || a.code == GotNothing || a.code == SendError || a.code == RecvError
            || a.code == PartialFile
  {
  }

  function FinalResult(a: Attempt): Result<Reply> {
    if a.code.CurlOk? then Ok(Reply(a.status, a.body)) else Err(Network)
  }

  /** What is returned when the retries run out: decided by the last attempt alone. */
  function Exhausted(a: Attempt): Result<Reply> {
    if a.code.CurlOk? && a.status != 0 then Ok(Reply(a.status, a.body)) else Err(Network)
  }

  /** The result of the loop, the number of attempts and the total time slept. */
  datatype Outcome = Outcome(result: Result<Reply>, attempts: nat, slept: nat)

  /** The first final attempt decides; otherwise the last one the budget allows. */
  ghost predicate IsOutcome(attempts: nat -> Attempt, maxRetries: nat, backoff: nat, o: Outcome) {
    && 1 <= o.attempts <= maxRetries + 1
    && var last := attempts(o.attempts - 1);
    && (forall i: nat :: i < o.attempts - 1 ==> !Final(attempts(i)))
    && (if Final(last) then o.result == FinalResult(last)
        else o.attempts == maxRetries + 1 && o.result == Exhausted(last))
    && o.slept == backoff * (Pow2(o.attempts - 1) - 1)
  }

  /** The shift in the backoff is only defined below the width of an unsigned int. */
  method PerformWithRetry(attempts: nat -> Attempt, maxRetries: nat, backoff: nat) returns (o: Outcome)
    requires maxRetries <= 32
    ensures IsOutcome(attempts, maxRetries, backoff, o)
  {
    var attempt: nat, slept: nat, shift: nat := 0, 0, 1;
    while true
      invariant attempt <= maxRetries
      invariant shift == Pow2(attempt) && slept == backoff * (shift - 1)
      invariant forall i: nat :: i < attempt ==> !Final(attempts(i))
      decreases maxRetries - attempt
    {
      var resp := Reply(0, attempts(attempt).body);
      var res := attempts(attempt).code;
      if res == CurlOk {
        resp := resp.(status := attempts(attempt).status);
        if resp.status < 500 && resp.status != 429 { return Outcome(Ok(resp), attempt + 1, slept); }
      } else if !IsTransient(res) {
        return Outcome(Err(Network), attempt + 1, slept);
      }
      if attempt >= maxRetries {
        return Outcome(if resp.status != 0 then Ok(resp) else Err(Network), attempt + 1, slept);
      }
      slept := slept + backoff * shift;
      attempt, shift := attempt + 1, 2 * shift;
    }
  }

  /** The waits before the first k retries, each twice as long as the one before. */
  function Waits(backoff: nat, k: nat): nat { if k == 0 then 0 else Waits(backoff, k - 1) + Wait(backoff, k) }

  function Wait(backoff: nat, k: nat): nat
    requires k > 0
  {
    if k == 1 then backoff else 2 * Wait(backoff, k - 1)
  }

  lemma {:induction false} WaitIs(backoff: nat, k: nat)
    requires k > 0
    ensures Wait(backoff, k) == backoff * Pow2(k - 1)
  {
    if k > 1 { WaitIs(backoff, k - 1); }
  }

  lemma {:induction false} WaitsAre(backoff: nat, k: nat)
    ensures Waits(backoff, k) == backoff * (Pow2(k) - 1)
  {
    if k > 0 {
      WaitsAre(backoff, k - 1);
      WaitIs(backoff, k);
    }
  }

  /** The time slept is the sum of waits that double, one before every attempt but the first. */
  lemma SleptIs(attempts: nat -> Attempt, maxRetries: nat, backoff: nat, o: Outcome)
    requires IsOutcome(attempts, maxRetries, backoff, o)
    ensures o.slept == Waits(backoff, o.attempts - 1)
  {
    WaitsAre(backoff, o.attempts - 1);
  }

  /** Whatever is returned is what the deciding attempt brought: its own status and body. */
  lemma ReturnedReply(attempts: nat -> Attempt, maxRetries: nat, backoff: nat, o: Outcome)
    requires IsOutcome(attempts, maxRetries, backoff, o)
    ensures var last := attempts(o.attempts - 1);
            o.result == if last.code == CurlOk then Ok(Reply(last.status, last.body)) else Err(Network)
  {
  }

  /** The outcome is determined by the attempts and the budget. */
  lemma OutcomeUnique(attempts: nat -> Attempt, maxRetries: nat, backoff: nat, a: Outcome, b: Outcome)
    requires IsOutcome(attempts, maxRetries, backoff, a) && IsOutcome(attempts, maxRetries, backoff, b)
    ensures a == b
  {
  }

  /** An error is returned exactly when the deciding attempt brought no response. */
  lemma ErrorIff(attempts: nat -> Attempt, maxRetries: nat, backoff: nat, o: Outcome)
    requires IsOutcome(attempts, maxRetries, backoff, o)
    ensures o.result.Err? <==> !attempts(o.attempts - 1).code.CurlOk?
  {
  }

  /** What the comment on the loop promises: an error only if no response was ever obtained. */
  ghost predicate PromiseKept(attempts: nat -> Attempt, o: Outcome) {
    o.result.Err? ==> forall i: nat :: i < o.attempts ==> !attempts(i).code.CurlOk?
  }

  /** Attempt k ends the loop without a response: it fails for good, or the budget ends with it. */
  ghost predicate EndsWithout(attempts: nat -> Attempt, maxRetries: nat, k: nat) {
    && k <= maxRetries && !attempts(k).code.CurlOk?
    && (Final(attempts(k)) || k == maxRetries)
    && forall i: nat :: i < k ==> !Final(attempts(i))
  }

  /** A server error or a 429 comes first and is lost. */
  ghost predicate Loses(attempts: nat -> Attempt, maxRetries: nat) {
    exists k: nat, j: nat :: j < k && EndsWithout(attempts, maxRetries, k) && attempts(j).code.CurlOk?
  }

  /** The promise is kept exactly when no response is followed, within the budget, by attempts that
      end without one. The condition speaks of the attempts alone. */
  lemma PromiseKeptIff(attempts: nat -> Attempt, maxRetries: nat, backoff: nat, o: Outcome)
    requires IsOutcome(attempts, maxRetries, backoff, o)
    ensures PromiseKept(attempts, o) <==> !Loses(attempts, maxRetries)
  {
    var last := o.attempts - 1;
    if !PromiseKept(attempts, o) {
      var j: nat :| j < o.attempts && attempts(j).code.CurlOk?;
      assert j < last && EndsWithout(attempts, maxRetries, last);
    }
    if Loses(attempts, maxRetries) {
      var k: nat, j: nat :| j < k && EndsWithout(attempts, maxRetries, k) && attempts(j).code.CurlOk?;
      assert k == last;
    }
  }

  /** A 503 followed by a timeout is reported as a network error although a response had come. */
  lemma LostResponse(backoff: nat)
    ensures var attempts := (i: nat) => if i == 0 then Attempt(CurlOk, 503, []) else Attempt(OperationTimedOut, 0, []);
            var o := Outcome(Err(Network), 2, backoff);
            IsOutcome(attempts, 1, backoff, o) && !PromiseKept(attempts, o) && Loses(attempts, 1)
  {
    var attempts := (i: nat) => if i == 0 then Attempt(CurlOk, 503, []) else Attempt(OperationTimedOut, 0, []);
    var o := Outcome(Err(Network), 2, backoff);
    assert Pow2(1) == 2;
    assert attempts(0).code.CurlOk?;
    assert !PromiseKept(attempts, o);
    PromiseKeptIff(attempts, 1, backoff, o);
  }
}
