/** The retry loops of src/timeout.c: one loop, and the answers each of the eleven wrappers takes
    for final. */
module Retry {
  import opened Basics

  /** A dpl_status_t, as far as the wrappers tell them apart. */
  datatype Status = Success | Enoent | Eisdir | Einval | Other(code: int)

  datatype Call = Getattr | Setattr | Mknod | Mkdir | Unlink | Rmdir | Fcopy | Chdir | Opendir | Namei | HeadAll

  predicate Final(call: Call, rc: Status) {
    match call
    case Getattr => rc == Success || rc == Eisdir || rc == Enoent
    case Setattr => rc == Success || rc == Eisdir
    case Mknod => rc == Success
    case Chdir => rc == Success || rc == Einval
    case _ => rc == Success || rc == Enoent
  }

  function Pow2(k: nat): (p: nat)
    ensures p > 0
  {
    if k == 0 then 1 else 2 * Pow2(k - 1)
  }

  /** The number of retries: up to the first final answer, or as many as are allowed. */
  function Retries(call: Call, answers: nat -> Status, maxRetry: int): nat {
    FirstFrom(0, if maxRetry < 0 then 0 else maxRetry, (i: nat) => Final(call, answers(i)))
  }

  lemma RetriesIs(call: Call, answers: nat -> Status, maxRetry: int, k: nat)
    requires forall i: nat :: i < k ==> !Final(call, answers(i))
    requires Final(call, answers(k)) || k >= maxRetry
    requires k == 0 || k <= maxRetry
    ensures Retries(call, answers, maxRetry) == k
  {
    var p := (i: nat) => Final(call, answers(i));
    assert forall i: nat :: p(i) == Final(call, answers(i));
  }

  /** Any of the wrappers: src/timeout.c:6-31 and the ten that follow. `slept` is the time in
      sleep(3), and `calls` how often the store was asked. */
  method Retry(call: Call, answers: nat -> Status, maxRetry: int)
    returns (rc: Status, calls: nat, slept: nat, delay: nat)
    ensures var k := Retries(call, answers, maxRetry);
            rc == answers(k) && calls == k + 1 && slept == Pow2(k) - 1 && delay == Pow2(k)
    ensures maxRetry > 0 ==>
              (calls == 1 <==>
                 || answers(0) == Success
                 || (answers(0) == Enoent && call != Setattr && call != Mknod && call != Chdir)
                 || (answers(0) == Eisdir && (call == Getattr || call == Setattr))
                 || (answers(0) == Einval && call == Chdir))
    ensures maxRetry <= 0 ==> calls == 1
    ensures rc == Success || calls == (if maxRetry < 0 then 1 else maxRetry + 1)
            || (rc == Enoent && call != Setattr && call != Mknod && call != Chdir)
            || (rc == Eisdir && (call == Getattr || call == Setattr))
            || (rc == Einval && call == Chdir)
  {
    var tries := 0;
    delay, calls, slept := 1, 0, 0;
    rc := answers(calls);
    calls := calls + 1;
    while !Final(call, rc) && tries < maxRetry
      invariant 0 <= tries && (tries == 0 || tries <= maxRetry)
      invariant rc == answers(tries) && calls == tries + 1
      invariant forall i: nat :: i < tries ==> !Final(call, answers(i))
      invariant slept == Pow2(tries) - 1 && delay == Pow2(tries)
      decreases maxRetry - tries
    {
      tries := tries + 1;
      slept := slept + delay;
      delay := delay * 2;
      rc := answers(calls);
      calls := calls + 1;
    }
    RetriesIs(call, answers, maxRetry, tries);
    if maxRetry > 0 { AtOnce(call, answers, maxRetry); }
  }

  /** The answer is the first final one among the first maxRetry + 1, or the last of these. */
  lemma FirstFinalOrLast(call: Call, answers: nat -> Status, maxRetry: int)
    ensures var k := Retries(call, answers, maxRetry);
            && k <= (if maxRetry < 0 then 0 else maxRetry)
            && (forall i: nat :: i < k ==> !Final(call, answers(i)))
            && (Final(call, answers(k)) || k == if maxRetry < 0 then 0 else maxRetry)
  {
    var p := (i: nat) => Final(call, answers(i));
    assert forall i: nat :: p(i) == Final(call, answers(i));
  }

  /** Which first answers end the loop at once, wrapper by wrapper: success always; that there is no such
      file, except for setattr, mknod and chdir; that it is a directory, for getattr and setattr; that it
      is invalid, for chdir; and nothing else. */
  lemma AtOnce(call: Call, answers: nat -> Status, maxRetry: int)
    requires maxRetry > 0
    ensures Retries(call, answers, maxRetry) == 0 <==>
            || answers(0) == Success
            || (answers(0) == Enoent && call != Setattr && call != Mknod && call != Chdir)
            || (answers(0) == Eisdir && (call == Getattr || call == Setattr))
            || (answers(0) == Einval && call == Chdir)
  {
    FirstFinalOrLast(call, answers, maxRetry);
  }

  lemma {:induction false} Pow2Grows(j: nat, k: nat)
    requires j <= k
    ensures Pow2(j) <= Pow2(k)
    decreases k
  {
    if j < k { Pow2Grows(j, k - 1); }
  }

  /** The delay fits an int whatever the store answers exactly when at most 30 retries are allowed. */
  lemma DelayFits(call: Call, maxRetry: int)
    ensures (forall answers: nat -> Status :: Pow2(Retries(call, answers, maxRetry)) < 0x8000_0000) <==> maxRetry <= 30
  {
    assert Pow2(30) == 0x4000_0000 by { Pow2Of30(); }
    forall answers: nat -> Status | maxRetry <= 30 ensures Pow2(Retries(call, answers, maxRetry)) < 0x8000_0000
    {
      FirstFinalOrLast(call, answers, maxRetry);
      Pow2Grows(Retries(call, answers, maxRetry), 30);
    }
    if maxRetry > 30 {
      var never: nat -> Status := (i: nat) => Other(i);
      FirstFinalOrLast(call, never, maxRetry);
      assert !Final(call, never(Retries(call, never, maxRetry)));
      Pow2Grows(31, maxRetry);
      assert Pow2(Retries(call, never, maxRetry)) >= 0x8000_0000;
    }
  }

  lemma Pow2Of30()
    ensures Pow2(30) == 0x4000_0000
  {
    assert Pow2(10) == 1024;
    assert Pow2(20) == 1024 * Pow2(10);
    assert Pow2(30) == 1024 * Pow2(20);
  }
}
