/** Nonces of a live deploy run: handed out in order, starting where the previous stage ended. */
module NonceManagers {
  import opened Wrappers

  class NonceManager {
    var nonce: nat

    constructor (start: nat)
      ensures nonce == start
    {
      nonce := start;
    }

    /** Hand out the next nonce. */
    method Override() returns (current: nat)
      modifies this
      ensures current == old(nonce) && nonce == old(nonce) + 1
    {
      current := nonce;
      nonce := nonce + 1;
    }
  }

  /** Something that is read again and again: its answers, one per read. */
  class Probe<A> {
    const answers: nat -> A
    var asked: nat

    constructor (answers: nat -> A)
      ensures this.answers == answers && asked == 0
    {
      this.answers := answers;
      asked := 0;
    }

    method Read() returns (a: A)
      modifies this
      ensures asked == old(asked) + 1 && a == answers(old(asked))
    {
      a := answers(asked);
      asked := asked + 1;
    }
  }

  function AtLeastOne(attempts: int): nat {
    if attempts < 1 then 1 else attempts
  }

  /** Every one of the answers from `first` on, up to but without `end`, fails the check. */
  predicate AllFail<A, T>(answers: nat -> A, check: A -> Result<T, string>, first: nat, end: nat) {
    forall k: nat | first <= k < end :: check(answers(k)).Failure?
  }

  /** Repeat a failing check; the first success, or the last error, is the result. */
  method RetryReadOnLag<A, T>(probe: Probe<A>, check: A -> Result<T, string>, attempts: int)
      returns (r: Result<T, string>)
    modifies probe
    ensures old(probe.asked) < probe.asked <= old(probe.asked) + AtLeastOne(attempts)
    ensures r == check(probe.answers(probe.asked - 1))
    ensures AllFail(probe.answers, check, old(probe.asked), probe.asked - 1)
    ensures r.Failure? ==> probe.asked == old(probe.asked) + AtLeastOne(attempts)
  {
    var attempt := 1;
    while true
      invariant attempt == probe.asked - old(probe.asked) + 1 <= AtLeastOne(attempts)
      invariant AllFail(probe.answers, check, old(probe.asked), probe.asked)
      decreases AtLeastOne(attempts) - attempt
    {
      var answer := probe.Read();
      r := check(answer);
      if r.Success? || attempt >= attempts {
        return;
      }
      attempt := attempt + 1;
    }
  }

  /** How the start nonce was not as expected. */
  datatype NonceError = TooLow(message: string) | SentOutside(extra: nat)

  /** One read of the signer's nonce, which may fail, against the expected one. */
  function CheckNotBehind(read: Option<nat>, expected: nat): Result<nat, string> {
    if read.None? then Failure("read failed")
    else if read.value < expected then Failure("the RPC node is behind")
    else Success(read.value)
  }

  /** A read that failed, or shows a nonce that was used before. */
  predicate Lags(read: Option<nat>, expected: nat) {
    read.None? || read.value < expected
  }

  /** The k-th read is the first that does not lag. */
  predicate FirstCaughtUp(answers: nat -> Option<nat>, first: nat, k: nat, expected: nat) {
    && first <= k && !Lags(answers(k), expected)
    && forall j: nat | first <= j < k :: Lags(answers(j), expected)
  }

  lemma OneFirstCaughtUp(answers: nat -> Option<nat>, first: nat, j: nat, k: nat, expected: nat)
    requires FirstCaughtUp(answers, first, j, expected) && FirstCaughtUp(answers, first, k, expected)
    ensures j == k
  {
    assert j < k ==> Lags(answers(j), expected);
    assert k < j ==> Lags(answers(k), expected);
  }

  /** A stage starts at the expected nonce exactly when the first read that does not lag, among those
      allowed, shows it; a higher nonce aborts at once. */
  method AwaitExpectedNonce(probe: Probe<Option<nat>>, expected: nat, attempts: int) returns (r: Result<nat, NonceError>)
    modifies probe
    ensures r.Success? ==> r.value == expected
    ensures r.Success? <==> exists k: nat | FirstCaughtUp(probe.answers, old(probe.asked), k, expected) ::
                k < old(probe.asked) + AtLeastOne(attempts) && probe.answers(k) == Some(expected)
    ensures (r.Failure? && r.error.SentOutside?) <==>
              exists k: nat | FirstCaughtUp(probe.answers, old(probe.asked), k, expected) ::
                k < old(probe.asked) + AtLeastOne(attempts) && probe.answers(k) != Some(expected)
    ensures old(probe.asked) < probe.asked <= old(probe.asked) + AtLeastOne(attempts)
  {
    ghost var first, answers := probe.asked, probe.answers;
    var check := (read: Option<nat>) => CheckNotBehind(read, expected);
    var nonce := RetryReadOnLag(probe, check, attempts);
    forall j: nat | first <= j < probe.asked - 1 ensures Lags(answers(j), expected) {
      assert check(answers(j)).Failure?;
    }
    if nonce.Failure? {
      assert forall k: nat | first <= k < probe.asked :: Lags(answers(k), expected);
      return Failure(TooLow(nonce.error));
    }
    ghost var last := probe.asked - 1;
    assert FirstCaughtUp(answers, first, last, expected);
    forall k: nat | FirstCaughtUp(answers, first, k, expected) ensures k == last {
      OneFirstCaughtUp(answers, first, k, last, expected);
    }
    if nonce.value > expected {
      return Failure(SentOutside(nonce.value - expected));
    }
    return Success(nonce.value);
  }

  /** The nonce the crowdfund stage must start at, if the handoff applies. */
  function CrowdfundHandoffNonce(recorded: Option<nat>, hardenTimelock: bool, local: bool): Result<Option<nat>, string> {
    if !hardenTimelock || local then Success(None)
    else if recorded.None? then Failure("Governance manifest has no deployerNonceAfterGovernance")
    else Success(recorded)
  }

  /** Start a stage on a live chain, at the expected nonce if there is one. */
  method CreateNonceManager(probe: Probe<Option<nat>>, expectedStartNonce: Option<nat>, attempts: int)
      returns (nm: Option<NonceManager>)
    modifies probe
    ensures nm.Some? ==> fresh(nm.value)
    ensures nm.Some? && expectedStartNonce.Some? ==> nm.value.nonce == expectedStartNonce.value
    ensures nm.Some? && expectedStartNonce.None? ==> probe.answers(old(probe.asked)) == Some(nm.value.nonce)
  {
    if expectedStartNonce.Some? {
      var start := AwaitExpectedNonce(probe, expectedStartNonce.value, attempts);
      if start.Failure? {
        return None;
      }
      var manager := new NonceManager(start.value);
      return Some(manager);
    }
    var read := probe.Read();
    if read.None? {
      return None;
    }
    var manager := new NonceManager(read.value);
    return Some(manager);
  }

  /** Two stages back to back: a hardened live crowdfund stage that starts does so at the nonce where
      governance ended. */
  method StartCrowdfundStage(probe: Probe<Option<nat>>, recorded: Option<nat>, hardenTimelock: bool, attempts: int)
      returns (nm: Option<NonceManager>)
    modifies probe
    ensures nm.Some? ==> fresh(nm.value)
    ensures nm.Some? && hardenTimelock ==> recorded == Some(nm.value.nonce)
  {
    var expected := CrowdfundHandoffNonce(recorded, hardenTimelock, false);
    if expected.Failure? {
      return None;
    }
    nm := CreateNonceManager(probe, expected.value, attempts);
  }
}
