/** Chains as the relayer sees them, and scans of their logs. */
module RelayNet {
  import opened Wrappers
  import opened MessageV2
  import opened BlockLogs
  import TransmitterV2

  type Domain = int

  /** Identifies a message: source domain and message nonce. */
  type Key = (nat, nat)

  function KeyOf(e: MessageEvent): Key {
    (e.sourceDomain, e.nonce)
  }

  /** A MessageSent log; without an event when it does not parse. */
  type Log = Logged<Option<MessageEvent>>

  /** The message transmitter of a chain: one that reads the relayer's own layout, or the contracts'
      one, called by this relayer address. */
  datatype Transmitter = PackedLayout(localDomain: Domain) | ContractLayout(localDomain: Domain, relayer: Bytes)

  /** The key under which a transmitter marks a call's data as processed; None when it refuses the data. */
  function Marks(t: Transmitter, data: Bytes): Option<Key> {
    match t
    case PackedLayout(localDomain) =>
      var m := DecodeMessageV2(data);
      if m.Some? && m.value.destinationDomain == localDomain then Some(KeyOf(m.value)) else None
    case ContractLayout(localDomain, relayer) => TransmitterV2.Receive(data, localDomain, relayer)
  }

  /** The call's data for an event in range. */
  function Packed(e: MessageEvent): Bytes {
    EncodeMessageV2(e).UnwrapOr([])
  }

  /** For each chain and event, the key its transmitter marks when it takes the packed event. */
  type Marking = (Domain, MessageEvent) -> Option<Key>

  /** The marking when every chain's transmitter reads the relayer's own layout. */
  ghost predicate ReadsPackedLayout(marks: Marking) {
    forall d: Domain, e: MessageEvent :: marks(d, e) == Marks(PackedLayout(d), Packed(e))
  }

  /** The marking of the contracts' transmitters, for this relayer address. */
  ghost predicate ReadsContractLayout(marks: Marking, relayer: Bytes) {
    forall d: Domain, e: MessageEvent :: marks(d, e) == Marks(ContractLayout(d, relayer), Packed(e))
  }

  /** A chain: its head, its logs in order, the relayer account's next unused nonce, whether the
      latest read of the account's transaction count lagged, and the keys its transmitter has marked. */
  datatype Chain = Chain(height: nat, logs: seq<Log>, nonce: nat, countLagged: bool, delivered: set<Key>)

  type Net = map<Domain, Chain>

  function KeysOf(logs: seq<Log>): set<Key> {
    if logs == [] then {}
    else
      var last := logs[|logs| - 1];
      KeysOf(logs[..|logs| - 1]) + if last.event.Some? then {KeyOf(last.event.value)} else {}
  }

  /** Logs of chain `d` in block order up to `height`, each message in range and sent once. */
  predicate ValidLogs(d: Domain, logs: seq<Log>, height: int) {
    if logs == [] then true
    else
      var front, last := logs[..|logs| - 1], logs[|logs| - 1];
      && last.block <= height
      && ValidLogs(d, front, last.block)
      && (last.event.Some? ==>
            InRange(last.event.value) && last.event.value.sourceDomain == d && KeyOf(last.event.value) !in KeysOf(front))
  }

  lemma {:induction false} ValidLogsInOrder(d: Domain, logs: seq<Log>, height: int)
    requires ValidLogs(d, logs, height)
    ensures InOrder(logs, height)
  {
    if logs != [] {
      ValidLogsInOrder(d, logs[..|logs| - 1], logs[|logs| - 1].block);
    }
  }

  /** `longer` adds logs of blocks above `height` to `logs`. */
  predicate Extends(logs: seq<Log>, longer: seq<Log>, height: int) {
    longer == logs
    || (longer != [] && longer[|longer| - 1].block > height && Extends(logs, longer[..|longer| - 1], height))
  }

  predicate ValidNet(net: Net) {
    forall d | d in net :: ValidLogs(d, net[d].logs, net[d].height)
  }

  /** Blocks are added, never changed; processed messages stay processed. */
  predicate Grew(a: Chain, b: Chain) {
    && a.height <= b.height && Extends(a.logs, b.logs, a.height) && a.delivered <= b.delivered
  }

  predicate NetGrew(a: Net, b: Net) {
    a.Keys == b.Keys && forall d | d in a :: Grew(a[d], b[d])
  }

  lemma {:induction false} ExtendsTransitive(a: seq<Log>, b: seq<Log>, c: seq<Log>, low: nat, high: nat)
    requires Extends(a, b, low) && Extends(b, c, high) && low <= high
    ensures Extends(a, c, low)
    decreases |c|
  {
    if c != b {
      ExtendsTransitive(a, b, c[..|c| - 1], low, high);
    }
  }

  lemma NetGrewItself(a: Net)
    ensures NetGrew(a, a)
  {
  }

  lemma NetGrewTransitive(a: Net, b: Net, c: Net)
    requires NetGrew(a, b) && NetGrew(b, c)
    ensures NetGrew(a, c)
  {
    forall d | d in a ensures Grew(a[d], c[d]) {
      assert Grew(a[d], b[d]) && Grew(b[d], c[d]);
      ExtendsTransitive(a[d].logs, b[d].logs, c[d].logs, a[d].height, b[d].height);
    }
  }

  /** New blocks do not change what was found below the old head. */
  lemma {:induction false} LogsBetweenStable(a: seq<Log>, b: seq<Log>, low: nat, high: nat, head: int)
    requires Extends(a, b, head) && high <= head
    ensures LogsBetween(b, low, high) == LogsBetween(a, low, high)
    decreases |b|
  {
    if b != a {
      LogsBetweenStable(a, b[..|b| - 1], low, high, head);
    }
  }

  /** What a scan finds is again valid, and its keys are among all keys. */
  lemma {:induction false} ScanIsValid(d: Domain, logs: seq<Log>, head: int, low: nat, high: nat)
    requires ValidLogs(d, logs, head)
    ensures ValidLogs(d, LogsBetween(logs, low, high), head) && KeysOf(LogsBetween(logs, low, high)) <= KeysOf(logs)
  {
    if logs != [] {
      var front, last := logs[..|logs| - 1], logs[|logs| - 1];
      ScanIsValid(d, front, last.block, low, high);
      if low < last.block <= high {
        var found := LogsBetween(logs, low, high);
        assert found[..|found| - 1] == LogsBetween(front, low, high);
      } else {
        assert LogsBetween(logs, low, high) == LogsBetween(front, low, high);
        ValidUpToMore(d, LogsBetween(front, low, high), last.block, head);
      }
    }
  }

  lemma ValidUpToMore(d: Domain, logs: seq<Log>, height: int, higher: int)
    requires ValidLogs(d, logs, height) && height <= higher
    ensures ValidLogs(d, logs, higher)
  {
  }

}

/** The outside world of the relayer: RPC nodes, chains that move on between any two calls, and
    transactions that may fail. One sender uses the relayer account, and a send that throws was
    not broadcast. */
module RelayNetwork {
  import opened Wrappers
  import opened Strings
  import opened MessageV2
  import opened BlockLogs
  import opened RelayNet

  predicate SaysProcessed(error: string) {
    Includes(error, "already processed") || Includes(error, "Message already processed")
  }

  predicate SameNonces(a: Net, b: Net) {
    a.Keys == b.Keys && forall d | d in a :: a[d].nonce == b[d].nonce && a[d].countLagged == b[d].countLagged
  }

  /** The packed event was processed by chain `d`. */
  predicate Processed(marks: Marking, c: Chain, d: Domain, e: MessageEvent) {
    marks(d, e).Some? && marks(d, e).value in c.delivered
  }

  /** Only the nonce, the count flag and the processed messages of one chain differ; no message is lost. */
  predicate Touched(b: Net, c: Net, d: Domain) {
    && d in b && b.Keys == c.Keys && c == b[d := c[d]]
    && c[d].height == b[d].height && c[d].logs == b[d].logs && b[d].delivered <= c[d].delivered
  }

  lemma TouchedStaysValid(b: Net, c: Net, d: Domain)
    requires ValidNet(b) && Touched(b, c, d)
    ensures ValidNet(c) && NetGrew(b, c)
  {
    forall x | x in c ensures ValidLogs(x, c[x].logs, c[x].height) && Grew(b[x], c[x]) {
      assert ValidLogs(x, b[x].logs, b[x].height);
    }
  }

  class Network {
    const marks: Marking
    var net: Net
    /** How many calls have failed. */
    ghost var failures: nat

    /** Blocks, logs and other people's deliveries may appear at any moment. */
    method Evolve()
      requires ValidNet(net)
      modifies this
      ensures ValidNet(net) && NetGrew(old(net), net) && SameNonces(old(net), net) && failures == old(failures)
    {
      var next: Net := *;
      if ValidNet(next) && NetGrew(net, next) && SameNonces(net, next) {
        net := next;
      }
    }

    method Count(failed: bool)
      modifies this`failures
      ensures failures == old(failures) + if failed then 1 else 0
    {
      failures := failures + if failed then 1 else 0;
    }

    /** The head as some node sees it; nodes may lag or fail. */
    method GetBlockNumber(d: Domain) returns (r: Result<nat, string>)
      requires ValidNet(net) && d in net
      modifies this
      ensures ValidNet(net) && NetGrew(old(net), net) && SameNonces(old(net), net)
      ensures r.Success? ==> r.value <= net[d].height
      ensures failures == old(failures) + if r.Failure? then 1 else 0
    {
      Evolve();
      var seen: nat, error: string := *, *;
      r := if seen <= net[d].height then Success(seen) else Failure(error);
      Count(r.Failure?);
    }

    /** The logs of the blocks after `cursor`, up to `toBlock`. */
    method GetLogs(d: Domain, cursor: nat, toBlock: nat) returns (r: Result<seq<Log>, string>)
      requires ValidNet(net) && d in net && toBlock <= net[d].height
      modifies this
      ensures ValidNet(net) && NetGrew(old(net), net) && SameNonces(old(net), net)
      ensures r.Success? ==> r.value == LogsBetween(net[d].logs, cursor, toBlock)
      ensures failures == old(failures) + if r.Failure? then 1 else 0
    {
      Evolve();
      var works: bool, error: string := *, *;
      r := if works then Success(LogsBetween(net[d].logs, cursor, toBlock)) else Failure(error);
      Count(r.Failure?);
    }

    /** The pending transaction count of the relayer account, as a node sees it that may lag. */
    method GetTransactionCount(d: Domain) returns (r: Result<nat, string>)
      requires ValidNet(net) && d in net
      modifies this
      ensures ValidNet(net) && NetGrew(old(net), net)
      ensures r.Failure? ==> SameNonces(old(net), net) && !SaysProcessed(r.error)
      ensures r.Success? ==> r.value <= net[d].nonce && net[d].nonce == old(net)[d].nonce
      ensures r.Success? ==> (net[d].countLagged <==> r.value < net[d].nonce)
      ensures forall x | x in net && x != d :: net[x].nonce == old(net)[x].nonce && net[x].countLagged == old(net)[x].countLagged
      ensures failures == old(failures) + if r.Failure? then 1 else 0
    {
      Evolve();
      var works: bool, count: nat, error: string := *, *, *;
      if works || SaysProcessed(error) {
        r := Success(if count < net[d].nonce then count else net[d].nonce);
        ghost var before := net;
        net := net[d := net[d].(countLagged := count < net[d].nonce)];
        TouchedStaysValid(before, net, d);
        NetGrewTransitive(old(net), before, net);
      } else {
        r := Failure(error);
      }
      Count(r.Failure?);
    }

    /** Send receiveMessage. With the account's next nonce it is broadcast, or throws and nothing was sent.
        With a nonce used before it throws, or a node that lags takes it and it is lost. */
    method ReceiveMessage(d: Domain, data: Bytes, nonce: nat, e: MessageEvent) returns (r: Result<(), string>)
      requires ValidNet(net) && d in net && nonce <= net[d].nonce && data == Packed(e)
      modifies this
      ensures ValidNet(net) && NetGrew(old(net), net)
      ensures r.Failure? ==> SameNonces(old(net), net) && (SaysProcessed(r.error) ==> Processed(marks, net[d], d, e))
      ensures r.Success? ==> net[d].nonce == (if nonce == old(net)[d].nonce then nonce + 1 else old(net)[d].nonce)
      ensures net[d].countLagged == old(net)[d].countLagged
      ensures forall x | x in net && x != d :: net[x].nonce == old(net)[x].nonce && net[x].countLagged == old(net)[x].countLagged
      ensures failures == old(failures) + if r.Failure? then 1 else 0
    {
      Evolve();
      var works: bool, error: string := *, *;
      if works || (SaysProcessed(error) && !Processed(marks, net[d], d, e)) {
        if nonce == net[d].nonce {
          ghost var before := net;
          UseNonce(d);
          NetGrewTransitive(old(net), before, net);
        }
        return Success(());
      }
      Count(true);
      return Failure(error);
    }

    method UseNonce(d: Domain)
      requires ValidNet(net) && d in net
      modifies this
      ensures ValidNet(net) && NetGrew(old(net), net)
      ensures net == old(net)[d := old(net)[d].(nonce := old(net)[d].nonce + 1)]
      ensures failures == old(failures)
    {
      net := net[d := net[d].(nonce := net[d].nonce + 1)];
      TouchedStaysValid(old(net), net, d);
    }

    /** Wait for the call with the packed event to be mined: it processes the message, or it reverts or is
        never seen. */
    method Wait(d: Domain, e: MessageEvent) returns (r: Result<(), string>)
      requires ValidNet(net) && d in net
      modifies this
      ensures ValidNet(net) && NetGrew(old(net), net) && SameNonces(old(net), net)
      ensures r.Success? || SaysProcessed(r.error) ==> Processed(marks, net[d], d, e)
      ensures failures == old(failures) + if r.Failure? then 1 else 0
    {
      Evolve();
      var works: bool, error: string := *, *;
      if works && marks(d, e).Some? && !Processed(marks, net[d], d, e) {
        ghost var before := net;
        Mark(d, marks(d, e).value);
        NetGrewTransitive(old(net), before, net);
        return Success(());
      }
      if SaysProcessed(error) && !Processed(marks, net[d], d, e) {
        error := "";
      }
      Count(true);
      return Failure(error);
    }

    method Mark(d: Domain, key: Key)
      requires ValidNet(net) && d in net
      modifies this
      ensures ValidNet(net) && NetGrew(old(net), net) && SameNonces(old(net), net)
      ensures net == old(net)[d := old(net)[d].(delivered := old(net)[d].delivered + {key})]
      ensures failures == old(failures)
    {
      net := net[d := net[d].(delivered := net[d].delivered + {key})];
      TouchedStaysValid(old(net), net, d);
    }
  }
}

/** The relayer: a block cursor, the processed messages and the pending nonce of each chain. */
module Relayer {
  import opened Wrappers
  import opened Strings
  import opened MessageV2
  import opened BlockLogs
  import opened RelayNet
  import opened RelayNetwork
  import TransmitterV2

  datatype ChainState = ChainState(lastProcessedBlock: nat, processedMessages: set<Key>, pendingNonce: Option<nat>)

  /** What came of a log: it did not parse, was skipped as processed, named an unknown domain, was
      relayed, turned out to be processed on chain, or failed. */
  datatype Outcome = Unparsed | Skipped | UnknownDomain | Relayed | AlreadyDone | Failed

  /** The domains the relayer knows, and what the transmitters mark. */
  datatype Env = Env(known: set<Domain>, marks: Marking)

  datatype Attempt = Attempt(log: Log, outcome: Outcome)

  /** Bookkeeping for the proofs: where scanning started, the ranges scanned, the logs attempted. */
  datatype History = History(start: nat, ranges: seq<Range>, attempts: seq<Attempt>)

  predicate Done(o: Outcome) {
    o == Relayed || o == AlreadyDone
  }

  function AttemptedLogs(attempts: seq<Attempt>): (r: seq<Log>)
    ensures |r| == |attempts|
  {
    seq(|attempts|, i requires 0 <= i < |attempts| => attempts[i].log)
  }

  function DoneKeys(attempts: seq<Attempt>): set<Key> {
    if attempts == [] then {}
    else
      var last := attempts[|attempts| - 1];
      DoneKeys(attempts[..|attempts| - 1])
      + if Done(last.outcome) && last.log.event.Some? then {KeyOf(last.log.event.value)} else {}
  }

  function FailedCount(attempts: seq<Attempt>): nat {
    if attempts == [] then 0
    else FailedCount(attempts[..|attempts| - 1]) + if attempts[|attempts| - 1].outcome == Failed then 1 else 0
  }

  /** Failed attempts are explained by failed calls. */
  ghost predicate FailuresExplained(history: map<Domain, History>, failures: nat) {
    forall d | d in history :: FailedCount(history[d].attempts) <= failures
  }

  lemma ExplainedByMore(history: map<Domain, History>, d: Domain, hist: History, before: nat, after: nat)
    requires FailuresExplained(history, before) && d in history && before <= after
    requires FailedCount(hist.attempts) + before <= FailedCount(history[d].attempts) + after
    ensures FailuresExplained(history[d := hist], after)
  {
    var all := history[d := hist];
    forall x | x in all ensures FailedCount(all[x].attempts) <= after {
      assert FailedCount(history[x].attempts) <= before;
    }
  }

  /** Only pending nonces, and the processed messages of `d`, may differ. */
  predicate SameButProcessed(a: map<Domain, ChainState>, b: map<Domain, ChainState>, d: Domain) {
    && a.Keys == b.Keys
    && forall x | x in a ::
         a[x].lastProcessedBlock == b[x].lastProcessedBlock
         && (x != d ==> a[x].processedMessages == b[x].processedMessages)
  }

  lemma SameAcrossSend(a: map<Domain, ChainState>, b: map<Domain, ChainState>, c: map<Domain, ChainState>, dest: Domain, d: Domain)
    requires dest in a && dest in b && b == a[dest := a[dest].(pendingNonce := b[dest].pendingNonce)]
    requires SameButProcessed(b, c, d)
    ensures SameButProcessed(a, c, d)
  {
  }

  lemma SameTransitive(a: map<Domain, ChainState>, b: map<Domain, ChainState>, c: map<Domain, ChainState>, d: Domain)
    requires SameButProcessed(a, b, d) && SameButProcessed(b, c, d)
    ensures SameButProcessed(a, c, d)
  {
  }

  /** An outcome says the truth about the network; the skip case never happens. */
  ghost predicate OutcomeTrue(env: Env, net: Net, e: MessageEvent, o: Outcome) {
    match o
    case Unparsed => false
    case Skipped => false
    case UnknownDomain => e.destinationDomain !in env.known
    case Failed => e.destinationDomain in env.known
    case _ =>
      e.destinationDomain in env.known && e.destinationDomain in net
      && Processed(env.marks, net[e.destinationDomain], e.destinationDomain, e)
  }

  ghost predicate AttemptTrue(env: Env, net: Net, a: Attempt) {
    if a.log.event.None? then a.outcome == Unparsed else OutcomeTrue(env, net, a.log.event.value, a.outcome)
  }

  ghost predicate AllTrue(env: Env, net: Net, attempts: seq<Attempt>) {
    attempts == []
    || (AllTrue(env, net, attempts[..|attempts| - 1]) && AttemptTrue(env, net, attempts[|attempts| - 1]))
  }

  /** The state of one chain, when the logs attempted so far are `seen`. */
  ghost predicate ChainInv(env: Env, net: Net, d: Domain, st: ChainState, hist: History, seen: seq<Log>)
    requires d in net
  {
    && hist.start <= st.lastProcessedBlock <= net[d].height
    && Chained(hist.ranges, hist.start, st.lastProcessedBlock)
    && AttemptedLogs(hist.attempts) == seen
    && AllTrue(env, net, hist.attempts)
    && st.processedMessages == DoneKeys(hist.attempts)
  }

  /** A pending nonce is never ahead of the account, and unless the count read it came from lagged it is
      exactly the account's next unused nonce. It comes from the chain's latest read. */
  ghost predicate NonceInSync(net: Net, d: Domain, st: ChainState)
    requires d in net
  {
    st.pendingNonce.Some? ==>
      st.pendingNonce.value <= net[d].nonce && (!net[d].countLagged ==> st.pendingNonce.value == net[d].nonce)
  }

  /** Every pending nonce is in sync. */
  ghost predicate InSync(net: Net, chains: map<Domain, ChainState>) {
    chains.Keys <= net.Keys && forall d | d in chains :: NonceInSync(net, d, chains[d])
  }

  lemma SyncAfterReset(net: Net, chains: map<Domain, ChainState>, d: Domain)
    requires InSync(net, chains) && d in chains
    ensures InSync(net, chains[d := chains[d].(pendingNonce := None)])
  {
  }

  lemma SyncStays(a: Net, b: Net, chains: map<Domain, ChainState>)
    requires InSync(a, chains) && SameNonces(a, b)
    ensures InSync(b, chains)
  {
    forall d | d in chains ensures NonceInSync(b, d, chains[d]) {
      assert NonceInSync(a, d, chains[d]);
    }
  }

  /** The chain `d` was touched: its pending nonce is set anew, and in sync. */
  lemma SyncAfterSet(a: Net, b: Net, chains: map<Domain, ChainState>, d: Domain, pending: nat)
    requires InSync(a, chains) && d in chains && a.Keys == b.Keys
    requires forall x | x in b && x != d :: b[x].nonce == a[x].nonce && b[x].countLagged == a[x].countLagged
    requires pending <= b[d].nonce && (!b[d].countLagged ==> pending == b[d].nonce)
    ensures InSync(b, chains[d := chains[d].(pendingNonce := Some(pending))])
  {
    forall x | x in chains && x != d ensures NonceInSync(b, x, chains[x]) {
      assert NonceInSync(a, x, chains[x]);
    }
  }

  lemma AttemptTrueStays(env: Env, a: Net, b: Net, t: Attempt)
    requires AttemptTrue(env, a, t) && NetGrew(a, b)
    ensures AttemptTrue(env, b, t)
  {
    if Done(t.outcome) {
      var dest := t.log.event.value.destinationDomain;
      assert Grew(a[dest], b[dest]);
    }
  }

  lemma {:induction false} AllTrueStays(env: Env, a: Net, b: Net, attempts: seq<Attempt>)
    requires AllTrue(env, a, attempts) && NetGrew(a, b)
    ensures AllTrue(env, b, attempts)
  {
    if attempts != [] {
      AllTrueStays(env, a, b, attempts[..|attempts| - 1]);
      AttemptTrueStays(env, a, b, attempts[|attempts| - 1]);
    }
  }

  lemma ChainInvStays(env: Env, a: Net, b: Net, d: Domain, st: ChainState, hist: History, seen: seq<Log>)
    requires d in a && ChainInv(env, a, d, st, hist, seen) && NetGrew(a, b)
    ensures ChainInv(env, b, d, st, hist, seen)
  {
    assert Grew(a[d], b[d]);
    AllTrueStays(env, a, b, hist.attempts);
  }

  lemma {:induction false} DoneKeysWereSeen(attempts: seq<Attempt>)
    ensures DoneKeys(attempts) <= KeysOf(AttemptedLogs(attempts))
  {
    if attempts != [] {
      var front := attempts[..|attempts| - 1];
      DoneKeysWereSeen(front);
      var logs := AttemptedLogs(attempts);
      assert logs[..|logs| - 1] == AttemptedLogs(front);
    }
  }

  /** The logs attempted so far are exactly those from the start block up to the cursor. */
  ghost predicate Tracked(env: Env, net: Net, d: Domain, st: ChainState, hist: History) {
    d in net && ChainInv(env, net, d, st, hist, LogsBetween(net[d].logs, hist.start, st.lastProcessedBlock))
  }

  lemma TrackedStays(env: Env, a: Net, b: Net, d: Domain, st: ChainState, hist: History)
    requires Tracked(env, a, d, st, hist) && NetGrew(a, b)
    ensures Tracked(env, b, d, st, hist)
  {
    assert Grew(a[d], b[d]);
    LogsBetweenStable(a[d].logs, b[d].logs, hist.start, st.lastProcessedBlock, a[d].height);
    ChainInvStays(env, a, b, d, st, hist, LogsBetween(a[d].logs, hist.start, st.lastProcessedBlock));
  }

  ghost predicate AllTracked(env: Env, net: Net, chains: map<Domain, ChainState>, history: map<Domain, History>) {
    env.known == chains.Keys == history.Keys && forall d | d in chains :: Tracked(env, net, d, chains[d], history[d])
  }

  lemma AllTrackedStays(env: Env, a: Net, b: Net, chains: map<Domain, ChainState>, history: map<Domain, History>)
    requires AllTracked(env, a, chains, history) && NetGrew(a, b)
    ensures AllTracked(env, b, chains, history)
  {
    forall d | d in chains ensures Tracked(env, b, d, chains[d], history[d]) {
      TrackedStays(env, a, b, d, chains[d], history[d]);
    }
  }

  /** What other people do leaves the relayer's state valid. */
  lemma ValidStays(env: Env, a: Net, b: Net, chains: map<Domain, ChainState>, history: map<Domain, History>, before: nat, after: nat)
    requires InSync(a, chains) && AllTracked(env, a, chains, history) && FailuresExplained(history, before)
    requires NetGrew(a, b) && SameNonces(a, b) && before <= after
    ensures InSync(b, chains) && AllTracked(env, b, chains, history) && FailuresExplained(history, after)
    ensures forall d | d in a :: a[d].height <= b[d].height
  {
    SyncStays(a, b, chains);
    AllTrackedStays(env, a, b, chains, history);
    forall d | d in a ensures a[d].height <= b[d].height {
      assert Grew(a[d], b[d]);
    }
  }

  /** Every chain but `d` is tracked. */
  ghost predicate OthersTracked(env: Env, net: Net, chains: map<Domain, ChainState>, history: map<Domain, History>, d: Domain) {
    env.known == chains.Keys == history.Keys && forall x | x in chains && x != d :: Tracked(env, net, x, chains[x], history[x])
  }

  lemma OthersStay(
      env: Env, a: Net, b: Net, before: map<Domain, ChainState>, after: map<Domain, ChainState>, history: map<Domain, History>, d: Domain)
    requires OthersTracked(env, a, before, history, d) && NetGrew(a, b) && SameButProcessed(before, after, d)
    ensures OthersTracked(env, b, after, history, d)
  {
    forall x | x in after && x != d ensures Tracked(env, b, x, after[x], history[x]) {
      TrackedStays(env, a, b, x, before[x], history[x]);
      assert before[x].processedMessages == after[x].processedMessages;
    }
  }

  lemma TrackedAgain(env: Env, net: Net, chains: map<Domain, ChainState>, history: map<Domain, History>, d: Domain, st: ChainState, hist: History)
    requires OthersTracked(env, net, chains, history, d) && d in chains && Tracked(env, net, d, st, hist)
    requires InSync(net, chains) && st.pendingNonce == chains[d].pendingNonce
    ensures AllTracked(env, net, chains[d := st], history[d := hist]) && InSync(net, chains[d := st])
  {
    var known := chains.Keys;
    assert chains[d := st].Keys == known;
    assert NonceInSync(net, d, chains[d]);
    forall x | x in env.known ensures Tracked(env, net, x, chains[d := st][x], history[d := hist][x]) {
      assert x != d ==> Tracked(env, net, x, chains[x], history[x]);
    }
  }

  /** A log of a valid sequence is in range, and its message is not among the earlier ones. */
  lemma {:induction false} NextIsNew(d: Domain, logs: seq<Log>, height: int, i: nat)
    requires ValidLogs(d, logs, height) && i < |logs| && logs[i].event.Some?
    ensures InRange(logs[i].event.value) && KeyOf(logs[i].event.value) !in KeysOf(logs[..i])
  {
    if i < |logs| - 1 {
      var front := logs[..|logs| - 1];
      NextIsNew(d, front, logs[|logs| - 1].block, i);
      assert front[..i] == logs[..i];
    }
  }

  /** One more attempt, truthful and of a message not yet processed, keeps the invariant. */
  lemma AttemptKeepsInv(env: Env, net: Net, d: Domain, st: ChainState, hist: History, seen: seq<Log>, a: Attempt, after: ChainState)
    requires d in net && ChainInv(env, net, d, st, hist, seen)
    requires AttemptTrue(env, net, a)
    requires after.lastProcessedBlock == st.lastProcessedBlock
    requires after.processedMessages == st.processedMessages
             + if a.log.event.Some? && Done(a.outcome) then {KeyOf(a.log.event.value)} else {}
    ensures ChainInv(env, net, d, after, hist.(attempts := hist.attempts + [a]), seen + [a.log])
  {
    var more := hist.attempts + [a];
    assert more[..|more| - 1] == hist.attempts;
    assert AttemptedLogs(more) == seen + [a.log];
  }

  lemma ChainedMore(ranges: seq<Range>, start: int, end: int, to: int)
    requires Chained(ranges, start, end) && start <= end < to
    ensures Chained(ranges + [Range(end + 1, to)], start, to)
  {
    var more := ranges + [Range(end + 1, to)];
    assert more[..|more| - 1] == ranges;
  }

  /** With every log up to `to` attempted, the cursor may move there, even if the chain has moved on. */
  lemma CursorMoves(env: Env, before: Net, net: Net, d: Domain, st: ChainState, hist: History, to: nat)
    requires NetGrew(before, net) && d in net && st.lastProcessedBlock < to <= before[d].height
    requires ChainInv(env, net, d, st, hist, LogsBetween(before[d].logs, hist.start, to))
    ensures Tracked(env, net, d, st.(lastProcessedBlock := to), hist.(ranges := hist.ranges + [Range(st.lastProcessedBlock + 1, to)]))
  {
    assert Grew(before[d], net[d]);
    LogsBetweenStable(before[d].logs, net[d].logs, hist.start, to, before[d].height);
    ChainedMore(hist.ranges, hist.start, st.lastProcessedBlock, to);
  }

  /** A chain at block 0 has no history: scanning may start anywhere. */
  lemma StartAnywhere(env: Env, net: Net, d: Domain, st: ChainState, hist: History, at: nat)
    requires Tracked(env, net, d, st, hist) && st.lastProcessedBlock == 0 && at <= net[d].height
    ensures hist.attempts == [] && hist.ranges == []
    ensures Tracked(env, net, d, st.(lastProcessedBlock := at), History(at, [], []))
  {
    NothingInEmptyRange(net[d].logs, 0);
    NothingInEmptyRange(net[d].logs, at);
  }

  /** History is only added to, once scanning has started. */
  ghost predicate HistoryGrew(a: History, b: History) {
    a.ranges <= b.ranges && a.attempts <= b.attempts && (a.ranges != [] ==> a.start == b.start)
  }

  ghost predicate AllGrew(a: map<Domain, History>, b: map<Domain, History>) {
    a.Keys == b.Keys && forall d | d in a :: HistoryGrew(a[d], b[d])
  }

  lemma AllGrewTransitive(a: map<Domain, History>, b: map<Domain, History>, c: map<Domain, History>)
    requires AllGrew(a, b) && AllGrew(b, c)
    ensures AllGrew(a, c)
  {
    forall d | d in a ensures HistoryGrew(a[d], c[d]) {
      HistoryGrewTransitive(a[d], b[d], c[d]);
    }
  }

  lemma OneGrew(a: map<Domain, History>, b: map<Domain, History>, d: Domain)
    requires d in a && d in b && b == a[d := b[d]] && HistoryGrew(a[d], b[d])
    ensures AllGrew(a, b)
  {
  }

  lemma HistoryGrewTransitive(a: History, b: History, c: History)
    requires HistoryGrew(a, b) && HistoryGrew(b, c)
    ensures HistoryGrew(a, c)
  {
  }

  /** Only chain `d` was scanned: at most its cursor, history and processed messages moved on. */
  ghost predicate ScannedOn(
      a: map<Domain, ChainState>, b: map<Domain, ChainState>, before: map<Domain, History>, after: map<Domain, History>, d: Domain)
  {
    && d in a && a.Keys == b.Keys == before.Keys == after.Keys
    && a[d].lastProcessedBlock <= b[d].lastProcessedBlock
    && (forall x | x in a && x != d ::
          a[x].lastProcessedBlock == b[x].lastProcessedBlock && a[x].processedMessages == b[x].processedMessages)
    && after == before[d := after[d]]
    && HistoryGrew(before[d], after[d])
  }

  /** The history with one more range scanned. */
  function Recorded(history: map<Domain, History>, d: Domain, whole: History, cursor: nat, to: nat): map<Domain, History> {
    history[d := whole.(ranges := whole.ranges + [Range(cursor + 1, to)])]
  }

  lemma ScanMovesOn(
      a: map<Domain, ChainState>, b: map<Domain, ChainState>, before: map<Domain, History>, d: Domain, whole: History, to: nat)
    requires d in a && a.Keys == before.Keys && SameButProcessed(a, b, d) && a[d].lastProcessedBlock < to
    requires whole == before[d].(attempts := whole.attempts) && before[d].attempts <= whole.attempts
    ensures ScannedOn(a, b[d := b[d].(lastProcessedBlock := to)], before, Recorded(before, d, whole, b[d].lastProcessedBlock, to), d)
  {
    var c := b[d := b[d].(lastProcessedBlock := to)];
    forall x | x in a && x != d
      ensures a[x].lastProcessedBlock == c[x].lastProcessedBlock && a[x].processedMessages == c[x].processedMessages
    {
      assert c[x] == b[x];
    }
  }

  /** After every log of the range was attempted, the cursor may move: all chains are tracked again. */
  lemma ScanEnds(env: Env, before: Net, net: Net, b: map<Domain, ChainState>, history: map<Domain, History>, d: Domain, whole: History, to: nat)
    requires NetGrew(before, net) && d in b && d in net && b[d].lastProcessedBlock < to <= before[d].height
    requires InSync(net, b) && OthersTracked(env, net, b, history, d)
    requires ChainInv(env, net, d, b[d], whole, LogsBetween(before[d].logs, whole.start, to))
    ensures AllTracked(env, net, b[d := b[d].(lastProcessedBlock := to)], Recorded(history, d, whole, b[d].lastProcessedBlock, to))
    ensures InSync(net, b[d := b[d].(lastProcessedBlock := to)])
  {
    var st := b[d].(lastProcessedBlock := to);
    var hist := whole.(ranges := whole.ranges + [Range(b[d].lastProcessedBlock + 1, to)]);
    CursorMoves(env, before, net, d, b[d], whole, to);
    TrackedAgain(env, net, b, history, d, st, hist);
  }

  lemma ScannedNothing(chains: map<Domain, ChainState>, history: map<Domain, History>, d: Domain)
    requires d in chains && chains.Keys == history.Keys
    ensures ScannedOn(chains, chains, history, history, d)
  {
  }

  /** The part scanned before and the part to scan make up one valid scan. */
  lemma ScanIsOneRange(d: Domain, c: Chain, start: nat, mid: nat, to: nat)
    requires start <= mid <= to && ValidLogs(d, c.logs, c.height)
    ensures LogsBetween(c.logs, start, mid) + LogsBetween(c.logs, mid, to) == LogsBetween(c.logs, start, to)
    ensures ValidLogs(d, LogsBetween(c.logs, start, to), c.height)
  {
    ValidLogsInOrder(d, c.logs, c.height);
    LogsBetweenJoin(c.logs, c.height, start, mid, to);
    ScanIsValid(d, c.logs, c.height, start, to);
  }

  /** A failed relay whose error speaks of a nonce drops the pending nonce. */
  predicate ResetsNonce(sent: Result<(), string>) {
    sent.Failure? && !SaysProcessed(sent.error) && (Includes(sent.error, "nonce") || Includes(sent.error, "NONCE"))
  }

  /** Where the cursor goes when the node reports `head`, and the logs could be fetched or not. */
  function NextCursor(cursor: nat, head: nat, fetched: bool): nat {
    if cursor == 0 then head
    else if head > cursor && fetched then head
    else cursor
  }

  class CCTPV2Relayer {
    const network: Network
    var chains: map<Domain, ChainState>
    ghost var history: map<Domain, History>

    constructor (network: Network, domains: set<Domain>)
      requires ValidNet(network.net) && domains <= network.net.Keys
      ensures Valid() && this.network == network && chains.Keys == domains
    {
      this.network := network;
      chains := map d | d in domains :: ChainState(0, {}, None);
      history := map d | d in domains :: History(0, [], []);
      new;
      forall d | d in chains ensures LogsBetween(network.net[d].logs, 0, 0) == [] {
        assert ValidLogs(d, network.net[d].logs, network.net[d].height);
        NothingInEmptyRange(network.net[d].logs, 0);
      }
    }

    /** Per chain: scanned ranges are contiguous and disjoint from the start block to the cursor,
        exactly the logs of those blocks were attempted, once each and in order, processed messages
        are delivered, and a pending nonce is the account's next one. */
    ghost predicate Valid()
      reads this, network
    {
      && ValidNet(network.net) && InSync(network.net, chains) && AllTracked(Env(chains.Keys, network.marks), network.net, chains, history)
      && FailuresExplained(history, network.failures)
    }

    /** Scan the new blocks of one chain. The cursor moves past every log attempted, also past
        those whose relay failed. */
    method PollChain(d: Domain) returns (head: Result<nat, string>, ghost fetched: bool)
      requires Valid() && d in chains
      modifies this, network
      ensures Valid() && chains.Keys == old(chains.Keys)
      ensures ScannedOn(old(chains), chains, old(history), history, d)
      ensures chains[d].lastProcessedBlock
           == (if head.Failure? then old(chains)[d].lastProcessedBlock
               else NextCursor(old(chains)[d].lastProcessedBlock, head.value, fetched))
      ensures old(chains)[d].lastProcessedBlock == 0 && head.Success? ==> history[d] == History(head.value, [], [])
      ensures old(network.failures) <= network.failures
      ensures network.failures == old(network.failures) ==>
                head.Success? && chains[d].lastProcessedBlock == NextCursor(old(chains)[d].lastProcessedBlock, head.value, true)
    {
      fetched := false;
      head := ReadHead(d);
      if head.Success? {
        fetched := PollUpTo(d, head.value);
      } else {
        ScannedNothing(chains, history, d);
      }
    }

    method ReadHead(d: Domain) returns (head: Result<nat, string>)
      requires Valid() && d in chains
      modifies network
      ensures Valid() && (head.Success? ==> head.value <= network.net[d].height)
      ensures network.failures == old(network.failures) + if head.Failure? then 1 else 0
    {
      head := network.GetBlockNumber(d);
      ValidStays(Env(chains.Keys, network.marks), old(network.net), network.net, chains, history, old(network.failures), network.failures);
    }

    /** Start at the head, do nothing without new blocks, or scan the new ones. */
    method PollUpTo(d: Domain, currentBlock: nat) returns (ghost fetched: bool)
      requires Valid() && d in chains && currentBlock <= network.net[d].height
      modifies this, network
      ensures Valid() && ScannedOn(old(chains), chains, old(history), history, d)
      ensures chains[d].lastProcessedBlock == NextCursor(old(chains)[d].lastProcessedBlock, currentBlock, fetched)
      ensures old(chains)[d].lastProcessedBlock == 0 ==> history[d] == History(currentBlock, [], [])
      ensures old(network.failures) <= network.failures
      ensures network.failures == old(network.failures) ==>
                chains[d].lastProcessedBlock == NextCursor(old(chains)[d].lastProcessedBlock, currentBlock, true)
    {
      fetched := false;
      if chains[d].lastProcessedBlock == 0 {
        StartFrom(d, currentBlock);
      } else if currentBlock <= chains[d].lastProcessedBlock {
        ScannedNothing(chains, history, d);
      } else {
        fetched := PollRange(d, currentBlock);
      }
    }

    /** On the first run, start from the current block. */
    method StartFrom(d: Domain, at: nat)
      requires Valid() && d in chains && chains[d].lastProcessedBlock == 0 && at <= network.net[d].height
      modifies this
      ensures Valid()
      ensures chains == old(chains)[d := old(chains)[d].(lastProcessedBlock := at)]
      ensures old(history)[d].ranges == [] && old(history)[d].attempts == [] && history == old(history)[d := History(at, [], [])]
    {
      StartAnywhere(Env(chains.Keys, network.marks), network.net, d, chains[d], history[d], at);
      assert NonceInSync(network.net, d, chains[d]);
      chains := chains[d := chains[d].(lastProcessedBlock := at)];
      history := history[d := History(at, [], [])];
      assert chains.Keys == old(chains).Keys;
    }

    /** Fetch and relay the logs after the cursor up to `to`; on a failed fetch change nothing. */
    method PollRange(d: Domain, to: nat) returns (ghost fetched: bool)
      requires Valid() && d in chains && chains[d].lastProcessedBlock < to <= network.net[d].height
      modifies this, network
      ensures Valid() && ScannedOn(old(chains), chains, old(history), history, d)
      ensures chains[d].lastProcessedBlock == (if fetched then to else old(chains)[d].lastProcessedBlock)
      ensures old(network.failures) <= network.failures
      ensures network.failures == old(network.failures) ==> fetched
    {
      var found := FetchLogs(d, to);
      fetched := found.Success?;
      if found.Success? {
        ScanTo(d, found.value, to);
      } else {
        ScannedNothing(chains, history, d);
      }
    }

    method FetchLogs(d: Domain, to: nat) returns (found: Result<seq<Log>, string>)
      requires Valid() && d in chains && chains[d].lastProcessedBlock < to <= network.net[d].height
      modifies network
      ensures Valid() && to <= network.net[d].height
      ensures found.Success? ==> found.value == LogsBetween(network.net[d].logs, chains[d].lastProcessedBlock, to)
      ensures network.failures == old(network.failures) + if found.Failure? then 1 else 0
    {
      found := network.GetLogs(d, chains[d].lastProcessedBlock, to);
      ValidStays(Env(chains.Keys, network.marks), old(network.net), network.net, chains, history, old(network.failures), network.failures);
    }

    /** Attempt the logs fetched and move the cursor. */
    method ScanTo(d: Domain, logs: seq<Log>, to: nat)
      requires Valid() && d in chains && chains[d].lastProcessedBlock < to <= network.net[d].height
      requires logs == LogsBetween(network.net[d].logs, chains[d].lastProcessedBlock, to)
      modifies this, network
      ensures Valid() && ScannedOn(old(chains), chains, old(history), history, d) && chains[d].lastProcessedBlock == to
      ensures old(network.failures) <= network.failures
    {
      ghost var whole := RelayRange(d, logs, to);
      ghost var recorded := Recorded(history, d, whole, chains[d].lastProcessedBlock, to);
      ScanEnds(Env(chains.Keys, network.marks), old(network.net), network.net, chains, history, d, whole, to);
      ScanMovesOn(old(chains), chains, history, d, whole, to);
      ExplainedByMore(history, d, recorded[d], old(network.failures), network.failures);
      Commit(chains[d := chains[d].(lastProcessedBlock := to)], recorded);
    }

    method Commit(moved: map<Domain, ChainState>, ghost recorded: map<Domain, History>)
      requires ValidNet(network.net) && InSync(network.net, moved) && AllTracked(Env(moved.Keys, network.marks), network.net, moved, recorded)
      requires FailuresExplained(recorded, network.failures)
      modifies this
      ensures Valid() && chains == moved && history == recorded
    {
      chains := moved;
      history := recorded;
    }

    /** Attempt every log found after the cursor. */
    method RelayRange(d: Domain, logs: seq<Log>, to: nat) returns (ghost whole: History)
      requires Valid() && d in chains && chains[d].lastProcessedBlock < to <= network.net[d].height
      requires logs == LogsBetween(network.net[d].logs, chains[d].lastProcessedBlock, to)
      modifies this`chains, network
      ensures ValidNet(network.net) && InSync(network.net, chains) && NetGrew(old(network.net), network.net)
      ensures SameButProcessed(old(chains), chains, d) && OthersTracked(Env(chains.Keys, network.marks), network.net, chains, history, d)
      ensures ChainInv(Env(chains.Keys, network.marks), network.net, d, chains[d], whole,
                       LogsBetween(old(network.net)[d].logs, history[d].start, to))
      ensures whole == history[d].(attempts := whole.attempts) && history[d].attempts <= whole.attempts
      ensures old(network.failures) <= network.failures
      ensures FailedCount(whole.attempts) + old(network.failures) <= FailedCount(history[d].attempts) + network.failures
    {
      ghost var net0 := network.net;
      ghost var hist, from := history[d], chains[d].lastProcessedBlock;
      ScanIsOneRange(d, net0[d], hist.start, from, to);
      whole := RelayLogs(d, logs, hist, LogsBetween(net0[d].logs, hist.start, to));
      OthersStay(Env(chains.Keys, network.marks), net0, network.net, old(chains), chains, history, d);
    }

    /** Attempt the logs found, in order; `total` is what was attempted before, then these. */
    method RelayLogs(d: Domain, logs: seq<Log>, ghost hist: History, ghost total: seq<Log>) returns (ghost whole: History)
      requires ValidNet(network.net) && InSync(network.net, chains) && d in chains
      requires ValidLogs(d, total, network.net[d].height)
      requires |logs| <= |total| && logs == total[|total| - |logs|..]
      requires ChainInv(Env(chains.Keys, network.marks), network.net, d, chains[d], hist, total[..|total| - |logs|])
      modifies this`chains, network
      ensures ValidNet(network.net) && InSync(network.net, chains) && NetGrew(old(network.net), network.net)
      ensures SameButProcessed(old(chains), chains, d)
      ensures whole == hist.(attempts := whole.attempts) && hist.attempts <= whole.attempts
      ensures ChainInv(Env(chains.Keys, network.marks), network.net, d, chains[d], whole, total)
      ensures old(network.failures) <= network.failures
      ensures FailedCount(whole.attempts) + old(network.failures) <= FailedCount(hist.attempts) + network.failures
    {
      NetGrewItself(network.net);
      whole := hist;
      ghost var height, n := network.net[d].height, |total| - |logs|;
      for i := 0 to |logs|
        invariant ValidNet(network.net) && InSync(network.net, chains) && NetGrew(old(network.net), network.net)
        invariant SameButProcessed(old(chains), chains, d)
        invariant whole == hist.(attempts := whole.attempts) && hist.attempts <= whole.attempts
        invariant old(network.failures) <= network.failures
        invariant FailedCount(whole.attempts) + old(network.failures) <= FailedCount(hist.attempts) + network.failures
        invariant ChainInv(Env(chains.Keys, network.marks), network.net, d, chains[d], whole, total[..n + i])
      {
        ghost var net0, chains0 := network.net, chains;
        whole := RelayLog(d, logs[i], whole, total, n + i, height);
        NetGrewTransitive(old(network.net), net0, network.net);
        SameTransitive(old(chains), chains0, chains, d);
      }
      assert total[..|total|] == total;
    }

    /** Parse one log and relay its message. */
    method RelayLog(d: Domain, log: Log, ghost hist: History, ghost total: seq<Log>, ghost i: nat, ghost height: int)
        returns (ghost after: History)
      requires ValidNet(network.net) && InSync(network.net, chains) && d in chains
      requires i < |total| && log == total[i] && ValidLogs(d, total, height)
      requires ChainInv(Env(chains.Keys, network.marks), network.net, d, chains[d], hist, total[..i])
      modifies this`chains, network
      ensures ValidNet(network.net) && InSync(network.net, chains) && NetGrew(old(network.net), network.net)
      ensures SameButProcessed(old(chains), chains, d)
      ensures after == hist.(attempts := after.attempts) && hist.attempts <= after.attempts
      ensures ChainInv(Env(chains.Keys, network.marks), network.net, d, chains[d], after, total[..i + 1])
      ensures old(network.failures) <= network.failures
      ensures FailedCount(after.attempts) + old(network.failures) <= FailedCount(hist.attempts) + network.failures
    {
      ghost var a := Attempt(log, Unparsed);
      if log.event.None? {
        NetGrewItself(network.net);
      } else {
        NextIsNew(d, total, height, i);
        a := RelayParsed(log, d, hist, total[..i]);
      }
      AttemptKeepsInv(Env(chains.Keys, network.marks), network.net, d, old(chains)[d], hist, total[..i], a, chains[d]);
      after := hist.(attempts := hist.attempts + [a]);
      assert after.attempts[..|after.attempts| - 1] == hist.attempts;
      assert total[..i + 1] == total[..i] + [log];
    }

    /** Relay the message of a log that parsed and is not marked yet. */
    method RelayParsed(log: Log, d: Domain, ghost hist: History, ghost seen: seq<Log>) returns (ghost a: Attempt)
      requires ValidNet(network.net) && InSync(network.net, chains) && d in chains
      requires log.event.Some? && InRange(log.event.value) && KeyOf(log.event.value) !in KeysOf(seen)
      requires ChainInv(Env(chains.Keys, network.marks), network.net, d, chains[d], hist, seen)
      modifies this`chains, network
      ensures ValidNet(network.net) && InSync(network.net, chains) && NetGrew(old(network.net), network.net)
      ensures SameButProcessed(old(chains), chains, d)
      ensures ChainInv(Env(chains.Keys, network.marks), network.net, d, old(chains)[d], hist, seen)
      ensures a.log == log && AttemptTrue(Env(chains.Keys, network.marks), network.net, a)
      ensures chains[d].processedMessages
           == old(chains)[d].processedMessages + if Done(a.outcome) then {KeyOf(log.event.value)} else {}
      ensures old(network.failures) + (if a.outcome == Failed then 1 else 0) <= network.failures
    {
      DoneKeysWereSeen(hist.attempts);
      var _, outcome := RelayMessage(log.event.value, d);
      a := Attempt(log, outcome);
      ChainInvStays(Env(chains.Keys, network.marks), old(network.net), network.net, d, old(chains)[d], hist, seen);
    }

    /** One pass over all chains. */
    method Sweep()
      requires Valid()
      modifies this, network
      ensures Valid() && chains.Keys == old(chains.Keys) && AllGrew(old(history), history)
    {
      var left := chains.Keys;
      while left != {}
        invariant Valid() && chains.Keys == old(chains.Keys) && AllGrew(old(history), history)
        invariant left <= chains.Keys
        decreases |left|
      {
        NonEmpty(left);
        var d :| d in left;
        ghost var history0 := history;
        var _, _ := PollChain(d);
        OneGrew(history0, history, d);
        AllGrewTransitive(old(history), history0, history);
        FewerLeft(left, d);
        left := left - {d};
      }
    }

    /** The main loop, for as many sweeps as it is left to run. */
    method Start(sweeps: nat)
      requires Valid()
      modifies this, network
      ensures Valid() && chains.Keys == old(chains.Keys) && AllGrew(old(history), history)
    {
      for i := 0 to sweeps
        invariant Valid() && chains.Keys == old(chains.Keys) && AllGrew(old(history), history)
      {
        ghost var history0 := history;
        Sweep();
        AllGrewTransitive(old(history), history0, history);
      }
    }

    /** Relay one message of chain `d`. Every error is caught here. */
    method RelayMessage(event: MessageEvent, d: Domain) returns (ok: bool, ghost outcome: Outcome)
      requires ValidNet(network.net) && InSync(network.net, chains) && d in chains && InRange(event)
      modifies this`chains, network
      ensures ValidNet(network.net) && InSync(network.net, chains) && NetGrew(old(network.net), network.net)
      ensures SameButProcessed(old(chains), chains, d)
      ensures chains[d].processedMessages
           == old(chains)[d].processedMessages + if Done(outcome) then {KeyOf(event)} else {}
      ensures ok <==> outcome == Relayed
      ensures outcome == Skipped <==> KeyOf(event) in old(chains)[d].processedMessages
      ensures outcome == Skipped || OutcomeTrue(Env(chains.Keys, network.marks), network.net, event, outcome)
      ensures network.failures == old(network.failures) + if outcome == Failed || outcome == AlreadyDone then 1 else 0
    {
      var messageKey := KeyOf(event);
      if messageKey in chains[d].processedMessages {
        return false, Skipped;
      }
      var dest := event.destinationDomain;
      if dest !in chains {
        return false, UnknownDomain;
      }
      var sent := SendMessage(event, dest);
      ghost var before := chains;
      ok, outcome := Settle(event, d, sent);
      SameAcrossSend(old(chains), before, chains, dest, d);
    }

    /** Record how the send ended: processed, processed before, or failed. */
    method Settle(event: MessageEvent, d: Domain, sent: Result<(), string>) returns (ok: bool, ghost outcome: Outcome)
      requires InSync(network.net, chains) && d in chains && event.destinationDomain in chains
      requires sent.Success? || SaysProcessed(sent.error) ==> Processed(network.marks, network.net[event.destinationDomain], event.destinationDomain, event)
      modifies this`chains
      ensures InSync(network.net, chains)
      ensures SameButProcessed(old(chains), chains, d)
      ensures chains[d].processedMessages
           == old(chains)[d].processedMessages + if Done(outcome) then {KeyOf(event)} else {}
      ensures ok <==> outcome == Relayed
      ensures OutcomeTrue(Env(chains.Keys, network.marks), network.net, event, outcome)
      ensures sent.Success? <==> outcome == Relayed
      ensures sent.Failure? ==> outcome == if SaysProcessed(sent.error) then AlreadyDone else Failed
      ensures forall x | x in chains ::
                chains[x].pendingNonce
                == if x == event.destinationDomain && ResetsNonce(sent) then None else old(chains)[x].pendingNonce
    {
      match sent {
        case Success(_) =>
          MarkProcessed(KeyOf(event), d);
          return true, Relayed;
        case Failure(error) =>
          if SaysProcessed(error) {
            MarkProcessed(KeyOf(event), d);
            return false, AlreadyDone;
          }
          if ResetsNonce(sent) {
            var dest := event.destinationDomain;
            SyncAfterReset(network.net, chains, dest);
            chains := chains[dest := chains[dest].(pendingNonce := None)];
          }
          return false, Failed;
      }
    }

    method MarkProcessed(key: Key, d: Domain)
      requires InSync(network.net, chains) && d in chains
      modifies this`chains
      ensures InSync(network.net, chains)
      ensures chains == old(chains)[d := old(chains)[d].(processedMessages := old(chains)[d].processedMessages + {key})]
    {
      chains := chains[d := chains[d].(processedMessages := chains[d].processedMessages + {key})];
      assert NonceInSync(network.net, d, old(chains)[d]);
    }

    /** The try block of the relay: fetch the nonce if needed, send with it, count it, wait. */
    method SendMessage(event: MessageEvent, dest: Domain) returns (r: Result<(), string>)
      requires ValidNet(network.net) && InSync(network.net, chains) && dest in chains && InRange(event)
      requires event.destinationDomain == dest
      modifies this`chains, network
      ensures ValidNet(network.net) && InSync(network.net, chains) && NetGrew(old(network.net), network.net)
      ensures dest in chains && chains == old(chains)[dest := old(chains)[dest].(pendingNonce := chains[dest].pendingNonce)]
      ensures r.Success? || SaysProcessed(r.error) ==> Processed(network.marks, network.net[dest], dest, event)
      ensures network.failures == old(network.failures) + if r.Failure? then 1 else 0
    {
      var fetched := EnsureNonce(dest);
      if fetched.Failure? {
        return fetched;
      }
      ghost var net0 := network.net;
      r := SendWithNonce(event, dest);
      NetGrewTransitive(old(network.net), net0, network.net);
    }

    /** Get or initialize the pending nonce of a chain. A fetched one is the account's next nonce exactly
        when the count read did not lag. */
    method EnsureNonce(dest: Domain) returns (r: Result<(), string>)
      requires ValidNet(network.net) && InSync(network.net, chains) && dest in chains
      modifies this`chains, network
      ensures ValidNet(network.net) && InSync(network.net, chains) && NetGrew(old(network.net), network.net)
      ensures dest in chains && chains == old(chains)[dest := old(chains)[dest].(pendingNonce := chains[dest].pendingNonce)]
      ensures r.Success? ==> chains[dest].pendingNonce.Some?
      ensures r.Success? && old(chains)[dest].pendingNonce.None? ==>
                (chains[dest].pendingNonce.value == network.net[dest].nonce <==> !network.net[dest].countLagged)
      ensures r.Failure? ==> !SaysProcessed(r.error) && chains == old(chains)
      ensures network.failures == old(network.failures) + if r.Failure? then 1 else 0
    {
      if chains[dest].pendingNonce.Some? {
        NetGrewItself(network.net);
        return Success(());
      }
      var count := network.GetTransactionCount(dest);
      if count.Failure? {
        SyncStays(old(network.net), network.net, chains);
        return Failure(count.error);
      }
      SyncAfterSet(old(network.net), network.net, chains, dest, count.value);
      chains := chains[dest := chains[dest].(pendingNonce := Some(count.value))];
      r := Success(());
    }

    /** Send with the pending nonce, count it as used at once, and wait. */
    method SendWithNonce(event: MessageEvent, dest: Domain) returns (r: Result<(), string>)
      requires ValidNet(network.net) && InSync(network.net, chains) && dest in chains && chains[dest].pendingNonce.Some?
      modifies this`chains, network
      ensures ValidNet(network.net) && InSync(network.net, chains) && NetGrew(old(network.net), network.net)
      ensures dest in chains && chains == old(chains)[dest := old(chains)[dest].(pendingNonce := chains[dest].pendingNonce)]
      ensures r.Success? || SaysProcessed(r.error) ==> Processed(network.marks, network.net[dest], dest, event)
      ensures network.failures == old(network.failures) + if r.Failure? then 1 else 0
      ensures chains[dest].pendingNonce == old(chains)[dest].pendingNonce
           || chains[dest].pendingNonce == Some(old(chains)[dest].pendingNonce.value + 1)
      ensures old(chains)[dest].pendingNonce.value == old(network.net)[dest].nonce ==>
                chains[dest].pendingNonce == Some(network.net[dest].nonce)
    {
      var txNonce := chains[dest].pendingNonce.value;
      assert NonceInSync(network.net, dest, chains[dest]);
      var tx := network.ReceiveMessage(dest, Packed(event), txNonce, event);
      ghost var net1 := network.net;
      if tx.Failure? {
        SyncStays(old(network.net), network.net, chains);
        return Failure(tx.error);
      }
      SyncAfterSet(old(network.net), network.net, chains, dest, txNonce + 1);
      chains := chains[dest := chains[dest].(pendingNonce := Some(txNonce + 1))];
      r := network.Wait(dest, event);
      SyncStays(net1, network.net, chains);
      NetGrewTransitive(old(network.net), net1, network.net);
    }
  }

  lemma FewerLeft(left: set<Domain>, d: Domain)
    requires d in left
    ensures |left - {d}| < |left|
  {
  }

  /** What any run leaves behind on each chain. Every block after the start block up to the cursor was
      scanned in exactly one range. Exactly the logs of those blocks were attempted, in order, no
      message twice. An attempt that parsed, named a known domain and did not fail is a message
      its destination's transmitter has processed. A pending nonce is never ahead of the account, and is
      its next unused nonce unless the count read it came from lagged. */
  lemma WhatARunGuarantees(r: CCTPV2Relayer, d: Domain, block: nat, i: nat, j: nat)
    requires r.Valid() && d in r.chains
    ensures var h, cursor := r.history[d], r.chains[d].lastProcessedBlock;
            && (Covers(h.ranges, block) <==> h.start < block <= cursor)
            && (i < j < |h.ranges| ==> h.ranges[i].to < h.ranges[j].from)
            && AttemptedLogs(h.attempts) == LogsBetween(r.network.net[d].logs, h.start, cursor)
            && (i < j < |h.attempts| && h.attempts[i].log.event.Some? && h.attempts[j].log.event.Some? ==>
                  KeyOf(h.attempts[i].log.event.value) != KeyOf(h.attempts[j].log.event.value))
            && (i < |h.attempts| ==> AttemptTrue(Env(r.chains.Keys, r.network.marks), r.network.net, h.attempts[i]))
    ensures r.chains[d].pendingNonce.Some? ==>
              && r.chains[d].pendingNonce.value <= r.network.net[d].nonce
              && (!r.network.net[d].countLagged ==> r.chains[d].pendingNonce.value == r.network.net[d].nonce)
  {
    var h, cursor, logs := r.history[d], r.chains[d].lastProcessedBlock, r.network.net[d].logs;
    assert Tracked(Env(r.chains.Keys, r.network.marks), r.network.net, d, r.chains[d], h) && NonceInSync(r.network.net, d, r.chains[d]);
    ChainedRangesCover(h.ranges, h.start, cursor, block);
    ChainedRangesRise(h.ranges, h.start, cursor);
    assert ValidLogs(d, logs, r.network.net[d].height);
    ScanIsValid(d, logs, r.network.net[d].height, h.start, cursor);
    if i < |h.attempts| {
      TrueAt(Env(r.chains.Keys, r.network.marks), r.network.net, h.attempts, i);
      var tried := AttemptedLogs(h.attempts);
      if i < j < |h.attempts| && tried[i].event.Some? && tried[j].event.Some? {
        NextIsNew(d, tried, r.network.net[d].height, j);
        KeyAmong(tried[..j], i);
      }
    }
  }

  /** As long as no call has failed, every message found for a known domain is delivered. */
  lemma NoFailureMeansDelivered(r: CCTPV2Relayer, d: Domain, i: nat)
    requires r.Valid() && d in r.chains && i < |r.history[d].attempts| && r.network.failures == 0
    ensures var e := r.history[d].attempts[i].log.event;
            e.Some? && e.value.destinationDomain in r.chains ==>
              && e.value.destinationDomain in r.network.net
              && Processed(r.network.marks, r.network.net[e.value.destinationDomain], e.value.destinationDomain, e.value)
  {
    var h := r.history[d];
    assert Tracked(Env(r.chains.Keys, r.network.marks), r.network.net, d, r.chains[d], h);
    TrueAt(Env(r.chains.Keys, r.network.marks), r.network.net, h.attempts, i);
    assert FailedCount(h.attempts) == 0;
    NoneFailed(h.attempts, i);
  }

  lemma {:induction false} NoneFailed(attempts: seq<Attempt>, i: nat)
    requires FailedCount(attempts) == 0 && i < |attempts|
    ensures attempts[i].outcome != Failed
  {
    if i < |attempts| - 1 {
      NoneFailed(attempts[..|attempts| - 1], i);
    }
  }

  /** A message marked as processed was attempted and is delivered, and one whose attempt was relayed or
      found processed is marked. */
  lemma ProcessedIffDone(r: CCTPV2Relayer, d: Domain, key: Key)
    requires r.Valid() && d in r.chains
    ensures key in r.chains[d].processedMessages <==> exists i | 0 <= i < |r.history[d].attempts| ::
              DoneWith(r.history[d].attempts[i], key)
    ensures key in r.chains[d].processedMessages ==> exists i | 0 <= i < |r.history[d].attempts| ::
              && DoneWith(r.history[d].attempts[i], key)
              && AttemptTrue(Env(r.chains.Keys, r.network.marks), r.network.net, r.history[d].attempts[i])
  {
    var attempts := r.history[d].attempts;
    assert Tracked(Env(r.chains.Keys, r.network.marks), r.network.net, d, r.chains[d], r.history[d]);
    if key in DoneKeys(attempts) {
      var i := DoneAttempt(attempts, key);
      TrueAt(Env(r.chains.Keys, r.network.marks), r.network.net, attempts, i);
      assert DoneWith(attempts[i], key);
    }
    forall i | 0 <= i < |attempts| && DoneWith(attempts[i], key) ensures key in DoneKeys(attempts) {
      DoneIsMarked(attempts, i);
    }
  }

  /** The attempt relayed the message with this key, or found it processed. */
  predicate DoneWith(a: Attempt, key: Key) {
    a.log.event.Some? && Done(a.outcome) && KeyOf(a.log.event.value) == key
  }

  lemma {:induction false} DoneAttempt(attempts: seq<Attempt>, key: Key) returns (i: nat)
    requires key in DoneKeys(attempts)
    ensures i < |attempts| && DoneWith(attempts[i], key)
  {
    if key in DoneKeys(attempts[..|attempts| - 1]) {
      i := DoneAttempt(attempts[..|attempts| - 1], key);
    } else {
      i := |attempts| - 1;
    }
  }

  lemma {:induction false} DoneIsMarked(attempts: seq<Attempt>, i: nat)
    requires i < |attempts| && attempts[i].log.event.Some? && Done(attempts[i].outcome)
    ensures KeyOf(attempts[i].log.event.value) in DoneKeys(attempts)
  {
    if i < |attempts| - 1 {
      DoneIsMarked(attempts[..|attempts| - 1], i);
    }
  }

  /** With transmitters that read the relayer's own layout, processed means processed under the event's own
      key. */
  lemma PackedLayoutDelivers(marks: Marking, c: Chain, e: MessageEvent)
    requires InRange(e) && ReadsPackedLayout(marks)
    ensures Processed(marks, c, e.destinationDomain, e) <==> KeyOf(e) in c.delivered
  {
    DecodeOfEncode(e);
  }

  /** What the contracts' transmitters take of what the relayer packs, exactly. */
  lemma ContractsTakeIff(marks: Marking, relayer: Bytes, d: Domain, e: MessageEvent)
    requires InRange(e) && |relayer| == 20 && ReadsContractLayout(marks, relayer)
    ensures marks(d, e).Some? <==>
              && e.destinationDomain == d && |e.messageBody| >= 24
              && e.destinationCaller[24..32] == TransmitterV2.Zeros(8) && e.minFinalityThreshold == 0
              && relayer == [0, 0, 7, 208] + e.messageBody[..16]
  {
    TransmitterV2.PackedIsReceivedIff(e, d, relayer);
    if |e.messageBody| >= 24 {
      TransmitterV2.CallerReadIs(e, relayer);
    }
  }

  /** With the contracts' transmitter and a relayer address that does not start with the finality constant,
      nothing is ever relayed: every attempt for a known domain has failed, and no message is marked. */
  lemma ContractsTakeNothing(r: CCTPV2Relayer, d: Domain, i: nat, relayer: Bytes)
    requires r.Valid() && d in r.chains && |relayer| == 20 && relayer[..4] != [0, 0, 7, 208]
    requires ReadsContractLayout(r.network.marks, relayer)
    ensures r.chains[d].processedMessages == {}
    ensures i < |r.history[d].attempts| && r.history[d].attempts[i].log.event.Some?
            && r.history[d].attempts[i].log.event.value.destinationDomain in r.chains ==>
              r.history[d].attempts[i].outcome == Failed
  {
    var h := r.history[d];
    assert Tracked(Env(r.chains.Keys, r.network.marks), r.network.net, d, r.chains[d], h);
    NothingDone(r, d, relayer);
    NothingMarked(h.attempts);
    if i < |h.attempts| && h.attempts[i].log.event.Some? {
      TrueAt(Env(r.chains.Keys, r.network.marks), r.network.net, h.attempts, i);
      assert !Done(h.attempts[i].outcome);
    }
  }

  lemma {:induction false} NothingMarked(attempts: seq<Attempt>)
    requires forall i | 0 <= i < |attempts| :: !Done(attempts[i].outcome)
    ensures DoneKeys(attempts) == {}
  {
    if attempts != [] {
      NothingMarked(attempts[..|attempts| - 1]);
      assert !Done(attempts[|attempts| - 1].outcome);
    }
  }

  lemma NothingDone(r: CCTPV2Relayer, d: Domain, relayer: Bytes)
    requires r.Valid() && d in r.chains && |relayer| == 20 && relayer[..4] != [0, 0, 7, 208]
    requires ReadsContractLayout(r.network.marks, relayer)
    ensures forall i | 0 <= i < |r.history[d].attempts| :: !Done(r.history[d].attempts[i].outcome)
  {
    var attempts, net := r.history[d].attempts, r.network.net;
    assert Tracked(Env(r.chains.Keys, r.network.marks), net, d, r.chains[d], r.history[d]);
    assert ValidLogs(d, net[d].logs, net[d].height);
    ScanIsValid(d, net[d].logs, net[d].height, r.history[d].start, r.chains[d].lastProcessedBlock);
    forall i | 0 <= i < |attempts| ensures !Done(attempts[i].outcome) {
      TrueAt(Env(r.chains.Keys, r.network.marks), net, attempts, i);
      if attempts[i].log.event.Some? {
        assert AttemptedLogs(attempts)[i] == attempts[i].log;
        NextIsNew(d, AttemptedLogs(attempts), net[d].height, i);
        NotDone(Env(r.chains.Keys, r.network.marks), net, attempts[i].log.event.value, attempts[i].outcome, relayer);
      }
    }
  }

  lemma NotDone(env: Env, net: Net, e: MessageEvent, o: Outcome, relayer: Bytes)
    requires OutcomeTrue(env, net, e, o) && InRange(e) && |relayer| == 20 && relayer[..4] != [0, 0, 7, 208]
    requires ReadsContractLayout(env.marks, relayer)
    ensures !Done(o)
  {
    TransmitterV2.OrdinaryRelayerIsRefused(e, e.destinationDomain, relayer);
  }

  lemma {:induction false} TrueAt(env: Env, net: Net, attempts: seq<Attempt>, i: nat)
    requires AllTrue(env, net, attempts) && i < |attempts|
    ensures AttemptTrue(env, net, attempts[i])
  {
    if i < |attempts| - 1 {
      TrueAt(env, net, attempts[..|attempts| - 1], i);
    }
  }

  lemma {:induction false} KeyAmong(logs: seq<Log>, i: nat)
    requires i < |logs| && logs[i].event.Some?
    ensures KeyOf(logs[i].event.value) in KeysOf(logs)
  {
    if i < |logs| - 1 {
      KeyAmong(logs[..|logs| - 1], i);
    }
  }
}
