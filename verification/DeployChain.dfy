/** The chain a deploy run talks to: one timelock operation, the revenue lock, and the deployer's
    transactions. Any sequence of events is a history; the deploy script only adds broadcasts. */
module DeployChain {
  import opened Wrappers

  /** The deployer's calls. An operation is scheduled with a delay. */
  datatype Kind = Schedule(delay: nat) | Execute | Activate

  /** A broadcast transaction; `id` stands for its hash. */
  datatype Tx = Tx(id: nat, nonce: nat, kind: Kind)

  datatype Mined = Mined(tx: Tx, ok: bool)

  datatype Execution = Execution(ready: nat, at: nat)

  /** The timelock's entry for the operation is 0 when unknown, 1 when done, else its ready time.
      `mined[n]` is the deployer's transaction with nonce n, and `pool` a pending one. */
  datatype Chain = Chain(
    now: nat, minDelay: nat, timestamp: nat, executions: seq<Execution>,
    activated: bool, funded: bool,
    mined: seq<Mined>, pool: Option<Tx>)

  /** What can happen: time passes, the delay changes, the lock is funded, the operation is cancelled,
      someone else makes a call, the pending transaction is mined or dropped, or one is broadcast. */
  datatype Event =
    | Tick(seconds: nat) | SetDelay(delay: nat) | Fund | Cancel
    | Others(kind: Kind, targetOk: bool)
    | Mine(targetOk: bool) | Drop | Broadcast(tx: Tx)

  const DONE_TIMESTAMP: nat := 1

  predicate Done(c: Chain) {
    c.timestamp == DONE_TIMESTAMP
  }

  predicate Pending(c: Chain) {
    c.timestamp > DONE_TIMESTAMP
  }

  /** A call to the contracts; None when it reverts. */
  function Call(c: Chain, kind: Kind, targetOk: bool): Option<Chain> {
    match kind
    case Schedule(delay) =>
      if c.timestamp != 0 || delay < c.minDelay then None else Some(c.(timestamp := c.now + delay))
    case Execute =>
      if !Pending(c) || c.now < c.timestamp || !targetOk then None
      else Some(c.(timestamp := DONE_TIMESTAMP, executions := c.executions + [Execution(c.timestamp, c.now)]))
    case Activate =>
      if c.activated || !c.funded then None else Some(c.(activated := true))
  }

  function Next(c: Chain, e: Event): Chain {
    match e
    case Tick(seconds) => c.(now := c.now + seconds)
    case SetDelay(delay) => c.(minDelay := delay)
    case Fund => c.(funded := true)
    case Cancel => if Pending(c) then c.(timestamp := 0) else c
    case Others(kind, targetOk) => Call(c, kind, targetOk).UnwrapOr(c)
    case Mine(targetOk) =>
      if c.pool.None? then c
      else
        var tx := c.pool.value;
        var called := Call(c, tx.kind, targetOk);
        called.UnwrapOr(c).(mined := c.mined + [Mined(tx, called.Some?)], pool := None)
    case Drop => c.(pool := None)
    case Broadcast(tx) => if tx.nonce == |c.mined| then c.(pool := Some(tx)) else c
  }

  function Run(c: Chain, events: seq<Event>): Chain {
    if events == [] then c else Next(Run(c, events[..|events| - 1]), events[|events| - 1])
  }

  /** Some mined transaction of this kind succeeded. */
  predicate Succeeded(mined: seq<Mined>, execute: bool) {
    mined != []
    && (Succeeded(mined[..|mined| - 1], execute)
        || (mined[|mined| - 1].ok && if execute then mined[|mined| - 1].tx.kind.Execute? else mined[|mined| - 1].tx.kind.Activate?))
  }

  predicate NoncesInOrder(mined: seq<Mined>) {
    mined == [] || (mined[|mined| - 1].tx.nonce == |mined| - 1 && NoncesInOrder(mined[..|mined| - 1]))
  }

  /** What every history keeps: the operation is done exactly when it executed, once and not before
      its ready time; successful transactions had their effect; and nonces are used in order. */
  predicate Sound(c: Chain) {
    && c.now > DONE_TIMESTAMP
    && |c.executions| == (if Done(c) then 1 else 0)
    && (c.executions != [] ==> c.executions[0].ready <= c.executions[0].at)
    && (Succeeded(c.mined, true) ==> Done(c))
    && (Succeeded(c.mined, false) ==> c.activated)
    && NoncesInOrder(c.mined)
    && (c.pool.Some? ==> c.pool.value.nonce == |c.mined|)
  }

  /** The contracts keep the invariant, and a call that succeeds has its effect. */
  lemma CallKeepsSound(c: Chain, kind: Kind, targetOk: bool)
    requires Sound(c) && Call(c, kind, targetOk).Some?
    ensures var after := Call(c, kind, targetOk).value;
            Sound(after) && after.mined == c.mined && (kind.Execute? ==> Done(after)) && (kind.Activate? ==> after.activated)
  {
  }

  lemma MinedKeepsSound(c: Chain, m: Mined)
    requires Sound(c) && m.tx.nonce == |c.mined|
    requires m.ok && m.tx.kind.Execute? ==> Done(c)
    requires m.ok && m.tx.kind.Activate? ==> c.activated
    ensures Sound(c.(mined := c.mined + [m], pool := None))
  {
    var after := c.mined + [m];
    assert after[..|after| - 1] == c.mined;
  }

  lemma NextKeepsSound(c: Chain, e: Event)
    requires Sound(c)
    ensures Sound(Next(c, e))
  {
    match e
    case Mine(targetOk) =>
      if c.pool.Some? {
        var tx := c.pool.value;
        var called := Call(c, tx.kind, targetOk);
        if called.Some? {
          CallKeepsSound(c, tx.kind, targetOk);
        }
        MinedKeepsSound(called.UnwrapOr(c), Mined(tx, called.Some?));
      }
    case Others(kind, targetOk) =>
      if Call(c, kind, targetOk).Some? {
        CallKeepsSound(c, kind, targetOk);
      }
    case _ =>
  }

  /** Every history keeps the invariant, whoever takes part in it. */
  lemma {:induction false} RunKeepsSound(c: Chain, events: seq<Event>)
    requires Sound(c)
    ensures Sound(Run(c, events))
  {
    if events != [] {
      RunKeepsSound(c, events[..|events| - 1]);
      NextKeepsSound(Run(c, events[..|events| - 1]), events[|events| - 1]);
    }
  }

  /** Done and activated are for ever; time and mined transactions only grow. */
  predicate Behind(a: Chain, b: Chain) {
    a.now <= b.now && (Done(a) ==> Done(b)) && (a.activated ==> b.activated) && a.mined <= b.mined
  }

  lemma NextIsLater(a: Chain, c: Chain, e: Event)
    requires Behind(a, c)
    ensures Behind(a, Next(c, e))
  {
  }

  /** A node that lags shows a state behind the newest one. */
  lemma {:induction false} PastIsBehind(c: Chain, events: seq<Event>, k: nat)
    requires k <= |events|
    ensures Behind(Run(c, events[..k]), Run(c, events))
  {
    if k == |events| {
      assert events[..k] == events;
    } else {
      var front := events[..|events| - 1];
      assert front[..k] == events[..k];
      PastIsBehind(c, front, k);
      NextIsLater(Run(c, events[..k]), Run(c, front), events[|events| - 1]);
    }
  }

  lemma {:induction false} RunJoin(c: Chain, first: seq<Event>, second: seq<Event>)
    ensures Run(c, first + second) == Run(Run(c, first), second)
  {
    if second == [] {
      assert first + second == first;
    } else {
      var all := first + second;
      assert all[..|all| - 1] == first + second[..|second| - 1];
      RunJoin(c, first, second[..|second| - 1]);
    }
  }

  lemma RunSnoc(c: Chain, events: seq<Event>, e: Event)
    ensures Run(c, events + [e]) == Next(Run(c, events), e)
  {
    var all := events + [e];
    assert all[..|all| - 1] == events;
  }

  predicate NoBroadcast(events: seq<Event>) {
    events == [] || (NoBroadcast(events[..|events| - 1]) && !events[|events| - 1].Broadcast?)
  }

  /** Without a broadcast, at most the pending transaction is mined. */
  predicate Quiet(a: Chain, b: Chain) {
    || (b.mined == a.mined && (b.pool == a.pool || b.pool == None))
    || (a.pool.Some? && b.pool == None && |b.mined| == |a.mined| + 1
        && b.mined == a.mined + [Mined(a.pool.value, b.mined[|a.mined|].ok)])
  }

  lemma {:induction false} QuietWithoutBroadcast(c: Chain, events: seq<Event>)
    requires NoBroadcast(events)
    ensures Quiet(c, Run(c, events))
  {
    if events != [] {
      QuietWithoutBroadcast(c, events[..|events| - 1]);
      QuietStep(c, Run(c, events[..|events| - 1]), events[|events| - 1]);
    }
  }

  lemma QuietStep(a: Chain, c: Chain, e: Event)
    requires Quiet(a, c) && !e.Broadcast?
    ensures Quiet(a, Next(c, e))
  {
  }

  lemma {:induction false} SuccessCounts(mined: seq<Mined>, n: nat)
    requires n < |mined| && mined[n].ok
    ensures mined[n].tx.kind.Execute? ==> Succeeded(mined, true)
    ensures mined[n].tx.kind.Activate? ==> Succeeded(mined, false)
  {
    if n < |mined| - 1 {
      SuccessCounts(mined[..|mined| - 1], n);
    }
  }
}

/** The deploy script's view of that chain: RPC nodes that may lag or fail, and a process that may
    die inside any call. */
module DeployWorld {
  import opened Wrappers
  import opened DeployChain

  datatype Outcome<+T> = Returned(value: T) | Threw(message: string) | Died

  /** What waiting for a transaction brings: a receipt or none, or an error that may carry a receipt. */
  datatype Waited = Waited(receipt: Option<Mined>) | WaitFailed(message: string, receipt: Option<Mined>) | WaitDied

  predicate IdsBelow(mined: seq<Mined>, bound: nat) {
    mined == [] || (IdsBelow(mined[..|mined| - 1], bound) && mined[|mined| - 1].tx.id < bound)
  }

  lemma {:induction false} IdBelow(mined: seq<Mined>, bound: nat, n: nat)
    requires IdsBelow(mined, bound) && n < |mined|
    ensures mined[n].tx.id < bound
  {
    if n < |mined| - 1 {
      IdBelow(mined[..|mined| - 1], bound, n);
    }
  }

  lemma {:induction false} IdsBelowMore(mined: seq<Mined>, bound: nat, more: nat)
    requires IdsBelow(mined, bound) && bound <= more
    ensures IdsBelow(mined, more)
  {
    if mined != [] {
      IdsBelowMore(mined[..|mined| - 1], bound, more);
    }
  }

  /** Every transaction mined or pending has an id below `bound`. */
  predicate AllIdsBelow(c: Chain, bound: nat) {
    IdsBelow(c.mined, bound) && (c.pool.Some? ==> c.pool.value.id < bound)
  }

  lemma QuietKeepsIds(a: Chain, b: Chain, bound: nat)
    requires AllIdsBelow(a, bound) && Quiet(a, b)
    ensures AllIdsBelow(b, bound)
  {
    if b.mined != a.mined {
      assert b.mined[..|b.mined| - 1] == a.mined;
    }
  }

  /** A transaction just sent is pending, or its nonce was used before by another one. */
  predicate Sent(c: Chain, tx: Tx) {
    if tx.nonce < |c.mined| then c.mined[tx.nonce].tx != tx
    else tx.nonce == |c.mined| && c.pool == Some(tx)
  }

  lemma BroadcastSends(c: Chain, tx: Tx)
    requires Sound(c) && AllIdsBelow(c, tx.id) && tx.nonce <= |c.mined|
    ensures var after := Next(c, Broadcast(tx));
            Sound(after) && AllIdsBelow(after, tx.id + 1) && Behind(c, after) && Sent(after, tx)
  {
    if tx.nonce < |c.mined| {
      IdBelow(c.mined, tx.id, tx.nonce);
    }
    IdsBelowMore(c.mined, tx.id, tx.id + 1);
    NextKeepsSound(c, Broadcast(tx));
  }

  /** A sent transaction is mined only as the next one. */
  lemma SentIsMinedNext(a: Chain, b: Chain, tx: Tx, ok: bool)
    requires Sent(a, tx) && Quiet(a, b) && tx.nonce < |b.mined| && b.mined[tx.nonce] == Mined(tx, ok)
    ensures tx.nonce == |a.mined| && |b.mined| == tx.nonce + 1 && b.pool == None
  {
  }

  /** What a script asks a node about the operation and the lock. Estimating the gas of an activation
      succeeds where the call would. */
  datatype Question = IsDone | IsPending | IsActive | CanActivate

  /** The numbers it reads. */
  datatype Field = Timestamp | MinDelay | Time | TransactionCount

  function Answer(q: Question, c: Chain): bool {
    match q
    case IsDone => Done(c)
    case IsPending => Pending(c)
    case IsActive => c.activated
    case CanActivate => Call(c, Activate, true).Some?
  }

  function Number(f: Field, c: Chain): nat {
    match f
    case Timestamp => c.timestamp
    case MinDelay => c.minDelay
    case Time => c.now
    case TransactionCount => |c.mined|
  }

  /** The latest answers the script has got. */
  datatype View = View(answers: map<Question, bool>, numbers: map<Field, nat>)

  predicate Saw(v: View, q: Question, answer: bool) {
    q in v.answers && v.answers[q] == answer
  }

  /** One of the chain's states so far gives this answer. */
  ghost predicate Shown(initial: Chain, events: seq<Event>, q: Question, answer: bool) {
    exists k: nat :: k <= |events| && Answer(q, Run(initial, events[..k])) == answer
  }

  ghost predicate ShownNumber(initial: Chain, events: seq<Event>, f: Field, value: nat) {
    exists k: nat :: k <= |events| && Number(f, Run(initial, events[..k])) == value
  }

  /** Everything in the view was true of the chain at some moment of its history. */
  ghost predicate Truthful(v: View, initial: Chain, events: seq<Event>) {
    && (forall q | q in v.answers :: Shown(initial, events, q, v.answers[q]))
    && (forall f | f in v.numbers :: ShownNumber(initial, events, f, v.numbers[f]))
  }

  lemma ShownLater(initial: Chain, events: seq<Event>, later: seq<Event>, q: Question, answer: bool)
    requires events <= later && Shown(initial, events, q, answer)
    ensures Shown(initial, later, q, answer)
  {
    var k: nat :| k <= |events| && Answer(q, Run(initial, events[..k])) == answer;
    assert later[..k] == events[..k];
  }

  lemma ShownNumberLater(initial: Chain, events: seq<Event>, later: seq<Event>, f: Field, value: nat)
    requires events <= later && ShownNumber(initial, events, f, value)
    ensures ShownNumber(initial, later, f, value)
  {
    var k: nat :| k <= |events| && Number(f, Run(initial, events[..k])) == value;
    assert later[..k] == events[..k];
  }

  lemma TruthfulLater(v: View, initial: Chain, events: seq<Event>, later: seq<Event>)
    requires events <= later && Truthful(v, initial, events)
    ensures Truthful(v, initial, later)
  {
    forall q | q in v.answers ensures Shown(initial, later, q, v.answers[q]) {
      ShownLater(initial, events, later, q, v.answers[q]);
    }
    forall f | f in v.numbers ensures ShownNumber(initial, later, f, v.numbers[f]) {
      ShownNumberLater(initial, events, later, f, v.numbers[f]);
    }
  }

  /** A broadcast of the script: its place in the history, the chain time then, and what the script had
      seen by then. */
  datatype Send = Send(tx: Tx, position: nat, at: nat, view: View)

  /** The record is exactly the broadcasts of the history, in order, each with its place and time, and with
      a view that was true by then. */
  ghost predicate Logged(sends: seq<Send>, initial: Chain, events: seq<Event>) {
    if events == [] then sends == []
    else
      var front, e := events[..|events| - 1], events[|events| - 1];
      if e.Broadcast? then
        && sends != []
        && var last := sends[|sends| - 1];
           && last.tx == e.tx && last.position == |front| && last.at == Run(initial, front).now
           && Truthful(last.view, initial, front)
           && Logged(sends[..|sends| - 1], initial, front)
      else Logged(sends, initial, front)
  }

  lemma {:induction false} LoggedLater(sends: seq<Send>, initial: Chain, events: seq<Event>, more: seq<Event>)
    requires Logged(sends, initial, events) && NoBroadcast(more)
    ensures Logged(sends, initial, events + more)
  {
    if more == [] {
      assert events + more == events;
    } else {
      var all := events + more;
      assert all[..|all| - 1] == events + more[..|more| - 1];
      LoggedLater(sends, initial, events, more[..|more| - 1]);
    }
  }

  lemma LoggedBroadcast(sends: seq<Send>, initial: Chain, events: seq<Event>, tx: Tx, v: View)
    requires Logged(sends, initial, events) && Truthful(v, initial, events)
    ensures Logged(sends + [Send(tx, |events|, Run(initial, events).now, v)], initial, events + [Broadcast(tx)])
  {
    var all, record := events + [Broadcast(tx)], sends + [Send(tx, |events|, Run(initial, events).now, v)];
    assert all[..|all| - 1] == events && record[..|record| - 1] == sends;
  }

  /** Every broadcast of the history is on record. */
  lemma {:induction false} BroadcastIsRecorded(sends: seq<Send>, initial: Chain, events: seq<Event>, k: nat) returns (i: nat)
    requires Logged(sends, initial, events) && k < |events| && events[k].Broadcast?
    ensures i < |sends| && sends[i].tx == events[k].tx && sends[i].position == k
    ensures sends[i].at == Run(initial, events[..k]).now && Truthful(sends[i].view, initial, events[..k])
  {
    var front := events[..|events| - 1];
    if k == |front| {
      i := |sends| - 1;
    } else {
      assert front[..k] == events[..k];
      if events[|front|].Broadcast? {
        i := BroadcastIsRecorded(sends[..|sends| - 1], initial, front, k);
      } else {
        i := BroadcastIsRecorded(sends, initial, front, k);
      }
    }
  }

  /** And everything on record was broadcast, in that order. */
  lemma {:induction false} RecordedIsBroadcast(sends: seq<Send>, initial: Chain, events: seq<Event>, i: nat)
    requires Logged(sends, initial, events) && i < |sends|
    ensures sends[i].position < |events| && events[sends[i].position] == Broadcast(sends[i].tx)
    ensures forall j | 0 <= j < i :: sends[j].position < sends[i].position
  {
    var front := events[..|events| - 1];
    if events[|front|].Broadcast? {
      if i < |sends| - 1 {
        RecordedIsBroadcast(sends[..|sends| - 1], initial, front, i);
      } else {
        forall j | 0 <= j < i ensures sends[j].position < sends[i].position {
          RecordedIsBroadcast(sends[..|sends| - 1], initial, front, j);
        }
      }
    } else {
      RecordedIsBroadcast(sends, initial, front, i);
    }
  }

  /** What must have been seen before a call is made. Schedule: the operation neither done nor pending,
      and the delay. Execute: not done, and ready since a time that has come. Activate: the lock inactive
      and the call possible. */
  predicate Justified(kind: Kind, at: nat, v: View) {
    match kind
    case Schedule(delay) =>
      Saw(v, IsDone, false) && Saw(v, IsPending, false) && MinDelay in v.numbers && v.numbers[MinDelay] == delay
    case Execute => Saw(v, IsDone, false) && Timestamp in v.numbers && v.numbers[Timestamp] <= at
    case Activate => Saw(v, IsActive, false) && Saw(v, CanActivate, true)
  }

  predicate AllJustified(sends: seq<Send>) {
    sends == []
    || (AllJustified(sends[..|sends| - 1])
        && var last := sends[|sends| - 1]; Justified(last.tx.kind, last.at, last.view))
  }

  /** At most one broadcast was added: of this kind and nonce, not before `low`, and with this view. */
  predicate AtMostOneMore(a: seq<Send>, b: seq<Send>, kind: Kind, nonce: nat, low: nat, v: View) {
    b == a || OneMore(a, b, kind, nonce, low, v)
  }

  predicate OneMore(a: seq<Send>, b: seq<Send>, kind: Kind, nonce: nat, low: nat, v: View) {
    && b != [] && b[..|b| - 1] == a
    && var last := b[|b| - 1];
       last.tx.kind == kind && last.tx.nonce == nonce && low <= last.at && last.view == v
  }

  lemma StaysJustified(a: seq<Send>, b: seq<Send>, kind: Kind, nonce: nat, low: nat, v: View)
    requires AllJustified(a) && AtMostOneMore(a, b, kind, nonce, low, v) && Justified(kind, low, v)
    ensures AllJustified(b)
  {
  }

  /** A broadcast leaves the world valid, and is recorded with what was seen before it. */
  lemma BroadcastKeepsValid(initial: Chain, events: seq<Event>, c: Chain, tx: Tx, sends: seq<Send>, v: View)
    requires c == Run(initial, events) && Sound(c) && AllIdsBelow(c, tx.id) && tx.nonce <= |c.mined|
    requires Truthful(v, initial, events) && Logged(sends, initial, events)
    ensures var after, later := Next(c, Broadcast(tx)), events + [Broadcast(tx)];
            && after == Run(initial, later) && Sound(after) && AllIdsBelow(after, tx.id + 1)
            && Behind(c, after) && Sent(after, tx)
            && Truthful(v, initial, later) && Logged(sends + [Send(tx, |events|, c.now, v)], initial, later)
  {
    BroadcastSends(c, tx);
    RunSnoc(initial, events, Broadcast(tx));
    TruthfulLater(v, initial, events, events + [Broadcast(tx)]);
    LoggedBroadcast(sends, initial, events, tx, v);
  }

  class World {
    const initial: Chain
    var events: seq<Event>
    var chain: Chain
    var nextId: nat
    var life: nat
    ghost var view: View
    ghost var sends: seq<Send>

    constructor (initial: Chain, nextId: nat, life: nat)
      requires Sound(initial) && AllIdsBelow(initial, nextId)
      ensures Valid() && this.initial == initial && chain == initial
      ensures view == View(map[], map[]) && sends == []
    {
      this.initial := initial;
      events := [];
      chain := initial;
      this.nextId := nextId;
      this.life := life;
      view := View(map[], map[]);
      sends := [];
    }

    ghost predicate Valid()
      reads this
    {
      && chain == Run(initial, events) && Sound(chain) && AllIdsBelow(chain, nextId)
      && Truthful(view, initial, events) && Logged(sends, initial, events)
    }

    /** Anything but a broadcast of the deployer may happen between two steps. */
    method Advance()
      requires Valid()
      modifies this`events, this`chain
      ensures Valid() && Quiet(old(chain), chain) && Behind(old(chain), chain)
    {
      var more: seq<Event> := *;
      if NoBroadcast(more) {
        RunJoin(initial, events, more);
        QuietWithoutBroadcast(chain, more);
        RunKeepsSound(chain, more);
        assert more[..0] == [];
        PastIsBehind(chain, more, 0);
        QuietKeepsIds(chain, Run(chain, more), nextId);
        TruthfulLater(view, initial, events, events + more);
        LoggedLater(sends, initial, events, more);
        chain := Run(chain, more);
        events := events + more;
      }
    }

    /** The state some node shows: one of the states so far. */
    method Snapshot() returns (c: Chain)
      requires Valid()
      modifies this`events, this`chain
      ensures Valid() && Behind(old(chain), chain) && Behind(c, chain)
      ensures old(chain.pool) == None ==> chain.pool == None && chain.mined == old(chain.mined)
      ensures exists k: nat :: k <= |events| && c == Run(initial, events[..k])
    {
      Advance();
      var k :| 0 <= k <= |events|;
      c := Run(initial, events[..k]);
      PastIsBehind(initial, events, k);
    }

    /** A question to some node, which may fail or never return. */
    method Ask(q: Question) returns (r: Outcome<bool>)
      requires Valid()
      modifies this`events, this`chain, this`view
      ensures Valid() && Behind(old(chain), chain)
      ensures old(chain.pool) == None ==> chain.pool == None && chain.mined == old(chain.mined)
      ensures view == if r.Returned? then old(view).(answers := old(view).answers[q := r.value]) else old(view)
      ensures r == Returned(true) && q == IsDone ==> Done(chain)
      ensures r == Returned(true) && q == IsActive ==> chain.activated
    {
      var c := Snapshot();
      var fails: bool, message: Option<string> := *, *;
      r := if !fails then Returned(Answer(q, c)) else if message.Some? then Threw(message.value) else Died;
      if r.Returned? {
        assert Shown(initial, events, q, r.value);
        view := view.(answers := view.answers[q := r.value]);
      }
    }

    /** Read a number from some node. A process reads finitely often in its life. */
    method Read(f: Field) returns (r: Outcome<nat>)
      requires Valid()
      modifies this`events, this`chain, this`view, this`life
      ensures Valid() && Behind(old(chain), chain)
      ensures if r.Died? then life <= old(life) else life < old(life)
      ensures view == if r.Returned? then old(view).(numbers := old(view).numbers[f := r.value]) else old(view)
      ensures r.Returned? && f == Time ==> r.value <= chain.now
      ensures r.Returned? && f == TransactionCount ==> r.value <= |chain.mined|
    {
      var c := Snapshot();
      if life == 0 {
        return Died;
      }
      life := life - 1;
      var fails: bool, message: Option<string> := *, *;
      r := if !fails then Returned(Number(f, c)) else if message.Some? then Threw(message.value) else Died;
      if r.Returned? {
        assert ShownNumber(initial, events, f, r.value);
        view := view.(numbers := view.numbers[f := r.value]);
      }
    }

    /** Send a call with a nonce. A send that throws, or during which the process dies, may have
        broadcast or not. A node that lags may take a used nonce; that transaction is lost. */
    method SendCall(kind: Kind, nonce: nat) returns (r: Outcome<Tx>)
      requires Valid() && nonce <= |chain.mined|
      modifies this`events, this`chain, this`nextId, this`sends
      ensures Valid() && Behind(old(chain), chain)
      ensures AtMostOneMore(old(sends), sends, kind, nonce, old(chain.now), view)
      ensures r.Returned? ==> r.value.nonce == nonce && r.value.kind == kind && Sent(chain, r.value)
      ensures r.Returned? ==> |sends| == |old(sends)| + 1 && sends[|sends| - 1].tx == r.value
    {
      Advance();
      var tx := Tx(nextId, nonce, kind);
      var broadcast: bool, accepted: bool, message: Option<string> := *, *, *;
      if broadcast {
        BroadcastCall(tx);
      }
      r := if broadcast && accepted then Returned(tx) else if message.Some? then Threw(message.value) else Died;
    }

    method BroadcastCall(tx: Tx)
      requires Valid() && tx.id == nextId && tx.nonce <= |chain.mined|
      modifies this`events, this`chain, this`nextId, this`sends
      ensures Valid() && Behind(old(chain), chain) && Sent(chain, tx)
      ensures sends == old(sends) + [Send(tx, |old(events)|, old(chain.now), view)]
    {
      var after, later := Next(chain, Broadcast(tx)), events + [Broadcast(tx)];
      BroadcastKeepsValid(initial, events, chain, tx, sends, view);
      Become(after, later, nextId + 1, sends + [Send(tx, |events|, chain.now, view)]);
    }

    method Become(after: Chain, later: seq<Event>, id: nat, ghost record: seq<Send>)
      requires after == Run(initial, later) && Sound(after) && AllIdsBelow(after, id)
      requires Truthful(view, initial, later) && Logged(record, initial, later)
      modifies this`events, this`chain, this`nextId, this`sends
      ensures Valid() && chain == after && sends == record
    {
      chain, events, nextId, sends := after, later, id, record;
    }

    /** Wait until the transaction is mined. A receipt is of a mined transaction; without an error
        it is this one's. */
    method Wait(tx: Tx) returns (w: Waited)
      requires Valid()
      modifies this`events, this`chain
      ensures Valid() && Quiet(old(chain), chain) && Behind(old(chain), chain)
      ensures w.Waited? && w.receipt.Some? ==> w.receipt.value.tx == tx
      ensures !w.WaitDied? && w.receipt.Some? ==>
                var n := w.receipt.value.tx.nonce;
                n < |chain.mined| && chain.mined[n] == w.receipt.value
    {
      Advance();
      var k: nat, message: string, how: int := *, *, *;
      if k < |chain.mined| && chain.mined[k].tx.nonce == k {
        if how == 0 && chain.mined[k].tx == tx {
          return Waited(Some(chain.mined[k]));
        }
        if how == 1 {
          return WaitFailed(message, Some(chain.mined[k]));
        }
      }
      w := if how == 2 then Waited(None) else if how == 3 then WaitFailed(message, None) else WaitDied;
    }
  }

  /** Send a call and await it. A receipt of the transaction itself shows that it took the next nonce. */
  method Submit(world: World, kind: Kind, nonce: nat) returns (sent: Outcome<Tx>, waited: Waited)
    requires world.Valid() && nonce <= |world.chain.mined|
    modifies world`events, world`chain, world`nextId, world`sends
    ensures world.Valid() && Behind(old(world.chain), world.chain)
    ensures AtMostOneMore(old(world.sends), world.sends, kind, nonce, old(world.chain.now), world.view)
    ensures sent.Returned? ==> sent.value.nonce == nonce && sent.value.kind == kind
    ensures sent.Returned? ==> |world.sends| == |old(world.sends)| + 1 && world.sends[|world.sends| - 1].tx == sent.value
    ensures sent.Returned? && waited.Waited? && waited.receipt.Some? ==> waited.receipt.value.tx == sent.value
    ensures sent.Returned? && !waited.WaitDied? && waited.receipt.Some? && waited.receipt.value.tx == sent.value ==>
              && |world.chain.mined| == nonce + 1 && world.chain.mined[nonce] == waited.receipt.value
              && world.chain.pool == None
  {
    sent := world.SendCall(kind, nonce);
    if !sent.Returned? {
      return sent, WaitDied;
    }
    ghost var before := world.chain;
    waited := world.Wait(sent.value);
    if !waited.WaitDied? && waited.receipt.Some? && waited.receipt.value.tx == sent.value {
      SentIsMinedNext(before, world.chain, sent.value, waited.receipt.value.ok);
    }
  }
}
