/** The live path of a timelock call: schedule, wait, execute, and be safe to run again. */
module TimelockCalls {
  import opened Wrappers
  import opened Strings
  import opened NonceManagers
  import opened DeployChain
  import opened DeployWorld

  const EXECUTE_ATTEMPTS: nat := 8

  /** The nonces handed out from `from` up to `to` are the last ones the chain used: the execute
      call, which succeeded, and before it at most one schedule call. */
  predicate HandedOutAreMined(mined: seq<Mined>, from: nat, to: nat) {
    || from == to
    || (&& from < to == |mined| && to <= from + 2
        && mined[to - 1].tx.kind.Execute? && mined[to - 1].ok
        && (to == from + 2 ==> mined[from].tx.kind.Schedule?))
  }

  /** What a run has to send, given what it was shown: nothing for an operation that is done, only the
      execute call for a pending one, and otherwise both calls. */
  predicate SendsAsShown(v: View, nonces: nat) {
    if Saw(v, IsDone, true) then nonces == 0
    else if Saw(v, IsPending, true) then nonces == 1
    else Saw(v, IsDone, false) && Saw(v, IsPending, false) && nonces == 2
  }

  predicate SaysNotReady(message: string) {
    Includes(ToLower(message), "not ready")
  }

  /** Perform the operation once. A normal return means it is done, in this run or before, and
      that this run left no nonce behind. Nodes may lag at every read, anyone may schedule,
      execute or cancel, and the process may die inside any call. Nothing is ever sent before
      the answers that call for it. */
  method TimelockCall(world: World, nm: NonceManager, description: string) returns (r: Outcome<bool>)
    requires world.Valid() && AllJustified(world.sends) && nm.nonce <= |world.chain.mined|
    modifies world, nm
    ensures world.Valid() && AllJustified(world.sends) && Behind(old(world.chain), world.chain)
    ensures old(nm.nonce) <= nm.nonce <= old(nm.nonce) + 2
    ensures nm.nonce == old(nm.nonce) ==> world.sends == old(world.sends)
    ensures nm.nonce != old(nm.nonce) ==> Saw(world.view, IsDone, false)
    ensures r.Returned? ==> r.value && Done(world.chain)
    ensures r.Returned? ==> HandedOutAreMined(world.chain.mined, old(nm.nonce), nm.nonce)
    ensures r.Returned? ==> SendsAsShown(world.view, nm.nonce - old(nm.nonce))
  {
    var done := world.Ask(IsDone);
    if done.Threw? {
      return Threw(done.message);
    }
    if done.Died? {
      return Died;
    }
    if done.value {
      return Returned(true);
    }
    r := ScheduleThenExecute(world, nm, description);
  }

  method ScheduleThenExecute(world: World, nm: NonceManager, description: string) returns (r: Outcome<bool>)
    requires world.Valid() && AllJustified(world.sends) && nm.nonce <= |world.chain.mined|
    requires Saw(world.view, IsDone, false)
    modifies world, nm
    ensures world.Valid() && AllJustified(world.sends) && Behind(old(world.chain), world.chain)
    ensures Saw(world.view, IsDone, false)
    ensures old(nm.nonce) <= nm.nonce <= old(nm.nonce) + 2
    ensures nm.nonce == old(nm.nonce) ==> world.sends == old(world.sends)
    ensures r.Returned? ==> r.value && Done(world.chain)
    ensures r.Returned? ==> HandedOutAreMined(world.chain.mined, old(nm.nonce), nm.nonce)
    ensures r.Returned? ==> SendsAsShown(world.view, nm.nonce - old(nm.nonce))
  {
    var ready := EnsureScheduled(world, nm);
    if !ready.Returned? {
      return if ready.Threw? then Threw(ready.message) else Died;
    }
    r := WaitAndExecute(world, nm, ready.value, description, old(nm.nonce));
  }

  lemma ScheduledThenExecuted(a: Chain, b: Chain, from: nat, mid: nat)
    requires Behind(a, b) && Sound(b) && from <= mid <= from + 1 && |b.mined| == mid + 1
    requires mid != from ==> from < |a.mined| && a.mined[from].tx.kind.Schedule?
    requires b.mined[mid].ok && b.mined[mid].tx.kind.Execute?
    ensures Done(b) && HandedOutAreMined(b.mined, from, mid + 1)
  {
    SuccessCounts(b.mined, mid);
    assert mid != from ==> b.mined[from] == a.mined[from];
  }

  /** Wait for the time that was read, then execute. The run's first nonce was `from`. */
  method WaitAndExecute(world: World, nm: NonceManager, ready: nat, description: string, ghost from: nat)
      returns (r: Outcome<bool>)
    requires world.Valid() && AllJustified(world.sends) && nm.nonce <= |world.chain.mined|
    requires Saw(world.view, IsDone, false) && Timestamp in world.view.numbers && world.view.numbers[Timestamp] == ready
    requires from <= nm.nonce <= from + 1 && Saw(world.view, IsPending, nm.nonce == from)
    requires nm.nonce != from ==> world.chain.mined[from].tx.kind.Schedule?
    modifies world, nm
    ensures world.Valid() && AllJustified(world.sends) && Behind(old(world.chain), world.chain)
    ensures Saw(world.view, IsDone, false)
    ensures nm.nonce == old(nm.nonce) || nm.nonce == old(nm.nonce) + 1
    ensures nm.nonce == old(nm.nonce) ==> world.sends == old(world.sends)
    ensures r.Returned? ==> r.value && Done(world.chain)
    ensures r.Returned? ==> HandedOutAreMined(world.chain.mined, from, nm.nonce)
    ensures r.Returned? ==> SendsAsShown(world.view, nm.nonce - from)
  {
    r := WaitUntilReady(world, ready);
    if r.Returned? {
      r := ExecuteNext(world, nm, description, from);
    }
  }

  method ExecuteNext(world: World, nm: NonceManager, description: string, ghost from: nat) returns (r: Outcome<bool>)
    requires world.Valid() && AllJustified(world.sends) && nm.nonce <= |world.chain.mined|
    requires Justified(Execute, world.chain.now, world.view)
    requires from <= nm.nonce <= from + 1 && (nm.nonce != from ==> world.chain.mined[from].tx.kind.Schedule?)
    modifies world`events, world`chain, world`nextId, world`sends, nm
    ensures world.Valid() && AllJustified(world.sends) && Behind(old(world.chain), world.chain)
    ensures nm.nonce == old(nm.nonce) + 1
    ensures r.Returned? ==> r.value && Done(world.chain) && HandedOutAreMined(world.chain.mined, from, nm.nonce)
  {
    var executeOverride := nm.Override();
    r := ExecuteOp(world, executeOverride, description);
    if r.Returned? {
      ScheduledThenExecuted(old(world.chain), world.chain, from, executeOverride);
    }
  }

  /** Schedule the operation unless a node shows it as pending; return the timestamp a node then shows. */
  method EnsureScheduled(world: World, nm: NonceManager) returns (r: Outcome<nat>)
    requires world.Valid() && AllJustified(world.sends) && nm.nonce <= |world.chain.mined|
    requires Saw(world.view, IsDone, false)
    modifies world, nm
    ensures world.Valid() && AllJustified(world.sends) && Behind(old(world.chain), world.chain)
    ensures Saw(world.view, IsDone, false)
    ensures old(nm.nonce) <= nm.nonce <= old(nm.nonce) + 1
    ensures nm.nonce == old(nm.nonce) ==> world.sends == old(world.sends)
    ensures nm.nonce != old(nm.nonce) ==> Saw(world.view, IsPending, false)
    ensures r.Returned? ==> nm.nonce <= |world.chain.mined| && Saw(world.view, IsPending, nm.nonce == old(nm.nonce))
    ensures r.Returned? && nm.nonce != old(nm.nonce) ==> world.chain.mined[old(nm.nonce)].tx.kind.Schedule?
    ensures r.Returned? ==> Timestamp in world.view.numbers && world.view.numbers[Timestamp] == r.value
  {
    r := ScheduleIfIdle(world, nm);
    if !r.Returned? {
      return;
    }
    ghost var settled := world.chain;
    r := world.Read(Timestamp);
    assert nm.nonce != old(nm.nonce) ==> world.chain.mined[old(nm.nonce)] == settled.mined[old(nm.nonce)];
  }

  method ScheduleIfIdle(world: World, nm: NonceManager) returns (r: Outcome<nat>)
    requires world.Valid() && AllJustified(world.sends) && nm.nonce <= |world.chain.mined|
    requires Saw(world.view, IsDone, false)
    modifies world, nm
    ensures world.Valid() && AllJustified(world.sends) && Behind(old(world.chain), world.chain)
    ensures Saw(world.view, IsDone, false)
    ensures old(nm.nonce) <= nm.nonce <= old(nm.nonce) + 1
    ensures nm.nonce == old(nm.nonce) ==> world.sends == old(world.sends)
    ensures nm.nonce != old(nm.nonce) ==> Saw(world.view, IsPending, false)
    ensures r.Returned? ==> nm.nonce <= |world.chain.mined| && Saw(world.view, IsPending, nm.nonce == old(nm.nonce))
    ensures r.Returned? && nm.nonce != old(nm.nonce) ==> world.chain.mined[old(nm.nonce)].tx.kind.Schedule?
  {
    var pending := world.Ask(IsPending);
    if !pending.Returned? {
      return if pending.Threw? then Threw(pending.message) else Died;
    }
    if pending.value {
      return Returned(0);
    }
    r := ScheduleOp(world, nm);
  }

  /** Schedule with the minimum delay and await the receipt. */
  method ScheduleOp(world: World, nm: NonceManager) returns (r: Outcome<nat>)
    requires world.Valid() && AllJustified(world.sends) && nm.nonce <= |world.chain.mined|
    requires Saw(world.view, IsDone, false) && Saw(world.view, IsPending, false)
    modifies world, nm
    ensures world.Valid() && AllJustified(world.sends) && Behind(old(world.chain), world.chain)
    ensures world.view.answers == old(world.view.answers)
    ensures nm.nonce == old(nm.nonce) || nm.nonce == old(nm.nonce) + 1
    ensures nm.nonce == old(nm.nonce) ==> world.sends == old(world.sends)
    ensures r.Returned? ==> nm.nonce == old(nm.nonce) + 1 == |world.chain.mined|
    ensures r.Returned? ==> world.chain.mined[old(nm.nonce)].tx.kind.Schedule?
  {
    r := world.Read(MinDelay);
    if !r.Returned? {
      return;
    }
    var nonce := nm.Override();
    r := SendSchedule(world, nonce, r.value);
  }

  method SendSchedule(world: World, nonce: nat, delay: nat) returns (r: Outcome<nat>)
    requires world.Valid() && AllJustified(world.sends) && nonce <= |world.chain.mined|
    requires Justified(Schedule(delay), world.chain.now, world.view)
    modifies world`events, world`chain, world`nextId, world`sends
    ensures world.Valid() && AllJustified(world.sends) && Behind(old(world.chain), world.chain)
    ensures r.Returned? ==> |world.chain.mined| == nonce + 1 && world.chain.mined[nonce].tx.kind.Schedule?
  {
    var sent, waited := Submit(world, Schedule(delay), nonce);
    StaysJustified(old(world.sends), world.sends, Schedule(delay), nonce, old(world.chain.now), world.view);
    if !sent.Returned? {
      return if sent.Threw? then Threw(sent.message) else Died;
    }
    if !waited.Waited? || waited.receipt.None? {
      return if waited.WaitDied? then Died else Threw("schedule returned no receipt");
    }
    r := Returned(delay);
  }

  /** Poll the chain's time until the operation is executable. */
  method WaitUntilReady(world: World, readyTimestamp: nat) returns (r: Outcome<bool>)
    requires world.Valid()
    modifies world`events, world`chain, world`view, world`life
    ensures world.Valid() && Behind(old(world.chain), world.chain)
    ensures world.view.answers == old(world.view.answers)
    ensures forall f | f in old(world.view.numbers) && f != Time :: f in world.view.numbers && world.view.numbers[f] == old(world.view.numbers)[f]
    ensures r.Returned? ==> r.value && readyTimestamp <= world.chain.now
  {
    while true
      invariant world.Valid() && Behind(old(world.chain), world.chain)
      invariant world.view.answers == old(world.view.answers)
      invariant forall f | f in old(world.view.numbers) && f != Time :: f in world.view.numbers && world.view.numbers[f] == old(world.view.numbers)[f]
      decreases world.life
    {
      var nowChain := world.Read(Time);
      if !nowChain.Returned? {
        return if nowChain.Threw? then Threw(nowChain.message) else Died;
      }
      if nowChain.value >= readyTimestamp {
        return Returned(true);
      }
    }
  }

  /** Send and await the execute call, once the time that was read has come; every retry uses the same nonce. */
  method ExecuteOp(world: World, nonce: nat, description: string) returns (r: Outcome<bool>)
    requires world.Valid() && AllJustified(world.sends) && nonce <= |world.chain.mined|
    requires Justified(Execute, world.chain.now, world.view)
    modifies world`events, world`chain, world`nextId, world`sends
    ensures world.Valid() && AllJustified(world.sends) && Behind(old(world.chain), world.chain)
    ensures r.Returned? ==> r.value && |world.chain.mined| == nonce + 1
    ensures r.Returned? ==> world.chain.mined[nonce].ok && world.chain.mined[nonce].tx.kind.Execute?
  {
    var attempt := 1;
    while attempt <= EXECUTE_ATTEMPTS
      invariant world.Valid() && AllJustified(world.sends) && Behind(old(world.chain), world.chain)
    {
      r := TryExecute(world, nonce, description);
      if !r.Threw? || !SaysNotReady(r.message) || attempt >= EXECUTE_ATTEMPTS {
        return;
      }
      attempt := attempt + 1;
    }
    r := Threw("Timelock execute did not complete after retries: " + description);
  }

  method TryExecute(world: World, nonce: nat, description: string) returns (r: Outcome<bool>)
    requires world.Valid() && AllJustified(world.sends) && nonce <= |world.chain.mined|
    requires Justified(Execute, world.chain.now, world.view)
    modifies world`events, world`chain, world`nextId, world`sends
    ensures world.Valid() && AllJustified(world.sends) && Behind(old(world.chain), world.chain)
    ensures r.Returned? ==> r.value && |world.chain.mined| == nonce + 1
    ensures r.Returned? ==> world.chain.mined[nonce].ok && world.chain.mined[nonce].tx.kind.Execute?
  {
    var sent, waited := Submit(world, Execute, nonce);
    StaysJustified(old(world.sends), world.sends, Execute, nonce, old(world.chain.now), world.view);
    if !sent.Returned? {
      return if sent.Threw? then Threw(sent.message) else Died;
    }
    match waited
    case WaitDied => return Died;
    case WaitFailed(message, _) => return Threw(message);
    case Waited(receipt) =>
      if receipt.None? || !receipt.value.ok {
        return Threw("Timelock execute reverted: " + description);
      }
      return Returned(true);
  }

  /** A fresh run: its first nonce is the transaction count some node shows. */
  method OneRun(world: World, description: string) returns (r: Outcome<bool>)
    requires world.Valid() && AllJustified(world.sends)
    modifies world
    ensures world.Valid() && AllJustified(world.sends) && Behind(old(world.chain), world.chain)
    ensures r.Returned? ==> Done(world.chain)
  {
    var start := world.Read(TransactionCount);
    if !start.Returned? {
      return if start.Threw? then Threw(start.message) else Died;
    }
    ghost var read := world.chain;
    var nm := new NonceManager(start.value);
    r := TimelockCall(world, nm, description);
    assert Behind(read, world.chain);
  }

  /** Any number of runs, each of which may die or throw anywhere, leave the operation executed at
      most once and not before its ready time; once a run returned normally it has been executed
      exactly once. Every call they ever broadcast was called for by what its run had been shown. */
  method ManyRuns(world: World, runs: nat, description: string) returns (returned: bool)
    requires world.Valid() && AllJustified(world.sends)
    modifies world
    ensures world.Valid() && AllJustified(world.sends) && Behind(old(world.chain), world.chain)
    ensures |world.chain.executions| <= 1
    ensures returned ==> |world.chain.executions| == 1
    ensures forall e | e in world.chain.executions :: e.ready <= e.at
  {
    returned := false;
    for i := 0 to runs
      invariant world.Valid() && AllJustified(world.sends) && Behind(old(world.chain), world.chain)
      invariant returned ==> Done(world.chain)
    {
      ghost var before := world.chain;
      var r := OneRun(world, description);
      assert Behind(before, world.chain);
      returned := returned || r.Returned?;
    }
  }

  lemma {:induction false} SendIsJustified(sends: seq<Send>, i: nat)
    requires AllJustified(sends) && i < |sends|
    ensures Justified(sends[i].tx.kind, sends[i].at, sends[i].view)
  {
    if i < |sends| - 1 {
      SendIsJustified(sends[..|sends| - 1], i);
    }
  }

  /** Every broadcast follows what the script had been shown before it, and each of these latest answers was
      true of the chain at some moment before it: a schedule call when the operation was neither done nor
      pending, with the delay read; an execute call when it was not done, and not before the chain's time
      had reached the timestamp read; an activation when the lock was inactive and the call possible. */
  lemma BroadcastsFollowWhatWasShown(world: World, k: nat) returns (v: View)
    requires world.Valid() && AllJustified(world.sends) && k < |world.events| && world.events[k].Broadcast?
    ensures Truthful(v, world.initial, world.events[..k])
    ensures var kind, now := world.events[k].tx.kind, Run(world.initial, world.events[..k]).now;
            && (kind.Schedule? ==>
                  && Saw(v, IsDone, false) && Saw(v, IsPending, false)
                  && MinDelay in v.numbers && v.numbers[MinDelay] == kind.delay)
            && (kind.Execute? ==> Saw(v, IsDone, false) && Timestamp in v.numbers && v.numbers[Timestamp] <= now)
            && (kind.Activate? ==> Saw(v, IsActive, false) && Saw(v, CanActivate, true))
  {
    var i := BroadcastIsRecorded(world.sends, world.initial, world.events, k);
    SendIsJustified(world.sends, i);
    v := world.sends[i].view;
  }
}

/** Activation of the revenue lock, which anyone may race. */
module LockActivations {
  import opened Wrappers
  import opened NonceManagers
  import opened DeployChain
  import opened DeployWorld

  /** Activate the lock unless it is. A normal return means it is active, and a nonce taken was mined,
      as a success or as a revert after somebody else's activation. */
  method EnsureRevenueLockActivated(world: World, nm: NonceManager) returns (r: Outcome<()>)
    requires world.Valid() && AllJustified(world.sends) && nm.nonce <= |world.chain.mined|
    modifies world, nm
    ensures world.Valid() && AllJustified(world.sends) && Behind(old(world.chain), world.chain)
    ensures old(nm.nonce) <= nm.nonce <= old(nm.nonce) + 1
    ensures nm.nonce == old(nm.nonce) ==> world.sends == old(world.sends)
    ensures nm.nonce != old(nm.nonce) ==> Saw(world.view, CanActivate, true)
    ensures r.Returned? ==> world.chain.activated && Saw(world.view, IsActive, true)
    ensures r.Returned? && nm.nonce != old(nm.nonce) ==>
              |world.chain.mined| == nm.nonce && world.chain.mined[old(nm.nonce)].tx.kind.Activate?
  {
    var activated := world.Ask(IsActive);
    if !activated.Returned? || activated.value {
      return Told(activated);
    }
    r := ActivateIfPossible(world, nm);
  }

  /** Take a nonce only once an estimate has succeeded. */
  method ActivateIfPossible(world: World, nm: NonceManager) returns (r: Outcome<()>)
    requires world.Valid() && AllJustified(world.sends) && nm.nonce <= |world.chain.mined|
    requires Saw(world.view, IsActive, false)
    modifies world, nm
    ensures world.Valid() && AllJustified(world.sends) && Behind(old(world.chain), world.chain)
    ensures old(nm.nonce) <= nm.nonce <= old(nm.nonce) + 1
    ensures nm.nonce == old(nm.nonce) ==> world.sends == old(world.sends)
    ensures nm.nonce != old(nm.nonce) ==> Saw(world.view, CanActivate, true)
    ensures r.Returned? ==> world.chain.activated && Saw(world.view, IsActive, true)
    ensures r.Returned? && nm.nonce != old(nm.nonce) ==>
              |world.chain.mined| == nm.nonce && world.chain.mined[old(nm.nonce)].tx.kind.Activate?
  {
    var estimate := world.Ask(CanActivate);
    if estimate.Died? {
      return Died;
    }
    if estimate.Threw? || !estimate.value {
      var activated := world.Ask(IsActive);
      return if activated.Returned? && !activated.value then Threw("estimateGas failed") else Told(activated);
    }
    r := SendActivation(world, nm);
  }

  /** A read that answered yes is a normal return, and one that failed throws. */
  function Told(answer: Outcome<bool>): Outcome<()> {
    match answer
    case Returned(yes) => if yes then Returned(()) else Threw("not activated")
    case Threw(message) => Threw(message)
    case Died => Died
  }

  /** Send the activation. The one failure tolerated is a revert of this very transaction, mined at its
      own nonce, with the lock then shown active. */
  method SendActivation(world: World, nm: NonceManager) returns (r: Outcome<()>)
    requires world.Valid() && AllJustified(world.sends) && nm.nonce <= |world.chain.mined|
    requires Justified(Activate, world.chain.now, world.view)
    modifies world, nm
    ensures world.Valid() && AllJustified(world.sends) && Behind(old(world.chain), world.chain)
    ensures nm.nonce == old(nm.nonce) + 1 && Saw(world.view, CanActivate, true)
    ensures r.Returned? ==> world.chain.activated && Saw(world.view, IsActive, true)
    ensures r.Returned? ==> |world.chain.mined| == nm.nonce && world.chain.mined[old(nm.nonce)].tx.kind.Activate?
    ensures r.Returned? ==>
              |world.sends| == |old(world.sends)| + 1 && world.sends[|world.sends| - 1].tx == world.chain.mined[old(nm.nonce)].tx
  {
    var nonce := nm.Override();
    ghost var now0 := world.chain.now;
    var sent, waited := Submit(world, Activate, nonce);
    StaysJustified(old(world.sends), world.sends, Activate, nonce, now0, world.view);
    if !sent.Returned? {
      return if sent.Threw? then Threw(sent.message) else Died;
    }
    if waited.WaitDied? {
      return Died;
    }
    if waited.receipt.None? || waited.receipt.value.tx != sent.value
       || (waited.Waited? && !waited.receipt.value.ok) || (waited.WaitFailed? && waited.receipt.value.ok) {
      return Threw("RevenueLock activation receipt missing or failed");
    }
    r := Confirm(world, waited.WaitFailed?);
  }

  /** Trust only a node that shows the lock active; after a revert ask twice. */
  method Confirm(world: World, reverted: bool) returns (r: Outcome<()>)
    requires world.Valid() && Saw(world.view, CanActivate, true)
    modifies world`events, world`chain, world`view
    ensures world.Valid() && Behind(old(world.chain), world.chain) && Saw(world.view, CanActivate, true)
    ensures r.Returned? ==> world.chain.activated && Saw(world.view, IsActive, true)
    ensures old(world.chain.pool) == None ==> world.chain.mined == old(world.chain.mined)
  {
    if reverted {
      var raced := world.Ask(IsActive);
      if !raced.Returned? || !raced.value {
        return Told(raced);
      }
    }
    var activated := world.Ask(IsActive);
    return Told(activated);
  }
}
