/** The RevenueLock contract's schedule, as its constructor builds it. */
module RevenueLocks {
  import opened Wrappers

  /** An address as its number; the zero address is 0. */
  type Address = int

  const ZERO_ADDRESS: Address := 0

  datatype Entry = Entry(address: Address, amount: int)

  datatype Lock = Lock(allocation: map<Address, int>, beneficiaries: seq<Address>, total: int)

  function AllocationOf(lock: Lock, a: Address): int {
    if a in lock.allocation then lock.allocation[a] else 0
  }

  function AddressesOf(entries: seq<Entry>): (s: set<Address>) {
    if entries == [] then {} else AddressesOf(entries[..|entries| - 1]) + {entries[|entries| - 1].address}
  }

  function Total(entries: seq<Entry>): int {
    if entries == [] then 0 else Total(entries[..|entries| - 1]) + entries[|entries| - 1].amount
  }

  /** Distinct non-zero addresses with positive amounts. */
  predicate IsSchedule(entries: seq<Entry>) {
    entries == []
    || (var front, last := entries[..|entries| - 1], entries[|entries| - 1];
        IsSchedule(front) && last.address != ZERO_ADDRESS && last.amount > 0 && last.address !in AddressesOf(front))
  }

  /** The planned amount of an address, 0 when it is not in the plan. */
  function PlannedFor(entries: seq<Entry>, a: Address): int {
    if entries == [] then 0
    else if entries[|entries| - 1].address == a then entries[|entries| - 1].amount
    else PlannedFor(entries[..|entries| - 1], a)
  }

  /** One turn of the constructor's loop; None when it reverts. */
  function AddBeneficiary(lock: Lock, e: Entry): Option<Lock> {
    if e.address == ZERO_ADDRESS || e.amount <= 0 || AllocationOf(lock, e.address) != 0 then None
    else Some(Lock(lock.allocation[e.address := e.amount], lock.beneficiaries + [e.address], lock.total + e.amount))
  }

  function AddAll(entries: seq<Entry>): Option<Lock> {
    if entries == [] then Some(Lock(map[], [], 0))
    else
      var lock := AddAll(entries[..|entries| - 1]);
      if lock.None? then None else AddBeneficiary(lock.value, entries[|entries| - 1])
  }

  function Construct(entries: seq<Entry>): Option<Lock> {
    if entries == [] then None else AddAll(entries)
  }

  lemma {:induction false} PlannedIffAddress(entries: seq<Entry>, a: Address)
    requires IsSchedule(entries)
    ensures PlannedFor(entries, a) >= 0 && (PlannedFor(entries, a) > 0 <==> a in AddressesOf(entries))
  {
    if entries != [] {
      PlannedIffAddress(entries[..|entries| - 1], a);
    }
  }

  /** The constructor accepts exactly the schedules, and what it builds is the schedule. */
  lemma {:induction false} AddAllBuildsSchedule(entries: seq<Entry>)
    ensures AddAll(entries).Some? <==> IsSchedule(entries)
    ensures AddAll(entries).Some? ==>
              var lock := AddAll(entries).value;
              && lock.allocation.Keys == AddressesOf(entries)
              && lock.total == Total(entries)
              && |lock.beneficiaries| == |entries| == |lock.allocation|
              && forall a :: AllocationOf(lock, a) == PlannedFor(entries, a)
  {
    if entries != [] {
      var front, last := entries[..|entries| - 1], entries[|entries| - 1];
      AddAllBuildsSchedule(front);
      if AddAll(front).Some? {
        PlannedIffAddress(front, last.address);
        assert AllocationOf(AddAll(front).value, last.address) == PlannedFor(front, last.address);
      }
    }
  }

  /** Schedules with the same planned amounts plan for the same addresses and the same total. */
  lemma {:induction false} SamePlanSameTotal(a: seq<Entry>, b: seq<Entry>)
    requires IsSchedule(a) && IsSchedule(b) && forall x :: PlannedFor(a, x) == PlannedFor(b, x)
    ensures Total(a) == Total(b)
  {
    if a == [] {
      if b != [] {
        PlannedIffAddress(b, b[|b| - 1].address);
      }
    } else {
      var front, last := a[..|a| - 1], a[|a| - 1];
      PlannedIffAddress(a, last.address);
      PlannedIffAddress(front, last.address);
      var rest := Without(b, last.address);
      WithoutOne(b, last.address);
      forall x ensures PlannedFor(front, x) == PlannedFor(rest, x) {
        WithoutPlanned(b, last.address, x);
        assert PlannedFor(a, x) == PlannedFor(b, x);
      }
      SamePlanSameTotal(front, rest);
    }
  }

  function Without(entries: seq<Entry>, a: Address): seq<Entry> {
    if entries == [] then []
    else
      Without(entries[..|entries| - 1], a)
      + if entries[|entries| - 1].address == a then [] else [entries[|entries| - 1]]
  }

  lemma {:induction false} WithoutPlanned(entries: seq<Entry>, a: Address, x: Address)
    requires IsSchedule(entries)
    ensures PlannedFor(Without(entries, a), x) == if x == a then 0 else PlannedFor(entries, x)
  {
    if entries != [] {
      var front, last := entries[..|entries| - 1], entries[|entries| - 1];
      WithoutPlanned(front, a, x);
      var rest := Without(entries, a);
      if last.address == a {
        assert rest == Without(front, a);
      } else {
        assert rest[..|rest| - 1] == Without(front, a);
      }
    }
  }

  lemma {:induction false} WithoutOne(entries: seq<Entry>, a: Address)
    requires IsSchedule(entries)
    ensures IsSchedule(Without(entries, a)) && AddressesOf(Without(entries, a)) == AddressesOf(entries) - {a}
    ensures Total(Without(entries, a)) == Total(entries) - PlannedFor(entries, a)
  {
    if entries != [] {
      var front, last := entries[..|entries| - 1], entries[|entries| - 1];
      WithoutOne(front, a);
      PlannedIffAddress(front, a);
      var rest := Without(entries, a);
      if last.address == a {
        assert rest == Without(front, a);
        assert PlannedFor(front, a) == 0;
      } else {
        assert rest[..|rest| - 1] == Without(front, a) && rest[|rest| - 1] == last;
      }
    }
  }

  /** A schedule has as many addresses as entries. */
  lemma {:induction false} AsManyAddresses(entries: seq<Entry>)
    requires IsSchedule(entries)
    ensures |AddressesOf(entries)| == |entries|
  {
    if entries != [] {
      AsManyAddresses(entries[..|entries| - 1]);
    }
  }
}

/** The plan for the revenue lock and the checks before it is funded. */
module ReservePlans {
  import opened Wrappers
  import opened RevenueLocks

  datatype Beneficiary = Beneficiary(address: string, amount: string)

  datatype ReserveConfig = ReserveConfig(allocator: string, amount: string)

  datatype ReserveSlot = ReserveSlot(address: string, cap: int)

  /** The library's address normaliser and decimal parser; None when they throw. */
  datatype Parsers = Parsers(getAddress: string -> Option<Address>, parseUnits: string -> Option<int>)

  datatype PlanError = InvalidBeneficiary | InvalidReserve | WrongTotal

  const CAP_UNIT: int := 10_000

  function ParseEntry(p: Parsers, b: Beneficiary): Option<Entry> {
    var address, amount := p.getAddress(b.address), p.parseUnits(b.amount);
    if address.None? || amount.None? then None else Some(Entry(address.value, amount.value))
  }

  function ParseEntries(p: Parsers, direct: seq<Beneficiary>): Option<seq<Entry>> {
    if direct == [] then Some([])
    else
      var front, last := ParseEntries(p, direct[..|direct| - 1]), ParseEntry(p, direct[|direct| - 1]);
      if front.None? || last.None? then None else Some(front.value + [last.value])
  }

  /** The entries of the plan: the direct beneficiaries in order, then the reserve. */
  function PlanEntries(p: Parsers, direct: seq<Beneficiary>, reserve: Option<ReserveSlot>): Option<seq<Entry>> {
    var entries := ParseEntries(p, direct);
    if entries.None? || reserve.None? then entries
    else
      var address := p.getAddress(reserve.value.address);
      if address.None? then None else Some(entries.value + [Entry(address.value, reserve.value.cap)])
  }

  lemma {:induction false} ParseEntriesPrefix(p: Parsers, direct: seq<Beneficiary>, i: nat)
    requires i < |direct|
    ensures ParseEntries(p, direct[..i]).None? || ParseEntry(p, direct[i]).None? ==> ParseEntries(p, direct).None?
  {
    if i < |direct| - 1 {
      var front := direct[..|direct| - 1];
      assert front[..i] == direct[..i];
      ParseEntriesPrefix(p, front, i);
    }
  }

  lemma {:induction false} BadPrefix(p: Parsers, direct: seq<Beneficiary>, i: nat)
    requires i <= |direct| && ParseEntries(p, direct).Some? && ParseEntries(p, direct[..i]).Some?
    requires !IsSchedule(ParseEntries(p, direct[..i]).value)
    ensures !IsSchedule(ParseEntries(p, direct).value)
  {
    if i == |direct| {
      assert direct[..i] == direct;
    } else {
      var front := direct[..|direct| - 1];
      assert front[..i] == direct[..i];
      BadPrefix(p, front, i);
      var entries := ParseEntries(p, direct).value;
      assert entries[..|entries| - 1] == ParseEntries(p, front).value;
    }
  }

  /** A reserve needs an allocator and a positive cap in whole units; without one the cap is 0. */
  predicate CapAccepted(p: Parsers, reserve: Option<ReserveConfig>, cap: int) {
    match reserve
    case None => cap == 0
    case Some(r) =>
      && p.parseUnits(r.amount) == Some(cap) && cap > 0 && cap % CAP_UNIT == 0
      && p.getAddress(r.allocator).Some? && p.getAddress(r.allocator).value != ZERO_ADDRESS
  }

  /** What a plan must be: a schedule that, with the reserve's cap, exhausts the lock's budget. */
  predicate PlanAccepted(p: Parsers, direct: seq<Beneficiary>, lockTotal: int, reserve: Option<ReserveConfig>, cap: int) {
    var entries := ParseEntries(p, direct);
    entries.Some? && IsSchedule(entries.value) && Total(entries.value) + cap == lockTotal && CapAccepted(p, reserve, cap)
  }

  /** Add up the direct beneficiaries, none of them zero, repeated or without an amount. */
  method SumDirect(p: Parsers, beneficiaries: seq<Beneficiary>) returns (directTotal: Option<int>)
    ensures var entries := ParseEntries(p, beneficiaries);
            directTotal == if entries.Some? && IsSchedule(entries.value) then Some(Total(entries.value)) else None
  {
    var seen: set<Address> := {};
    var total := 0;
    ghost var entries: seq<Entry> := [];
    for i := 0 to |beneficiaries|
      invariant ParseEntries(p, beneficiaries[..i]) == Some(entries)
      invariant IsSchedule(entries) && seen == AddressesOf(entries) && total == Total(entries)
    {
      assert beneficiaries[..i + 1][..i] == beneficiaries[..i];
      ParseEntriesPrefix(p, beneficiaries, i);
      var b := ParseEntry(p, beneficiaries[i]);
      if b.None? {
        return None;
      }
      var address, amount := b.value.address, b.value.amount;
      ghost var before := entries;
      entries := entries + [b.value];
      assert entries[..|entries| - 1] == before;
      if address == ZERO_ADDRESS || address in seen || amount <= 0 {
        if ParseEntries(p, beneficiaries).Some? {
          BadPrefix(p, beneficiaries, i + 1);
        }
        return None;
      }
      seen := seen + {address};
      total := total + amount;
    }
    assert beneficiaries[..|beneficiaries|] == beneficiaries;
    directTotal := Some(total);
  }

  method ReserveCap(p: Parsers, reserve: Option<ReserveConfig>) returns (cap: Option<int>)
    ensures cap.Some? ==> CapAccepted(p, reserve, cap.value)
    ensures cap.None? ==> forall c :: !CapAccepted(p, reserve, c)
  {
    if reserve.None? {
      return Some(0);
    }
    cap := p.parseUnits(reserve.value.amount);
    var allocator := p.getAddress(reserve.value.allocator);
    if cap.None? || allocator.None? || allocator.value == ZERO_ADDRESS || cap.value <= 0 || cap.value % CAP_UNIT != 0 {
      return None;
    }
  }

  /** The cap of an accepted plan. */
  method ValidateReservePlan(p: Parsers, beneficiaries: seq<Beneficiary>, lockTotal: int, reserve: Option<ReserveConfig>)
      returns (r: Result<int, PlanError>)
    ensures r.Success? ==> PlanAccepted(p, beneficiaries, lockTotal, reserve, r.value)
    ensures r.Failure? ==> forall cap :: !PlanAccepted(p, beneficiaries, lockTotal, reserve, cap)
  {
    var directTotal := SumDirect(p, beneficiaries);
    if directTotal.None? {
      return Failure(InvalidBeneficiary);
    }
    var checked := ReserveCap(p, reserve);
    if checked.None? {
      return Failure(InvalidReserve);
    }
    var cap := checked.value;
    if directTotal.value + cap != lockTotal {
      return Failure(WrongTotal);
    }
    return Success(cap);
  }

  /** The constructor arguments, if they form a schedule. */
  method RevenueLockSchedule(p: Parsers, direct: seq<Beneficiary>, reserve: Option<ReserveSlot>)
      returns (r: Option<seq<Entry>>)
    ensures r == (var plan := PlanEntries(p, direct, reserve);
                  if plan.Some? && IsSchedule(plan.value) then plan else None)
  {
    var plan := PlanEntries(p, direct, reserve);
    if plan.None? {
      return None;
    }
    var entries := plan.value;
    var addresses: set<Address> := {};
    for i := 0 to |entries|
      invariant IsSchedule(entries[..i]) && addresses == AddressesOf(entries[..i])
    {
      var e := entries[i];
      assert entries[..i + 1][..i] == entries[..i];
      if e.address in addresses || e.address == ZERO_ADDRESS || e.amount <= 0 {
        BadPrefixOfSchedule(entries, i + 1);
        return None;
      }
      addresses := addresses + {e.address};
    }
    assert entries[..|entries|] == entries;
    return plan;
  }

  lemma {:induction false} BadPrefixOfSchedule(entries: seq<Entry>, i: nat)
    requires i <= |entries| && !IsSchedule(entries[..i])
    ensures !IsSchedule(entries)
  {
    if i == |entries| {
      assert entries[..i] == entries;
    } else {
      assert entries[..|entries| - 1][..i] == entries[..i];
      BadPrefixOfSchedule(entries[..|entries| - 1], i);
    }
  }

  /** The checks against the contract: its beneficiary count and each planned amount. */
  predicate CountAndAmountsMatch(lock: Lock, entries: seq<Entry>) {
    && |lock.beneficiaries| == |entries|
    && forall i | 0 <= i < |entries| :: AllocationOf(lock, entries[i].address) == entries[i].amount
  }

  method AssertRevenueLockSchedule(lock: Lock, p: Parsers, direct: seq<Beneficiary>, reserve: Option<ReserveSlot>)
      returns (ok: bool)
    ensures ok <==>
              var plan := PlanEntries(p, direct, reserve);
              plan.Some? && IsSchedule(plan.value) && CountAndAmountsMatch(lock, plan.value)
  {
    var schedule := RevenueLockSchedule(p, direct, reserve);
    if schedule.None? || |lock.beneficiaries| != |schedule.value| {
      return false;
    }
    for i := 0 to |schedule.value|
      invariant forall j | 0 <= j < i :: AllocationOf(lock, schedule.value[j].address) == schedule.value[j].amount
    {
      if AllocationOf(lock, schedule.value[i].address) != schedule.value[i].amount {
        return false;
      }
    }
    return true;
  }

  lemma {:induction false} PlannedAt(entries: seq<Entry>, i: nat)
    requires IsSchedule(entries) && i < |entries|
    ensures entries[i].address in AddressesOf(entries) && PlannedFor(entries, entries[i].address) == entries[i].amount > 0
  {
    if i < |entries| - 1 {
      PlannedAt(entries[..|entries| - 1], i);
    }
  }

  lemma {:induction false} EntryOf(entries: seq<Entry>, a: Address) returns (i: nat)
    requires a in AddressesOf(entries)
    ensures i < |entries| && entries[i].address == a
  {
    if entries[|entries| - 1].address == a {
      i := |entries| - 1;
    } else {
      i := EntryOf(entries[..|entries| - 1], a);
    }
  }

  /** Against a lock deployed with any arguments, the count and the planned amounts match exactly when
      the lock's map is the plan: nobody extra, missing or changed. */
  lemma {:induction false} ChecksPassIffSameMap(deployed: seq<Entry>, plan: seq<Entry>)
    requires AddAll(deployed).Some? && IsSchedule(plan)
    ensures CountAndAmountsMatch(AddAll(deployed).value, plan)
       <==> forall a :: AllocationOf(AddAll(deployed).value, a) == PlannedFor(plan, a)
  {
    var lock := AddAll(deployed).value;
    AddAllBuildsSchedule(deployed);
    AsManyAddresses(deployed);
    AsManyAddresses(plan);
    if CountAndAmountsMatch(lock, plan) {
      MatchedAddresses(deployed, plan, lock);
      SubsetAsLarge(AddressesOf(plan), AddressesOf(deployed));
      forall a ensures AllocationOf(lock, a) == PlannedFor(plan, a) {
        PlannedIffAddress(plan, a);
        if a in AddressesOf(plan) {
          var i := EntryOf(plan, a);
          PlannedAt(plan, i);
        }
      }
    }
    if forall a :: AllocationOf(lock, a) == PlannedFor(plan, a) {
      forall a ensures a in AddressesOf(plan) <==> a in AddressesOf(deployed) {
        PlannedIffAddress(plan, a);
        PlannedIffAddress(deployed, a);
        assert AllocationOf(lock, a) == PlannedFor(plan, a);
      }
      assert AddressesOf(plan) == AddressesOf(deployed);
      forall i | 0 <= i < |plan| ensures AllocationOf(lock, plan[i].address) == plan[i].amount {
        PlannedAt(plan, i);
      }
    }
  }

  lemma MatchedAddresses(deployed: seq<Entry>, plan: seq<Entry>, lock: Lock)
    requires IsSchedule(plan) && CountAndAmountsMatch(lock, plan) && lock.allocation.Keys == AddressesOf(deployed)
    ensures AddressesOf(plan) <= AddressesOf(deployed)
  {
    forall a | a in AddressesOf(plan) ensures a in AddressesOf(deployed) {
      var i := EntryOf(plan, a);
      PlannedAt(plan, i);
    }
  }

  lemma TotalOfPlan(p: Parsers, direct: seq<Beneficiary>, reserve: Option<ReserveSlot>)
    requires PlanEntries(p, direct, reserve).Some?
    ensures Total(PlanEntries(p, direct, reserve).value)
         == Total(ParseEntries(p, direct).value) + if reserve.Some? then reserve.value.cap else 0
  {
    var entries := PlanEntries(p, direct, reserve).value;
    if reserve.Some? {
      assert entries[..|entries| - 1] == ParseEntries(p, direct).value;
    }
  }

  /** An accepted plan whose schedule check passes against a deployed lock is that lock exactly, and the
      lock's total is the configured funding, so the allocation check passes too. */
  lemma CheckedLockIsThePlan(
      deployed: seq<Entry>, p: Parsers, direct: seq<Beneficiary>, lockTotal: int,
      config: Option<ReserveConfig>, cap: int, distributor: string)
    requires Construct(deployed).Some? && PlanAccepted(p, direct, lockTotal, config, cap)
    requires var slot := if config.Some? then Some(ReserveSlot(distributor, cap)) else None;
             var plan := PlanEntries(p, direct, slot);
             plan.Some? && IsSchedule(plan.value) && CountAndAmountsMatch(Construct(deployed).value, plan.value)
    ensures var slot := if config.Some? then Some(ReserveSlot(distributor, cap)) else None;
            forall a :: AllocationOf(Construct(deployed).value, a) == PlannedFor(PlanEntries(p, direct, slot).value, a)
    ensures Construct(deployed).value.total == lockTotal
  {
    var slot := if config.Some? then Some(ReserveSlot(distributor, cap)) else None;
    var plan := PlanEntries(p, direct, slot).value;
    ChecksPassIffSameMap(deployed, plan);
    AddAllBuildsSchedule(deployed);
    forall a ensures PlannedFor(deployed, a) == PlannedFor(plan, a) {
      assert AllocationOf(AddAll(deployed).value, a) == PlannedFor(deployed, a);
    }
    SamePlanSameTotal(deployed, plan);
    TotalOfPlan(p, direct, slot);
  }

  /** A lock deployed from a schedule passes the schedule's own check. */
  lemma DeployedPlanPasses(plan: seq<Entry>)
    requires IsSchedule(plan) && plan != []
    ensures Construct(plan).Some? && CountAndAmountsMatch(Construct(plan).value, plan)
  {
    AddAllBuildsSchedule(plan);
    ChecksPassIffSameMap(plan, plan);
  }
}
