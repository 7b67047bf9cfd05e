/** The launch rows checked against the crowdfund's state, all at once and in file order. */
module LaunchValidation {
  import opened Strings
  import opened LaunchRows

  datatype Slot = Slot(isWhitelisted: bool, invitesReceived: nat)

  /** An address in lower case at a hop. */
  type Key = (string, Hop)

  /** The contract's cap on participant nodes, that is, on (address, hop) pairs ever invited. */
  const MAX_FINALIZE_NODES: nat := 1800

  /** The crowdfund counters and limits, at chain time `now`. The contract also counts its nodes; the
      tool does not read that count. */
  datatype LaunchState = LaunchState(
    launchTeam: string, now: int, phase: nat, armLoaded: bool, windowStart: int, launchTeamInviteEnd: int,
    maxSeeds: int, seedCount: int, hop1Budget: int, hop1Used: int, hop2Budget: int, hop2Used: int,
    maxInvitesReceived: seq<int>, slots: map<Key, Slot>, nodes: nat)
  {
    function Existing(key: Key): nat {
      if key in slots && slots[key].isWhitelisted then slots[key].invitesReceived else 0
    }

    /** What the contract keeps true of its own storage. */
    ghost predicate WellFormed() {
      && (forall key | key in slots :: slots[key].isWhitelisted <==> slots[key].invitesReceived >= 1)
      && seedCount <= maxSeeds && hop1Used <= hop1Budget && hop2Used <= hop2Budget
      && |maxInvitesReceived| == 3 && maxInvitesReceived[1] >= 1 && maxInvitesReceived[2] >= 1
      && nodes <= MAX_FINALIZE_NODES
    }

    predicate IsLaunchTeam(address: string) {
      ToLower(address) == ToLower(launchTeam)
    }
  }

  datatype LaunchError =
    | NotActive(phase: nat)
    | ArmNotLoaded
    | WindowClosed(end: int)
    | LaunchTeamRow(line: nat)
    | RepeatedSeed(line: nat, first: nat)
    | AlreadySeed(line: nat)
    | TooManyReceived(line: nat, received: nat, limit: int)
    | NeedsAllowStack(line: nat)
    | TooManySeeds(count: nat, left: int)
    | TooManyInvites(hop: Hop, count: nat, left: int)

  datatype LaunchWarning = OpensLater(start: int) | Stacks(line: nat, received: nat)

  datatype Validation = Validation(errors: seq<LaunchError>, warnings: seq<LaunchWarning>, stacked: seq<LaunchRow>)

  function KeyOf(r: LaunchRow): Key {
    (ToLower(r.address), r.hop)
  }

  /** How many rows have this address and hop. */
  function Occurrences(rows: seq<LaunchRow>, key: Key): nat {
    if rows == [] then 0
    else Occurrences(rows[..|rows| - 1], key) + if KeyOf(rows[|rows| - 1]) == key then 1 else 0
  }

  function Count(rows: seq<LaunchRow>, hop: Hop): nat {
    if rows == [] then 0
    else Count(rows[..|rows| - 1], hop) + if rows[|rows| - 1].hop == hop then 1 else 0
  }

  /** The line of the first row with this address and hop. */
  function FirstLine(rows: seq<LaunchRow>, key: Key): nat
    requires Occurrences(rows, key) > 0
  {
    var front := rows[..|rows| - 1];
    if Occurrences(front, key) > 0 then FirstLine(front, key) else rows[|rows| - 1].line
  }

  datatype Verdict = Fine | Reject(error: LaunchError) | Stacked(received: nat)

  /** The verdict on a row, given the rows before it. */
  function VerdictOn(state: LaunchState, allowStack: bool, before: seq<LaunchRow>, r: LaunchRow): Verdict
    requires |state.maxInvitesReceived| == 3
  {
    var key := KeyOf(r);
    var earlier, existing := Occurrences(before, key), state.Existing(key);
    if state.IsLaunchTeam(r.address) then Reject(LaunchTeamRow(r.line))
    else if r.hop == 0 then
      if earlier > 0 then Reject(RepeatedSeed(r.line, FirstLine(before, key)))
      else if existing > 0 then Reject(AlreadySeed(r.line))
      else Fine
    else
      var received := existing + earlier + 1;
      var limit := state.maxInvitesReceived[r.hop];
      if received > limit then Reject(TooManyReceived(r.line, received, limit))
      else if received > 1 then if allowStack then Stacked(received) else Reject(NeedsAllowStack(r.line))
      else Fine
  }

  function StateErrors(state: LaunchState): seq<LaunchError> {
    (if state.phase != 0 then [NotActive(state.phase)] else [])
    + (if !state.armLoaded then [ArmNotLoaded] else [])
    + (if state.now >= state.launchTeamInviteEnd then [WindowClosed(state.launchTeamInviteEnd)] else [])
  }

  function StateWarnings(state: LaunchState): seq<LaunchWarning> {
    if state.windowStart > state.now && state.now < state.launchTeamInviteEnd then [OpensLater(state.windowStart)] else []
  }

  /** Row by row: what is rejected, what is stacked. */
  function RowFindings(state: LaunchState, allowStack: bool, rows: seq<LaunchRow>): Validation
    requires |state.maxInvitesReceived| == 3
  {
    if rows == [] then Validation([], [], [])
    else
      var r := rows[|rows| - 1];
      var v := RowFindings(state, allowStack, rows[..|rows| - 1]);
      match VerdictOn(state, allowStack, rows[..|rows| - 1], r)
      case Fine => v
      case Reject(error) => v.(errors := v.errors + [error])
      case Stacked(received) => v.(warnings := v.warnings + [Stacks(r.line, received)], stacked := v.stacked + [r])
  }

  function CountErrors(state: LaunchState, rows: seq<LaunchRow>): seq<LaunchError> {
    var seeds, hop1, hop2 := Count(rows, 0), Count(rows, 1), Count(rows, 2);
    (if seeds > state.maxSeeds - state.seedCount then [TooManySeeds(seeds, state.maxSeeds - state.seedCount)] else [])
    + (if hop1 > state.hop1Budget - state.hop1Used then [TooManyInvites(1, hop1, state.hop1Budget - state.hop1Used)] else [])
    + (if hop2 > state.hop2Budget - state.hop2Used then [TooManyInvites(2, hop2, state.hop2Budget - state.hop2Used)] else [])
  }

  function Findings(state: LaunchState, allowStack: bool, rows: seq<LaunchRow>): Validation
    requires |state.maxInvitesReceived| == 3
  {
    var v := RowFindings(state, allowStack, rows);
    Validation(StateErrors(state) + v.errors + CountErrors(state, rows), StateWarnings(state) + v.warnings, v.stacked)
  }

  /** The two shadow tables agree with the counts over the rows read so far. */
  ghost predicate Shadows(state: LaunchState, rows: seq<LaunchRow>, firstSeen: map<Key, nat>, receivedSoFar: map<Key, nat>) {
    && (forall key: Key | key.1 == 0 && key.0 != ToLower(state.launchTeam) ::
          (key in firstSeen <==> Occurrences(rows, key) > 0)
          && (key in firstSeen ==> firstSeen[key] == FirstLine(rows, key)))
    && (forall key: Key | key.1 != 0 && key.0 != ToLower(state.launchTeam) ::
          (key in receivedSoFar <==> Occurrences(rows, key) > 0)
          && (key in receivedSoFar ==> receivedSoFar[key] == state.Existing(key) + Occurrences(rows, key)))
  }

  lemma OccurrencesStep(before: seq<LaunchRow>, r: LaunchRow, key: Key)
    ensures Occurrences(before + [r], key) == Occurrences(before, key) + if KeyOf(r) == key then 1 else 0
    ensures Occurrences(before + [r], key) > 0 ==>
              FirstLine(before + [r], key) == if Occurrences(before, key) > 0 then FirstLine(before, key) else r.line
  {
    assert (before + [r])[..|before|] == before;
  }

  lemma FindingsStep(state: LaunchState, allowStack: bool, before: seq<LaunchRow>, r: LaunchRow)
    requires |state.maxInvitesReceived| == 3
    ensures var v := RowFindings(state, allowStack, before);
            RowFindings(state, allowStack, before + [r])
            == match VerdictOn(state, allowStack, before, r)
               case Fine => v
               case Reject(error) => v.(errors := v.errors + [error])
               case Stacked(received) => v.(warnings := v.warnings + [Stacks(r.line, received)], stacked := v.stacked + [r])
  {
    assert (before + [r])[..|before|] == before;
  }

  lemma ShadowStep(state: LaunchState, before: seq<LaunchRow>, r: LaunchRow,
                   firstSeen: map<Key, nat>, receivedSoFar: map<Key, nat>)
    requires Shadows(state, before, firstSeen, receivedSoFar)
    ensures var key := KeyOf(r);
            if state.IsLaunchTeam(r.address) then Shadows(state, before + [r], firstSeen, receivedSoFar)
            else if r.hop == 0 then
              Shadows(state, before + [r], firstSeen[key := if key in firstSeen then firstSeen[key] else r.line], receivedSoFar)
            else
              Shadows(state, before + [r], firstSeen, receivedSoFar[key := state.Existing(key) + Occurrences(before, key) + 1])
  {
    forall key: Key
      ensures Occurrences(before + [r], key) == Occurrences(before, key) + if KeyOf(r) == key then 1 else 0
      ensures Occurrences(before + [r], key) > 0 ==>
                FirstLine(before + [r], key) == if Occurrences(before, key) > 0 then FirstLine(before, key) else r.line
    {
      OccurrencesStep(before, r, key);
    }
  }

  method CheckState(state: LaunchState) returns (errors: seq<LaunchError>, warnings: seq<LaunchWarning>)
    ensures errors == StateErrors(state) && warnings == StateWarnings(state)
  {
    errors, warnings := [], [];
    if state.phase != 0 {
      errors := errors + [NotActive(state.phase)];
    }
    if !state.armLoaded {
      errors := errors + [ArmNotLoaded];
    }
    if state.now >= state.launchTeamInviteEnd {
      errors := errors + [WindowClosed(state.launchTeamInviteEnd)];
    } else if state.now < state.windowStart {
      warnings := warnings + [OpensLater(state.windowStart)];
    }
  }

  method CheckCounts(state: LaunchState, rows: seq<LaunchRow>) returns (errors: seq<LaunchError>)
    ensures errors == CountErrors(state, rows)
  {
    errors := [];
    var seeds, hop1, hop2 := Count(rows, 0), Count(rows, 1), Count(rows, 2);
    var seedsLeft := state.maxSeeds - state.seedCount;
    if seeds > seedsLeft {
      errors := errors + [TooManySeeds(seeds, seedsLeft)];
    }
    if hop1 > state.hop1Budget - state.hop1Used {
      errors := errors + [TooManyInvites(1, hop1, state.hop1Budget - state.hop1Used)];
    }
    if hop2 > state.hop2Budget - state.hop2Used {
      errors := errors + [TooManyInvites(2, hop2, state.hop2Budget - state.hop2Used)];
    }
  }

  method ValidateLaunchRows(rows: seq<LaunchRow>, state: LaunchState, allowStack: bool) returns (v: Validation)
    requires |state.maxInvitesReceived| == 3
    ensures v == Findings(state, allowStack, rows)
  {
    var errors, warnings := CheckState(state);
    var found := CheckEachRow(rows, state, allowStack);
    var counts := CheckCounts(state, rows);
    v := Validation(errors + found.errors + counts, warnings + found.warnings, found.stacked);
  }

  /** One row of the validator's loop, judged from its two lookup tables, which it updates. */
  method CheckRow(r: LaunchRow, state: LaunchState, allowStack: bool,
                  firstSeen: map<Key, nat>, receivedSoFar: map<Key, nat>, ghost before: seq<LaunchRow>)
    returns (verdict: Verdict, firstSeen': map<Key, nat>, receivedSoFar': map<Key, nat>)
    requires |state.maxInvitesReceived| == 3 && Shadows(state, before, firstSeen, receivedSoFar)
    ensures verdict == VerdictOn(state, allowStack, before, r)
    ensures Shadows(state, before + [r], firstSeen', receivedSoFar')
  {
    firstSeen', receivedSoFar' := firstSeen, receivedSoFar;
    var key := KeyOf(r);
    ShadowStep(state, before, r, firstSeen, receivedSoFar);
    if ToLower(r.address) == ToLower(state.launchTeam) {
      return Reject(LaunchTeamRow(r.line)), firstSeen, receivedSoFar;
    }
    var existing := state.Existing(key);
    if r.hop == 0 {
      firstSeen' := firstSeen[key := if key in firstSeen then firstSeen[key] else r.line];
      if key in firstSeen {
        verdict := Reject(RepeatedSeed(r.line, firstSeen[key]));
      } else if existing > 0 {
        verdict := Reject(AlreadySeed(r.line));
      } else {
        verdict := Fine;
      }
      return;
    }
    var received := (if key in receivedSoFar then receivedSoFar[key] else existing) + 1;
    receivedSoFar' := receivedSoFar[key := received];
    if received > state.maxInvitesReceived[r.hop] {
      verdict := Reject(TooManyReceived(r.line, received, state.maxInvitesReceived[r.hop]));
    } else if received > 1 {
      verdict := if allowStack then Stacked(received) else Reject(NeedsAllowStack(r.line));
    } else {
      verdict := Fine;
    }
  }

  /** The row loop of the validator. */
  method CheckEachRow(rows: seq<LaunchRow>, state: LaunchState, allowStack: bool) returns (v: Validation)
    requires |state.maxInvitesReceived| == 3
    ensures v == RowFindings(state, allowStack, rows)
  {
    v := Validation([], [], []);
    var firstSeen: map<Key, nat> := map[];
    var receivedSoFar: map<Key, nat> := map[];
    for i := 0 to |rows|
      invariant v == RowFindings(state, allowStack, rows[..i])
      invariant Shadows(state, rows[..i], firstSeen, receivedSoFar)
    {
      assert rows[..i + 1] == rows[..i] + [rows[i]];
      FindingsStep(state, allowStack, rows[..i], rows[i]);
      var verdict;
      verdict, firstSeen, receivedSoFar := CheckRow(rows[i], state, allowStack, firstSeen, receivedSoFar, rows[..i]);
      match verdict {
        case Fine =>
        case Reject(error) => v := v.(errors := v.errors + [error]);
        case Stacked(received) =>
          v := v.(warnings := v.warnings + [Stacks(rows[i].line, received)], stacked := v.stacked + [rows[i]]);
      }
    }
    assert rows[..|rows|] == rows;
  }
}
