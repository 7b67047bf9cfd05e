/** The validator's file-order counting against the crowdfund's call-by-call execution of the plan. */
module LaunchRefinement {
  import opened Wrappers
  import opened Strings
  import opened LaunchRows
  import opened LaunchValidation
  import opened LaunchPlan

  /** The (address, hop) pairs of the rows that are not on chain yet. Each takes a node. */
  function FreshKeys(c: LaunchState, rows: seq<LaunchRow>): set<Key> {
    if rows == [] then {}
    else
      var key := KeyOf(rows[|rows| - 1]);
      FreshKeys(c, rows[..|rows| - 1]) + if c.Existing(key) == 0 then {key} else {}
  }

  lemma {:induction false} FreshIff(c: LaunchState, rows: seq<LaunchRow>, key: Key)
    ensures key in FreshKeys(c, rows) <==> c.Existing(key) == 0 && Occurrences(rows, key) > 0
  {
    if rows != [] {
      FreshIff(c, rows[..|rows| - 1], key);
    }
  }

  lemma FreshStep(c: LaunchState, before: seq<LaunchRow>, r: LaunchRow)
    ensures |FreshKeys(c, before + [r])|
         == |FreshKeys(c, before)| + if c.Existing(KeyOf(r)) + Occurrences(before, KeyOf(r)) == 0 then 1 else 0
  {
    assert (before + [r])[..|before|] == before;
    FreshIff(c, before, KeyOf(r));
    assert KeyOf(r) in FreshKeys(c, before) ==> FreshKeys(c, before) + {KeyOf(r)} == FreshKeys(c, before);
  }

  lemma {:induction false} FreshIgnoresTime(c: LaunchState, rows: seq<LaunchRow>, t: int)
    ensures FreshKeys(c.(now := t), rows) == FreshKeys(c, rows)
  {
    if rows != [] {
      FreshIgnoresTime(c, rows[..|rows| - 1], t);
    }
  }

  /** The new pairs fit under the contract's cap on nodes. */
  predicate NodesFit(c: LaunchState, rows: seq<LaunchRow>) {
    c.nodes + |FreshKeys(c, rows)| <= MAX_FINALIZE_NODES
  }

  /** A row the contract takes after the rows `before`, said in counts over those rows. */
  predicate RowLegal(c: LaunchState, before: seq<LaunchRow>, r: LaunchRow)
    requires |c.maxInvitesReceived| == 3
  {
    var key := KeyOf(r);
    && !c.IsLaunchTeam(r.address)
    && !IsZeroAddress(r.address)
    && (r.hop == 0 ==> c.Existing(key) + Occurrences(before, key) == 0 && c.seedCount + Count(before, 0) < c.maxSeeds)
    && (r.hop == 1 ==> c.hop1Used + Count(before, 1) < c.hop1Budget)
    && (r.hop == 2 ==> c.hop2Used + Count(before, 2) < c.hop2Budget)
    && (r.hop != 0 ==> c.Existing(key) + Occurrences(before, key) + 1 <= c.maxInvitesReceived[r.hop])
    && (c.Existing(key) + Occurrences(before, key) == 0 ==> c.nodes + |FreshKeys(c, before)| < MAX_FINALIZE_NODES)
  }

  predicate Legal(c: LaunchState, rows: seq<LaunchRow>)
    requires |c.maxInvitesReceived| == 3
  {
    rows == [] || (Legal(c, rows[..|rows| - 1]) && Open(c) && RowLegal(c, rows[..|rows| - 1], rows[|rows| - 1]))
  }

  /** The contract's state after executing `rows` from `c`. */
  ghost predicate Tracks(c: LaunchState, rows: seq<LaunchRow>, after: LaunchState) {
    && after == c.(seedCount := c.seedCount + Count(rows, 0), hop1Used := c.hop1Used + Count(rows, 1),
                   hop2Used := c.hop2Used + Count(rows, 2), slots := after.slots, nodes := c.nodes + |FreshKeys(c, rows)|)
    && (forall key | key in after.slots :: after.slots[key].isWhitelisted <==> after.slots[key].invitesReceived >= 1)
    && (forall key: Key :: after.Existing(key) == c.Existing(key) + Occurrences(rows, key))
  }

  lemma CountStep(before: seq<LaunchRow>, r: LaunchRow, hop: Hop)
    ensures Count(before + [r], hop) == Count(before, hop) + if r.hop == hop then 1 else 0
  {
    assert (before + [r])[..|before|] == before;
  }

  /** One more received invite at one slot. */
  lemma BumpedSlotTracks(c: LaunchState, before: seq<LaunchRow>, r: LaunchRow, mid: LaunchState, after: LaunchState)
    requires Tracks(c, before, mid)
    requires after == c.(seedCount := c.seedCount + Count(before + [r], 0), hop1Used := c.hop1Used + Count(before + [r], 1),
                         hop2Used := c.hop2Used + Count(before + [r], 2), slots := after.slots,
                         nodes := c.nodes + |FreshKeys(c, before + [r])|)
    requires after.slots == mid.slots[KeyOf(r) := Slot(true, mid.Existing(KeyOf(r)) + 1)]
    ensures Tracks(c, before + [r], after)
  {
    forall key: Key ensures after.Existing(key) == c.Existing(key) + Occurrences(before + [r], key) {
      OccurrencesStep(before, r, key);
      assert mid.Existing(key) == c.Existing(key) + Occurrences(before, key);
    }
  }

  lemma ExecRowIffLegal(c: LaunchState, before: seq<LaunchRow>, mid: LaunchState, r: LaunchRow)
    requires |c.maxInvitesReceived| == 3 && c.maxInvitesReceived[1] >= 1 && c.maxInvitesReceived[2] >= 1
    requires Tracks(c, before, mid)
    ensures ExecRow(mid, r).Some? <==> Open(c) && RowLegal(c, before, r)
  {
    assert mid.Existing(KeyOf(r)) == c.Existing(KeyOf(r)) + Occurrences(before, KeyOf(r));
  }

  /** What one row changes: its counter, its slot, and the node count when the slot is new. */
  lemma ExecRowShape(c: LaunchState, r: LaunchRow)
    requires |c.maxInvitesReceived| == 3 && ExecRow(c, r).Some?
    requires forall key | key in c.slots :: c.slots[key].isWhitelisted <==> c.slots[key].invitesReceived >= 1
    ensures ExecRow(c, r).value
         == c.(seedCount := c.seedCount + if r.hop == 0 then 1 else 0,
               hop1Used := c.hop1Used + if r.hop == 1 then 1 else 0,
               hop2Used := c.hop2Used + if r.hop == 2 then 1 else 0,
               slots := c.slots[KeyOf(r) := Slot(true, c.Existing(KeyOf(r)) + 1)],
               nodes := c.nodes + if c.Existing(KeyOf(r)) == 0 then 1 else 0)
  {
  }

  lemma ExecRowTracks(c: LaunchState, before: seq<LaunchRow>, mid: LaunchState, r: LaunchRow)
    requires |c.maxInvitesReceived| == 3 && Tracks(c, before, mid) && ExecRow(mid, r).Some?
    ensures Tracks(c, before + [r], ExecRow(mid, r).value)
  {
    assert mid.Existing(KeyOf(r)) == c.Existing(KeyOf(r)) + Occurrences(before, KeyOf(r));
    CountStep(before, r, 0);
    CountStep(before, r, 1);
    CountStep(before, r, 2);
    FreshStep(c, before, r);
    ExecRowShape(mid, r);
    BumpedSlotTracks(c, before, r, mid, ExecRow(mid, r).value);
  }

  /** Executing rows succeeds exactly when they are legal, and then leaves the counted state. */
  lemma {:induction false} ExecRowsIffLegal(c: LaunchState, rows: seq<LaunchRow>)
    requires c.WellFormed()
    ensures ExecRows(c, rows).Some? <==> Legal(c, rows)
    ensures ExecRows(c, rows).Some? ==> Tracks(c, rows, ExecRows(c, rows).value)
  {
    if rows != [] {
      var front, last := rows[..|rows| - 1], rows[|rows| - 1];
      ExecRowsIffLegal(c, front);
      assert rows == front + [last];
      if ExecRows(c, front).Some? {
        ExecRowIffLegal(c, front, ExecRows(c, front).value, last);
        if ExecRows(c, rows).Some? {
          ExecRowTracks(c, front, ExecRows(c, front).value, last);
        }
      }
    }
  }

  // ---- legality does not depend on the order of the rows

  predicate RowFits(c: LaunchState, rows: seq<LaunchRow>, r: LaunchRow)
    requires |c.maxInvitesReceived| == 3
  {
    var key := KeyOf(r);
    && !c.IsLaunchTeam(r.address)
    && !IsZeroAddress(r.address)
    && (if r.hop == 0 then c.Existing(key) + Occurrences(rows, key) <= 1
        else c.Existing(key) + Occurrences(rows, key) <= c.maxInvitesReceived[r.hop])
  }

  predicate CountsFit(c: LaunchState, rows: seq<LaunchRow>) {
    && c.seedCount + Count(rows, 0) <= c.maxSeeds
    && c.hop1Used + Count(rows, 1) <= c.hop1Budget
    && c.hop2Used + Count(rows, 2) <= c.hop2Budget
  }

  /** The rules as totals over all rows. */
  predicate Fits(c: LaunchState, rows: seq<LaunchRow>)
    requires |c.maxInvitesReceived| == 3
  {
    CountsFit(c, rows) && NodesFit(c, rows) && forall r | r in rows :: RowFits(c, rows, r)
  }

  lemma {:induction false} OccursIff(rows: seq<LaunchRow>, key: Key)
    ensures Occurrences(rows, key) > 0 <==> exists r :: r in rows && KeyOf(r) == key
  {
    if rows != [] {
      var front, last := rows[..|rows| - 1], rows[|rows| - 1];
      OccursIff(front, key);
      assert forall r :: r in rows <==> r in front || r == last;
    }
  }

  lemma FitsStep(c: LaunchState, before: seq<LaunchRow>, r: LaunchRow)
    requires |c.maxInvitesReceived| == 3
    ensures Fits(c, before + [r]) <==> Fits(c, before) && RowLegal(c, before, r)
  {
    var all := before + [r];
    CountStep(before, r, 0);
    CountStep(before, r, 1);
    CountStep(before, r, 2);
    FreshStep(c, before, r);
    forall q | q in all
      ensures Occurrences(all, KeyOf(q)) == Occurrences(before, KeyOf(q)) + if KeyOf(r) == KeyOf(q) then 1 else 0
    {
      OccurrencesStep(before, r, KeyOf(q));
    }
    assert r in all && forall q | q in before :: q in all;
    OccursIff(before, KeyOf(r));
    if Fits(c, before) && RowLegal(c, before, r) {
      forall q | q in all ensures RowFits(c, all, q) {
        if q in before {
          assert RowFits(c, before, q);
        }
      }
    }
    if Fits(c, all) {
      forall q | q in before ensures RowFits(c, before, q) {
        assert RowFits(c, all, q);
      }
      assert RowFits(c, all, r);
    }
  }

  lemma {:induction false} LegalIffFits(c: LaunchState, rows: seq<LaunchRow>)
    requires c.WellFormed()
    ensures Legal(c, rows) <==> Fits(c, rows) && (rows == [] || Open(c))
  {
    if rows != [] {
      var front, last := rows[..|rows| - 1], rows[|rows| - 1];
      LegalIffFits(c, front);
      FitsStep(c, front, last);
      assert rows == front + [last];
    }
  }

  lemma {:induction false} OccurrencesConcat(a: seq<LaunchRow>, b: seq<LaunchRow>, key: Key)
    ensures Occurrences(a + b, key) == Occurrences(a, key) + Occurrences(b, key)
  {
    if b == [] {
      assert a + b == a;
    } else {
      OccurrencesConcat(a, b[..|b| - 1], key);
      assert (a + b)[..|a + b| - 1] == a + b[..|b| - 1];
    }
  }

  lemma {:induction false} CountConcat(a: seq<LaunchRow>, b: seq<LaunchRow>, hop: Hop)
    ensures Count(a + b, hop) == Count(a, hop) + Count(b, hop)
  {
    if b == [] {
      assert a + b == a;
    } else {
      CountConcat(a, b[..|b| - 1], hop);
      assert (a + b)[..|a + b| - 1] == a + b[..|b| - 1];
    }
  }

  /** Seed rows are the rows at hop 0. */
  lemma {:induction false} SeedOccurrences(rows: seq<LaunchRow>, key: Key)
    ensures Occurrences(SeedRows(rows), key) == if key.1 == 0 then Occurrences(rows, key) else 0
  {
    if rows != [] {
      var front, last := rows[..|rows| - 1], rows[|rows| - 1];
      SeedOccurrences(front, key);
      OccurrencesStep(SeedRows(front), last, key);
      assert last.hop != 0 ==> SeedRows(rows) == SeedRows(front);
    }
  }

  lemma {:induction false} InviteOccurrences(rows: seq<LaunchRow>, key: Key)
    ensures Occurrences(InviteRows(rows), key) == if key.1 != 0 then Occurrences(rows, key) else 0
  {
    if rows != [] {
      var front, last := rows[..|rows| - 1], rows[|rows| - 1];
      InviteOccurrences(front, key);
      OccurrencesStep(InviteRows(front), last, key);
      assert last.hop == 0 ==> InviteRows(rows) == InviteRows(front);
    }
  }

  lemma {:induction false} SeedCount(rows: seq<LaunchRow>, hop: Hop)
    ensures Count(SeedRows(rows), hop) == if hop == 0 then Count(rows, hop) else 0
  {
    if rows != [] {
      var front, last := rows[..|rows| - 1], rows[|rows| - 1];
      SeedCount(front, hop);
      CountStep(SeedRows(front), last, hop);
      assert last.hop != 0 ==> SeedRows(rows) == SeedRows(front);
    }
  }

  lemma {:induction false} InviteCount(rows: seq<LaunchRow>, hop: Hop)
    ensures Count(InviteRows(rows), hop) == if hop != 0 then Count(rows, hop) else 0
  {
    if rows != [] {
      var front, last := rows[..|rows| - 1], rows[|rows| - 1];
      InviteCount(front, hop);
      CountStep(InviteRows(front), last, hop);
      assert last.hop == 0 ==> InviteRows(rows) == InviteRows(front);
    }
  }

  /** Seeds and invites together occur as often as in the file. */
  lemma SplitKeepsOccurrences(rows: seq<LaunchRow>, key: Key)
    ensures Occurrences(SeedRows(rows), key) + Occurrences(InviteRows(rows), key) == Occurrences(rows, key)
  {
    SeedOccurrences(rows, key);
    InviteOccurrences(rows, key);
  }

  lemma SplitKeepsCounts(rows: seq<LaunchRow>, hop: Hop)
    ensures Count(SeedRows(rows), hop) + Count(InviteRows(rows), hop) == Count(rows, hop)
  {
    SeedCount(rows, hop);
    InviteCount(rows, hop);
  }

  lemma {:induction false} SplitKeepsMembers(rows: seq<LaunchRow>, r: LaunchRow)
    ensures r in SeedRows(rows) || r in InviteRows(rows) <==> r in rows
  {
    if rows != [] {
      var front, last := rows[..|rows| - 1], rows[|rows| - 1];
      SplitKeepsMembers(front, r);
      assert r in rows <==> r in front || r == last;
    }
  }

  lemma SameFresh(c: LaunchState, a: seq<LaunchRow>, b: seq<LaunchRow>)
    requires forall key :: Occurrences(a, key) == Occurrences(b, key)
    ensures FreshKeys(c, a) == FreshKeys(c, b)
  {
    forall key ensures key in FreshKeys(c, a) <==> key in FreshKeys(c, b) {
      FreshIff(c, a, key);
      FreshIff(c, b, key);
    }
  }

  /** Putting the seeds first breaks no rule and hides none. */
  lemma FitsInPlannedOrder(c: LaunchState, rows: seq<LaunchRow>)
    requires |c.maxInvitesReceived| == 3
    ensures Fits(c, SeedRows(rows) + InviteRows(rows)) <==> Fits(c, rows)
  {
    var planned := SeedRows(rows) + InviteRows(rows);
    forall r ensures r in planned <==> r in rows {
      SplitKeepsMembers(rows, r);
    }
    forall key ensures Occurrences(planned, key) == Occurrences(rows, key) {
      SplitKeepsOccurrences(rows, key);
      OccurrencesConcat(SeedRows(rows), InviteRows(rows), key);
    }
    forall hop: Hop ensures Count(planned, hop) == Count(rows, hop) {
      SplitKeepsCounts(rows, hop);
      CountConcat(SeedRows(rows), InviteRows(rows), hop);
    }
    SameFresh(c, planned, rows);
    forall r ensures RowFits(c, planned, r) <==> RowFits(c, rows, r) {
      assert Occurrences(planned, KeyOf(r)) == Occurrences(rows, KeyOf(r));
    }
  }

  // ---- the validator

  /** No row is rejected, stacking allowed. */
  predicate RowsPass(state: LaunchState, rows: seq<LaunchRow>)
    requires |state.maxInvitesReceived| == 3
  {
    rows == [] || (RowsPass(state, rows[..|rows| - 1])
                   && !VerdictOn(state, true, rows[..|rows| - 1], rows[|rows| - 1]).Reject?)
  }

  lemma {:induction false} NoRowErrorsIff(state: LaunchState, rows: seq<LaunchRow>)
    requires |state.maxInvitesReceived| == 3
    ensures RowFindings(state, true, rows).errors == [] <==> RowsPass(state, rows)
  {
    if rows != [] {
      NoRowErrorsIff(state, rows[..|rows| - 1]);
    }
  }

  lemma NoErrorsIff(state: LaunchState, rows: seq<LaunchRow>)
    requires |state.maxInvitesReceived| == 3
    ensures Findings(state, true, rows).errors == [] <==>
              && state.phase == 0 && state.armLoaded && state.now < state.launchTeamInviteEnd
              && RowsPass(state, rows) && CountsFit(state, rows)
  {
    NoRowErrorsIff(state, rows);
  }

  /** A row passes exactly when the contract would take it, the zero address, the totals and the nodes aside. */
  lemma VerdictIffLegal(state: LaunchState, before: seq<LaunchRow>, r: LaunchRow)
    requires |state.maxInvitesReceived| == 3 && CountsFit(state, before + [r]) && NodesFit(state, before + [r])
    ensures RowLegal(state, before, r) <==> !VerdictOn(state, true, before, r).Reject? && !IsZeroAddress(r.address)
  {
    CountStep(before, r, 0);
    CountStep(before, r, 1);
    CountStep(before, r, 2);
    FreshStep(state, before, r);
  }

  predicate NoZeroAddress(rows: seq<LaunchRow>) {
    forall r | r in rows :: !IsZeroAddress(r.address)
  }

  lemma {:induction false} LegalIffPasses(c: LaunchState, rows: seq<LaunchRow>)
    requires c.WellFormed() && Open(c)
    ensures Legal(c, rows) <==> RowsPass(c, rows) && CountsFit(c, rows) && NoZeroAddress(rows) && NodesFit(c, rows)
  {
    if rows != [] {
      var front, last := rows[..|rows| - 1], rows[|rows| - 1];
      assert rows == front + [last];
      LegalIffPasses(c, front);
      CountStep(front, last, 0);
      CountStep(front, last, 1);
      CountStep(front, last, 2);
      FreshStep(c, front, last);
      assert forall r :: r in rows <==> r in front || r == last;
      if CountsFit(c, rows) && NodesFit(c, rows) {
        VerdictIffLegal(c, front, last);
      } else if Legal(c, rows) {
        LegalIffFits(c, rows);
      }
    }
  }

  lemma {:induction false} PassIgnoresTime(state: LaunchState, rows: seq<LaunchRow>, t: int)
    requires |state.maxInvitesReceived| == 3
    ensures RowsPass(state.(now := t), rows) <==> RowsPass(state, rows)
  {
    if rows != [] {
      PassIgnoresTime(state, rows[..|rows| - 1], t);
    }
  }

  lemma PlanExecutesIffLegal(c: LaunchState, rows: seq<LaunchRow>, maxSeeds: nat, maxInvites: nat)
    requires c.WellFormed() && Open(c) && maxSeeds >= 1 && maxInvites >= 1
    ensures var r := ExecBatches(c, Plan(rows, maxSeeds, maxInvites));
            && (r.Some? <==> Legal(c, rows))
            && (r.Some? ==> Tracks(c, SeedRows(rows) + InviteRows(rows), r.value))
  {
    var planned := SeedRows(rows) + InviteRows(rows);
    PlanKeepsRows(rows, maxSeeds, maxInvites);
    BatchesRunAsRows(c, Plan(rows, maxSeeds, maxInvites));
    ExecRowsIffLegal(c, planned);
    LegalIffFits(c, planned);
    LegalIffFits(c, rows);
    FitsInPlannedOrder(c, rows);
  }

  /** The refinement. For non-empty rows checked at `state.now` and executed at a later time `t`
      inside the window, the validator reports no error, no row is the zero address and the new
      (address, hop) pairs fit under the node cap, exactly when executing the planned batches call by
      call never reverts. */
  lemma ValidPlanNeverReverts(state: LaunchState, rows: seq<LaunchRow>, t: int, maxSeeds: nat, maxInvites: nat)
    requires state.WellFormed() && rows != [] && maxSeeds >= 1 && maxInvites >= 1
    requires state.now <= t && state.windowStart <= t < state.launchTeamInviteEnd
    ensures Findings(state, true, rows).errors == [] && NoZeroAddress(rows) && NodesFit(state, rows)
       <==> ExecBatches(state.(now := t), Plan(rows, maxSeeds, maxInvites)).Some?
  {
    var c := state.(now := t);
    NoErrorsIff(state, rows);
    PassIgnoresTime(state, rows, t);
    FreshIgnoresTime(state, rows, t);
    if Open(c) {
      PlanExecutesIffLegal(c, rows, maxSeeds, maxInvites);
      LegalIffPasses(c, rows);
    } else {
      ClosedSaleReverts(c, rows, maxSeeds, maxInvites);
    }
  }

  lemma ClosedSaleReverts(c: LaunchState, rows: seq<LaunchRow>, maxSeeds: nat, maxInvites: nat)
    requires c.WellFormed() && !Open(c) && rows != [] && maxSeeds >= 1 && maxInvites >= 1
    ensures ExecBatches(c, Plan(rows, maxSeeds, maxInvites)).None?
  {
    var planned := SeedRows(rows) + InviteRows(rows);
    PlanKeepsRows(rows, maxSeeds, maxInvites);
    BatchesRunAsRows(c, Plan(rows, maxSeeds, maxInvites));
    ExecRowsIffLegal(c, planned);
    SplitKeepsMembers(rows, rows[0]);
  }

  /** The counters after the run are the summary's "after" column: before plus the batches' rows. */
  lemma SummaryCountsMatchChain(c: LaunchState, rows: seq<LaunchRow>, maxSeeds: nat, maxInvites: nat)
    requires c.WellFormed() && maxSeeds >= 1 && maxInvites >= 1
    requires ExecBatches(c, Plan(rows, maxSeeds, maxInvites)).Some?
    ensures var batchRows := Flatten(Plan(rows, maxSeeds, maxInvites));
            var after := ExecBatches(c, Plan(rows, maxSeeds, maxInvites)).value;
            && after.seedCount == c.seedCount + Count(batchRows, 0) == c.seedCount + Count(rows, 0)
            && after.hop1Used == c.hop1Used + Count(batchRows, 1) == c.hop1Used + Count(rows, 1)
            && after.hop2Used == c.hop2Used + Count(batchRows, 2) == c.hop2Used + Count(rows, 2)
            && forall key: Key :: after.Existing(key) == c.Existing(key) + Occurrences(rows, key)
  {
    var planned := SeedRows(rows) + InviteRows(rows);
    PlanKeepsRows(rows, maxSeeds, maxInvites);
    BatchesRunAsRows(c, Plan(rows, maxSeeds, maxInvites));
    ExecRowsIffLegal(c, planned);
    forall hop: Hop ensures Count(planned, hop) == Count(rows, hop) {
      SplitKeepsCounts(rows, hop);
      CountConcat(SeedRows(rows), InviteRows(rows), hop);
    }
    forall key: Key ensures Occurrences(planned, key) == Occurrences(rows, key) {
      SplitKeepsOccurrences(rows, key);
      OccurrencesConcat(SeedRows(rows), InviteRows(rows), key);
    }
  }

  /** The invite rows for an address and hop that was already invited, on chain or earlier in the file. */
  function FurtherInvites(state: LaunchState, rows: seq<LaunchRow>): seq<LaunchRow> {
    if rows == [] then []
    else
      var front, r := rows[..|rows| - 1], rows[|rows| - 1];
      FurtherInvites(state, front)
      + if r.hop != 0 && state.Existing(KeyOf(r)) + Occurrences(front, KeyOf(r)) > 0 then [r] else []
  }

  /** With stacking allowed and nothing rejected, the stacked rows are exactly the further invites. */
  lemma {:induction false} StackedAreFurtherInvites(state: LaunchState, rows: seq<LaunchRow>)
    requires |state.maxInvitesReceived| == 3 && RowFindings(state, true, rows).errors == []
    ensures RowFindings(state, true, rows).stacked == FurtherInvites(state, rows)
  {
    if rows != [] {
      StackedAreFurtherInvites(state, rows[..|rows| - 1]);
    }
  }

  lemma {:induction false} RowFindingsWithoutStacking(state: LaunchState, rows: seq<LaunchRow>)
    requires |state.maxInvitesReceived| == 3
    ensures RowFindings(state, false, rows).errors == [] <==>
              RowFindings(state, true, rows).errors == [] && RowFindings(state, true, rows).stacked == []
  {
    if rows != [] {
      RowFindingsWithoutStacking(state, rows[..|rows| - 1]);
    }
  }

  lemma {:induction false} NoFurtherInvitesMeansOne(state: LaunchState, rows: seq<LaunchRow>, r: LaunchRow)
    requires FurtherInvites(state, rows) == [] && r in rows && r.hop != 0
    ensures state.Existing(KeyOf(r)) == 0 && Occurrences(rows, KeyOf(r)) == 1
  {
    var front, last := rows[..|rows| - 1], rows[|rows| - 1];
    if KeyOf(r) != KeyOf(last) || r in front {
      assert r in front || r == last;
      NoFurtherInvitesMeansOne(state, front, r);
    }
  }

  /** Without stacking, a clean file that executes leaves every invited address at exactly one invite for
      its hop. It executes unless it names the zero address or needs too many nodes. */
  lemma WithoutStackingOneInviteEach(state: LaunchState, rows: seq<LaunchRow>, t: int, maxSeeds: nat, maxInvites: nat,
                                     r: LaunchRow)
    requires state.WellFormed() && maxSeeds >= 1 && maxInvites >= 1
    requires state.now <= t && state.windowStart <= t < state.launchTeamInviteEnd
    requires Findings(state, false, rows).errors == [] && r in rows && r.hop != 0
    ensures var run := ExecBatches(state.(now := t), Plan(rows, maxSeeds, maxInvites));
            && (run.Some? <==> NoZeroAddress(rows) && NodesFit(state, rows))
            && (run.Some? ==> run.value.Existing(KeyOf(r)) == 1)
  {
    RowFindingsWithoutStacking(state, rows);
    StackedAreFurtherInvites(state, rows);
    NoFurtherInvitesMeansOne(state, rows, r);
    ValidPlanNeverReverts(state, rows, t, maxSeeds, maxInvites);
    if ExecBatches(state.(now := t), Plan(rows, maxSeeds, maxInvites)).Some? {
      SummaryCountsMatchChain(state.(now := t), rows, maxSeeds, maxInvites);
    }
  }

  lemma FreshInvitePasses(state: LaunchState, r: LaunchRow)
    requires |state.maxInvitesReceived| == 3 && state.maxInvitesReceived[1] >= 1
    requires r.hop == 1 && !state.IsLaunchTeam(r.address) && state.Existing(KeyOf(r)) == 0
    ensures RowFindings(state, false, [r]) == Validation([], [], [])
  {
    assert [r][..0] == [];
    assert VerdictOn(state, false, [], r) == Fine;
  }

  lemma OneInviteFits(state: LaunchState, r: LaunchRow)
    requires state.WellFormed() && r.hop == 1 && state.hop1Used < state.hop1Budget
    ensures CountErrors(state, [r]) == []
  {
    CountStep([], r, 0);
    CountStep([], r, 1);
    CountStep([], r, 2);
    assert [] + [r] == [r];
  }

  /** The validator does not look for the zero address: a file naming it passes and then reverts. */
  lemma ZeroAddressPassesAndReverts(state: LaunchState, r: LaunchRow, t: int, maxSeeds: nat, maxInvites: nat)
    requires state.WellFormed() && maxSeeds >= 1 && maxInvites >= 1
    requires r.hop == 1 && IsZeroAddress(r.address) && !state.IsLaunchTeam(r.address) && state.Existing(KeyOf(r)) == 0
    requires state.phase == 0 && state.armLoaded && state.now <= t
    requires state.windowStart <= t < state.launchTeamInviteEnd && state.hop1Used < state.hop1Budget
    ensures Findings(state, false, [r]).errors == []
    ensures ExecBatches(state.(now := t), Plan([r], maxSeeds, maxInvites)).None?
  {
    FreshInvitePasses(state, r);
    OneInviteFits(state, r);
    assert r in [r];
    ValidPlanNeverReverts(state, [r], t, maxSeeds, maxInvites);
  }

  /** Nor does it look at the node count: with all nodes taken, a new invite passes and then reverts. */
  lemma FullNodesPassAndRevert(state: LaunchState, r: LaunchRow, t: int, maxSeeds: nat, maxInvites: nat)
    requires state.WellFormed() && state.nodes == MAX_FINALIZE_NODES && maxSeeds >= 1 && maxInvites >= 1
    requires r.hop == 1 && !state.IsLaunchTeam(r.address) && state.Existing(KeyOf(r)) == 0
    requires state.phase == 0 && state.armLoaded && state.now <= t
    requires state.windowStart <= t < state.launchTeamInviteEnd && state.hop1Used < state.hop1Budget
    ensures Findings(state, false, [r]).errors == []
    ensures ExecBatches(state.(now := t), Plan([r], maxSeeds, maxInvites)).None?
  {
    FreshInvitePasses(state, r);
    OneInviteFits(state, r);
    FreshStep(state, [], r);
    assert [] + [r] == [r];
    ValidPlanNeverReverts(state, [r], t, maxSeeds, maxInvites);
  }

  // ---- what the files say

  /** The (address, hop) pairs a list of calls stands for on chain. */
  function Meaning(calls: seq<Call>): seq<(string, nat)> {
    if calls == [] then []
    else
      Meaning(calls[..|calls| - 1])
      + match calls[|calls| - 1]
        case AddSeeds(seeds) => seq(|seeds|, i requires 0 <= i < |seeds| => (seeds[i], 0))
        case LaunchTeamInvite(invitee, fromHop) => [(invitee, fromHop + 1)]
  }

  function Targets(rows: seq<LaunchRow>): (r: seq<(string, nat)>)
    ensures |r| == |rows|
  {
    seq(|rows|, i requires 0 <= i < |rows| => (rows[i].address, rows[i].hop))
  }

  lemma {:induction false} InviteCallsMeanRows(rows: seq<LaunchRow>, calls: seq<Call>)
    requires |rows| == |calls|
    requires forall i | 0 <= i < |rows| :: rows[i].hop != 0 && calls[i] == LaunchTeamInvite(rows[i].address, rows[i].hop - 1)
    ensures Meaning(calls) == Targets(rows)
  {
    if rows != [] {
      var n := |rows| - 1;
      InviteCallsMeanRows(rows[..n], calls[..n]);
      assert Targets(rows) == Targets(rows[..n]) + [(rows[n].address, rows[n].hop)];
    }
  }

  /** The calls in a batch file name exactly the batch's addresses and target hops, in order. */
  lemma FileCallsMeanRows(b: LaunchBatch)
    requires OneKind(b)
    ensures Meaning(CallsOf(b)) == Targets(b.rows)
  {
    if b.kind == Seeds {
      assert CallsOf(b)[..0] == [];
      assert Targets(b.rows) == [] + Targets(b.rows);
    } else {
      InviteCallsMeanRows(b.rows, CallsOf(b));
    }
  }

  /** The calls of all files, in order. */
  function AllCalls(batches: seq<LaunchBatch>): seq<Call>
    requires forall k | 0 <= k < |batches| :: OneKind(batches[k])
  {
    if batches == [] then []
    else AllCalls(batches[..|batches| - 1]) + CallsOf(batches[|batches| - 1])
  }

  lemma {:induction false} MeaningConcat(a: seq<Call>, b: seq<Call>)
    ensures Meaning(a + b) == Meaning(a) + Meaning(b)
  {
    if b == [] {
      assert a + b == a;
    } else {
      assert (a + b)[..|a + b| - 1] == a + b[..|b| - 1];
      MeaningConcat(a, b[..|b| - 1]);
    }
  }

  lemma TargetsConcat(a: seq<LaunchRow>, b: seq<LaunchRow>)
    ensures Targets(a + b) == Targets(a) + Targets(b)
  {
  }

  lemma {:induction false} BatchCallsMeanRows(batches: seq<LaunchBatch>)
    requires forall k | 0 <= k < |batches| :: OneKind(batches[k])
    ensures Meaning(AllCalls(batches)) == Targets(Flatten(batches))
  {
    if batches != [] {
      var front, last := batches[..|batches| - 1], batches[|batches| - 1];
      BatchCallsMeanRows(front);
      FileCallsMeanRows(last);
      MeaningConcat(AllCalls(front), CallsOf(last));
      TargetsConcat(Flatten(front), last.rows);
    }
  }

  /** All the plan's files together name the seeds in file order and then the invites in file order. */
  lemma PlanCallsMeanRows(rows: seq<LaunchRow>, maxSeeds: nat, maxInvites: nat)
    requires maxSeeds >= 1 && maxInvites >= 1
    ensures Meaning(AllCalls(Plan(rows, maxSeeds, maxInvites))) == Targets(SeedRows(rows)) + Targets(InviteRows(rows))
  {
    BatchCallsMeanRows(Plan(rows, maxSeeds, maxInvites));
    PlanKeepsRows(rows, maxSeeds, maxInvites);
    TargetsConcat(SeedRows(rows), InviteRows(rows));
  }

  /** The seeds input text, and the list the Transaction Builder reads from it. */
  function SeedsText(seeds: seq<string>): string {
    ['['] + Join(seeds, ',') + [']']
  }

  function BuilderList(text: string): seq<string>
    requires |text| >= 2
  {
    Split(text[1..|text| - 1], ',')
  }

  lemma SeedsTextRoundTrip(seeds: seq<string>)
    requires seeds != [] && forall i | 0 <= i < |seeds| :: Lacks(seeds[i], ',')
    ensures BuilderList(SeedsText(seeds)) == seeds
  {
    var text := SeedsText(seeds);
    assert text[1..|text| - 1] == Join(seeds, ',');
    SplitOfJoin(seeds, ',');
  }
}
