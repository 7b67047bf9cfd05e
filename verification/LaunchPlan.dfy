/** Batches, the calls written to their files, and the crowdfund that executes them call by call. */
module LaunchPlan {
  import opened Wrappers
  import opened Strings
  import opened LaunchRows
  import opened LaunchValidation

  datatype Kind = Seeds | Invites

  datatype LaunchBatch = LaunchBatch(kind: Kind, rows: seq<LaunchRow>)

  datatype Call = AddSeeds(seeds: seq<string>) | LaunchTeamInvite(invitee: string, fromHop: nat)

  function SeedRows(rows: seq<LaunchRow>): seq<LaunchRow> {
    if rows == [] then []
    else SeedRows(rows[..|rows| - 1]) + if rows[|rows| - 1].hop == 0 then [rows[|rows| - 1]] else []
  }

  function InviteRows(rows: seq<LaunchRow>): seq<LaunchRow> {
    if rows == [] then []
    else InviteRows(rows[..|rows| - 1]) + if rows[|rows| - 1].hop != 0 then [rows[|rows| - 1]] else []
  }

  /** Pieces of `size` rows; only the last may be shorter. */
  function Chunks(kind: Kind, list: seq<LaunchRow>, size: nat): seq<LaunchBatch>
    requires size >= 1
  {
    if list == [] then []
    else
      var end := if size <= |list| then size else |list|;
      [LaunchBatch(kind, list[..end])] + Chunks(kind, list[end..], size)
  }

  /** All seeds first, then the invites, one kind per batch, in file order. */
  function Plan(rows: seq<LaunchRow>, maxSeeds: nat, maxInvites: nat): (batches: seq<LaunchBatch>)
    requires maxSeeds >= 1 && maxInvites >= 1
    ensures forall k | 0 <= k < |batches| :: OneKind(batches[k]) && 1 <= |batches[k].rows|
    ensures forall k | 0 <= k < |batches| ::
              |batches[k].rows| <= if batches[k].kind == Seeds then maxSeeds else maxInvites
  {
    SeedChunksAreGood(rows, maxSeeds);
    InviteChunksAreGood(rows, maxInvites);
    Chunks(Seeds, SeedRows(rows), maxSeeds) + Chunks(Invites, InviteRows(rows), maxInvites)
  }

  lemma SliceOfSuffix(list: seq<LaunchRow>, i: nat, end: nat)
    requires i <= end <= |list|
    ensures list[i..][..end - i] == list[i..end] && list[i..][end - i..] == list[end..]
  {
  }

  lemma Regroup(out: seq<LaunchBatch>, b: LaunchBatch, rest: seq<LaunchBatch>)
    ensures out + ([b] + rest) == (out + [b]) + rest
  {
  }

  /** Cutting one more batch does not change the whole. */
  lemma CutChunk(kind: Kind, out: seq<LaunchBatch>, list: seq<LaunchRow>, i: nat, end: nat, size: nat)
    requires size >= 1 && i < |list| && end == if i + size <= |list| then i + size else |list|
    ensures out + Chunks(kind, list[i..], size) == (out + [LaunchBatch(kind, list[i..end])]) + Chunks(kind, list[end..], size)
  {
    SliceOfSuffix(list, i, end);
    Regroup(out, LaunchBatch(kind, list[i..end]), Chunks(kind, list[end..], size));
  }

  method Chunk(kind: Kind, list: seq<LaunchRow>, size: nat) returns (out: seq<LaunchBatch>)
    requires size >= 1
    ensures out == Chunks(kind, list, size)
  {
    out := [];
    var i := 0;
    ghost var cut := 0;
    while i < |list|
      invariant cut == if i <= |list| then i else |list|
      invariant out + Chunks(kind, list[cut..], size) == Chunks(kind, list, size)
      decreases |list| - i
    {
      var end := if i + size <= |list| then i + size else |list|;
      CutChunk(kind, out, list, i, end, size);
      out := out + [LaunchBatch(kind, list[i..end])];
      i := i + size;
      cut := end;
    }
  }

  method PlanLaunchBatches(rows: seq<LaunchRow>, maxSeeds: nat, maxInvites: nat) returns (batches: seq<LaunchBatch>)
    requires maxSeeds >= 1 && maxInvites >= 1
    ensures batches == Plan(rows, maxSeeds, maxInvites)
  {
    var seeds := Chunk(Seeds, SeedRows(rows), maxSeeds);
    var invites := Chunk(Invites, InviteRows(rows), maxInvites);
    batches := seeds + invites;
  }

  function Flatten(batches: seq<LaunchBatch>): seq<LaunchRow> {
    if batches == [] then [] else Flatten(batches[..|batches| - 1]) + batches[|batches| - 1].rows
  }

  lemma {:induction false} FlattenConcat(a: seq<LaunchBatch>, b: seq<LaunchBatch>)
    ensures Flatten(a + b) == Flatten(a) + Flatten(b)
  {
    if b == [] {
      assert a + b == a;
    } else {
      var front, last := b[..|b| - 1], b[|b| - 1];
      FlattenConcat(a, front);
      assert (a + b)[..|a + b| - 1] == a + front && (a + b)[|a + b| - 1] == last;
      assert Flatten(a) + Flatten(front) + last.rows == Flatten(a) + (Flatten(front) + last.rows);
    }
  }

  predicate OneKind(b: LaunchBatch) {
    forall i | 0 <= i < |b.rows| :: b.rows[i].hop == 0 <==> b.kind == Seeds
  }

  lemma FlattenCons(first: LaunchBatch, rest: seq<LaunchBatch>)
    ensures Flatten([first] + rest) == first.rows + Flatten(rest)
  {
    FlattenConcat([first], rest);
    assert [first][..0] == [];
    assert Flatten([first]) == [] + first.rows;
  }

  lemma CutAndJoin(list: seq<LaunchRow>, end: nat)
    requires end <= |list|
    ensures list[..end] + list[end..] == list
  {
  }

  lemma {:induction false} ChunksFlatten(kind: Kind, list: seq<LaunchRow>, size: nat)
    requires size >= 1
    ensures Flatten(Chunks(kind, list, size)) == list
    decreases |list|
  {
    if list != [] {
      var end := if size <= |list| then size else |list|;
      ChunksFlatten(kind, list[end..], size);
      FlattenCons(LaunchBatch(kind, list[..end]), Chunks(kind, list[end..], size));
      CutAndJoin(list, end);
    }
  }

  lemma {:induction false} ChunksKeepLimit(kind: Kind, list: seq<LaunchRow>, size: nat, k: nat)
    requires size >= 1 && k < |Chunks(kind, list, size)|
    ensures var b := Chunks(kind, list, size)[k];
            b.kind == kind && 1 <= |b.rows| <= size && forall i | 0 <= i < |b.rows| :: b.rows[i] in list
    decreases |list|
  {
    var end := if size <= |list| then size else |list|;
    if k > 0 {
      ChunksKeepLimit(kind, list[end..], size, k - 1);
    }
  }

  lemma {:induction false} KindsSeparate(rows: seq<LaunchRow>)
    ensures forall r | r in SeedRows(rows) :: r.hop == 0
    ensures forall r | r in InviteRows(rows) :: r.hop != 0
  {
    if rows != [] {
      KindsSeparate(rows[..|rows| - 1]);
    }
  }

  lemma SeedChunksAreGood(rows: seq<LaunchRow>, size: nat)
    requires size >= 1
    ensures forall k | 0 <= k < |Chunks(Seeds, SeedRows(rows), size)| ::
              var b := Chunks(Seeds, SeedRows(rows), size)[k];
              b.kind == Seeds && OneKind(b) && 1 <= |b.rows| <= size
  {
    KindsSeparate(rows);
    forall k | 0 <= k < |Chunks(Seeds, SeedRows(rows), size)|
      ensures var b := Chunks(Seeds, SeedRows(rows), size)[k];
              b.kind == Seeds && OneKind(b) && 1 <= |b.rows| <= size
    {
      ChunksKeepLimit(Seeds, SeedRows(rows), size, k);
    }
  }

  lemma InviteChunksAreGood(rows: seq<LaunchRow>, size: nat)
    requires size >= 1
    ensures forall k | 0 <= k < |Chunks(Invites, InviteRows(rows), size)| ::
              var b := Chunks(Invites, InviteRows(rows), size)[k];
              b.kind == Invites && OneKind(b) && 1 <= |b.rows| <= size
  {
    KindsSeparate(rows);
    forall k | 0 <= k < |Chunks(Invites, InviteRows(rows), size)|
      ensures var b := Chunks(Invites, InviteRows(rows), size)[k];
              b.kind == Invites && OneKind(b) && 1 <= |b.rows| <= size
    {
      ChunksKeepLimit(Invites, InviteRows(rows), size, k);
    }
  }

  /** The plan holds the seeds in file order, then the invites in file order. */
  lemma PlanKeepsRows(rows: seq<LaunchRow>, maxSeeds: nat, maxInvites: nat)
    requires maxSeeds >= 1 && maxInvites >= 1
    ensures Flatten(Plan(rows, maxSeeds, maxInvites)) == SeedRows(rows) + InviteRows(rows)
  {
    ChunksFlatten(Seeds, SeedRows(rows), maxSeeds);
    ChunksFlatten(Invites, InviteRows(rows), maxInvites);
    FlattenConcat(Chunks(Seeds, SeedRows(rows), maxSeeds), Chunks(Invites, InviteRows(rows), maxInvites));
  }

  /** The calls of one batch file: one addSeeds, or one invite per row from the hop below. */
  function CallsOf(b: LaunchBatch): seq<Call>
    requires OneKind(b)
  {
    if b.kind == Seeds then [AddSeeds(seq(|b.rows|, i requires 0 <= i < |b.rows| => b.rows[i].address))]
    else seq(|b.rows|, i requires 0 <= i < |b.rows| => LaunchTeamInvite(b.rows[i].address, b.rows[i].hop - 1))
  }

  // ---- the crowdfund contract

  /** The zero address in any spelling. */
  predicate IsZeroAddress(a: string) {
    |a| == 42 && forall i | 2 <= i < 42 :: a[i] == '0'
  }

  /** The launch-team calls are open: active sale, ARM loaded, inside the window. */
  predicate Open(c: LaunchState) {
    c.phase == 0 && c.armLoaded && c.windowStart <= c.now < c.launchTeamInviteEnd
  }

  function AddSeed(c: LaunchState, seed: string): Option<LaunchState> {
    var key: Key := (ToLower(seed), 0);
    if !Open(c) || IsZeroAddress(seed) || c.IsLaunchTeam(seed) || c.seedCount >= c.maxSeeds
       || (key in c.slots && c.slots[key].isWhitelisted) || c.nodes >= MAX_FINALIZE_NODES
    then None
    else Some(c.(slots := c.slots[key := Slot(true, 1)], seedCount := c.seedCount + 1, nodes := c.nodes + 1))
  }

  function Invite(c: LaunchState, invitee: string, fromHop: nat): Option<LaunchState>
    requires |c.maxInvitesReceived| == 3
  {
    if !Open(c) || fromHop > 1 || IsZeroAddress(invitee) || c.IsLaunchTeam(invitee)
       || (fromHop == 0 && c.hop1Used >= c.hop1Budget) || (fromHop == 1 && c.hop2Used >= c.hop2Budget)
    then None
    else
      var key: Key := (ToLower(invitee), fromHop + 1);
      var paid := if fromHop == 0 then c.(hop1Used := c.hop1Used + 1) else c.(hop2Used := c.hop2Used + 1);
      if key !in c.slots || !c.slots[key].isWhitelisted then
        if c.nodes >= MAX_FINALIZE_NODES then None
        else Some(paid.(slots := c.slots[key := Slot(true, 1)], nodes := c.nodes + 1))
      else if c.slots[key].invitesReceived >= c.maxInvitesReceived[fromHop + 1] then None
      else Some(paid.(slots := c.slots[key := Slot(true, c.slots[key].invitesReceived + 1)]))
  }

  function ExecSeeds(c: LaunchState, seeds: seq<string>): Option<LaunchState> {
    if seeds == [] then if Open(c) then Some(c) else None
    else
      match ExecSeeds(c, seeds[..|seeds| - 1])
      case None => None
      case Some(c') => AddSeed(c', seeds[|seeds| - 1])
  }

  function ExecCall(c: LaunchState, call: Call): (r: Option<LaunchState>)
    requires |c.maxInvitesReceived| == 3
  {
    match call
    case AddSeeds(seeds) => ExecSeeds(c, seeds)
    case LaunchTeamInvite(invitee, fromHop) => Invite(c, invitee, fromHop)
  }

  lemma {:induction false} ExecSeedsKeepsLimits(c: LaunchState, seeds: seq<string>)
    ensures ExecSeeds(c, seeds).Some? ==> ExecSeeds(c, seeds).value.maxInvitesReceived == c.maxInvitesReceived
  {
    if seeds != [] {
      ExecSeedsKeepsLimits(c, seeds[..|seeds| - 1]);
    }
  }

  /** One Safe transaction: all its calls or none. */
  function ExecCalls(c: LaunchState, calls: seq<Call>): (r: Option<LaunchState>)
    requires |c.maxInvitesReceived| == 3
    ensures r.Some? ==> r.value.maxInvitesReceived == c.maxInvitesReceived
  {
    if calls == [] then Some(c)
    else
      match ExecCalls(c, calls[..|calls| - 1])
      case None => None
      case Some(c') =>
        var last := calls[|calls| - 1];
        assert last.AddSeeds? ==> ExecSeeds(c', last.seeds).Some? ==>
          ExecSeeds(c', last.seeds).value.maxInvitesReceived == c.maxInvitesReceived by {
          if last.AddSeeds? {
            ExecSeedsKeepsLimits(c', last.seeds);
          }
        }
        ExecCall(c', last)
  }

  /** All batch files in order. */
  function ExecBatches(c: LaunchState, batches: seq<LaunchBatch>): (r: Option<LaunchState>)
    requires |c.maxInvitesReceived| == 3
    requires forall k | 0 <= k < |batches| :: OneKind(batches[k])
    ensures r.Some? ==> r.value.maxInvitesReceived == c.maxInvitesReceived
  {
    if batches == [] then Some(c)
    else
      match ExecBatches(c, batches[..|batches| - 1])
      case None => None
      case Some(c') => ExecCalls(c', CallsOf(batches[|batches| - 1]))
  }

  // ---- the same execution, row by row

  function ExecRow(c: LaunchState, r: LaunchRow): (o: Option<LaunchState>)
    requires |c.maxInvitesReceived| == 3
    ensures o.Some? ==> o.value.maxInvitesReceived == c.maxInvitesReceived
  {
    if r.hop == 0 then AddSeed(c, r.address) else Invite(c, r.address, r.hop - 1)
  }

  function ExecRows(c: LaunchState, rows: seq<LaunchRow>): (o: Option<LaunchState>)
    requires |c.maxInvitesReceived| == 3
    ensures o.Some? ==> o.value.maxInvitesReceived == c.maxInvitesReceived
  {
    if rows == [] then Some(c)
    else
      match ExecRows(c, rows[..|rows| - 1])
      case None => None
      case Some(c') => ExecRow(c', rows[|rows| - 1])
  }

  lemma {:induction false} ExecRowsConcat(c: LaunchState, a: seq<LaunchRow>, b: seq<LaunchRow>)
    requires |c.maxInvitesReceived| == 3
    ensures ExecRows(c, a + b)
         == match ExecRows(c, a) case None => None case Some(c') => ExecRows(c', b)
  {
    if b == [] {
      assert a + b == a;
    } else {
      ExecRowsConcat(c, a, b[..|b| - 1]);
      assert (a + b)[..|a + b| - 1] == a + b[..|b| - 1];
    }
  }

  lemma {:induction false} SeedsRunAsRows(c: LaunchState, rows: seq<LaunchRow>, seeds: seq<string>)
    requires |c.maxInvitesReceived| == 3 && |rows| == |seeds| >= 1
    requires forall i | 0 <= i < |rows| :: rows[i].hop == 0 && seeds[i] == rows[i].address
    ensures ExecSeeds(c, seeds) == ExecRows(c, rows)
  {
    var n := |rows| - 1;
    if n > 0 {
      SeedsRunAsRows(c, rows[..n], seeds[..n]);
    } else {
      assert seeds[..0] == [] && rows[..0] == [];
    }
  }

  lemma {:induction false} InvitesRunAsRows(c: LaunchState, rows: seq<LaunchRow>, calls: seq<Call>)
    requires |c.maxInvitesReceived| == 3 && |rows| == |calls|
    requires forall i | 0 <= i < |rows| :: rows[i].hop != 0 && calls[i] == LaunchTeamInvite(rows[i].address, rows[i].hop - 1)
    ensures ExecCalls(c, calls) == ExecRows(c, rows)
  {
    if rows != [] {
      var n := |rows| - 1;
      InvitesRunAsRows(c, rows[..n], calls[..n]);
    }
  }

  lemma BatchRunsAsRows(c: LaunchState, b: LaunchBatch)
    requires |c.maxInvitesReceived| == 3 && |b.rows| >= 1
    requires OneKind(b)
    ensures ExecCalls(c, CallsOf(b)) == ExecRows(c, b.rows)
  {
    if b.kind == Seeds {
      var call := CallsOf(b)[0];
      SeedsRunAsRows(c, b.rows, call.seeds);
      assert CallsOf(b)[..0] == [];
    } else {
      InvitesRunAsRows(c, b.rows, CallsOf(b));
    }
  }

  /** Executing the batch files is executing their rows one by one. */
  lemma {:induction false} BatchesRunAsRows(c: LaunchState, batches: seq<LaunchBatch>)
    requires |c.maxInvitesReceived| == 3
    requires forall k | 0 <= k < |batches| :: |batches[k].rows| >= 1
    requires forall k | 0 <= k < |batches| :: OneKind(batches[k])
    ensures ExecBatches(c, batches) == ExecRows(c, Flatten(batches))
  {
    if batches != [] {
      var n := |batches| - 1;
      BatchesRunAsRows(c, batches[..n]);
      ExecRowsConcat(c, Flatten(batches[..n]), batches[n].rows);
      if ExecBatches(c, batches[..n]).Some? {
        BatchRunsAsRows(ExecBatches(c, batches[..n]).value, batches[n]);
      }
    }
  }
}
