/** A node that answers log queries by block range, and may refuse any of them. */
module LogNodes {
  import opened Wrappers
  import opened BlockLogs

  class LogNode<T(0)> {
    const logs: seq<Logged<T>>
    const latest: nat
    const rejects: nat -> bool
    var calls: nat
    ghost var ranges: seq<Range>
    ghost var rejected: nat

    constructor (logs: seq<Logged<T>>, latest: nat, rejects: nat -> bool)
      requires InOrder(logs, latest)
      ensures this.logs == logs && this.latest == latest && this.rejects == rejects
      ensures ranges == [] && rejected == 0
    {
      this.logs := logs;
      this.latest := latest;
      this.rejects := rejects;
      calls := 0;
      ranges := [];
      rejected := 0;
    }

    method GetLogs(from: int, to: int) returns (r: Option<seq<Logged<T>>>)
      modifies this
      ensures r.Some? ==> r.value == LogsBetween(logs, from - 1, to) && ranges == old(ranges) + [Range(from, to)]
      ensures r.Some? ==> rejected == old(rejected)
      ensures r.None? ==> ranges == old(ranges) && rejected == old(rejected) + 1
    {
      calls := calls + 1;
      if rejects(calls - 1) {
        rejected := rejected + 1;
        return None;
      }
      ranges := ranges + [Range(from, to)];
      return Some(LogsBetween(logs, from - 1, to));
    }
  }

  function Min(a: int, b: int): int {
    if a <= b then a else b
  }

  function Max(a: int, b: int): int {
    if a >= b then a else b
  }
}

/** Who holds a timelock role, from the history of grants and revocations. */
module RoleHistory {
  import opened BlockLogs

  type Account = int

  datatype Role = TimelockAdmin | Proposer | Executor | Canceller

  const ROLES: seq<Role> := [TimelockAdmin, Proposer, Executor, Canceller]

  datatype RoleChange = RoleChange(role: Role, account: Account, granted: bool)

  /** Membership is the last grant or revocation of the account and role. */
  predicate HasRole(history: seq<Logged<RoleChange>>, role: Role, account: Account) {
    history != []
    && (var last := history[|history| - 1].event;
        if last.role == role && last.account == account then last.granted
        else HasRole(history[..|history| - 1], role, account))
  }

  /** Only the timelock itself may be admin; only the governor may have another role. */
  predicate Permitted(role: Role, account: Account, self: Account, governor: Account) {
    if role == TimelockAdmin then account == self else account == governor
  }

  /** The accounts named by the events, each once, in the order of their first event. */
  function AccountsOf(history: seq<Logged<RoleChange>>): seq<Account> {
    if history == [] then []
    else
      var front, account := AccountsOf(history[..|history| - 1]), history[|history| - 1].event.account;
      if account in front then front else front + [account]
  }

  lemma {:induction false} HoldersAreNamed(history: seq<Logged<RoleChange>>, role: Role, account: Account)
    requires HasRole(history, role, account)
    ensures account in AccountsOf(history)
  {
    var last := history[|history| - 1].event;
    if !(last.role == role && last.account == account) {
      HoldersAreNamed(history[..|history| - 1], role, account);
    }
  }

  datatype Finding = Finding(account: Account, role: Role)

  function UnexpectedRoles(
      history: seq<Logged<RoleChange>>, roles: seq<Role>, account: Account, self: Account, governor: Account): seq<Finding>
  {
    if roles == [] then []
    else
      var role := roles[|roles| - 1];
      UnexpectedRoles(history, roles[..|roles| - 1], account, self, governor)
      + if HasRole(history, role, account) && !Permitted(role, account, self, governor) then [Finding(account, role)] else []
  }

  function UnexpectedFor(
      history: seq<Logged<RoleChange>>, accounts: seq<Account>, self: Account, governor: Account): seq<Finding>
  {
    if accounts == [] then []
    else
      UnexpectedFor(history, accounts[..|accounts| - 1], self, governor)
      + UnexpectedRoles(history, ROLES, accounts[|accounts| - 1], self, governor)
  }

  lemma {:induction false} RolesListed(
      history: seq<Logged<RoleChange>>, roles: seq<Role>, account: Account, self: Account, governor: Account, f: Finding)
    ensures f in UnexpectedRoles(history, roles, account, self, governor)
       <==> f.account == account && f.role in roles && HasRole(history, f.role, account)
            && !Permitted(f.role, account, self, governor)
  {
    if roles != [] {
      RolesListed(history, roles[..|roles| - 1], account, self, governor, f);
      assert f.role in roles <==> f.role in roles[..|roles| - 1] || f.role == roles[|roles| - 1];
    }
  }

  lemma EveryRole(role: Role)
    ensures role in ROLES
  {
    assert ROLES[0] == TimelockAdmin && ROLES[1] == Proposer && ROLES[2] == Executor && ROLES[3] == Canceller;
  }

  lemma {:induction false} AccountsListed(
      history: seq<Logged<RoleChange>>, accounts: seq<Account>, self: Account, governor: Account, f: Finding)
    ensures f in UnexpectedFor(history, accounts, self, governor)
       <==> f.account in accounts && HasRole(history, f.role, f.account) && !Permitted(f.role, f.account, self, governor)
  {
    if accounts != [] {
      var front, last := accounts[..|accounts| - 1], accounts[|accounts| - 1];
      AccountsListed(history, front, self, governor, f);
      RolesListed(history, ROLES, last, self, governor, f);
      EveryRole(f.role);
      assert f.account in accounts <==> f.account in front || f.account == last;
    }
  }

  /** Looking at the accounts in the history finds every holder that is not permitted, and only those. */
  lemma UnexpectedAreExactlyHolders(history: seq<Logged<RoleChange>>, self: Account, governor: Account, f: Finding)
    ensures f in UnexpectedFor(history, AccountsOf(history), self, governor)
       <==> HasRole(history, f.role, f.account) && !Permitted(f.role, f.account, self, governor)
  {
    AccountsListed(history, AccountsOf(history), self, governor, f);
    if HasRole(history, f.role, f.account) {
      HoldersAreNamed(history, f.role, f.account);
    }
  }
}

/** The scan for unexpected role holders. */
module RoleScan {
  import opened Wrappers
  import opened BlockLogs
  import opened LogNodes
  import opened RoleHistory

  const LOG_CHUNK_START: int := 5000
  const LOG_CHUNK_MIN: int := 10
  const MAX_REJECTIONS: nat := 9
  const MAX_SAFE_INTEGER: int := 0x1F_FFFF_FFFF_FFFF

  datatype ScanError = InvalidBlock | RangeRejected

  /** The chunk after so many rejected ranges. */
  function ChunkAfter(rejections: nat): int {
    if rejections == 0 then LOG_CHUNK_START else Max(LOG_CHUNK_MIN, ChunkAfter(rejections - 1) / 2)
  }

  /** The ninth rejection is the first to reach the smallest chunk. */
  lemma NineHalvings(rejections: nat)
    requires rejections <= MAX_REJECTIONS
    ensures ChunkAfter(rejections) >= LOG_CHUNK_MIN
    ensures ChunkAfter(rejections) == LOG_CHUNK_MIN <==> rejections == MAX_REJECTIONS
  {
    assert ChunkAfter(1) == 2500;
    assert ChunkAfter(2) == 1250;
    assert ChunkAfter(3) == 625;
    assert ChunkAfter(4) == 312;
    assert ChunkAfter(5) == 156;
    assert ChunkAfter(6) == 78;
    assert ChunkAfter(7) == 39;
    assert ChunkAfter(8) == 19;
    assert ChunkAfter(9) == 10;
  }

  /** Scan the blocks from `fromBlock` to `latest`, each exactly once; fail at the tenth rejection. */
  method ScanAccounts(node: LogNode<RoleChange>, fromBlock: nat) returns (accounts: Option<seq<Account>>)
    requires node.ranges == [] && node.rejected == 0 && InOrder(node.logs, node.latest)
    modifies node
    ensures accounts.Some? ==> accounts.value == AccountsOf(LogsBetween(node.logs, fromBlock - 1, Max(node.latest, fromBlock - 1)))
    ensures accounts.Some? ==> Chained(node.ranges, fromBlock - 1, Max(node.latest, fromBlock - 1))
    ensures node.rejected <= MAX_REJECTIONS + 1
    ensures accounts.None? <==> node.rejected == MAX_REJECTIONS + 1
  {
    var chunk := LOG_CHUNK_START;
    var start: int := fromBlock;
    var seen: seq<Account> := [];
    ghost var low: int := fromBlock - 1;
    ghost var upTo := low;
    NothingInEmptyRange(node.logs, low);
    while start <= node.latest
      invariant fromBlock <= start == upTo + 1 <= Max(node.latest, low) + 1
      invariant node.rejected <= MAX_REJECTIONS && chunk == ChunkAfter(node.rejected)
      invariant Chained(node.ranges, low, upTo)
      invariant seen == AccountsOf(LogsBetween(node.logs, low, upTo))
      decreases node.latest - start + 1, chunk
    {
      NineHalvings(node.rejected);
      var toBlock := Min(start + chunk - 1, node.latest);
      var found := ScanChunk(node, seen, start, toBlock, low, upTo);
      if found.None? {
        if chunk <= LOG_CHUNK_MIN {
          return None;
        }
        chunk := Max(LOG_CHUNK_MIN, chunk / 2);
      } else {
        seen := found.value;
        start := toBlock + 1;
        upTo := toBlock;
      }
    }
    accounts := Some(seen);
  }

  /** Query one range and remember the accounts found, unless the range is rejected. */
  method ScanChunk(node: LogNode<RoleChange>, seen: seq<Account>, start: int, toBlock: int, ghost low: int, ghost upTo: int)
      returns (found: Option<seq<Account>>)
    requires low <= upTo == start - 1 < toBlock && InOrder(node.logs, node.latest)
    requires Chained(node.ranges, low, upTo) && seen == AccountsOf(LogsBetween(node.logs, low, upTo))
    modifies node
    ensures found.Some? ==> Chained(node.ranges, low, toBlock) && node.rejected == old(node.rejected)
    ensures found.Some? ==> found.value == AccountsOf(LogsBetween(node.logs, low, toBlock))
    ensures found.None? ==> node.ranges == old(node.ranges) && node.rejected == old(node.rejected) + 1
  {
    var logs := node.GetLogs(start, toBlock);
    if logs.None? {
      return None;
    }
    LogsBetweenJoin(node.logs, node.latest, low, upTo, toBlock);
    assert node.ranges[..|node.ranges| - 1] == old(node.ranges);
    var accounts := AddAccounts(seen, logs.value, LogsBetween(node.logs, low, upTo));
    return Some(accounts);
  }

  /** Remember the accounts of the events found. */
  method AddAccounts(seen: seq<Account>, logs: seq<Logged<RoleChange>>, ghost earlier: seq<Logged<RoleChange>>)
      returns (accounts: seq<Account>)
    requires seen == AccountsOf(earlier)
    ensures accounts == AccountsOf(earlier + logs)
  {
    accounts := seen;
    assert earlier + logs[..0] == earlier;
    for i := 0 to |logs|
      invariant accounts == AccountsOf(earlier + logs[..i])
    {
      var account := logs[i].event.account;
      ghost var more := earlier + logs[..i + 1];
      assert more[..|more| - 1] == earlier + logs[..i];
      if account !in accounts {
        accounts := accounts + [account];
      }
    }
    assert logs[..|logs|] == logs;
  }

  /** Check the current roles of the accounts seen. */
  method CheckAccounts(history: seq<Logged<RoleChange>>, accounts: seq<Account>, self: Account, governor: Account)
      returns (unexpected: seq<Finding>)
    ensures unexpected == UnexpectedFor(history, accounts, self, governor)
  {
    unexpected := [];
    for i := 0 to |accounts|
      invariant unexpected == UnexpectedFor(history, accounts[..i], self, governor)
    {
      assert accounts[..i + 1][..i] == accounts[..i];
      ghost var before := unexpected;
      for j := 0 to |ROLES|
        invariant unexpected == before + UnexpectedRoles(history, ROLES[..j], accounts[i], self, governor)
      {
        assert ROLES[..j + 1][..j] == ROLES[..j];
        if HasRole(history, ROLES[j], accounts[i]) && !Permitted(ROLES[j], accounts[i], self, governor) {
          unexpected := unexpected + [Finding(accounts[i], ROLES[j])];
        }
      }
      assert ROLES[..|ROLES|] == ROLES;
    }
    assert accounts[..|accounts|] == accounts;
  }

  /** List the accounts that hold a role they may not hold. When the timelock's history starts at
      `fromBlock`, the list has exactly the holders that are not permitted. Every block from there on is
      scanned exactly once, with at most nine ranges rejected. */
  method TimelockUnexpectedRoleHolders(node: LogNode<RoleChange>, self: Account, governor: Account, fromBlock: int)
      returns (r: Result<seq<Finding>, ScanError>)
    requires node.ranges == [] && node.rejected == 0 && InOrder(node.logs, node.latest)
    modifies node
    ensures r == Failure(InvalidBlock) <==> !(0 <= fromBlock <= MAX_SAFE_INTEGER)
    ensures r == Failure(RangeRejected) <==> node.rejected == MAX_REJECTIONS + 1
    ensures r.Success? ==> Chained(node.ranges, fromBlock - 1, Max(node.latest, fromBlock - 1)) && node.rejected <= MAX_REJECTIONS
    ensures r.Success? ==>
              r.value == UnexpectedFor(node.logs, AccountsOf(LogsBetween(node.logs, fromBlock - 1, Max(node.latest, fromBlock - 1))),
                                       self, governor)
    ensures r.Success? && (forall i | 0 <= i < |node.logs| :: node.logs[i].block >= fromBlock) ==>
              forall f :: f in r.value
                <==> HasRole(node.logs, f.role, f.account) && !Permitted(f.role, f.account, self, governor)
  {
    if !(0 <= fromBlock <= MAX_SAFE_INTEGER) {
      return Failure(InvalidBlock);
    }
    var accounts := ScanAccounts(node, fromBlock);
    if accounts.None? {
      return Failure(RangeRejected);
    }
    var unexpected := CheckAccounts(node.logs, accounts.value, self, governor);
    if forall i | 0 <= i < |node.logs| :: node.logs[i].block >= fromBlock {
      WholeHistory(node.logs, node.latest, fromBlock);
      forall f ensures f in unexpected
        <==> HasRole(node.logs, f.role, f.account) && !Permitted(f.role, f.account, self, governor)
      {
        UnexpectedAreExactlyHolders(node.logs, self, governor, f);
      }
    }
    r := Success(unexpected);
  }

  lemma {:induction false} WholeHistory<T>(logs: seq<Logged<T>>, latest: int, fromBlock: int)
    requires InOrder(logs, latest) && forall i | 0 <= i < |logs| :: logs[i].block >= fromBlock
    ensures LogsBetween(logs, fromBlock - 1, Max(latest, fromBlock - 1)) == logs
  {
    if logs != [] {
      var front, last := logs[..|logs| - 1], logs[|logs| - 1];
      assert last.block >= fromBlock;
      forall i | 0 <= i < |front| ensures front[i].block >= fromBlock {
        assert front[i] == logs[i];
      }
      WholeHistory(front, last.block, fromBlock);
      SameUpTo(front, last.block, fromBlock - 1, Max(last.block, fromBlock - 1), Max(latest, fromBlock - 1));
    }
  }

  /** Raising the end of a scan above every log finds nothing more. */
  lemma {:induction false} SameUpTo<T>(logs: seq<Logged<T>>, bound: int, low: int, high: int, higher: int)
    requires InOrder(logs, bound) && bound <= high <= higher
    ensures LogsBetween(logs, low, high) == LogsBetween(logs, low, higher)
  {
    if logs != [] {
      SameUpTo(logs[..|logs| - 1], logs[|logs| - 1].block, low, high, higher);
    }
  }
}

/** The list of tokens swept at wind-down. */
module SweptTokens {
  import opened Wrappers
  import opened BlockLogs
  import opened LogNodes

  type Token = int

  const LOG_CHUNK_BLOCKS: int := 50_000

  function TokensOf(logs: seq<Logged<Token>>): set<Token> {
    if logs == [] then {} else TokensOf(logs[..|logs| - 1]) + {logs[|logs| - 1].event}
  }

  predicate Ascending(s: seq<int>) {
    forall i, j | 0 <= i < j < |s| :: s[i] < s[j]
  }

  function ElementsOf(s: seq<int>): set<int> {
    set x | x in s
  }

  /** An ascending list is determined by its elements. */
  lemma {:induction false} AscendingIsUnique(s: seq<int>, t: seq<int>)
    requires Ascending(s) && Ascending(t) && ElementsOf(s) == ElementsOf(t)
    ensures s == t
  {
    NoElements(s);
    NoElements(t);
    if s != [] {
      assert s[0] in ElementsOf(t) && t[0] in ElementsOf(s);
      var i :| 0 <= i < |t| && t[i] == s[0];
      var j :| 0 <= j < |s| && s[j] == t[0];
      assert s[0] == t[0];
      TailElements(s);
      TailElements(t);
      AscendingIsUnique(s[1..], t[1..]);
    }
  }

  lemma NoElements(s: seq<int>)
    ensures ElementsOf(s) == {} <==> s == []
  {
    if s != [] {
      assert s[0] in ElementsOf(s);
    }
  }

  lemma TailElements(s: seq<int>)
    requires s != [] && Ascending(s)
    ensures Ascending(s[1..]) && ElementsOf(s[1..]) == ElementsOf(s) - {s[0]}
  {
    forall x ensures x in ElementsOf(s[1..]) <==> x in ElementsOf(s) - {s[0]} {
      if x in ElementsOf(s) - {s[0]} {
        var i :| 0 <= i < |s| && s[i] == x;
        assert s[1..][i - 1] == x;
      }
    }
  }

  lemma {:induction false} TokensOfJoin(a: seq<Logged<Token>>, b: seq<Logged<Token>>)
    ensures TokensOf(a + b) == TokensOf(a) + TokensOf(b)
  {
    if b == [] {
      assert a + b == a;
    } else {
      var all := a + b;
      assert all[..|all| - 1] == a + b[..|b| - 1];
      TokensOfJoin(a, b[..|b| - 1]);
    }
  }

  /** Insert into an ascending list. */
  function Insert(s: seq<int>, x: int): (r: seq<int>)
    requires Ascending(s) && x !in s
    ensures Ascending(r) && ElementsOf(r) == ElementsOf(s) + {x}
  {
    if s == [] || s[|s| - 1] < x then s + [x]
    else
      var front, last := s[..|s| - 1], s[|s| - 1];
      var r := Insert(front, x);
      assert ElementsOf(s) == ElementsOf(front) + {last};
      assert last in s && x < last;
      assert forall i | 0 <= i < |r| :: r[i] in ElementsOf(front) + {x};
      r + [last]
  }

  /** The tokens of a set in ascending order, as the library's sort leaves them. */
  method SortTokens(swept: set<Token>) returns (r: seq<Token>)
    ensures Ascending(r) && ElementsOf(r) == swept
  {
    r := [];
    var left := swept;
    while left != {}
      invariant left <= swept && Ascending(r) && ElementsOf(r) == swept - left
      decreases |left|
    {
      NonEmpty(left);
      var x :| x in left;
      assert x !in ElementsOf(r);
      r := Insert(r, x);
      left := left - {x};
    }
  }

  /** The tokens swept from `fromBlock` on, in chunks of the size that public nodes take. */
  method FetchSweptTokens(node: LogNode<Token>, fromBlock: nat) returns (r: Option<seq<Token>>)
    requires node.ranges == [] && node.rejected == 0 && InOrder(node.logs, node.latest)
    modifies node
    ensures r.None? <==> node.rejected > 0
    ensures r.Some? ==> Chained(node.ranges, fromBlock - 1, Max(node.latest, fromBlock - 1))
    ensures r.Some? ==> Ascending(r.value)
    ensures r.Some? ==> ElementsOf(r.value) == TokensOf(LogsBetween(node.logs, fromBlock - 1, Max(node.latest, fromBlock - 1)))
  {
    r := FetchInChunks(node, fromBlock, LOG_CHUNK_BLOCKS);
  }

  /** In strictly ascending order. For any chunk size the answer is the one list that is ascending and has
      exactly these tokens. */
  method FetchInChunks(node: LogNode<Token>, fromBlock: nat, chunkBlocks: int) returns (r: Option<seq<Token>>)
    requires chunkBlocks >= 1 && node.ranges == [] && node.rejected == 0 && InOrder(node.logs, node.latest)
    modifies node
    ensures r.None? <==> node.rejected > 0
    ensures r.Some? ==> Chained(node.ranges, fromBlock - 1, Max(node.latest, fromBlock - 1))
    ensures r.Some? ==> Ascending(r.value)
    ensures r.Some? ==> ElementsOf(r.value) == TokensOf(LogsBetween(node.logs, fromBlock - 1, Max(node.latest, fromBlock - 1)))
  {
    var swept: set<Token> := {};
    var start: int := fromBlock;
    ghost var low: int := fromBlock - 1;
    NothingInEmptyRange(node.logs, low);
    while start <= node.latest
      invariant fromBlock <= start && node.rejected == 0
      invariant Chained(node.ranges, low, Max(Min(start - 1, node.latest), low))
      invariant swept == TokensOf(LogsBetween(node.logs, low, Max(Min(start - 1, node.latest), low)))
      decreases node.latest - start
    {
      var end := Min(start + chunkBlocks - 1, node.latest);
      var found := FetchChunk(node, swept, start, end, low);
      if found.None? {
        return None;
      }
      swept := found.value;
      start := start + chunkBlocks;
    }
    var sorted := SortTokens(swept);
    r := Some(sorted);
  }

  /** Query one range and add its tokens. */
  method FetchChunk(node: LogNode<Token>, swept: set<Token>, start: int, end: int, ghost low: int)
      returns (found: Option<set<Token>>)
    requires low < start <= end && InOrder(node.logs, node.latest) && Chained(node.ranges, low, start - 1)
    requires swept == TokensOf(LogsBetween(node.logs, low, start - 1))
    modifies node
    ensures found.Some? ==> Chained(node.ranges, low, end) && node.rejected == old(node.rejected)
    ensures found.Some? ==> found.value == TokensOf(LogsBetween(node.logs, low, end))
    ensures found.None? ==> node.rejected == old(node.rejected) + 1
  {
    var events := node.GetLogs(start, end);
    if events.None? {
      return None;
    }
    LogsBetweenJoin(node.logs, node.latest, low, start - 1, end);
    TokensOfJoin(LogsBetween(node.logs, low, start - 1), events.value);
    assert node.ranges[..|node.ranges| - 1] == old(node.ranges);
    var all := AddTokens(swept, events.value);
    return Some(all);
  }

  method AddTokens(swept: set<Token>, events: seq<Logged<Token>>) returns (all: set<Token>)
    ensures all == swept + TokensOf(events)
  {
    all := swept;
    for i := 0 to |events|
      invariant all == swept + TokensOf(events[..i])
    {
      assert events[..i + 1][..i] == events[..i];
      all := all + {events[i].event};
    }
    assert events[..|events|] == events;
  }
}
