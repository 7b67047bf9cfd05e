/** A pool that holds notes as Merkle leaves, with the value kept over runs of shields, transfers
    and unshields built by the wallet code. Notes carry their openings, which only their owners
    know; the pool itself decides on commitments, nullifiers and roots alone. */
module NoteLedger {
  import opened Wrappers
  import opened Hashing
  import opened MerkleSpec
  import opened Wallets
  import opened Transfers

  datatype Owned = Owned(owner: Wallet, note: Note)

  datatype Movement = Movement(token: int, value: int)

  /** One tree of the pool: its notes in leaf order, its spent nullifiers, and the sizes at which its root
      was recorded. */
  datatype Tree = Tree(notes: seq<Owned>, nullifiers: set<int>, recorded: set<nat>)

  /** The trees so far, the last one still growing, and what came in and went out. */
  datatype Pool = Pool(trees: seq<Tree>, deposits: seq<Movement>, withdrawals: seq<Movement>)

  const EMPTY_POOL := Pool([Tree([], {}, {0})], [], [])

  /** Note values are 120-bit unsigned integers. */
  const VALUE_LIMIT: int := 0x100_0000_0000_0000_0000_0000_0000_0000

  /** Addresses are 160-bit. */
  const ADDRESS_LIMIT: int := 0x1_0000_0000_0000_0000_0000_0000_0000_0000_0000_0000

  const NONE: nat := 0
  const NORMAL: nat := 1
  const REDIRECT: nat := 2

  predicate InRange(value: int) {
    0 <= value < VALUE_LIMIT
  }

  predicate AllInRange(values: seq<int>) {
    forall i | 0 <= i < |values| :: InRange(values[i])
  }

  /** What the pool lets through at a moment: everything, no pure transfers, or nothing. */
  datatype Mode = Open | WithdrawOnly | Paused

  /** How a spend is submitted: the chain and tree its request names, who sends it, and the pool's mode then. */
  datatype Submission = Submission(chainId: nat, tree: nat, caller: int, mode: Mode)

  /** A step: a deposit, or a spend built by a wallet that has synced the first `seen` leaves of a tree. */
  datatype Op =
    | Shield(owner: Wallet, token: int, value: int, random: int)
    | Transfer(sender: Wallet, inputs: seq<InputNote>, recipient: Wallet, amount: int, token: int,
               seen: nat, r0: int, r1: int, at: Submission)
    | Unshield(sender: Wallet, inputs: seq<InputNote>, payee: int, amount: int, token: int, seen: nat, r0: int,
               unshieldType: nat, adaptContract: int, at: Submission)

  datatype Preimage = Preimage(npk: int, token: int, value: int)

  /** A transaction as the pool gets it: what the proof attests, the bound parameters, how many commitments
      carry a ciphertext, and the opening of the unshielded output. */
  datatype Transaction = Transaction(
    circuit: CircuitInputs, unshieldType: nat, adaptContract: int, ciphertexts: nat, preimage: Preimage, at: Submission)

  function Leaves(h: Hash, notes: seq<Owned>): (r: seq<int>)
    ensures |r| == |notes|
  {
    seq(|notes|, i requires 0 <= i < |notes| => NoteCommitment(h, notes[i].note))
  }

  function NullifierOf(h: Hash, notes: seq<Owned>, i: nat): int
    requires i < |notes|
  {
    ComputeNullifier(h, notes[i].owner.nullifyingKey, i)
  }

  /** Mark nullifiers one after the other; a repeated one fails the whole transaction. */
  function Nullify(used: set<int>, marks: seq<int>): Option<set<int>> {
    if marks == [] then Some(used)
    else
      var last := marks[|marks| - 1];
      match Nullify(used, marks[..|marks| - 1])
      case None => None
      case Some(u) => if last in u then None else Some(u + {last})
  }

  /** The relation the zero-knowledge proof attests. */
  ghost predicate CircuitHolds(h: Hash, depth: nat, c: CircuitInputs) {
    && |c.valueIn| == |c.randomIn| == |c.pathElements| == |c.leavesIndices| == |c.nullifiers|
    && |c.valueOut| == |c.npkOut| == |c.commitmentsOut|
    && (forall j | 0 <= j < |c.valueIn| :: InputHolds(h, depth, c, j))
    && (forall j | 0 <= j < |c.valueOut| ::
          c.commitmentsOut[j] == ComputeCommitment(h, c.npkOut[j], c.token, c.valueOut[j]))
    && Sum(c.valueIn) == Sum(c.valueOut)
    && AllInRange(c.valueOut)
  }

  ghost predicate InputHolds(h: Hash, depth: nat, c: CircuitInputs, j: nat)
    requires j < |c.valueIn| == |c.randomIn| == |c.pathElements| == |c.leavesIndices| == |c.nullifiers|
  {
    var note := CreateNote(h, c.wallet, c.token, c.valueIn[j], c.randomIn[j]);
    && |c.pathElements[j]| == depth && c.leavesIndices[j] < Pow2(depth)
    && FoldPath(h, NoteCommitment(h, note), c.leavesIndices[j], c.pathElements[j]) == c.merkleRoot
    && c.nullifiers[j] == ComputeNullifier(h, c.wallet.nullifyingKey, c.leavesIndices[j])
  }

  /** The fixed parameters of a deployment: the hash, the padding, the depth of a tree, the chain, the
      (inputs, outputs) shapes with a verification key, the scalar field, and the pool's own address. */
  datatype Setting = Setting(
    h: Hash, zero: int, depth: nat, chainId: nat, shapes: set<(nat, nat)>, field: int, address: int)
  {
    /** The hash is injective, no commitment equals the padding value, and a tree has more than one leaf. */
    ghost predicate Sound() {
      Injective(h) && (forall a, b, c :: h([a, b, c]) != zero) && depth >= 1
    }

    function RootAfter(notes: seq<Owned>, k: nat): int
      requires k <= |notes|
    {
      Node(h, zero, Leaves(h, notes[..k]), depth, 0)
    }

    /** Every root recorded stays acceptable. */
    ghost predicate RootKnown(t: Tree, root: int) {
      exists k: nat :: k in t.recorded && k <= |t.notes| && RootAfter(t.notes, k) == root
    }

    /** The proof verifies: there is a key for its shape, and it attests the circuit. */
    ghost predicate Verifies(c: CircuitInputs) {
      (|c.nullifiers|, |c.commitmentsOut|) in shapes && CircuitHolds(h, depth, c)
    }

    /** The pool is not paused, and takes a transfer only when it is open. */
    predicate ModeAllows(tx: Transaction) {
      tx.at.mode != Paused && (tx.at.mode == WithdrawOnly ==> tx.unshieldType != NONE)
    }

    /** The unshielded output is well formed and the one the proof commits to last; a redirected one is
        bound to the caller. A transfer has none. */
    predicate OutputChecks(tx: Transaction) {
      var n := |tx.circuit.commitmentsOut|;
      if tx.unshieldType == NONE then tx.ciphertexts == n
      else
        && tx.unshieldType <= REDIRECT && n >= 1 && tx.ciphertexts == n - 1
        && 0 <= tx.preimage.npk < field && 0 < tx.preimage.value < VALUE_LIMIT
        && ComputeCommitment(h, if tx.unshieldType == REDIRECT then tx.at.caller else tx.preimage.npk,
                             tx.preimage.token, tx.preimage.value)
           == tx.circuit.commitmentsOut[n - 1]
        && tx.preimage.npk % ADDRESS_LIMIT != address
    }

    /** Everything the pool checks but root, proof and nullifiers. */
    predicate ParametersAllowed(tx: Transaction) {
      && ModeAllows(tx)
      && (tx.adaptContract == 0 || tx.adaptContract == tx.at.caller)
      && tx.at.chainId == chainId
      && OutputChecks(tx)
    }

    /** The pool's rule for one transaction. */
    ghost predicate Accepts(pool: Pool, tx: Transaction) {
      && ParametersAllowed(tx)
      && tx.at.tree < |pool.trees| && RootKnown(pool.trees[tx.at.tree], tx.circuit.merkleRoot)
      && Verifies(tx.circuit)
      && Nullify(pool.trees[tx.at.tree].nullifiers, tx.circuit.nullifiers).Some?
    }

    /** Append a batch to the last tree, or open a new tree for all of it when it does not fit; record
        the new root. */
    function Insert(trees: seq<Tree>, batch: seq<Owned>): seq<Tree>
      requires trees != []
    {
      var n := |trees| - 1;
      var size := |trees[n].notes| + |batch|;
      if batch == [] then trees
      else if size > Pow2(depth) then trees + [Tree(batch, {}, {|batch|})]
      else trees[..n] + [Tree(trees[n].notes + batch, trees[n].nullifiers, trees[n].recorded + {size})]
    }

    /** The trees with more nullifiers used in one of them. */
    function Mark(trees: seq<Tree>, k: nat, used: set<int>): seq<Tree>
      requires k < |trees|
    {
      trees[k := trees[k].(nullifiers := used)]
    }

    /** An accepted transaction marks its nullifiers, pays out, and appends the notes kept. */
    ghost function Transact(pool: Pool, tx: Transaction, kept: seq<Owned>, paid: seq<Movement>): Pool
      requires pool.trees != []
    {
      if Accepts(pool, tx) then
        var used := Nullify(pool.trees[tx.at.tree].nullifiers, tx.circuit.nullifiers).value;
        Pool(Insert(Mark(pool.trees, tx.at.tree, used), kept), pool.deposits, pool.withdrawals + paid)
      else pool
    }

    function Client(t: Tree, seen: nat): Synced
      requires seen <= |t.notes|
    {
      Synced(h, zero, depth, Leaves(h, t.notes[..seen]))
    }

    /** The wallet has synced that much of the tree it names. */
    predicate CanSync(pool: Pool, at: Submission, seen: nat) {
      at.tree < |pool.trees| && seen <= |pool.trees[at.tree].notes|
    }

    /** The transaction a transfer is sent as: no unshield, a ciphertext for every output. */
    function TransferTx(c: CircuitInputs, at: Submission): Transaction {
      Transaction(c, NONE, 0, |c.commitmentsOut|, Preimage(0, 0, 0), at)
    }

    /** The transaction an unshield is sent as: the last output has no ciphertext, and only a redirected one
        binds an adapt contract. */
    function UnshieldTx(c: CircuitInputs, payee: int, token: int, amount: int, unshieldType: nat, adaptContract: int,
                        at: Submission): Transaction
    {
      var outputs := |c.commitmentsOut|;
      Transaction(c, unshieldType, if unshieldType == REDIRECT then adaptContract else 0,
                  if outputs == 0 then 0 else outputs - 1, Preimage(payee, token, amount), at)
    }

    /** One step. Whatever cannot be built or is refused leaves the pool as it was. */
    ghost function Apply(pool: Pool, op: Op): (after: Pool)
      requires pool.trees != []
      ensures after.trees != []
    {
      match op
      case Shield(owner, token, value, random) =>
        if 0 < value < VALUE_LIMIT then
          Pool(Insert(pool.trees, [Owned(owner, CreateNote(h, owner, token, value, random))]),
               pool.deposits + [Movement(token, value)], pool.withdrawals)
        else pool
      case Transfer(sender, inputs, recipient, amount, token, seen, r0, r1, at) =>
        if !CanSync(pool, at, seen) then pool
        else
          var built := Client(pool.trees[at.tree], seen).Transfer(sender, inputs, recipient, amount, token, r0, r1);
          if built.Failure? then pool
          else Transact(pool, TransferTx(built.value.circuit, at), Paid(recipient, sender, built.value.outputNotes), [])
      case Unshield(sender, inputs, payee, amount, token, seen, r0, unshieldType, adaptContract, at) =>
        if !CanSync(pool, at, seen) then pool
        else
          var built := Client(pool.trees[at.tree], seen).Unshield(sender, inputs, payee, amount, token, r0);
          if built.Failure? then pool
          else
            Transact(pool, UnshieldTx(built.value.circuit, payee, token, amount, unshieldType, adaptContract, at),
                     [Owned(sender, built.value.outputNotes[0])], [Movement(token, amount)])
    }

    ghost function Run(pool: Pool, ops: seq<Op>): (after: Pool)
      requires pool.trees != []
      ensures after.trees != []
    {
      if ops == [] then pool else Apply(Run(pool, ops[..|ops| - 1]), ops[|ops| - 1])
    }

    /** Notes are well formed and every spent nullifier belongs to one of them. */
    ghost predicate TreeInv(t: Tree) {
      && |t.notes| <= Pow2(depth)
      && (forall i | 0 <= i < |t.notes| :: WellMade(h, t.notes[i]))
      && (forall i | 0 <= i < |t.notes| :: InRange(t.notes[i].note.value))
      && (forall k | k in t.recorded :: k <= |t.notes|)
      && Belong(h, t.nullifiers, t.notes)
    }

    ghost predicate AllTreesInv(trees: seq<Tree>) {
      forall k | 0 <= k < |trees| :: TreeInv(trees[k])
    }

    ghost predicate Inv(pool: Pool) {
      pool.trees != [] && AllTreesInv(pool.trees)
    }
  }

  /** Every used nullifier is that of some note. */
  ghost predicate Belong(h: Hash, used: set<int>, notes: seq<Owned>) {
    forall n | n in used :: exists i: nat :: i < |notes| && n == NullifierOf(h, notes, i)
  }

  /** The owners of a transfer's outputs: the recipient first, then the sender's change. */
  function Paid(recipient: Wallet, sender: Wallet, outputs: seq<Note>): seq<Owned>
    requires 1 <= |outputs|
  {
    if |outputs| == 2 then [Owned(recipient, outputs[0]), Owned(sender, outputs[1])]
    else [Owned(recipient, outputs[0])]
  }

  predicate WellMade(h: Hash, o: Owned) {
    o.note == CreateNote(h, o.owner, o.note.token, o.note.value, o.note.random)
  }

  function Total(ms: seq<Movement>, token: int): int {
    if ms == [] then 0
    else
      var last := ms[|ms| - 1];
      Total(ms[..|ms| - 1], token) + if last.token == token then last.value else 0
  }

  /** The value of a token in notes whose nullifier is not used. */
  function Unspent(h: Hash, notes: seq<Owned>, used: set<int>, token: int): int {
    if notes == [] then 0
    else
      var n := |notes| - 1;
      Unspent(h, notes[..n], used, token)
      + if notes[n].note.token == token && NullifierOf(h, notes, n) !in used then notes[n].note.value else 0
  }

  function Worth(o: Owned, token: int): int {
    if o.note.token == token then o.note.value else 0
  }

  /** A nullifier of a later leaf spends nothing here. */
  lemma {:induction false} LaterNullifierSpendsNothing(h: Hash, notes: seq<Owned>, used: set<int>, key: int, i: nat, token: int)
    requires Injective(h) && i >= |notes|
    ensures Unspent(h, notes, used + {ComputeNullifier(h, key, i)}, token) == Unspent(h, notes, used, token)
  {
    if notes != [] {
      var n := |notes| - 1;
      LaterNullifierSpendsNothing(h, notes[..n], used, key, i, token);
      if NullifierOf(h, notes, n) == ComputeNullifier(h, key, i) {
        NullifierDetermines(h, notes[n].owner.nullifyingKey, n, key, i);
      }
    }
  }

  /** A fresh nullifier of leaf `i` takes exactly that note's value out. */
  lemma {:induction false} NullifierSpendsItsNote(h: Hash, notes: seq<Owned>, used: set<int>, i: nat, token: int)
    requires Injective(h) && i < |notes| && NullifierOf(h, notes, i) !in used
    ensures Unspent(h, notes, used + {NullifierOf(h, notes, i)}, token) == Unspent(h, notes, used, token) - Worth(notes[i], token)
  {
    var n := |notes| - 1;
    if i == n {
      LaterNullifierSpendsNothing(h, notes[..n], used, notes[n].owner.nullifyingKey, n, token);
    } else {
      assert NullifierOf(h, notes[..n], i) == NullifierOf(h, notes, i);
      NullifierSpendsItsNote(h, notes[..n], used, i, token);
      if NullifierOf(h, notes, n) == NullifierOf(h, notes, i) {
        NullifierDetermines(h, notes[n].owner.nullifyingKey, n, notes[i].owner.nullifyingKey, i);
      }
    }
  }

  /** What the inputs of a circuit claim to be: notes of the wallet at their leaves. */
  ghost predicate InputsOwned(notes: seq<Owned>, c: CircuitInputs) {
    && |c.valueIn| == |c.leavesIndices|
    && forall j | 0 <= j < |c.valueIn| ::
         && c.leavesIndices[j] < |notes|
         && var o := notes[c.leavesIndices[j]];
            o.owner == c.wallet && o.note.token == c.token && o.note.value == c.valueIn[j]
  }

  /** Marking the first `n` nullifiers takes the first `n` input values out. */
  lemma {:induction false} NullifySpendsInputs(h: Hash, notes: seq<Owned>, used: set<int>, c: CircuitInputs, n: nat, token: int)
    requires Injective(h) && InputsOwned(notes, c) && n <= |c.valueIn| == |c.nullifiers|
    requires forall j | 0 <= j < |c.nullifiers| ::
               c.nullifiers[j] == ComputeNullifier(h, c.wallet.nullifyingKey, c.leavesIndices[j])
    requires Nullify(used, c.nullifiers[..n]).Some?
    ensures Unspent(h, notes, Nullify(used, c.nullifiers[..n]).value, token)
         == Unspent(h, notes, used, token) - if token == c.token then Sum(c.valueIn[..n]) else 0
  {
    if n > 0 {
      assert c.nullifiers[..n][..n - 1] == c.nullifiers[..n - 1] && c.valueIn[..n][..n - 1] == c.valueIn[..n - 1];
      NullifySpendsInputs(h, notes, used, c, n - 1, token);
      var u := Nullify(used, c.nullifiers[..n - 1]).value;
      assert c.nullifiers[n - 1] == NullifierOf(h, notes, c.leavesIndices[n - 1]);
      NullifierSpendsItsNote(h, notes, u, c.leavesIndices[n - 1], token);
    }
  }

  lemma {:induction false} NullifyUnion(used: set<int>, marks: seq<int>)
    requires Nullify(used, marks).Some?
    ensures Nullify(used, marks).value == used + set n | n in marks
  {
    if marks != [] {
      NullifyUnion(used, marks[..|marks| - 1]);
      assert marks == marks[..|marks| - 1] + [marks[|marks| - 1]];
    }
  }

  /** A new note is unspent: no used nullifier can belong to its leaf. */
  lemma AppendAddsWorth(h: Hash, notes: seq<Owned>, used: set<int>, o: Owned, token: int)
    requires Injective(h) && Belong(h, used, notes)
    ensures Unspent(h, notes + [o], used, token) == Unspent(h, notes, used, token) + Worth(o, token)
    ensures Belong(h, used, notes + [o])
  {
    var all := notes + [o];
    assert all[..|notes|] == notes;
    if NullifierOf(h, all, |notes|) in used {
      var i: nat :| i < |notes| && NullifierOf(h, all, |notes|) == NullifierOf(h, notes, i);
      NullifierDetermines(h, o.owner.nullifyingKey, |notes|, notes[i].owner.nullifyingKey, i);
    }
    forall n | n in used ensures exists i: nat :: i < |all| && n == NullifierOf(h, all, i) {
      var i: nat :| i < |notes| && n == NullifierOf(h, notes, i);
      assert n == NullifierOf(h, all, i);
    }
  }

  function WorthAll(os: seq<Owned>, token: int): int {
    if os == [] then 0 else WorthAll(os[..|os| - 1], token) + Worth(os[|os| - 1], token)
  }

  lemma {:induction false} AppendAllAddsWorth(h: Hash, notes: seq<Owned>, used: set<int>, more: seq<Owned>, token: int)
    requires Injective(h) && Belong(h, used, notes)
    ensures Unspent(h, notes + more, used, token) == Unspent(h, notes, used, token) + WorthAll(more, token)
    ensures Belong(h, used, notes + more)
  {
    if more == [] {
      assert notes + more == notes;
    } else {
      var front, last := more[..|more| - 1], more[|more| - 1];
      AppendAllAddsWorth(h, notes, used, front, token);
      AppendAddsWorth(h, notes + front, used, last, token);
      assert notes + front + [last] == notes + more;
    }
  }

  /** A circuit accepted against any past root spends notes its wallet owns, at their true value. */
  lemma AcceptedInputsAreOwned(s: Setting, t: Tree, c: CircuitInputs)
    requires s.Sound() && s.TreeInv(t) && CircuitHolds(s.h, s.depth, c) && s.RootKnown(t, c.merkleRoot)
    ensures InputsOwned(t.notes, c)
  {
    var k: nat :| k in t.recorded && k <= |t.notes| && s.RootAfter(t.notes, k) == c.merkleRoot;
    forall j | 0 <= j < |c.valueIn|
      ensures c.leavesIndices[j] < k
      ensures var o := t.notes[c.leavesIndices[j]];
              o.owner == c.wallet && o.note.token == c.token && o.note.value == c.valueIn[j]
    {
      assert InputHolds(s.h, s.depth, c, j);
      var note := CreateNote(s.h, c.wallet, c.token, c.valueIn[j], c.randomIn[j]);
      var i := c.leavesIndices[j];
      var leaves := Leaves(s.h, t.notes[..k]);
      AcceptedProofCarriesLeaf(s.h, s.zero, leaves, NoteCommitment(s.h, note), i, c.pathElements[j]);
      assert NoteCommitment(s.h, note) == PaddedLeaf(s.zero, leaves, i) != s.zero;
      var o := t.notes[i];
      assert WellMade(s.h, o);
      CommitmentOpensOnce(s.h, c.wallet, o.owner, note, o.note);
    }
  }

  lemma {:induction false} TotalAppend(ms: seq<Movement>, m: Movement, token: int)
    ensures Total(ms + [m], token) == Total(ms, token) + if m.token == token then m.value else 0
  {
    assert (ms + [m])[..|ms|] == ms;
  }

  /** Marking the nullifiers of an accepted circuit takes its inputs' value out of the t. */
  lemma AcceptedNullifiersSpend(s: Setting, t: Tree, c: CircuitInputs, token: int)
    requires s.Sound() && s.TreeInv(t) && CircuitHolds(s.h, s.depth, c) && s.RootKnown(t, c.merkleRoot)
    requires Nullify(t.nullifiers, c.nullifiers).Some?
    ensures var used := Nullify(t.nullifiers, c.nullifiers).value;
            && Belong(s.h, used, t.notes)
            && Unspent(s.h, t.notes, used, token)
               == Unspent(s.h, t.notes, t.nullifiers, token) - if token == c.token then Sum(c.valueIn) else 0
  {
    AcceptedInputsAreOwned(s, t, c);
    forall j | 0 <= j < |c.nullifiers|
      ensures c.nullifiers[j] == ComputeNullifier(s.h, c.wallet.nullifyingKey, c.leavesIndices[j])
    {
      assert InputHolds(s.h, s.depth, c, j);
    }
    var n := |c.valueIn|;
    assert c.nullifiers[..n] == c.nullifiers && c.valueIn[..n] == c.valueIn;
    NullifySpendsInputs(s.h, t.notes, t.nullifiers, c, n, token);
    NullifyUnion(t.nullifiers, c.nullifiers);
    forall x | x in Nullify(t.nullifiers, c.nullifiers).value
      ensures exists i: nat :: i < |t.notes| && x == NullifierOf(s.h, t.notes, i)
    {
      if x !in t.nullifiers {
        var j :| 0 <= j < |c.nullifiers| && c.nullifiers[j] == x;
        assert x == NullifierOf(s.h, t.notes, c.leavesIndices[j]);
      }
    }
  }

  /** The value of a token in unspent notes of all trees. */
  function UnspentAll(h: Hash, trees: seq<Tree>, token: int): int {
    if trees == [] then 0
    else
      var last := trees[|trees| - 1];
      UnspentAll(h, trees[..|trees| - 1], token) + Unspent(h, last.notes, last.nullifiers, token)
  }

  /** All notes, tree by tree. */
  function AllNotes(trees: seq<Tree>): seq<Owned> {
    if trees == [] then [] else AllNotes(trees[..|trees| - 1]) + trees[|trees| - 1].notes
  }

  lemma {:induction false} MarkChangesOneTree(s: Setting, trees: seq<Tree>, k: nat, used: set<int>, token: int)
    requires k < |trees|
    ensures UnspentAll(s.h, s.Mark(trees, k, used), token)
         == UnspentAll(s.h, trees, token) - Unspent(s.h, trees[k].notes, trees[k].nullifiers, token)
            + Unspent(s.h, trees[k].notes, used, token)
    ensures AllNotes(s.Mark(trees, k, used)) == AllNotes(trees)
  {
    var n, marked := |trees| - 1, s.Mark(trees, k, used);
    if k == n {
      assert marked[..n] == trees[..n];
    } else {
      assert marked[..n] == s.Mark(trees[..n], k, used) && marked[n] == trees[n];
      MarkChangesOneTree(s, trees[..n], k, used, token);
    }
  }

  lemma PairFits(depth: nat)
    requires depth >= 1
    ensures Pow2(depth) >= 2
  {
    if depth > 1 {
      PairFits(depth - 1);
    }
  }

  /** A batch in a new tree adds its worth. */
  lemma NewTreeAddsWorth(s: Setting, trees: seq<Tree>, batch: seq<Owned>, token: int)
    requires s.Sound() && s.AllTreesInv(trees) && |batch| <= Pow2(s.depth)
    requires forall i | 0 <= i < |batch| :: WellMade(s.h, batch[i]) && InRange(batch[i].note.value)
    ensures var after := trees + [Tree(batch, {}, {|batch|})];
            && s.AllTreesInv(after)
            && UnspentAll(s.h, after, token) == UnspentAll(s.h, trees, token) + WorthAll(batch, token)
            && AllNotes(after) == AllNotes(trees) + batch
  {
    var after := trees + [Tree(batch, {}, {|batch|})];
    assert after[..|after| - 1] == trees;
    AppendAllAddsWorth(s.h, [], {}, batch, token);
    assert [] + batch == batch;
    assert s.TreeInv(after[|trees|]);
  }

  /** A batch that fits the last tree adds its worth there. */
  lemma LastTreeAddsWorth(s: Setting, front: seq<Tree>, last: Tree, batch: seq<Owned>, token: int)
    requires s.Sound() && s.AllTreesInv(front) && s.TreeInv(last) && |last.notes| + |batch| <= Pow2(s.depth)
    requires forall i | 0 <= i < |batch| :: WellMade(s.h, batch[i]) && InRange(batch[i].note.value)
    ensures var before, grown := front + [last],
                                 Tree(last.notes + batch, last.nullifiers, last.recorded + {|last.notes| + |batch|});
            && s.AllTreesInv(front + [grown])
            && UnspentAll(s.h, front + [grown], token) == UnspentAll(s.h, before, token) + WorthAll(batch, token)
            && AllNotes(front + [grown]) == AllNotes(before) + batch
  {
    var grown := Tree(last.notes + batch, last.nullifiers, last.recorded + {|last.notes| + |batch|});
    assert (front + [grown])[..|front|] == front && (front + [last])[..|front|] == front;
    AppendAllAddsWorth(s.h, last.notes, last.nullifiers, batch, token);
    assert AllNotes(front) + (last.notes + batch) == AllNotes(front) + last.notes + batch;
    assert s.TreeInv(grown);
  }

  lemma FrontAndLast(s: Setting, trees: seq<Tree>)
    requires trees != [] && s.AllTreesInv(trees)
    ensures s.AllTreesInv(trees[..|trees| - 1]) && s.TreeInv(trees[|trees| - 1])
    ensures trees[..|trees| - 1] + [trees[|trees| - 1]] == trees
  {
  }

  /** New notes, no more than fit a tree, add their worth, in a new tree or the last one. */
  lemma InsertAddsWorth(s: Setting, trees: seq<Tree>, batch: seq<Owned>, token: int)
    requires s.Sound() && trees != [] && s.AllTreesInv(trees) && |batch| <= Pow2(s.depth)
    requires forall i | 0 <= i < |batch| :: WellMade(s.h, batch[i]) && InRange(batch[i].note.value)
    ensures s.AllTreesInv(s.Insert(trees, batch))
    ensures UnspentAll(s.h, s.Insert(trees, batch), token) == UnspentAll(s.h, trees, token) + WorthAll(batch, token)
    ensures AllNotes(s.Insert(trees, batch)) == AllNotes(trees) + batch
  {
    var front, last := trees[..|trees| - 1], trees[|trees| - 1];
    if batch == [] {
      assert AllNotes(trees) + batch == AllNotes(trees);
    } else if |last.notes| + |batch| > Pow2(s.depth) {
      NewTreeAddsWorth(s, trees, batch, token);
    } else {
      FrontAndLast(s, trees);
      LastTreeAddsWorth(s, front, last, batch, token);
    }
  }

  /** An accepted transaction moves its inputs' value to the notes it keeps. */
  lemma TransactMovesValue(s: Setting, pool: Pool, tx: Transaction, kept: seq<Owned>, paid: seq<Movement>, token: int)
    requires s.Sound() && s.Inv(pool) && s.Accepts(pool, tx) && |kept| <= 2
    requires forall i | 0 <= i < |kept| :: WellMade(s.h, kept[i]) && InRange(kept[i].note.value)
    ensures var after := s.Transact(pool, tx, kept, paid);
            && s.Inv(after)
            && UnspentAll(s.h, after.trees, token)
               == UnspentAll(s.h, pool.trees, token)
                  - (if token == tx.circuit.token then Sum(tx.circuit.valueIn) else 0)
                  + WorthAll(kept, token)
            && AllNotes(after.trees) == AllNotes(pool.trees) + kept
  {
    var k := tx.at.tree;
    var t := pool.trees[k];
    assert s.TreeInv(t);
    var used := Nullify(t.nullifiers, tx.circuit.nullifiers).value;
    AcceptedNullifiersSpend(s, t, tx.circuit, token);
    MarkChangesOneTree(s, pool.trees, k, used, token);
    assert s.TreeInv(t.(nullifiers := used));
    PairFits(s.depth);
    InsertAddsWorth(s, s.Mark(pool.trees, k, used), kept, token);
  }

  /** When all kept notes are in the circuit's token, they are worth the sum of their values. */
  lemma {:induction false} WorthIsSum(os: seq<Owned>, values: seq<int>, spent: int, token: int)
    requires |os| == |values| && forall i | 0 <= i < |os| :: os[i].note.token == spent && os[i].note.value == values[i]
    ensures WorthAll(os, token) == if token == spent then Sum(values) else 0
  {
    if os != [] {
      WorthIsSum(os[..|os| - 1], values[..|os| - 1], spent, token);
    }
  }

  ghost predicate Conserved(h: Hash, pool: Pool, token: int) {
    UnspentAll(h, pool.trees, token) == Total(pool.deposits, token) - Total(pool.withdrawals, token)
  }

  lemma ShieldConserves(s: Setting, pool: Pool, op: Op, token: int)
    requires s.Sound() && s.Inv(pool) && Conserved(s.h, pool, token) && op.Shield?
    ensures s.Inv(s.Apply(pool, op)) && Conserved(s.h, s.Apply(pool, op), token)
  {
    if 0 < op.value < VALUE_LIMIT {
      var o := Owned(op.owner, CreateNote(s.h, op.owner, op.token, op.value, op.random));
      PairFits(s.depth);
      InsertAddsWorth(s, pool.trees, [o], token);
      assert [o][..0] == [];
      assert WorthAll([o], token) == Worth(o, token);
      TotalAppend(pool.deposits, Movement(op.token, op.value), token);
    }
  }

  lemma BuiltTransferShape(t: Synced, sender: Wallet, inputs: seq<InputNote>, recipient: Wallet,
                           amount: int, token: int, r0: int, r1: int)
    requires t.Transfer(sender, inputs, recipient, amount, token, r0, r1).Success?
    ensures var b := t.Transfer(sender, inputs, recipient, amount, token, r0, r1).value;
            var os := Paid(recipient, sender, b.outputNotes);
            && |os| == |b.circuit.valueOut|
            && forall i | 0 <= i < |os| ::
                 WellMade(t.h, os[i]) && os[i].note.token == b.circuit.token && os[i].note.value == b.circuit.valueOut[i]
  {
  }

  lemma TransferConserves(s: Setting, pool: Pool, op: Op, token: int)
    requires s.Sound() && s.Inv(pool) && Conserved(s.h, pool, token) && op.Transfer?
    ensures s.Inv(s.Apply(pool, op)) && Conserved(s.h, s.Apply(pool, op), token)
  {
    if s.CanSync(pool, op.at, op.seen) {
      var t := s.Client(pool.trees[op.at.tree], op.seen);
      var built := t.Transfer(op.sender, op.inputs, op.recipient, op.amount, op.token, op.r0, op.r1);
      if built.Success? {
        BuiltTransferShape(t, op.sender, op.inputs, op.recipient, op.amount, op.token, op.r0, op.r1);
        TransferBuilds(t, op.sender, op.inputs, op.recipient, op.amount, op.token, op.r0, op.r1);
        TransferApplies(s, pool, op);
        PaidTransferConserves(s, pool, s.TransferTx(built.value.circuit, op.at),
                              TransferNotes(s.h, op.sender, op.inputs, op.recipient, op.amount, op.token, op.r0, op.r1), token);
      }
    }
  }

  lemma PaidTransferConserves(s: Setting, pool: Pool, tx: Transaction, kept: seq<Owned>, token: int)
    requires s.Sound() && s.Inv(pool) && Conserved(s.h, pool, token)
    requires |kept| == |tx.circuit.valueOut| <= 2 && forall i | 0 <= i < |kept| ::
               WellMade(s.h, kept[i]) && kept[i].note.token == tx.circuit.token && kept[i].note.value == tx.circuit.valueOut[i]
    ensures s.Inv(s.Transact(pool, tx, kept, [])) && Conserved(s.h, s.Transact(pool, tx, kept, []), token)
  {
    if s.Accepts(pool, tx) {
      WorthIsSum(kept, tx.circuit.valueOut, tx.circuit.token, token);
      TransactMovesValue(s, pool, tx, kept, [], token);
      assert pool.withdrawals + [] == pool.withdrawals;
    }
  }

  lemma BuiltUnshieldShape(t: Synced, sender: Wallet, inputs: seq<InputNote>, payee: int, amount: int, token: int, r0: int)
    requires t.Unshield(sender, inputs, payee, amount, token, r0).Success?
    ensures var b := t.Unshield(sender, inputs, payee, amount, token, r0).value;
            && |b.outputNotes| == 2
            && WellMade(t.h, Owned(sender, b.outputNotes[0]))
            && b.outputNotes[0].token == b.circuit.token == token
            && b.circuit.valueOut == [b.outputNotes[0].value, amount]
  {
  }

  lemma UnshieldConserves(s: Setting, pool: Pool, op: Op, token: int)
    requires s.Sound() && s.Inv(pool) && Conserved(s.h, pool, token) && op.Unshield?
    ensures s.Inv(s.Apply(pool, op)) && Conserved(s.h, s.Apply(pool, op), token)
  {
    if s.CanSync(pool, op.at, op.seen) {
      var t := s.Client(pool.trees[op.at.tree], op.seen);
      var built := t.Unshield(op.sender, op.inputs, op.payee, op.amount, op.token, op.r0);
      if built.Success? {
        BuiltUnshieldShape(t, op.sender, op.inputs, op.payee, op.amount, op.token, op.r0);
        PaidUnshieldConserves(
          s, pool, s.UnshieldTx(built.value.circuit, op.payee, op.token, op.amount, op.unshieldType, op.adaptContract, op.at),
          Owned(op.sender, built.value.outputNotes[0]), Movement(op.token, op.amount), token);
      }
    }
  }

  lemma PaidUnshieldConserves(s: Setting, pool: Pool, tx: Transaction, change: Owned, paid: Movement, token: int)
    requires s.Sound() && s.Inv(pool) && Conserved(s.h, pool, token)
    requires WellMade(s.h, change) && change.note.token == tx.circuit.token == paid.token
    requires tx.circuit.valueOut == [change.note.value, paid.value]
    ensures s.Inv(s.Transact(pool, tx, [change], [paid])) && Conserved(s.h, s.Transact(pool, tx, [change], [paid]), token)
  {
    if s.Accepts(pool, tx) {
      assert InRange(tx.circuit.valueOut[0]);
      SumOfOne(change.note.value);
      SumOfTwo(change.note.value, paid.value);
      WorthIsSum([change], [change.note.value], tx.circuit.token, token);
      TransactMovesValue(s, pool, tx, [change], [paid], token);
      TotalAppend(pool.withdrawals, paid, token);
    }
  }

  /** Over every run, for every token: unspent value is what came in minus what went out. */
  lemma {:induction false} RunConservesValue(s: Setting, ops: seq<Op>, token: int)
    requires s.Sound()
    ensures var pool := s.Run(EMPTY_POOL, ops);
            && s.Inv(pool)
            && UnspentAll(s.h, pool.trees, token) == Total(pool.deposits, token) - Total(pool.withdrawals, token)
  {
    if ops == [] {
      assert EMPTY_POOL.trees[..0] == [];
    } else {
      var before, op := s.Run(EMPTY_POOL, ops[..|ops| - 1]), ops[|ops| - 1];
      RunConservesValue(s, ops[..|ops| - 1], token);
      assert Conserved(s.h, before, token);
      match op {
        case Shield(_, _, _, _) => ShieldConserves(s, before, op, token);
        case Transfer(_, _, _, _, _, _, _, _, _) => TransferConserves(s, before, op, token);
        case Unshield(_, _, _, _, _, _, _, _, _, _) => UnshieldConserves(s, before, op, token);
      }
    }
  }

  lemma {:induction false} UnspentIsNotNegative(h: Hash, notes: seq<Owned>, used: set<int>, token: int)
    requires forall i | 0 <= i < |notes| :: InRange(notes[i].note.value)
    ensures Unspent(h, notes, used, token) >= 0
  {
    if notes != [] {
      UnspentIsNotNegative(h, notes[..|notes| - 1], used, token);
    }
  }

  lemma {:induction false} UnspentAllIsNotNegative(s: Setting, trees: seq<Tree>, token: int)
    requires s.AllTreesInv(trees)
    ensures UnspentAll(s.h, trees, token) >= 0
  {
    if trees != [] {
      var n := |trees| - 1;
      assert s.TreeInv(trees[n]);
      UnspentAllIsNotNegative(s, trees[..n], token);
      UnspentIsNotNegative(s.h, trees[n].notes, trees[n].nullifiers, token);
    }
  }

  /** Over every run, for every token: no more goes out than came in. */
  lemma WithdrawalsAreCovered(s: Setting, ops: seq<Op>, token: int)
    requires s.Sound()
    ensures var pool := s.Run(EMPTY_POOL, ops);
            Total(pool.withdrawals, token) <= Total(pool.deposits, token)
  {
    RunConservesValue(s, ops, token);
    UnspentAllIsNotNegative(s, s.Run(EMPTY_POOL, ops).trees, token);
  }

  predicate Distinct(xs: seq<int>) {
    forall i, j | 0 <= i < j < |xs| :: xs[i] != xs[j]
  }

  lemma {:induction false} NullifySucceedsIff(used: set<int>, marks: seq<int>)
    ensures Nullify(used, marks).Some? <==> Distinct(marks) && forall i | 0 <= i < |marks| :: marks[i] !in used
  {
    if marks != [] {
      var front, last := marks[..|marks| - 1], marks[|marks| - 1];
      NullifySucceedsIff(used, front);
      if Nullify(used, front).Some? {
        NullifyUnion(used, front);
        if last in front {
          var i :| 0 <= i < |front| && front[i] == last;
          assert marks[i] == marks[|marks| - 1];
        }
      }
    }
  }

  /** The inputs are the sender's own notes, taken from leaves it has synced. */
  ghost predicate OwnInputs(t: Tree, sender: Wallet, inputs: seq<InputNote>, seen: nat) {
    && seen <= |t.notes|
    && forall j | 0 <= j < |inputs| ::
         && inputs[j].leafIndex.Some? && inputs[j].leafIndex.value < seen
         && t.notes[inputs[j].leafIndex.value] == Owned(sender, inputs[j].note)
  }

  /** No leaf is offered twice and none is spent. */
  ghost predicate UnspentInputs(h: Hash, t: Tree, sender: Wallet, inputs: seq<InputNote>)
    requires forall j | 0 <= j < |inputs| :: inputs[j].leafIndex.Some?
  {
    && (forall i, j | 0 <= i < j < |inputs| :: inputs[i].leafIndex.value != inputs[j].leafIndex.value)
    && (forall j | 0 <= j < |inputs| ::
          ComputeNullifier(h, sender.nullifyingKey, inputs[j].leafIndex.value) !in t.nullifiers)
  }

  /** The circuit built from a wallet's own notes holds exactly when the output values are in range. */
  lemma OwnCircuitHoldsIff(s: Setting, t: Tree, sender: Wallet, inputs: seq<InputNote>, outputs: seq<Note>, seen: nat)
    requires s.TreeInv(t) && OwnInputs(t, sender, inputs, seen)
    requires s.Client(t, seen).Build(inputs, outputs, sender).Success?
    ensures var c := s.Client(t, seen).Build(inputs, outputs, sender).value.circuit;
            && (CircuitHolds(s.h, s.depth, c) <==> AllInRange(NoteValues(outputs)))
            && c.merkleRoot == s.RootAfter(t.notes, seen)
  {
    var client := s.Client(t, seen);
    var c := client.Build(inputs, outputs, sender).value.circuit;
    assert s.RootAfter(t.notes, seen) == client.Root() == c.merkleRoot;
    assert c.valueOut == NoteValues(outputs);
    forall j | 0 <= j < |c.valueIn| ensures InputHolds(s.h, s.depth, c, j) {
      var i := inputs[j].leafIndex.value;
      var o := t.notes[i];
      assert WellMade(s.h, o);
      ProofOfLeafFolds(s.h, s.zero, client.leaves, s.depth, i);
    }
  }

  /** Trees of different sizes have different roots: a commitment is never the padding. */
  lemma RootsDiffer(s: Setting, t: Tree, k: nat, l: nat)
    requires s.Sound() && s.TreeInv(t) && k < l <= |t.notes|
    ensures s.RootAfter(t.notes, k) != s.RootAfter(t.notes, l)
  {
    var a, b := Leaves(s.h, t.notes[..k]), Leaves(s.h, t.notes[..l]);
    assert PaddedLeaf(s.zero, a, k) == s.zero && PaddedLeaf(s.zero, b, k) == NoteCommitment(s.h, t.notes[k].note) != s.zero;
    if s.RootAfter(t.notes, k) == s.RootAfter(t.notes, l) {
      RootDeterminesLeaves(s.h, s.zero, a, b, s.depth, k);
    }
  }

  /** A wallet's root is known exactly when the wallet stopped syncing where a root was recorded,
      that is, at the end of a transaction. */
  lemma RootKnownIff(s: Setting, t: Tree, seen: nat)
    requires s.Sound() && s.TreeInv(t) && seen <= |t.notes|
    ensures s.RootKnown(t, s.RootAfter(t.notes, seen)) <==> seen in t.recorded
  {
    if s.RootKnown(t, s.RootAfter(t.notes, seen)) {
      var k: nat :| k in t.recorded && k <= |t.notes| && s.RootAfter(t.notes, k) == s.RootAfter(t.notes, seen);
      if k < seen {
        RootsDiffer(s, t, k, seen);
      } else if seen < k {
        RootsDiffer(s, t, seen, k);
      }
    }
  }

  /** Distinct leaves of one wallet have distinct nullifiers, so the pool takes exactly unspent,
      distinct inputs. */
  lemma OwnNullifiersAccepted(s: Setting, t: Tree, sender: Wallet, inputs: seq<InputNote>, c: CircuitInputs)
    requires Injective(s.h)
    requires forall j | 0 <= j < |inputs| :: inputs[j].leafIndex.Some?
    requires |c.nullifiers| == |inputs|
    requires forall j | 0 <= j < |inputs| ::
               c.nullifiers[j] == ComputeNullifier(s.h, sender.nullifyingKey, inputs[j].leafIndex.value)
    ensures Nullify(t.nullifiers, c.nullifiers).Some? <==> UnspentInputs(s.h, t, sender, inputs)
  {
    NullifySucceedsIff(t.nullifiers, c.nullifiers);
    var key := sender.nullifyingKey;
    forall i, j | 0 <= i < j < |inputs|
      ensures c.nullifiers[i] == c.nullifiers[j] <==> inputs[i].leafIndex.value == inputs[j].leafIndex.value
    {
      if c.nullifiers[i] == c.nullifiers[j] {
        NullifierDetermines(s.h, key, inputs[i].leafIndex.value, key, inputs[j].leafIndex.value);
      }
    }
  }

  /** The inputs' nullifiers are all marked. */
  ghost predicate Spent(h: Hash, used: set<int>, sender: Wallet, inputs: seq<InputNote>)
    requires forall j | 0 <= j < |inputs| :: inputs[j].leafIndex.Some?
  {
    forall j | 0 <= j < |inputs| :: ComputeNullifier(h, sender.nullifyingKey, inputs[j].leafIndex.value) in used
  }

  lemma AcceptedInputsAreSpent(s: Setting, t: Tree, c: CircuitInputs, sender: Wallet, inputs: seq<InputNote>)
    requires forall j | 0 <= j < |inputs| :: inputs[j].leafIndex.Some?
    requires Nullify(t.nullifiers, c.nullifiers).Some? && |c.nullifiers| == |inputs|
    requires forall j | 0 <= j < |inputs| ::
               c.nullifiers[j] == ComputeNullifier(s.h, sender.nullifyingKey, inputs[j].leafIndex.value)
    ensures Spent(s.h, Nullify(t.nullifiers, c.nullifiers).value, sender, inputs)
  {
    NullifyUnion(t.nullifiers, c.nullifiers);
    forall j | 0 <= j < |inputs|
      ensures ComputeNullifier(s.h, sender.nullifyingKey, inputs[j].leafIndex.value) in Nullify(t.nullifiers, c.nullifiers).value
    {
      assert c.nullifiers[j] in c.nullifiers;
    }
  }

  /** The built circuit of a wallet's own notes, its proof and its nullifiers, in terms a caller can check:
      a key for its shape, whole transactions synced, output values in range, distinct and unspent notes. */
  ghost predicate Spendable(s: Setting, t: Tree, sender: Wallet, inputs: seq<InputNote>, outputs: seq<Note>, seen: nat)
    requires forall j | 0 <= j < |inputs| :: inputs[j].leafIndex.Some?
  {
    && (|inputs|, |outputs|) in s.shapes
    && seen in t.recorded
    && AllInRange(NoteValues(outputs))
    && UnspentInputs(s.h, t, sender, inputs)
  }

  /** The pool's checks of root, proof and nullifiers pass for exactly these spends. */
  lemma OwnCircuitAcceptedIff(s: Setting, t: Tree, sender: Wallet, inputs: seq<InputNote>, outputs: seq<Note>, seen: nat)
    requires s.Sound() && s.TreeInv(t) && OwnInputs(t, sender, inputs, seen)
    requires s.Client(t, seen).Build(inputs, outputs, sender).Success?
    ensures var c := s.Client(t, seen).Build(inputs, outputs, sender).value.circuit;
            && (s.RootKnown(t, c.merkleRoot) && s.Verifies(c) && Nullify(t.nullifiers, c.nullifiers).Some?
                <==> Spendable(s, t, sender, inputs, outputs, seen))
            && |c.nullifiers| == |inputs|
            && forall j | 0 <= j < |inputs| ::
                 c.nullifiers[j] == ComputeNullifier(s.h, sender.nullifyingKey, inputs[j].leafIndex.value)
  {
    var c := s.Client(t, seen).Build(inputs, outputs, sender).value.circuit;
    OwnCircuitHoldsIff(s, t, sender, inputs, outputs, seen);
    RootKnownIff(s, t, seen);
    OwnNullifiersAccepted(s, t, sender, inputs, c);
  }

  /** A spend that goes through keeps and pays what was asked and never takes its inputs again; one that
      does not changes nothing. */
  ghost predicate Taken(h: Hash, pool: Pool, after: Pool, tree: nat, sender: Wallet, inputs: seq<InputNote>,
                        kept: seq<Owned>, paid: seq<Movement>, goesThrough: bool)
    requires forall j | 0 <= j < |inputs| :: inputs[j].leafIndex.Some?
  {
    if goesThrough then
      && AllNotes(after.trees) == AllNotes(pool.trees) + kept
      && after.deposits == pool.deposits && after.withdrawals == pool.withdrawals + paid
      && tree < |after.trees| && Spent(h, after.trees[tree].nullifiers, sender, inputs)
    else after == pool
  }

  /** The trees that were there keep their nullifiers through an insertion. */
  lemma InsertKeepsNullifiers(s: Setting, trees: seq<Tree>, batch: seq<Owned>, k: nat)
    requires k < |trees|
    ensures k < |s.Insert(trees, batch)| && s.Insert(trees, batch)[k].nullifiers == trees[k].nullifiers
  {
  }

  lemma OwnSpendIff(s: Setting, pool: Pool, tx: Transaction, sender: Wallet, inputs: seq<InputNote>, outputs: seq<Note>,
                    seen: nat, kept: seq<Owned>, paid: seq<Movement>)
    requires s.Sound() && s.Inv(pool) && s.CanSync(pool, tx.at, seen) && OwnInputs(pool.trees[tx.at.tree], sender, inputs, seen)
    requires s.Client(pool.trees[tx.at.tree], seen).Build(inputs, outputs, sender).Success?
    requires tx.circuit == s.Client(pool.trees[tx.at.tree], seen).Build(inputs, outputs, sender).value.circuit
    requires |kept| <= 2 && forall i | 0 <= i < |kept| :: WellMade(s.h, kept[i])
    requires AllInRange(NoteValues(outputs)) ==> forall i | 0 <= i < |kept| :: InRange(kept[i].note.value)
    ensures Taken(s.h, pool, s.Transact(pool, tx, kept, paid), tx.at.tree, sender, inputs, kept, paid,
                  s.ParametersAllowed(tx) && Spendable(s, pool.trees[tx.at.tree], sender, inputs, outputs, seen))
  {
    var k := tx.at.tree;
    var t := pool.trees[k];
    assert s.TreeInv(t);
    OwnCircuitAcceptedIff(s, t, sender, inputs, outputs, seen);
    if s.Accepts(pool, tx) {
      var used := Nullify(t.nullifiers, tx.circuit.nullifiers).value;
      AcceptedInputsAreSpent(s, t, tx.circuit, sender, inputs);
      TransactMovesValue(s, pool, tx, kept, paid, 0);
      InsertKeepsNullifiers(s, s.Mark(pool.trees, k, used), kept, k);
    }
  }

  /** The notes a transfer leaves in the pool: the recipient's, and the sender's change if anything is left. */
  function TransferNotes(h: Hash, sender: Wallet, inputs: seq<InputNote>, recipient: Wallet, amount: int, token: int,
                         r0: int, r1: int): seq<Owned>
  {
    var change := Sum(InputValues(inputs)) - amount;
    [Owned(recipient, CreateNote(h, recipient, token, amount, r0))]
    + (if change > 0 then [Owned(sender, CreateNote(h, sender, token, change, r1))] else [])
  }

  lemma TransferBuilds(t: Synced, sender: Wallet, inputs: seq<InputNote>, recipient: Wallet, amount: int, token: int,
                       r0: int, r1: int)
    requires t.Transfer(sender, inputs, recipient, amount, token, r0, r1).Success?
    ensures var b := t.Transfer(sender, inputs, recipient, amount, token, r0, r1);
            && b == t.Build(inputs, b.value.outputNotes, sender)
            && Paid(recipient, sender, b.value.outputNotes) == TransferNotes(t.h, sender, inputs, recipient, amount, token, r0, r1)
  {
  }

  lemma TransferApplies(s: Setting, pool: Pool, op: Op)
    requires op.Transfer? && pool.trees != [] && s.CanSync(pool, op.at, op.seen)
    requires s.Client(pool.trees[op.at.tree], op.seen)
              .Transfer(op.sender, op.inputs, op.recipient, op.amount, op.token, op.r0, op.r1).Success?
    ensures var b := s.Client(pool.trees[op.at.tree], op.seen)
                      .Transfer(op.sender, op.inputs, op.recipient, op.amount, op.token, op.r0, op.r1);
            s.Apply(pool, op)
            == s.Transact(pool, s.TransferTx(b.value.circuit, op.at),
                          TransferNotes(s.h, op.sender, op.inputs, op.recipient, op.amount, op.token, op.r0, op.r1), [])
  {
    TransferBuilds(s.Client(pool.trees[op.at.tree], op.seen), op.sender, op.inputs, op.recipient, op.amount, op.token, op.r0, op.r1);
  }

  /** A transfer, once built, goes through exactly when: the pool is open and the request names its chain; there
      is a key for the shape; the wallet synced whole transactions; the notes are distinct and unspent; amount
      and change are in range. */
  ghost predicate TransferGoesThrough(s: Setting, pool: Pool, op: Op)
    requires op.Transfer? && op.at.tree < |pool.trees| && forall j | 0 <= j < |op.inputs| :: op.inputs[j].leafIndex.Some?
  {
    var t, change := pool.trees[op.at.tree], Sum(InputValues(op.inputs)) - op.amount;
    && op.at.mode == Open && op.at.chainId == s.chainId
    && (|op.inputs|, if change > 0 then 2 else 1) in s.shapes
    && op.seen in t.recorded
    && UnspentInputs(s.h, t, op.sender, op.inputs)
    && InRange(op.amount) && InRange(change)
  }

  lemma TransferOutputs(t: Synced, op: Op)
    requires op.Transfer? && t.Transfer(op.sender, op.inputs, op.recipient, op.amount, op.token, op.r0, op.r1).Success?
    ensures var b, change := t.Transfer(op.sender, op.inputs, op.recipient, op.amount, op.token, op.r0, op.r1).value,
                             Sum(InputValues(op.inputs)) - op.amount;
            && change >= 0
            && |b.outputNotes| == |b.circuit.commitmentsOut| == (if change > 0 then 2 else 1)
            && b.circuit.valueOut == NoteValues(b.outputNotes)
            && NoteValues(b.outputNotes) == if change > 0 then [op.amount, change] else [op.amount]
  {
  }

  lemma TransferGoesThroughIff(s: Setting, pool: Pool, op: Op, outputs: seq<Note>, c: CircuitInputs)
    requires op.Transfer? && op.at.tree < |pool.trees| && forall j | 0 <= j < |op.inputs| :: op.inputs[j].leafIndex.Some?
    requires Sum(InputValues(op.inputs)) >= op.amount
    requires |outputs| == |c.commitmentsOut| == if Sum(InputValues(op.inputs)) > op.amount then 2 else 1
    requires var change := Sum(InputValues(op.inputs)) - op.amount;
             NoteValues(outputs) == if change > 0 then [op.amount, change] else [op.amount]
    ensures s.ParametersAllowed(s.TransferTx(c, op.at))
            && Spendable(s, pool.trees[op.at.tree], op.sender, op.inputs, outputs, op.seen)
            <==> TransferGoesThrough(s, pool, op)
  {
    TwoInRange(op.amount, Sum(InputValues(op.inputs)) - op.amount);
  }

  lemma TransferNotesAreGood(h: Hash, op: Op)
    requires op.Transfer?
    ensures var kept, change := TransferNotes(h, op.sender, op.inputs, op.recipient, op.amount, op.token, op.r0, op.r1),
                                Sum(InputValues(op.inputs)) - op.amount;
            && |kept| <= 2 && (forall i | 0 <= i < |kept| :: WellMade(h, kept[i]))
            && (AllInRange(if change > 0 then [op.amount, change] else [op.amount]) ==>
                  forall i | 0 <= i < |kept| :: InRange(kept[i].note.value))
  {
    TwoInRange(op.amount, Sum(InputValues(op.inputs)) - op.amount);
  }

  /** A well-formed transfer of a wallet's own notes goes through exactly under that condition. Then the
      recipient holds the amount, the sender what is left, if anything, nothing has left the pool, and the
      inputs can never be spent again. */
  lemma OwnTransferAcceptedIff(s: Setting, pool: Pool, op: Op)
    requires s.Sound() && s.Inv(pool) && op.Transfer? && s.CanSync(pool, op.at, op.seen)
    requires OwnInputs(pool.trees[op.at.tree], op.sender, op.inputs, op.seen)
    requires s.Client(pool.trees[op.at.tree], op.seen).WellFormed(op.inputs, op.token, op.amount)
    ensures Taken(s.h, pool, s.Apply(pool, op), op.at.tree, op.sender, op.inputs,
                  TransferNotes(s.h, op.sender, op.inputs, op.recipient, op.amount, op.token, op.r0, op.r1), [],
                  TransferGoesThrough(s, pool, op))
  {
    var t := s.Client(pool.trees[op.at.tree], op.seen);
    TransferBuiltIffWellFormed(t, op.sender, op.inputs, op.recipient, op.amount, op.token, op.r0, op.r1);
    TransferBuilds(t, op.sender, op.inputs, op.recipient, op.amount, op.token, op.r0, op.r1);
    TransferApplies(s, pool, op);
    TransferOutputs(t, op);
    var b := t.Transfer(op.sender, op.inputs, op.recipient, op.amount, op.token, op.r0, op.r1).value;
    TransferGoesThroughIff(s, pool, op, b.outputNotes, b.circuit);
    TransferNotesAreGood(s.h, op);
    OwnSpendIff(s, pool, s.TransferTx(b.circuit, op.at), op.sender, op.inputs, b.outputNotes, op.seen,
                TransferNotes(s.h, op.sender, op.inputs, op.recipient, op.amount, op.token, op.r0, op.r1), []);
  }

  lemma TwoInRange(a: int, b: int)
    ensures AllInRange([a, b]) <==> InRange(a) && InRange(b)
    ensures AllInRange([a]) <==> InRange(a)
  {
    assert [a, b][0] == a && [a, b][1] == b && [a][0] == a;
  }

  /** A negative amount is built, as an amount below the inputs' total, and then refused. */
  lemma NegativeTransferIsRefused(s: Setting, pool: Pool, op: Op)
    requires op.Transfer? && pool.trees != [] && s.CanSync(pool, op.at, op.seen) && op.amount < 0
    requires s.Client(pool.trees[op.at.tree], op.seen).WellFormed(op.inputs, op.token, op.amount)
    ensures s.Client(pool.trees[op.at.tree], op.seen)
             .Transfer(op.sender, op.inputs, op.recipient, op.amount, op.token, op.r0, op.r1).Success?
    ensures s.Apply(pool, op) == pool
  {
    var t := s.Client(pool.trees[op.at.tree], op.seen);
    TransferBuiltIffWellFormed(t, op.sender, op.inputs, op.recipient, op.amount, op.token, op.r0, op.r1);
    TransferApplies(s, pool, op);
    TransferOutputs(t, op);
    TwoInRange(op.amount, Sum(InputValues(op.inputs)) - op.amount);
  }

  /** A spend of a shape without a key is built and then refused, whatever its notes. */
  lemma UnregisteredTransferIsRefused(s: Setting, pool: Pool, op: Op)
    requires op.Transfer? && pool.trees != [] && s.CanSync(pool, op.at, op.seen)
    requires s.Client(pool.trees[op.at.tree], op.seen).WellFormed(op.inputs, op.token, op.amount)
    requires (|op.inputs|, if Sum(InputValues(op.inputs)) > op.amount then 2 else 1) !in s.shapes
    ensures s.Client(pool.trees[op.at.tree], op.seen)
             .Transfer(op.sender, op.inputs, op.recipient, op.amount, op.token, op.r0, op.r1).Success?
    ensures s.Apply(pool, op) == pool
  {
    var t := s.Client(pool.trees[op.at.tree], op.seen);
    TransferBuiltIffWellFormed(t, op.sender, op.inputs, op.recipient, op.amount, op.token, op.r0, op.r1);
    TransferApplies(s, pool, op);
    TransferOutputs(t, op);
  }

  /** The change note an unshield leaves in the pool, a zero one too. */
  function UnshieldChange(h: Hash, sender: Wallet, inputs: seq<InputNote>, amount: int, token: int, r0: int): seq<Owned> {
    [Owned(sender, CreateNote(h, sender, token, Sum(InputValues(inputs)) - amount, r0))]
  }

  /** What an unshield is built of: two commitments, the payee's last. */
  lemma UnshieldBuilds(t: Synced, op: Op)
    requires op.Unshield? && t.Unshield(op.sender, op.inputs, op.payee, op.amount, op.token, op.r0).Success?
    ensures var b, change := t.Unshield(op.sender, op.inputs, op.payee, op.amount, op.token, op.r0),
                             Sum(InputValues(op.inputs)) - op.amount;
            && b == t.Build(op.inputs, b.value.outputNotes, op.sender)
            && |b.value.outputNotes| == |b.value.circuit.commitmentsOut| == 2
            && b.value.circuit.commitmentsOut[1] == ComputeCommitment(t.h, op.payee, op.token, op.amount)
            && b.value.circuit.valueOut == NoteValues(b.value.outputNotes) == [change, op.amount]
            && [Owned(op.sender, b.value.outputNotes[0])]
               == UnshieldChange(t.h, op.sender, op.inputs, op.amount, op.token, op.r0)
  {
  }

  /** The transaction of a built unshield. */
  function UnshieldOf(s: Setting, c: CircuitInputs, op: Op): Transaction
    requires op.Unshield?
  {
    s.UnshieldTx(c, op.payee, op.token, op.amount, op.unshieldType, op.adaptContract, op.at)
  }

  lemma UnshieldApplies(s: Setting, pool: Pool, op: Op)
    requires op.Unshield? && pool.trees != [] && s.CanSync(pool, op.at, op.seen)
    requires s.Client(pool.trees[op.at.tree], op.seen)
              .Unshield(op.sender, op.inputs, op.payee, op.amount, op.token, op.r0).Success?
    ensures var b := s.Client(pool.trees[op.at.tree], op.seen)
                      .Unshield(op.sender, op.inputs, op.payee, op.amount, op.token, op.r0);
            s.Apply(pool, op)
            == s.Transact(pool, UnshieldOf(s, b.value.circuit, op),
                          UnshieldChange(s.h, op.sender, op.inputs, op.amount, op.token, op.r0), [Movement(op.token, op.amount)])
  {
    UnshieldBuilds(s.Client(pool.trees[op.at.tree], op.seen), op);
  }

  /** The payee of an unshield: a field element that is not the pool, and for a redirected one the caller. */
  predicate PayeeAllowed(s: Setting, op: Op)
    requires op.Unshield?
  {
    && 0 <= op.payee < s.field && op.payee % ADDRESS_LIMIT != s.address
    && (op.unshieldType == NORMAL
        || (op.unshieldType == REDIRECT && op.payee == op.at.caller
            && (op.adaptContract == 0 || op.adaptContract == op.at.caller)))
  }

  /** The condition for an unshield: the pool is not paused, the amount is positive, the payee allowed. */
  ghost predicate UnshieldGoesThrough(s: Setting, pool: Pool, op: Op)
    requires op.Unshield? && op.at.tree < |pool.trees| && forall j | 0 <= j < |op.inputs| :: op.inputs[j].leafIndex.Some?
  {
    var t := pool.trees[op.at.tree];
    && op.at.mode != Paused && op.at.chainId == s.chainId
    && (|op.inputs|, 2) in s.shapes
    && op.seen in t.recorded
    && UnspentInputs(s.h, t, op.sender, op.inputs)
    && 0 < op.amount < VALUE_LIMIT && InRange(Sum(InputValues(op.inputs)) - op.amount)
    && PayeeAllowed(s, op)
  }

  /** The pool's checks of the bound parameters and the output, for a built unshield. */
  lemma UnshieldChecksIff(s: Setting, c: CircuitInputs, op: Op)
    requires s.Sound() && op.Unshield? && |c.commitmentsOut| == 2
    requires c.commitmentsOut[1] == ComputeCommitment(s.h, op.payee, op.token, op.amount)
    ensures var tx := UnshieldOf(s, c, op);
            s.ParametersAllowed(tx)
            <==> op.at.mode != Paused && op.at.chainId == s.chainId && 0 < op.amount < VALUE_LIMIT && PayeeAllowed(s, op)
  {
    if ComputeCommitment(s.h, op.at.caller, op.token, op.amount) == ComputeCommitment(s.h, op.payee, op.token, op.amount) {
      SameCommitment(s.h, op.at.caller, op.payee, op.token, op.amount);
    }
  }

  lemma SameCommitment(h: Hash, a: int, b: int, token: int, value: int)
    requires Injective(h) && ComputeCommitment(h, a, token, value) == ComputeCommitment(h, b, token, value)
    ensures a == b
  {
    assert [a, token, value] == [b, token, value];
    assert [a, token, value][0] == [b, token, value][0];
  }

  lemma UnshieldGoesThroughIff(s: Setting, pool: Pool, op: Op, outputs: seq<Note>, c: CircuitInputs)
    requires s.Sound() && op.Unshield? && op.at.tree < |pool.trees|
    requires forall j | 0 <= j < |op.inputs| :: op.inputs[j].leafIndex.Some?
    requires |outputs| == |c.commitmentsOut| == 2 && NoteValues(outputs) == [Sum(InputValues(op.inputs)) - op.amount, op.amount]
    requires c.commitmentsOut[1] == ComputeCommitment(s.h, op.payee, op.token, op.amount)
    ensures s.ParametersAllowed(UnshieldOf(s, c, op))
            && Spendable(s, pool.trees[op.at.tree], op.sender, op.inputs, outputs, op.seen)
            <==> UnshieldGoesThrough(s, pool, op)
  {
    UnshieldChecksIff(s, c, op);
    TwoInRange(Sum(InputValues(op.inputs)) - op.amount, op.amount);
  }

  /** The same for an unshield: the sender keeps the change, a zero one too, and the amount leaves the pool. */
  lemma OwnUnshieldAcceptedIff(s: Setting, pool: Pool, op: Op)
    requires s.Sound() && s.Inv(pool) && op.Unshield? && s.CanSync(pool, op.at, op.seen)
    requires OwnInputs(pool.trees[op.at.tree], op.sender, op.inputs, op.seen)
    requires s.Client(pool.trees[op.at.tree], op.seen).WellFormed(op.inputs, op.token, op.amount)
    ensures Taken(s.h, pool, s.Apply(pool, op), op.at.tree, op.sender, op.inputs,
                  UnshieldChange(s.h, op.sender, op.inputs, op.amount, op.token, op.r0), [Movement(op.token, op.amount)],
                  UnshieldGoesThrough(s, pool, op))
  {
    var t := s.Client(pool.trees[op.at.tree], op.seen);
    UnshieldBuiltIffWellFormed(t, op.sender, op.inputs, op.payee, op.amount, op.token, op.r0);
    UnshieldBuilds(t, op);
    UnshieldApplies(s, pool, op);
    var b := t.Unshield(op.sender, op.inputs, op.payee, op.amount, op.token, op.r0).value;
    UnshieldGoesThroughIff(s, pool, op, b.outputNotes, b.circuit);
    UnshieldChangeIsGood(s.h, op, b.outputNotes);
    var tx := UnshieldOf(s, b.circuit, op);
    assert tx.circuit == b.circuit && tx.at == op.at;
    OwnSpendIff(s, pool, tx, op.sender, op.inputs, b.outputNotes, op.seen,
                UnshieldChange(s.h, op.sender, op.inputs, op.amount, op.token, op.r0), [Movement(op.token, op.amount)]);
  }

  lemma UnshieldChangeIsGood(h: Hash, op: Op, outputs: seq<Note>)
    requires op.Unshield? && NoteValues(outputs) == [Sum(InputValues(op.inputs)) - op.amount, op.amount]
    ensures var kept := UnshieldChange(h, op.sender, op.inputs, op.amount, op.token, op.r0);
            && |kept| <= 2 && (forall i | 0 <= i < |kept| :: WellMade(h, kept[i]))
            && (AllInRange(NoteValues(outputs)) ==> forall i | 0 <= i < |kept| :: InRange(kept[i].note.value))
  {
    TwoInRange(Sum(InputValues(op.inputs)) - op.amount, op.amount);
  }

  /** An unshield of nothing, or of less, is built and then refused, whatever its inputs. */
  lemma EmptyUnshieldIsRefused(s: Setting, pool: Pool, op: Op)
    requires op.Unshield? && pool.trees != [] && s.CanSync(pool, op.at, op.seen) && op.amount <= 0
    requires s.Client(pool.trees[op.at.tree], op.seen).WellFormed(op.inputs, op.token, op.amount)
    ensures s.Client(pool.trees[op.at.tree], op.seen)
             .Unshield(op.sender, op.inputs, op.payee, op.amount, op.token, op.r0).Success?
    ensures s.Apply(pool, op) == pool
  {
    var t := s.Client(pool.trees[op.at.tree], op.seen);
    UnshieldBuiltIffWellFormed(t, op.sender, op.inputs, op.payee, op.amount, op.token, op.r0);
    UnshieldBuilds(t, op);
    UnshieldApplies(s, pool, op);
  }

  /** So is one of a shape without a key. */
  lemma UnregisteredUnshieldIsRefused(s: Setting, pool: Pool, op: Op)
    requires op.Unshield? && pool.trees != [] && s.CanSync(pool, op.at, op.seen)
    requires s.Client(pool.trees[op.at.tree], op.seen).WellFormed(op.inputs, op.token, op.amount)
    requires (|op.inputs|, 2) !in s.shapes
    ensures s.Client(pool.trees[op.at.tree], op.seen)
             .Unshield(op.sender, op.inputs, op.payee, op.amount, op.token, op.r0).Success?
    ensures s.Apply(pool, op) == pool
  {
    var t := s.Client(pool.trees[op.at.tree], op.seen);
    UnshieldBuiltIffWellFormed(t, op.sender, op.inputs, op.payee, op.amount, op.token, op.r0);
    UnshieldBuilds(t, op);
    UnshieldApplies(s, pool, op);
  }

  /** The shapes the deployment registers. */
  const REGISTERED_SHAPES: set<(nat, nat)> :=
    {(1, 1), (1, 2), (2, 2), (2, 3), (8, 4),
     (2, 1), (3, 1), (4, 1), (5, 1), (6, 1), (7, 1), (8, 1),
     (3, 2), (4, 2), (5, 2), (6, 2),
     (1, 3), (3, 3), (4, 3)}

  /** With these, a spend with two outputs takes one to six notes, and one with a single output one to eight. */
  lemma RegisteredInputCounts(inputs: nat)
    ensures (inputs, 2) in REGISTERED_SHAPES <==> 1 <= inputs <= 6
    ensures (inputs, 1) in REGISTERED_SHAPES <==> 1 <= inputs <= 8
  {
  }

  /** So with these an unshield of more than six notes is built and then refused. */
  lemma TooManyNotesAreRefused(s: Setting, pool: Pool, op: Op)
    requires op.Unshield? && pool.trees != [] && s.CanSync(pool, op.at, op.seen)
    requires s.Client(pool.trees[op.at.tree], op.seen).WellFormed(op.inputs, op.token, op.amount)
    requires s.shapes == REGISTERED_SHAPES && |op.inputs| > 6
    ensures s.Client(pool.trees[op.at.tree], op.seen)
             .Unshield(op.sender, op.inputs, op.payee, op.amount, op.token, op.r0).Success?
    ensures s.Apply(pool, op) == pool
  {
    RegisteredInputCounts(|op.inputs|);
    UnregisteredUnshieldIsRefused(s, pool, op);
  }
}
