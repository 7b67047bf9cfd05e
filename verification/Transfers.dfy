/** Wallet keys, notes and the hashes computed from them. */
module Wallets {
  import opened Hashing

  /** Keys of a wallet; the signing key itself carries no provable content. */
  datatype Wallet = Wallet(publicX: int, publicY: int, nullifyingKey: int)

  datatype Note = Note(npk: int, token: int, value: int, random: int)

  function Mpk(h: Hash, w: Wallet): int {
    h([w.publicX, w.publicY, w.nullifyingKey])
  }

  function ComputeNpk(h: Hash, mpk: int, random: int): int {
    h([mpk, random])
  }

  function ComputeCommitment(h: Hash, npk: int, token: int, value: int): int {
    h([npk, token, value])
  }

  function ComputeNullifier(h: Hash, nullifyingKey: int, leafIndex: nat): int {
    h([nullifyingKey, leafIndex])
  }

  function CreateNote(h: Hash, w: Wallet, token: int, value: int, random: int): Note {
    Note(ComputeNpk(h, Mpk(h, w), random), token, value, random)
  }

  function NoteCommitment(h: Hash, note: Note): int {
    ComputeCommitment(h, note.npk, note.token, note.value)
  }

  /** With an injective hash a commitment opens to one note of one wallet. */
  lemma CommitmentOpensOnce(h: Hash, v: Wallet, w: Wallet, a: Note, b: Note)
    requires Injective(h)
    requires a == CreateNote(h, v, a.token, a.value, a.random) && b == CreateNote(h, w, b.token, b.value, b.random)
    requires NoteCommitment(h, a) == NoteCommitment(h, b)
    ensures v == w && a == b
  {
    assert [a.npk, a.token, a.value] == [b.npk, b.token, b.value];
    assert a.npk == [a.npk, a.token, a.value][0] == b.npk;
    assert a.token == [a.npk, a.token, a.value][1] == b.token;
    assert a.value == [a.npk, a.token, a.value][2] == b.value;
    var p, q := [Mpk(h, v), a.random], [Mpk(h, w), b.random];
    assert p == q && p[0] == q[0] && p[1] == q[1];
    var k, l := [v.publicX, v.publicY, v.nullifyingKey], [w.publicX, w.publicY, w.nullifyingKey];
    assert k == l && k[0] == l[0] && k[1] == l[1] && k[2] == l[2];
  }

  lemma NullifierDetermines(h: Hash, k: int, i: nat, l: int, j: nat)
    requires Injective(h) && ComputeNullifier(h, k, i) == ComputeNullifier(h, l, j)
    ensures k == l && i == j
  {
    var p: seq<int>, q: seq<int> := [k, i], [l, j];
    assert p == q && p[0] == q[0] && p[1] == q[1];
  }
}

/** Building private transfers and unshields, up to the inputs handed to the circuit. */
module Transfers {
  import opened Wrappers
  import opened Hashing
  import opened MerkleSpec
  import opened MerkleTrees
  import opened Wallets

  /** A note offered for spending; the leaf index may be missing. */
  datatype InputNote = InputNote(note: Note, leafIndex: Option<nat>)

  datatype TransferError =
    | InsufficientFunds
    | MissingLeafIndex
    | LeafIndexNotFound
    | NoInputs
    | NoOutputs
    | LengthMismatch
    | MixedInputTokens
    | MixedOutputTokens
    | BalanceMismatch

  /** Public and private circuit inputs, without the bound-parameter hash and the signature. */
  datatype CircuitInputs = CircuitInputs(
    merkleRoot: int, nullifiers: seq<int>, commitmentsOut: seq<int>,
    token: int, wallet: Wallet, randomIn: seq<int>, valueIn: seq<int>,
    pathElements: seq<seq<int>>, leavesIndices: seq<nat>, npkOut: seq<int>, valueOut: seq<int>)

  /** A built transaction with the notes it creates, the unshielded one last. */
  datatype Built = Built(circuit: CircuitInputs, outputNotes: seq<Note>)

  function Sum(xs: seq<int>): int {
    if xs == [] then 0 else Sum(xs[..|xs| - 1]) + xs[|xs| - 1]
  }

  function InputValues(inputs: seq<InputNote>): (r: seq<int>)
    ensures |r| == |inputs|
  {
    seq(|inputs|, i requires 0 <= i < |inputs| => inputs[i].note.value)
  }

  function NoteValues(notes: seq<Note>): (r: seq<int>)
    ensures |r| == |notes|
  {
    seq(|notes|, i requires 0 <= i < |notes| => notes[i].value)
  }

  function BuildCircuitInputs(h: Hash, inputs: seq<InputNote>, proofs: seq<MerkleProof>, outputs: seq<Note>,
                              wallet: Wallet): (r: Result<CircuitInputs, TransferError>)
    requires forall i | 0 <= i < |inputs| :: inputs[i].leafIndex.Some?
    ensures r.Success? ==> Sum(r.value.valueIn) == Sum(r.value.valueOut)
    ensures r.Success? ==> forall i | 0 <= i < |inputs| :: inputs[i].note.token == r.value.token
    ensures r.Success? ==> forall i | 0 <= i < |outputs| :: outputs[i].token == r.value.token
  {
    if |inputs| == 0 then Failure(NoInputs)
    else if |outputs| == 0 then Failure(NoOutputs)
    else if |inputs| != |proofs| then Failure(LengthMismatch)
    else
      var token := inputs[0].note.token;
      if exists i | 0 <= i < |inputs| :: inputs[i].note.token != token then Failure(MixedInputTokens)
      else if exists i | 0 <= i < |outputs| :: outputs[i].token != token then Failure(MixedOutputTokens)
      else if Sum(InputValues(inputs)) != Sum(NoteValues(outputs)) then Failure(BalanceMismatch)
      else Success(CircuitInputs(
        proofs[0].root,
        seq(|inputs|, i requires 0 <= i < |inputs| =>
          ComputeNullifier(h, wallet.nullifyingKey, inputs[i].leafIndex.value)),
        seq(|outputs|, i requires 0 <= i < |outputs| => NoteCommitment(h, outputs[i])),
        token, wallet,
        seq(|inputs|, i requires 0 <= i < |inputs| => inputs[i].note.random),
        InputValues(inputs),
        seq(|proofs|, i requires 0 <= i < |proofs| => proofs[i].pathElements),
        seq(|inputs|, i requires 0 <= i < |inputs| => inputs[i].leafIndex.value),
        seq(|outputs|, i requires 0 <= i < |outputs| => outputs[i].npk),
        NoteValues(outputs)))
  }

  /** The tree a wallet spends from, as values: the leaves it has synced. */
  datatype Synced = Synced(h: Hash, zero: int, depth: nat, leaves: seq<int>) {
    function Root(): int {
      Node(h, zero, leaves, depth, 0)
    }

    function Proof(index: nat): MerkleProof
      requires index < |leaves|
    {
      MerkleProof(leaves[index], index, SiblingPath(h, zero, leaves, 0, index, depth), Root())
    }

    /** The proofs of the input notes in order, or the first failure. */
    function Proofs(inputs: seq<InputNote>): (r: Result<seq<MerkleProof>, TransferError>)
      ensures r.Success? <==> AllPlaced(inputs)
      ensures r.Success? ==> r.value == seq(|inputs|, i requires 0 <= i < |inputs| && AllPlaced(inputs) =>
                                              Proof(inputs[i].leafIndex.value))
      ensures r.Failure? ==> r.error == MissingLeafIndex || r.error == LeafIndexNotFound
    {
      if inputs == [] then Success([])
      else if inputs[0].leafIndex.None? then Failure(MissingLeafIndex)
      else if inputs[0].leafIndex.value >= |leaves| then Failure(LeafIndexNotFound)
      else
        var rest :- Proofs(inputs[1..]);
        Success([Proof(inputs[0].leafIndex.value)] + rest)
    }

    predicate AllPlaced(inputs: seq<InputNote>) {
      forall i | 0 <= i < |inputs| :: inputs[i].leafIndex.Some? && inputs[i].leafIndex.value < |leaves|
    }

    /** What a caller can check before asking for a transfer or an unshield. */
    predicate WellFormed(inputs: seq<InputNote>, token: int, amount: int) {
      && inputs != []
      && AllPlaced(inputs)
      && (forall i | 0 <= i < |inputs| :: inputs[i].note.token == token)
      && Sum(InputValues(inputs)) >= amount
    }

    function Build(inputs: seq<InputNote>, outputs: seq<Note>, sender: Wallet): Result<Built, TransferError> {
      var proofs :- Proofs(inputs);
      var circuit :- BuildCircuitInputs(h, inputs, proofs, outputs, sender);
      Success(Built(circuit, outputs))
    }

    /** Recipient note first, change note back to the sender only when something is left. */
    function Transfer(sender: Wallet, inputs: seq<InputNote>, recipient: Wallet, amount: int, token: int,
                      r0: int, r1: int): Result<Built, TransferError> {
      var change := Sum(InputValues(inputs)) - amount;
      if change < 0 then Failure(InsufficientFunds)
      else
        var payment := CreateNote(h, recipient, token, amount, r0);
        Build(inputs, if change > 0 then [payment, CreateNote(h, sender, token, change, r1)] else [payment], sender)
    }

    /** Change note first, even a zero one; the unshielded output is always last. */
    function Unshield(sender: Wallet, inputs: seq<InputNote>, recipient: int, amount: int, token: int,
                      r0: int): Result<Built, TransferError> {
      var change := Sum(InputValues(inputs)) - amount;
      if change < 0 then Failure(InsufficientFunds)
      else Build(inputs, [CreateNote(h, sender, token, change, r0), Note(recipient, token, amount, 0)], sender)
    }
  }

  lemma SumOfOne(x: int)
    ensures Sum([x]) == x
  {
    assert [x][..0] == [];
  }

  lemma SumOfTwo(x: int, y: int)
    ensures Sum([x, y]) == x + y
  {
    SumOfOne(x);
    assert [x, y][..1] == [x];
  }

  lemma BuildOutcome(t: Synced, inputs: seq<InputNote>, outputs: seq<Note>, sender: Wallet, token: int)
    requires outputs != [] && forall i | 0 <= i < |outputs| :: outputs[i].token == token
    requires Sum(NoteValues(outputs)) == Sum(InputValues(inputs))
    ensures t.Build(inputs, outputs, sender).Success? <==>
              && inputs != []
              && t.AllPlaced(inputs)
              && (forall i | 0 <= i < |inputs| :: inputs[i].note.token == token)
    ensures t.Build(inputs, outputs, sender).Failure? ==>
              t.Build(inputs, outputs, sender).error !in {BalanceMismatch, NoOutputs, LengthMismatch, InsufficientFunds}
  {
  }

  /** A transfer is built exactly for well-formed requests, and never fails on balance. */
  lemma TransferBuiltIffWellFormed(t: Synced, sender: Wallet, inputs: seq<InputNote>, recipient: Wallet,
                                   amount: int, token: int, r0: int, r1: int)
    ensures var r := t.Transfer(sender, inputs, recipient, amount, token, r0, r1);
            && (r.Success? <==> t.WellFormed(inputs, token, amount))
            && (r.Failure? ==> r.error !in {BalanceMismatch, NoOutputs, LengthMismatch})
  {
    var change := Sum(InputValues(inputs)) - amount;
    if change >= 0 {
      var payment := CreateNote(t.h, recipient, token, amount, r0);
      var rest := CreateNote(t.h, sender, token, change, r1);
      if change > 0 {
        assert NoteValues([payment, rest]) == [amount, change];
        SumOfTwo(amount, change);
        BuildOutcome(t, inputs, [payment, rest], sender, token);
      } else {
        assert NoteValues([payment]) == [amount];
        SumOfOne(amount);
        BuildOutcome(t, inputs, [payment], sender, token);
      }
    }
  }

  lemma UnshieldBuiltIffWellFormed(t: Synced, sender: Wallet, inputs: seq<InputNote>, recipient: int,
                                   amount: int, token: int, r0: int)
    ensures var r := t.Unshield(sender, inputs, recipient, amount, token, r0);
            && (r.Success? <==> t.WellFormed(inputs, token, amount))
            && (r.Failure? ==> r.error !in {BalanceMismatch, NoOutputs, LengthMismatch})
  {
    var change := Sum(InputValues(inputs)) - amount;
    if change >= 0 {
      var rest := CreateNote(t.h, sender, token, change, r0);
      var out := Note(recipient, token, amount, 0);
      assert NoteValues([rest, out]) == [change, amount];
      SumOfTwo(change, amount);
      BuildOutcome(t, inputs, [rest, out], sender, token);
    }
  }

  /** The synced leaves of a tree object. */
  ghost function SyncedFrom(tree: MerkleTree): Synced
    reads tree
  {
    Synced(tree.h, tree.zeroValue, tree.depth, tree.leaves)
  }

  /** Merkle proofs of the input notes, stopping at the first one that has none. */
  method InputProofs(tree: MerkleTree, inputs: seq<InputNote>) returns (r: Result<seq<MerkleProof>, TransferError>)
    requires tree.Valid()
    ensures r == SyncedFrom(tree).Proofs(inputs)
  {
    ghost var t := SyncedFrom(tree);
    var proofs: seq<MerkleProof> := [];
    assert inputs[0..] == inputs;
    assert t.Proofs(inputs).Success? ==> proofs + t.Proofs(inputs).value == t.Proofs(inputs).value;
    for i := 0 to |inputs|
      invariant t.Proofs(inputs) == match t.Proofs(inputs[i..])
                                    case Success(rest) => Success(proofs + rest)
                                    case Failure(e) => Failure(e)
    {
      assert inputs[i..][0] == inputs[i] && inputs[i..][1..] == inputs[i + 1..];
      if inputs[i].leafIndex.None? {
        return Failure(MissingLeafIndex);
      }
      var proof := tree.GetProof(inputs[i].leafIndex.value);
      if proof.Failure? {
        return Failure(LeafIndexNotFound);
      }
      ghost var before := proofs;
      proofs := proofs + [proof.value];
      assert forall rest: seq<MerkleProof> :: before + ([proof.value] + rest) == proofs + rest;
    }
    assert proofs + [] == proofs;
    return Success(proofs);
  }

  method TotalValue(inputs: seq<InputNote>) returns (total: int)
    ensures total == Sum(InputValues(inputs))
  {
    total := 0;
    for i := 0 to |inputs|
      invariant total == Sum(InputValues(inputs[..i]))
    {
      assert InputValues(inputs[..i + 1])[..i] == InputValues(inputs[..i]);
      total := total + inputs[i].note.value;
    }
    assert inputs[..|inputs|] == inputs;
  }

  /** Proofs of the inputs, then the circuit's own checks. */
  method BuildTransaction(tree: MerkleTree, inputs: seq<InputNote>, outputs: seq<Note>, sender: Wallet)
    returns (r: Result<Built, TransferError>)
    requires tree.Valid()
    ensures r == SyncedFrom(tree).Build(inputs, outputs, sender)
  {
    var proofs := InputProofs(tree, inputs);
    if proofs.Failure? {
      return Failure(proofs.error);
    }
    var circuit := BuildCircuitInputs(tree.h, inputs, proofs.value, outputs, sender);
    if circuit.Failure? {
      return Failure(circuit.error);
    }
    return Success(Built(circuit.value, outputs));
  }

  method CreateTransfer(tree: MerkleTree, sender: Wallet, inputs: seq<InputNote>, recipient: Wallet,
                        amount: int, token: int, r0: int, r1: int) returns (r: Result<Built, TransferError>)
    requires tree.Valid()
    ensures r == SyncedFrom(tree).Transfer(sender, inputs, recipient, amount, token, r0, r1)
  {
    var totalIn := TotalValue(inputs);
    if totalIn < amount {
      return Failure(InsufficientFunds);
    }
    var change := totalIn - amount;
    var recipientNote := CreateNote(tree.h, recipient, token, amount, r0);
    var outputNotes := [recipientNote];
    if change > 0 {
      var changeNote := CreateNote(tree.h, sender, token, change, r1);
      outputNotes := outputNotes + [changeNote];
      assert outputNotes == [recipientNote, changeNote];
    }
    r := BuildTransaction(tree, inputs, outputNotes, sender);
  }

  method CreateUnshield(tree: MerkleTree, sender: Wallet, inputs: seq<InputNote>, recipient: int,
                        amount: int, token: int, r0: int) returns (r: Result<Built, TransferError>)
    requires tree.Valid()
    ensures r == SyncedFrom(tree).Unshield(sender, inputs, recipient, amount, token, r0)
  {
    var totalIn := TotalValue(inputs);
    if totalIn < amount {
      return Failure(InsufficientFunds);
    }
    var changeNote := CreateNote(tree.h, sender, token, totalIn - amount, r0);
    var unshieldOutput := Note(recipient, token, amount, 0);
    var outputNotes := [changeNote];
    outputNotes := outputNotes + [unshieldOutput];
    assert outputNotes == [changeNote, unshieldOutput];
    r := BuildTransaction(tree, inputs, outputNotes, sender);
  }

  /** A note found at its own leaf, with the tree's path for it. */
  datatype Spendable = Spendable(note: Note, leafIndex: nat, pathElements: seq<int>)

  predicate AtItsLeaf(t: Synced, notes: seq<Note>, i: nat) {
    i < |notes| && i < |t.leaves| && t.leaves[i] == NoteCommitment(t.h, notes[i])
  }

  predicate IsSpendable(t: Synced, notes: seq<Note>, s: Spendable) {
    && AtItsLeaf(t, notes, s.leafIndex)
    && s.note == notes[s.leafIndex]
    && s.pathElements == t.Proof(s.leafIndex).pathElements
  }

  /** The spendable ones among the first `n` notes, in order. */
  ghost function SpendableUpTo(t: Synced, notes: seq<Note>, n: nat): seq<Spendable>
    requires n <= |notes|
  {
    if n == 0 then []
    else
      SpendableUpTo(t, notes, n - 1)
      + if AtItsLeaf(t, notes, n - 1) then [Spendable(notes[n - 1], n - 1, t.Proof(n - 1).pathElements)] else []
  }

  /** Exactly the notes whose commitment sits at the leaf of the same position, each once. */
  lemma {:induction false} SpendableAreAtTheirLeaf(t: Synced, notes: seq<Note>, n: nat, i: nat)
    requires n <= |notes|
    ensures (exists s :: s in SpendableUpTo(t, notes, n) && s.leafIndex == i) <==> i < n && AtItsLeaf(t, notes, i)
    ensures forall s | s in SpendableUpTo(t, notes, n) :: IsSpendable(t, notes, s) && s.leafIndex < n
    ensures |SpendableUpTo(t, notes, n)| <= n
  {
    if n > 0 {
      SpendableAreAtTheirLeaf(t, notes, n - 1, i);
      var front, all := SpendableUpTo(t, notes, n - 1), SpendableUpTo(t, notes, n);
      assert forall s | s in front :: s in all;
      if AtItsLeaf(t, notes, n - 1) {
        assert all[|all| - 1] in all && all[|all| - 1].leafIndex == n - 1;
      }
    }
  }

  lemma {:induction false} SpendableRise(t: Synced, notes: seq<Note>, n: nat)
    requires n <= |notes|
    ensures var found := SpendableUpTo(t, notes, n);
            forall k, l | 0 <= k < l < |found| :: found[k].leafIndex < found[l].leafIndex
  {
    if n > 0 {
      SpendableRise(t, notes, n - 1);
      SpendableAreAtTheirLeaf(t, notes, n - 1, 0);
      var front := SpendableUpTo(t, notes, n - 1);
      assert forall k | 0 <= k < |front| :: front[k] in front;
    }
  }

  method FindSpendableNotes(tree: MerkleTree, notes: seq<Note>) returns (spendable: seq<Spendable>)
    requires tree.Valid()
    ensures spendable == SpendableUpTo(SyncedFrom(tree), notes, |notes|)
  {
    ghost var t := SyncedFrom(tree);
    spendable := [];
    for i := 0 to |notes|
      invariant spendable == SpendableUpTo(t, notes, i)
    {
      if tree.GetLeaf(i) == Some(NoteCommitment(tree.h, notes[i])) {
        var proof := tree.GetProof(i);
        spendable := spendable + [Spendable(notes[i], i, proof.value.pathElements)];
      }
    }
  }
}
