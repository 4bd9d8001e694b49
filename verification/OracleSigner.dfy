/**
  The distributor oracle's signing protocol: what OracleServer.signTransaction
  (packages/distributor-oracle/src/server.ts) accepts, and the transaction that
  formTransaction (packages/distributor-oracle/src/client.ts) asks it to sign.

  Coders, address derivation, the database and the RPC endpoint are parameters.
 */
module OracleSigner {
  import opened Common

  type PublicKey = string
  type Bytes = seq<int>

  /** A decoded instruction; Unlisted stands for every other name either program has. */
  datatype Call =
    | SetCurrentRewardsV0(currentRewards: nat)
    | SetCurrentRewardsWrapperV0(currentRewards: nat)
    | SetCurrentRewardsWrapperV1(currentRewards: nat)
    | DistributeRewardsV0
    | DistributeCompressionRewardsV0
    | DistributeCustomDestinationV0
    | InitializeRecipientV0
    | InitializeCompressionRecipientV0(index: nat)
    | Unlisted(name: string)
  {
    predicate SetsRewards() {
      SetCurrentRewardsV0? || SetCurrentRewardsWrapperV0? || SetCurrentRewardsWrapperV1?
    }
  }

  datatype Instruction = Instruction(programIdIndex: nat, accountKeyIndexes: seq<nat>, data: Bytes)

  /** The message with its lookup tables resolved: all account keys, the fee payer first. */
  datatype Transaction = Transaction(accounts: seq<PublicKey>, instructions: seq<Instruction>)

  /** The oracle server and everything it asks.  None from a lookup that may throw means it throws. */
  datatype Oracle = Oracle(
    key: PublicKey,
    lazyDistributor: PublicKey,
    dao: PublicKey,
    willPayRecipient: bool,
    computeBudgetPid: PublicKey,
    ldPid: PublicKey,
    roPid: PublicKey,
    decodeLd: Bytes -> Option<Call>,
    decodeRo: Bytes -> Option<Call>,
    leafAssetId: (PublicKey, nat) -> PublicKey,
    entityKeyOf: PublicKey -> Option<Bytes>,             // keyToAssetV0.fetch(...).entityKey
    serializationOf: PublicKey -> Option<string>,        // keyToAssetV0.fetch(...).keySerialization
    keyToAssetKey: (PublicKey, Bytes) -> PublicKey,
    decodeEntityKey: (Bytes, string) -> Option<string>,
    recipientAsset: PublicKey -> Option<PublicKey>,      // recipientV0.fetchNullable(...)?.asset
    rewardsByEntity: string -> nat,                      // db.getCurrentRewardsByEntity
    rewardsByAsset: PublicKey -> Option<nat>)            // db.getCurrentRewards

  datatype Outcome = Signed | Refused(message: string) | Threw

  // Account positions in the IDLs; both reward wrappers share one layout.
  const PAYER := 0
  const LAZY_DISTRIBUTOR := 1
  const RECIPIENT := 2
  const MINT := 3            // initializeRecipientV0
  const MERKLE_TREE := 3     // initializeCompressionRecipientV0
  const ORACLE := 3          // setCurrentRewardsV0
  const WRAPPER_ORACLE := 0
  const KEY_TO_ASSET := 3    // setCurrentRewardsWrapperV0 and V1

  function ProgramOf(tx: Transaction, ix: Instruction): Option<PublicKey> {
    if ix.programIdIndex < |tx.accounts| then Some(tx.accounts[ix.programIdIndex]) else None
  }

  /** The account in a given position of an instruction, undefined when out of range. */
  function AccountAt(tx: Transaction, ix: Instruction, position: nat): Option<PublicKey> {
    if position < |ix.accountKeyIndexes| && ix.accountKeyIndexes[position] < |tx.accounts|
    then Some(tx.accounts[ix.accountKeyIndexes[position]]) else None
  }

  function Decoded(o: Oracle, tx: Transaction, ix: Instruction): Option<Call> {
    var program := ProgramOf(tx, ix);
    if program == Some(o.ldPid) then o.decodeLd(ix.data)
    else if program == Some(o.roPid) then o.decodeRo(ix.data)
    else None
  }

  predicate IsComputeBudget(o: Oracle, tx: Transaction, ix: Instruction) {
    ProgramOf(tx, ix) == Some(o.computeBudgetPid)
  }

  // ---------------------------------------------------------------------------------------------
  // What the signer promises
  // ---------------------------------------------------------------------------------------------

  /** One of the eight allowed calls on one of the two programs, with the accounts the signer reads. */
  predicate CallAllowed(o: Oracle, tx: Transaction, ix: Instruction) {
    var call := Decoded(o, tx, ix);
    && call.Some? && !call.value.Unlisted?
    && (call.value.InitializeRecipientV0? ==>
          AccountAt(tx, ix, RECIPIENT).Some? && AccountAt(tx, ix, LAZY_DISTRIBUTOR).Some?)
    && (call.value.InitializeCompressionRecipientV0? ==>
          && AccountAt(tx, ix, RECIPIENT).Some? && AccountAt(tx, ix, LAZY_DISTRIBUTOR).Some?
          && AccountAt(tx, ix, MERKLE_TREE).Some? && AccountAt(tx, ix, PAYER).Some?
          && (o.willPayRecipient || AccountAt(tx, ix, PAYER).value != o.key))
  }

  predicate InstructionAllowed(o: Oracle, tx: Transaction, ix: Instruction) {
    IsComputeBudget(o, tx, ix) || CallAllowed(o, tx, ix)
  }

  predicate SetsRewards(o: Oracle, tx: Transaction, ix: Instruction) {
    !IsComputeBudget(o, tx, ix) && Decoded(o, tx, ix).Some? && Decoded(o, tx, ix).value.SetsRewards()
  }

  /** Does this instruction create the given recipient of the given lazy distributor? */
  predicate Initializes(o: Oracle, tx: Transaction, ix: Instruction, recipient: PublicKey, lazyDist: PublicKey) {
    && !IsComputeBudget(o, tx, ix)
    && Decoded(o, tx, ix).Some?
    && (Decoded(o, tx, ix).value.InitializeRecipientV0? || Decoded(o, tx, ix).value.InitializeCompressionRecipientV0?)
    && AccountAt(tx, ix, RECIPIENT) == Some(recipient)
    && AccountAt(tx, ix, LAZY_DISTRIBUTOR) == Some(lazyDist)
  }

  function InitializedAsset(o: Oracle, tx: Transaction, ix: Instruction): Option<PublicKey>
    requires Decoded(o, tx, ix).Some?
  {
    match Decoded(o, tx, ix).value
    case InitializeCompressionRecipientV0(index) =>
      if AccountAt(tx, ix, MERKLE_TREE).Some?
      then Some(o.leafAssetId(AccountAt(tx, ix, MERKLE_TREE).value, index)) else None
    case _ => AccountAt(tx, ix, MINT)
  }

  /** The asset the last of the first n instructions that creates this recipient binds it to. */
  function BoundInTx(o: Oracle, tx: Transaction, recipient: PublicKey, lazyDist: PublicKey, n: nat): Option<PublicKey>
    requires n <= |tx.instructions|
  {
    if n == 0 then None
    else if Initializes(o, tx, tx.instructions[n - 1], recipient, lazyDist) then
      InitializedAsset(o, tx, tx.instructions[n - 1])
    else BoundInTx(o, tx, recipient, lazyDist, n - 1)
  }

  /** The asset a recipient stands for: bound in this transaction, or else on chain. */
  function BoundAsset(o: Oracle, tx: Transaction, recipient: PublicKey): Option<PublicKey> {
    var bound := BoundInTx(o, tx, recipient, o.lazyDistributor, |tx.instructions|);
    if bound.Some? then bound else o.recipientAsset(recipient)
  }

  /** A wrapped set-rewards call that names this oracle. */
  predicate IsWrapped(o: Oracle, tx: Transaction, ix: Instruction) {
    AccountAt(tx, ix, WRAPPER_ORACLE) == Some(o.key) && ProgramOf(tx, ix) == Some(o.roPid)
  }

  /** A direct set-rewards call that names this oracle. */
  predicate IsDirect(o: Oracle, tx: Transaction, ix: Instruction) {
    AccountAt(tx, ix, ORACLE) == Some(o.key) && ProgramOf(tx, ix) == Some(o.ldPid)
  }

  /** The name of the entity a key-to-asset account is for, provided the account's address checks out. */
  function EntityOf(o: Oracle, keyToAsset: PublicKey): Option<string> {
    var entityKey, serialization := o.entityKeyOf(keyToAsset), o.serializationOf(keyToAsset);
    if entityKey.Some? && serialization.Some? && o.keyToAssetKey(o.dao, entityKey.value) == keyToAsset
    then o.decodeEntityKey(entityKey.value, serialization.value) else None
  }

  /** What the database credits to the entity or asset a set-rewards instruction is bound to. */
  function CreditedAmount(o: Oracle, tx: Transaction, ix: Instruction): Option<nat> {
    var recipient := AccountAt(tx, ix, RECIPIENT);
    if recipient.None? || BoundAsset(o, tx, recipient.value).None? then None
    else if IsWrapped(o, tx, ix) then
      var keyToAsset := AccountAt(tx, ix, KEY_TO_ASSET);
      if keyToAsset.None? || EntityOf(o, keyToAsset.value).None? then None
      else Some(o.rewardsByEntity(EntityOf(o, keyToAsset.value).value))
    else o.rewardsByAsset(BoundAsset(o, tx, recipient.value).value)
  }

  /** Names this oracle and this lazy distributor and proposes at most the credited amount. */
  predicate SetAllowed(o: Oracle, tx: Transaction, ix: Instruction)
    requires SetsRewards(o, tx, ix)
  {
    && AccountAt(tx, ix, WRAPPER_ORACLE).Some?
    && (IsWrapped(o, tx, ix) || IsDirect(o, tx, ix))
    && AccountAt(tx, ix, LAZY_DISTRIBUTOR) == Some(o.lazyDistributor)
    && CreditedAmount(o, tx, ix).Some?
    && Decoded(o, tx, ix).value.currentRewards <= CreditedAmount(o, tx, ix).value
  }

  ghost predicate Acceptable(o: Oracle, tx: Transaction) {
    && (forall i :: 0 <= i < |tx.instructions| ==> InstructionAllowed(o, tx, tx.instructions[i]))
    && (forall i :: 0 <= i < |tx.instructions| && SetsRewards(o, tx, tx.instructions[i]) ==>
          SetAllowed(o, tx, tx.instructions[i]))
    && (tx.accounts == [] || tx.accounts[0] != o.key)
  }

  // What a signature means, spelled out: account positions are those of the calls' own layouts.

  predicate IsListed(call: Call) {
    || call.SetCurrentRewardsV0? || call.SetCurrentRewardsWrapperV0? || call.SetCurrentRewardsWrapperV1?
    || call.DistributeRewardsV0? || call.DistributeCompressionRewardsV0? || call.DistributeCustomDestinationV0?
    || call.InitializeRecipientV0? || call.InitializeCompressionRecipientV0?
  }

  /** The amount a call proposes, if it is one of the three that set rewards. */
  function ProposedBy(call: Call): Option<nat> {
    match call
    case SetCurrentRewardsV0(amount) => Some(amount)
    case SetCurrentRewardsWrapperV0(amount) => Some(amount)
    case SetCurrentRewardsWrapperV1(amount) => Some(amount)
    case _ => None
  }

  /** A wrapped call: oracle, lazy distributor, recipient, key-to-asset. */
  ghost predicate WrappedCovers(o: Oracle, tx: Transaction, ix: Instruction, amount: nat) {
    && AccountAt(tx, ix, 0) == Some(o.key) && AccountAt(tx, ix, 1) == Some(o.lazyDistributor)
    && AccountAt(tx, ix, 2).Some? && AccountAt(tx, ix, 3).Some?
    && var keyToAsset := AccountAt(tx, ix, 3).value;
    && o.entityKeyOf(keyToAsset).Some? && o.serializationOf(keyToAsset).Some?
    && o.keyToAssetKey(o.dao, o.entityKeyOf(keyToAsset).value) == keyToAsset
    && var entity := o.decodeEntityKey(o.entityKeyOf(keyToAsset).value, o.serializationOf(keyToAsset).value);
    && entity.Some? && amount <= o.rewardsByEntity(entity.value)
  }

  /** A direct call: payer, lazy distributor, recipient, oracle. */
  ghost predicate DirectCovers(o: Oracle, tx: Transaction, ix: Instruction, amount: nat) {
    && AccountAt(tx, ix, 3) == Some(o.key) && AccountAt(tx, ix, 1) == Some(o.lazyDistributor)
    && AccountAt(tx, ix, 2).Some?
    && exists asset :: StandsFor(o, tx, AccountAt(tx, ix, 2).value, asset)
         && o.rewardsByAsset(asset).Some? && amount <= o.rewardsByAsset(asset).value
  }

  /** The last instruction that creates the recipient binds it to this asset, or, with none, the chain does. */
  ghost predicate StandsFor(o: Oracle, tx: Transaction, recipient: PublicKey, asset: PublicKey) {
    || (exists k: nat :: CreatesFor(o, tx, k, recipient, asset))
    || ((forall k: nat, other :: !CreatesFor(o, tx, k, recipient, other)) && o.recipientAsset(recipient) == Some(asset))
  }

  ghost predicate CreatesFor(o: Oracle, tx: Transaction, k: nat, recipient: PublicKey, asset: PublicKey) {
    && k < |tx.instructions|
    && Creates(o, tx, tx.instructions[k], recipient)
    && InitializedAsset(o, tx, tx.instructions[k]) == Some(asset)
    && forall i :: k < i < |tx.instructions| ==> !Creates(o, tx, tx.instructions[i], recipient)
  }

  ghost predicate Creates(o: Oracle, tx: Transaction, ix: Instruction, recipient: PublicKey) {
    Initializes(o, tx, ix, recipient, o.lazyDistributor)
  }

  lemma {:induction false} BoundBySome(o: Oracle, tx: Transaction, r: PublicKey, d: PublicKey, n: nat) returns (k: nat)
    requires n <= |tx.instructions| && BoundInTx(o, tx, r, d, n).Some?
    ensures k < n && Initializes(o, tx, tx.instructions[k], r, d)
    ensures InitializedAsset(o, tx, tx.instructions[k]) == BoundInTx(o, tx, r, d, n)
    ensures forall i :: k < i < n ==> !Initializes(o, tx, tx.instructions[i], r, d)
  {
    if Initializes(o, tx, tx.instructions[n - 1], r, d) {
      k := n - 1;
    } else {
      k := BoundBySome(o, tx, r, d, n - 1);
    }
  }

  lemma BoundStandsFor(o: Oracle, tx: Transaction, recipient: PublicKey)
    requires BoundAsset(o, tx, recipient).Some?
    ensures StandsFor(o, tx, recipient, BoundAsset(o, tx, recipient).value)
  {
    var n := |tx.instructions|;
    var bound := BoundInTx(o, tx, recipient, o.lazyDistributor, n);
    if bound.Some? {
      var k := BoundBySome(o, tx, recipient, o.lazyDistributor, n);
      assert CreatesFor(o, tx, k, recipient, bound.value);
    } else {
      forall k: nat, other
        ensures !CreatesFor(o, tx, k, recipient, other)
      {
        if CreatesFor(o, tx, k, recipient, other) {
          forall i | k < i < n
            ensures !Initializes(o, tx, tx.instructions[i], recipient, o.lazyDistributor)
          {
            assert !Creates(o, tx, tx.instructions[i], recipient);
          }
          BoundOnceInitialized(o, tx, recipient, o.lazyDistributor, k, n);
        }
      }
    }
  }

  /** What holds of one instruction of a signed transaction. */
  ghost predicate Vetted(o: Oracle, tx: Transaction, ix: Instruction) {
    var program := ProgramOf(tx, ix);
    || program == Some(o.computeBudgetPid)
    || (&& (program == Some(o.ldPid) || program == Some(o.roPid))
        && var call := if program == Some(o.ldPid) then o.decodeLd(ix.data) else o.decodeRo(ix.data);
        && call.Some? && IsListed(call.value)
        && (call.value.InitializeCompressionRecipientV0? && AccountAt(tx, ix, 0) == Some(o.key) ==> o.willPayRecipient)
        && (ProposedBy(call.value).Some? ==>
              if program == Some(o.ldPid) then DirectCovers(o, tx, ix, ProposedBy(call.value).value)
              else WrappedCovers(o, tx, ix, ProposedBy(call.value).value)))
  }

  /**
    A signed transaction: every instruction is compute-budget or one of the eight listed calls on
    the two programs; every call that sets rewards names this oracle and this lazy distributor in
    its own layout and proposes at most what the database credits; this oracle is neither the fee
    payer nor, unless it agreed to, the payer of a new recipient.
   */
  lemma SignedIsVetted(o: Oracle, tx: Transaction)
    requires Acceptable(o, tx) && o.ldPid != o.roPid
    ensures forall i :: 0 <= i < |tx.instructions| ==> Vetted(o, tx, tx.instructions[i])
    ensures tx.accounts == [] || tx.accounts[0] != o.key
  {
    forall i | 0 <= i < |tx.instructions|
      ensures Vetted(o, tx, tx.instructions[i])
    {
      InstructionVetted(o, tx, i);
    }
  }

  lemma InstructionVetted(o: Oracle, tx: Transaction, i: nat)
    requires Acceptable(o, tx) && o.ldPid != o.roPid && i < |tx.instructions|
    ensures Vetted(o, tx, tx.instructions[i])
  {
    var ix := tx.instructions[i];
    assert InstructionAllowed(o, tx, ix);
    if SetsRewards(o, tx, ix) {
      assert SetAllowed(o, tx, ix);
      BoundStandsFor(o, tx, AccountAt(tx, ix, RECIPIENT).value);
      var asset := BoundAsset(o, tx, AccountAt(tx, ix, RECIPIENT).value).value;
      assert IsDirect(o, tx, ix) ==> StandsFor(o, tx, AccountAt(tx, ix, 2).value, asset);
    }
  }

  // ---------------------------------------------------------------------------------------------
  // signTransaction
  // ---------------------------------------------------------------------------------------------

  type Bindings = map<(PublicKey, PublicKey), Option<PublicKey>>  // recipientToLazyDistToMint

  function Binding(bindings: Bindings, recipient: PublicKey, lazyDist: PublicKey): Option<PublicKey> {
    if (recipient, lazyDist) in bindings then bindings[(recipient, lazyDist)] else None
  }

  ghost predicate BindsLikeTx(o: Oracle, tx: Transaction, bindings: Bindings, n: nat)
    requires n <= |tx.instructions|
  {
    forall r, d :: Binding(bindings, r, d) == BoundInTx(o, tx, r, d, n)
  }

  lemma BindsAfter(o: Oracle, tx: Transaction, i: nat, bindings: Bindings, bindings': Bindings)
    requires i < |tx.instructions| && BindsLikeTx(o, tx, bindings, i)
    requires forall r, d ::
      Binding(bindings', r, d) ==
        (if Initializes(o, tx, tx.instructions[i], r, d) then InitializedAsset(o, tx, tx.instructions[i])
         else Binding(bindings, r, d))
    ensures BindsLikeTx(o, tx, bindings', i + 1)
  {
    forall r, d
      ensures Binding(bindings', r, d) == BoundInTx(o, tx, r, d, i + 1)
    {
      assert Binding(bindings, r, d) == BoundInTx(o, tx, r, d, i);
    }
  }

  /** The first loop's body: validates one instruction and records what it initializes. */
  method CheckInstruction(o: Oracle, tx: Transaction, i: nat, bindings: Bindings)
      returns (r: Outcome, sets: bool, bindings': Bindings)
    requires i < |tx.instructions| && BindsLikeTx(o, tx, bindings, i)
    ensures r.Signed? <==> InstructionAllowed(o, tx, tx.instructions[i])
    ensures r.Signed? ==> sets == SetsRewards(o, tx, tx.instructions[i])
    ensures r.Signed? ==> BindsLikeTx(o, tx, bindings', i + 1)
  {
    var ix := tx.instructions[i];
    r, sets, bindings' := Signed, false, bindings;
    var programId := ProgramOf(tx, ix);
    if programId.None? {
      return Threw, false, bindings;
    }
    if programId.value == o.computeBudgetPid {
      BindsAfter(o, tx, i, bindings, bindings');
      return;
    }
    if !(programId.value == o.ldPid || programId.value == o.roPid) {
      return Refused("Invalid instructions in transaction"), false, bindings;
    }
    var decoded := if programId.value == o.ldPid then o.decodeLd(ix.data) else o.decodeRo(ix.data);
    if decoded.None? || decoded.value.Unlisted? {
      return Refused("Invalid instructions in transaction"), false, bindings;
    }
    sets := decoded.value.SetsRewards();
    if decoded.value.InitializeRecipientV0? || decoded.value.InitializeCompressionRecipientV0? {
      var recipient, lazyDist := AccountAt(tx, ix, RECIPIENT), AccountAt(tx, ix, LAZY_DISTRIBUTOR);
      if recipient.None? || lazyDist.None? {
        return Threw, false, bindings;
      }
      var asset := AccountAt(tx, ix, MINT);
      if decoded.value.InitializeCompressionRecipientV0? {
        var merkleTree, payer := AccountAt(tx, ix, MERKLE_TREE), AccountAt(tx, ix, PAYER);
        if merkleTree.None? || payer.None? {
          return Threw, false, bindings;
        }
        if !o.willPayRecipient && payer.value == o.key {
          return Refused("Cannot set this oracle as the payer"), false, bindings;
        }
        asset := Some(o.leafAssetId(merkleTree.value, decoded.value.index));
      }
      bindings' := bindings[(recipient.value, lazyDist.value) := asset];
    }
    BindsAfter(o, tx, i, bindings, bindings');
  }

  /** The second loop's body: validates one set-rewards instruction. */
  method CheckRewards(o: Oracle, tx: Transaction, ix: Instruction, bindings: Bindings) returns (r: Outcome)
    requires SetsRewards(o, tx, ix) && BindsLikeTx(o, tx, bindings, |tx.instructions|)
    ensures r.Signed? <==> SetAllowed(o, tx, ix)
  {
    var proposed := Decoded(o, tx, ix).value.currentRewards;
    if AccountAt(tx, ix, WRAPPER_ORACLE).None? {
      return Threw;
    }
    var wrapped := IsWrapped(o, tx, ix);
    if wrapped {
      var keyToAsset := AccountAt(tx, ix, KEY_TO_ASSET);
      if keyToAsset.None? || o.entityKeyOf(keyToAsset.value).None? {
        return Threw;
      }
      if o.keyToAssetKey(o.dao, o.entityKeyOf(keyToAsset.value).value) != keyToAsset.value {
        return Refused("RPC lied about the entity key for this asset.");
      }
    } else if AccountAt(tx, ix, ORACLE).None? {
      return Threw;
    }
    var recipient, lazyDist := AccountAt(tx, ix, RECIPIENT), AccountAt(tx, ix, LAZY_DISTRIBUTOR);
    if !(wrapped || IsDirect(o, tx, ix)) || recipient.None? || lazyDist != Some(o.lazyDistributor) {
      return Refused("Invalid lazy distributor");
    }
    var mint := Binding(bindings, recipient.value, lazyDist.value);
    if mint.None? {
      mint := o.recipientAsset(recipient.value);
      if mint.None? {
        return Refused("Recipient doesn't exist");
      }
    }
    var currentRewards;
    if wrapped {
      var keyToAsset := AccountAt(tx, ix, KEY_TO_ASSET).value;
      var serialization := o.serializationOf(keyToAsset);
      if serialization.None? {
        return Threw;
      }
      var entity := o.decodeEntityKey(o.entityKeyOf(keyToAsset).value, serialization.value);
      if entity.None? {
        return Threw;
      }
      currentRewards := o.rewardsByEntity(entity.value);
    } else {
      var credited := o.rewardsByAsset(mint.value);
      if credited.None? {
        return Threw;
      }
      currentRewards := credited.value;
    }
    return if proposed > currentRewards then Refused("Invalid amount") else Signed;
  }

  /** Signs exactly the acceptable transactions. */
  method SignTransaction(o: Oracle, tx: Transaction) returns (r: Outcome)
    ensures r.Signed? <==> Acceptable(o, tx)
  {
    var bindings: Bindings := map[];
    var setRewardIxs: seq<Instruction> := [];
    for i := 0 to |tx.instructions|
      invariant forall j :: 0 <= j < i ==> InstructionAllowed(o, tx, tx.instructions[j])
      invariant BindsLikeTx(o, tx, bindings, i)
      invariant forall ix :: ix in setRewardIxs <==> ix in tx.instructions[..i] && SetsRewards(o, tx, ix)
    {
      var sets;
      r, sets, bindings := CheckInstruction(o, tx, i, bindings);
      if !r.Signed? {
        return;
      }
      assert tx.instructions[..i + 1] == tx.instructions[..i] + [tx.instructions[i]];
      if sets {
        setRewardIxs := setRewardIxs + [tx.instructions[i]];
      }
    }
    assert tx.instructions[..|tx.instructions|] == tx.instructions;
    for k := 0 to |setRewardIxs|
      invariant forall j :: 0 <= j < k ==> setRewardIxs[j] in setRewardIxs && SetAllowed(o, tx, setRewardIxs[j])
    {
      assert setRewardIxs[k] in setRewardIxs;
      r := CheckRewards(o, tx, setRewardIxs[k], bindings);
      if !r.Signed? {
        return;
      }
    }
    forall i | 0 <= i < |tx.instructions| && SetsRewards(o, tx, tx.instructions[i])
      ensures SetAllowed(o, tx, tx.instructions[i])
    {
      assert tx.instructions[i] in setRewardIxs;
    }
    if |tx.accounts| > 0 && tx.accounts[0] == o.key {
      return Refused("Cannot set this oracle as the fee payer");
    }
    return Signed;
  }

  /** The bulk endpoint signs all the transactions or names the first one it will not sign. */
  method SignBulk(o: Oracle, txs: seq<Transaction>) returns (refused: Option<nat>)
    ensures refused.None? <==> forall i :: 0 <= i < |txs| ==> Acceptable(o, txs[i])
    ensures refused.Some? ==>
      && refused.value < |txs| && !Acceptable(o, txs[refused.value])
      && forall i :: 0 <= i < refused.value ==> Acceptable(o, txs[i])
  {
    var results: seq<Outcome> := [];
    for i := 0 to |txs|
      invariant |results| == i
      invariant forall j :: 0 <= j < i ==> (results[j].Signed? <==> Acceptable(o, txs[j]))
    {
      var r := SignTransaction(o, txs[i]);
      results := results + [r];
    }
    for i := 0 to |txs|
      invariant forall j :: 0 <= j < i ==> results[j].Signed?
    {
      if !results[i].Signed? {
        return Some(i);
      }
    }
    return None;
  }

  // ---------------------------------------------------------------------------------------------
  // formTransaction
  // ---------------------------------------------------------------------------------------------

  datatype Draft = Draft(programId: PublicKey, keys: seq<PublicKey>, data: Bytes)

  datatype Coders = Coders(encodeLd: Call -> Bytes, encodeRo: Call -> Bytes)

  datatype Quote = Quote(currentRewards: nat, oracleKey: PublicKey)

  /** What the client knows when it forms a claim. */
  datatype Claim = Claim(
    asset: PublicKey,
    compressed: bool,
    merkleTree: PublicKey,
    leafIndex: nat,
    keyToAsset: PublicKey,
    recipient: PublicKey,
    recipientExists: bool,
    hasDestination: bool,
    lazyDistributor: PublicKey,
    wallet: PublicKey,
    payer: PublicKey,
    firstOracle: PublicKey,
    willPay: bool,
    more: seq<PublicKey>)  // further accounts of the calls that the signer does not look at

  function InitDraft(o: Oracle, coders: Coders, c: Claim): Draft {
    if c.compressed then
      var payer := if c.willPay then c.firstOracle else c.payer;
      Draft(o.ldPid, [payer, c.lazyDistributor, c.recipient, c.merkleTree] + c.more,
            coders.encodeLd(InitializeCompressionRecipientV0(c.leafIndex)))
    else
      Draft(o.ldPid, [c.wallet, c.lazyDistributor, c.recipient, c.asset] + c.more,
            coders.encodeLd(InitializeRecipientV0))
  }

  function SetDraft(o: Oracle, coders: Coders, c: Claim, q: Quote): Draft {
    Draft(o.roPid, [q.oracleKey, c.lazyDistributor, c.recipient, c.keyToAsset] + c.more,
          coders.encodeRo(SetCurrentRewardsWrapperV1(q.currentRewards)))
  }

  function DistributeDraft(o: Oracle, coders: Coders, c: Claim): Draft {
    var call :=
      if c.recipientExists && c.hasDestination then DistributeCustomDestinationV0
      else if c.compressed then DistributeCompressionRewardsV0
      else DistributeRewardsV0;
    Draft(o.ldPid, [c.payer, c.lazyDistributor, c.recipient] + c.more, coders.encodeLd(call))
  }

  /** The compiled message says what the drafts say, and its first account is the fee payer. */
  ghost predicate Compiles(tx: Transaction, drafts: seq<Draft>, feePayer: PublicKey) {
    && tx.accounts != [] && tx.accounts[0] == feePayer
    && |tx.instructions| == |drafts|
    && forall i :: 0 <= i < |drafts| ==> CompilesOne(tx, tx.instructions[i], drafts[i])
  }

  ghost predicate CompilesOne(tx: Transaction, ix: Instruction, d: Draft) {
    && ProgramOf(tx, ix) == Some(d.programId)
    && ix.data == d.data
    && |ix.accountKeyIndexes| == |d.keys|
    && forall k :: 0 <= k < |d.keys| ==> AccountAt(tx, ix, k) == Some(d.keys[k])
  }

  ghost predicate RoundTrips(o: Oracle, coders: Coders) {
    && (forall call :: o.decodeLd(coders.encodeLd(call)) == Some(call))
    && (forall call :: o.decodeRo(coders.encodeRo(call)) == Some(call))
    && o.ldPid != o.roPid && o.ldPid != o.computeBudgetPid && o.roPid != o.computeBudgetPid
  }

  /** Client and oracle talk about the same chain: one oracle, its policy, and accounts that are there. */
  ghost predicate SameWorld(o: Oracle, c: Claim) {
    && c.lazyDistributor == o.lazyDistributor
    && c.firstOracle == o.key
    && c.willPay == o.willPayRecipient
    && (c.recipientExists ==> o.recipientAsset(c.recipient).Some?)
  }

  /** The drafts of a claim with one set-rewards instruction. */
  ghost function ClaimWith(o: Oracle, coders: Coders, c: Claim, set_: Draft, budget: seq<Draft>): seq<Draft> {
    budget + (if c.recipientExists then [] else [InitDraft(o, coders, c)])
      + [set_, DistributeDraft(o, coders, c)]
  }

  /** The drafts of a claim with the single quote q. */
  ghost function ClaimDrafts(o: Oracle, coders: Coders, c: Claim, q: Quote, budget: seq<Draft>): seq<Draft> {
    ClaimWith(o, coders, c, SetDraft(o, coders, c, q), budget)
  }

  /** The same claim with the older wrapper, or with a direct call. */
  function OldSetDraft(o: Oracle, coders: Coders, c: Claim, q: Quote): Draft {
    Draft(o.roPid, [q.oracleKey, c.lazyDistributor, c.recipient, c.keyToAsset] + c.more,
          coders.encodeRo(SetCurrentRewardsWrapperV0(q.currentRewards)))
  }

  function DirectSetDraft(o: Oracle, coders: Coders, c: Claim, q: Quote): Draft {
    Draft(o.ldPid, [c.payer, c.lazyDistributor, c.recipient, q.oracleKey] + c.more,
          coders.encodeLd(SetCurrentRewardsV0(q.currentRewards)))
  }

  /** The asset the claim's recipient stands for: the one on chain, or the one the claim creates it for. */
  function ClaimAsset(o: Oracle, c: Claim): Option<PublicKey> {
    if c.recipientExists then o.recipientAsset(c.recipient)
    else if c.compressed then Some(o.leafAssetId(c.merkleTree, c.leafIndex))
    else Some(c.asset)
  }

  /** The client's instruction list; the compute-budget instructions are put in front. */
  method FormInstructions(o: Oracle, coders: Coders, c: Claim, rewards: seq<Quote>, budget: seq<Draft>)
      returns (drafts: seq<Draft>)
    ensures drafts == budget
      + (if c.recipientExists then [] else [InitDraft(o, coders, c)])
      + seq(|rewards|, (i: int) requires 0 <= i < |rewards| => SetDraft(o, coders, c, rewards[i]))
      + [DistributeDraft(o, coders, c)]
    ensures |rewards| == 1 ==> drafts == ClaimDrafts(o, coders, c, rewards[0], budget)
  {
    drafts := budget;
    if !c.recipientExists {
      drafts := drafts + [InitDraft(o, coders, c)];
    }
    var sets: seq<Draft> := [];
    for i := 0 to |rewards|
      invariant |sets| == i
      invariant forall j :: 0 <= j < i ==> sets[j] == SetDraft(o, coders, c, rewards[j])
    {
      sets := sets + [SetDraft(o, coders, c, rewards[i])];
    }
    assert sets == seq(|rewards|, (i: int) requires 0 <= i < |rewards| => SetDraft(o, coders, c, rewards[i]));
    drafts := drafts + sets + [DistributeDraft(o, coders, c)];
  }

  /** Drafts and the calls they stand for. */
  ghost predicate Says(o: Oracle, d: Draft, program: PublicKey, call: Call, keys: seq<PublicKey>) {
    && d.programId == program && |d.keys| >= |keys| && d.keys[..|keys|] == keys
    && (if program == o.ldPid then o.decodeLd(d.data) else o.decodeRo(d.data)) == Some(call)
  }

  /**
    What the client asks for, as the oracle will decode it: the recipient's creation, for the leaf
    or the mint; the newest wrapper with the quoted amount; and the distribution that fits the
    recipient and the asset.
   */
  lemma DraftsSay(o: Oracle, coders: Coders, c: Claim, q: Quote)
    requires RoundTrips(o, coders)
    ensures c.compressed ==>
      Says(o, InitDraft(o, coders, c), o.ldPid, InitializeCompressionRecipientV0(c.leafIndex),
           [if c.willPay then c.firstOracle else c.payer, c.lazyDistributor, c.recipient, c.merkleTree])
    ensures !c.compressed ==>
      Says(o, InitDraft(o, coders, c), o.ldPid, InitializeRecipientV0,
           [c.wallet, c.lazyDistributor, c.recipient, c.asset])
    ensures Says(o, SetDraft(o, coders, c, q), o.roPid, SetCurrentRewardsWrapperV1(q.currentRewards),
                 [q.oracleKey, c.lazyDistributor, c.recipient, c.keyToAsset])
    ensures Says(o, DistributeDraft(o, coders, c), o.ldPid,
                 if c.recipientExists && c.hasDestination then DistributeCustomDestinationV0
                 else if c.compressed then DistributeCompressionRewardsV0 else DistributeRewardsV0,
                 [c.payer, c.lazyDistributor, c.recipient])
  {
  }

  lemma InitDraftAllowed(o: Oracle, coders: Coders, c: Claim, tx: Transaction, ix: Instruction)
    requires RoundTrips(o, coders) && SameWorld(o, c)
    requires CompilesOne(tx, ix, InitDraft(o, coders, c))
    ensures CallAllowed(o, tx, ix) <==> !c.compressed || c.willPay || c.payer != o.key
    ensures !SetsRewards(o, tx, ix)
    ensures Initializes(o, tx, ix, c.recipient, c.lazyDistributor)
    ensures !c.recipientExists ==> InitializedAsset(o, tx, ix) == ClaimAsset(o, c)
  {
    var d := InitDraft(o, coders, c);
    assert AccountAt(tx, ix, 0) == Some(d.keys[0]) && AccountAt(tx, ix, 1) == Some(d.keys[1]);
    assert AccountAt(tx, ix, 2) == Some(d.keys[2]) && AccountAt(tx, ix, 3) == Some(d.keys[3]);
  }

  lemma DistributeDraftAllowed(o: Oracle, coders: Coders, c: Claim, tx: Transaction, ix: Instruction)
    requires RoundTrips(o, coders)
    requires CompilesOne(tx, ix, DistributeDraft(o, coders, c))
    ensures CallAllowed(o, tx, ix) && !SetsRewards(o, tx, ix)
    ensures forall r, d :: !Initializes(o, tx, ix, r, d)
  {
  }

  /** What the database must credit for a wrapped call to pass. */
  ghost predicate EntityCovers(o: Oracle, c: Claim, amount: nat) {
    EntityOf(o, c.keyToAsset).Some? && amount <= o.rewardsByEntity(EntityOf(o, c.keyToAsset).value)
  }

  /** What the database must credit for a direct call to pass. */
  ghost predicate AssetCovers(o: Oracle, c: Claim, amount: nat) {
    && ClaimAsset(o, c).Some? && o.rewardsByAsset(ClaimAsset(o, c).value).Some?
    && amount <= o.rewardsByAsset(ClaimAsset(o, c).value).value
  }

  lemma WrappedDraftAllowed(
      o: Oracle, coders: Coders, c: Claim, q: Quote, set_: Draft, tx: Transaction, ix: Instruction)
    requires RoundTrips(o, coders) && SameWorld(o, c) && q.oracleKey == o.key
    requires set_ == SetDraft(o, coders, c, q) || set_ == OldSetDraft(o, coders, c, q)
    requires CompilesOne(tx, ix, set_)
    ensures IsSetIx(o, tx, ix)
    ensures BoundAsset(o, tx, c.recipient).Some? ==> (SetAllowed(o, tx, ix) <==> EntityCovers(o, c, q.currentRewards))
  {
    assert AccountAt(tx, ix, 0) == Some(set_.keys[0]) && AccountAt(tx, ix, 1) == Some(set_.keys[1]);
    assert AccountAt(tx, ix, 2) == Some(set_.keys[2]) && AccountAt(tx, ix, 3) == Some(set_.keys[3]);
  }

  lemma DirectDraftAllowed(o: Oracle, coders: Coders, c: Claim, q: Quote, tx: Transaction, ix: Instruction)
    requires RoundTrips(o, coders) && SameWorld(o, c) && q.oracleKey == o.key
    requires CompilesOne(tx, ix, DirectSetDraft(o, coders, c, q))
    ensures IsSetIx(o, tx, ix)
    ensures BoundAsset(o, tx, c.recipient) == ClaimAsset(o, c) ==>
      (SetAllowed(o, tx, ix) <==> AssetCovers(o, c, q.currentRewards))
  {
    var d := DirectSetDraft(o, coders, c, q);
    assert AccountAt(tx, ix, 0) == Some(d.keys[0]) && AccountAt(tx, ix, 1) == Some(d.keys[1]);
    assert AccountAt(tx, ix, 2) == Some(d.keys[2]) && AccountAt(tx, ix, 3) == Some(d.keys[3]);
  }

  /** An allowed instruction that sets rewards, and so creates no recipient. */
  ghost predicate IsSetIx(o: Oracle, tx: Transaction, ix: Instruction) {
    && CallAllowed(o, tx, ix) && SetsRewards(o, tx, ix)
    && forall r, d :: !Initializes(o, tx, ix, r, d)
  }

  /** A recipient that an instruction of the transaction creates, and no later one does, is bound. */
  lemma {:induction false} BoundOnceInitialized(o: Oracle, tx: Transaction, r: PublicKey, d: PublicKey, k: nat, n: nat)
    requires k < n <= |tx.instructions|
    requires Initializes(o, tx, tx.instructions[k], r, d) && InitializedAsset(o, tx, tx.instructions[k]).Some?
    requires forall i :: k < i < n ==> !Initializes(o, tx, tx.instructions[i], r, d)
    ensures BoundInTx(o, tx, r, d, n) == InitializedAsset(o, tx, tx.instructions[k])
    decreases n
  {
    if k < n - 1 {
      BoundOnceInitialized(o, tx, r, d, k, n - 1);
    }
  }

  lemma {:induction false} NotBoundInTx(o: Oracle, tx: Transaction, r: PublicKey, d: PublicKey, n: nat)
    requires n <= |tx.instructions| && forall i :: 0 <= i < n ==> !Initializes(o, tx, tx.instructions[i], r, d)
    ensures BoundInTx(o, tx, r, d, n) == None
  {
    if n > 0 {
      NotBoundInTx(o, tx, r, d, n - 1);
    }
  }

  /** A compiled claim, with its set-rewards instruction at position m. */
  ghost predicate IsClaim(
      o: Oracle, coders: Coders, c: Claim, set_: Draft, budget: seq<Draft>, tx: Transaction, m: nat)
  {
    && m == |budget| + (if c.recipientExists then 0 else 1)
    && (forall i :: 0 <= i < |budget| ==> budget[i].programId == o.computeBudgetPid)
    && Compiles(tx, ClaimWith(o, coders, c, set_, budget), c.payer)
  }

  lemma ClaimParts(o: Oracle, coders: Coders, c: Claim, set_: Draft, budget: seq<Draft>, tx: Transaction, m: nat)
    requires IsClaim(o, coders, c, set_, budget, tx, m)
    ensures |tx.instructions| == m + 2
    ensures forall i :: 0 <= i < |budget| ==> IsComputeBudget(o, tx, tx.instructions[i])
    ensures !c.recipientExists ==> CompilesOne(tx, tx.instructions[|budget|], InitDraft(o, coders, c))
    ensures CompilesOne(tx, tx.instructions[m], set_)
    ensures CompilesOne(tx, tx.instructions[m + 1], DistributeDraft(o, coders, c))
  {
    var drafts := ClaimWith(o, coders, c, set_, budget);
    assert drafts[m] == set_ && drafts[m + 1] == DistributeDraft(o, coders, c);
    assert !c.recipientExists ==> drafts[|budget|] == InitDraft(o, coders, c);
    forall i | 0 <= i < |budget|
      ensures IsComputeBudget(o, tx, tx.instructions[i])
    {
      assert drafts[i] == budget[i] && CompilesOne(tx, tx.instructions[i], drafts[i]);
    }
  }

  /** In a claim the recipient is bound to the claim's asset. */
  lemma ClaimRecipientBound(
      o: Oracle, coders: Coders, c: Claim, set_: Draft, budget: seq<Draft>, tx: Transaction, m: nat)
    requires RoundTrips(o, coders) && SameWorld(o, c) && IsClaim(o, coders, c, set_, budget, tx, m)
    requires m < |tx.instructions| && IsSetIx(o, tx, tx.instructions[m])
    ensures BoundAsset(o, tx, c.recipient) == ClaimAsset(o, c) && ClaimAsset(o, c).Some?
  {
    var r, d, n := c.recipient, c.lazyDistributor, |tx.instructions|;
    ClaimParts(o, coders, c, set_, budget, tx, m);
    DistributeDraftAllowed(o, coders, c, tx, tx.instructions[m + 1]);
    forall i | 0 <= i < n && (c.recipientExists || i != |budget|)
      ensures !Initializes(o, tx, tx.instructions[i], r, d)
    {
      assert i < |budget| || i == m || i == m + 1;
    }
    if c.recipientExists {
      NotBoundInTx(o, tx, r, d, n);
    } else {
      InitDraftAllowed(o, coders, c, tx, tx.instructions[|budget|]);
      BoundOnceInitialized(o, tx, r, d, |budget|, n);
    }
  }

  /** Such a claim is accepted exactly if the payer is not the oracle and its set-rewards instruction is allowed. */
  lemma ClaimAcceptedIff(
      o: Oracle, coders: Coders, c: Claim, set_: Draft, budget: seq<Draft>, tx: Transaction, m: nat)
    requires RoundTrips(o, coders) && SameWorld(o, c) && IsClaim(o, coders, c, set_, budget, tx, m)
    requires m < |tx.instructions| && IsSetIx(o, tx, tx.instructions[m])
    ensures Acceptable(o, tx) <==> c.payer != o.key && SetAllowed(o, tx, tx.instructions[m])
  {
    ClaimParts(o, coders, c, set_, budget, tx, m);
    DistributeDraftAllowed(o, coders, c, tx, tx.instructions[m + 1]);
    if !c.recipientExists {
      InitDraftAllowed(o, coders, c, tx, tx.instructions[|budget|]);
    }
    forall i | 0 <= i < |tx.instructions| && c.payer != o.key
      ensures InstructionAllowed(o, tx, tx.instructions[i])
      ensures i != m ==> !SetsRewards(o, tx, tx.instructions[i])
    {
      assert i < |budget| || i == |budget| || i == m || i == m + 1;
    }
  }

  /**
    With one oracle, the transaction the client forms from a quote is signed by that oracle exactly
    when the payer is not the oracle and the database still credits at least the quoted amount to
    the entity: for existing and missing recipients, compressed or not.
   */
  lemma ClientTransactionAccepted(o: Oracle, coders: Coders, c: Claim, q: Quote, budget: seq<Draft>, tx: Transaction)
    requires RoundTrips(o, coders) && SameWorld(o, c) && q.oracleKey == o.key
    requires forall i :: 0 <= i < |budget| ==> budget[i].programId == o.computeBudgetPid
    requires Compiles(tx, ClaimDrafts(o, coders, c, q, budget), c.payer)
    ensures Acceptable(o, tx) <==> c.payer != o.key && EntityCovers(o, c, q.currentRewards)
  {
    WrappedClaimAccepted(o, coders, c, q, SetDraft(o, coders, c, q), budget, tx);
  }

  /** The same for both wrappers. */
  lemma WrappedClaimAccepted(
      o: Oracle, coders: Coders, c: Claim, q: Quote, set_: Draft, budget: seq<Draft>, tx: Transaction)
    requires RoundTrips(o, coders) && SameWorld(o, c) && q.oracleKey == o.key
    requires set_ == SetDraft(o, coders, c, q) || set_ == OldSetDraft(o, coders, c, q)
    requires forall i :: 0 <= i < |budget| ==> budget[i].programId == o.computeBudgetPid
    requires Compiles(tx, ClaimWith(o, coders, c, set_, budget), c.payer)
    ensures Acceptable(o, tx) <==> c.payer != o.key && EntityCovers(o, c, q.currentRewards)
  {
    hide Acceptable, SetAllowed, RoundTrips, SameWorld;
    var m := |budget| + (if c.recipientExists then 0 else 1);
    ClaimParts(o, coders, c, set_, budget, tx, m);
    WrappedDraftAllowed(o, coders, c, q, set_, tx, tx.instructions[m]);
    ClaimRecipientBound(o, coders, c, set_, budget, tx, m);
    ClaimAcceptedIff(o, coders, c, set_, budget, tx, m);
  }

  /**
    A claim that sets the rewards directly is signed exactly when the payer is not the oracle and
    the database credits at least that amount to the asset the recipient stands for: the one on
    chain, or the one the claim itself creates the recipient for.
   */
  lemma DirectClaimAccepted(o: Oracle, coders: Coders, c: Claim, q: Quote, budget: seq<Draft>, tx: Transaction)
    requires RoundTrips(o, coders) && SameWorld(o, c) && q.oracleKey == o.key
    requires forall i :: 0 <= i < |budget| ==> budget[i].programId == o.computeBudgetPid
    requires Compiles(tx, ClaimWith(o, coders, c, DirectSetDraft(o, coders, c, q), budget), c.payer)
    ensures Acceptable(o, tx) <==> c.payer != o.key && AssetCovers(o, c, q.currentRewards)
  {
    hide Acceptable, SetAllowed, RoundTrips, SameWorld;
    var m := |budget| + (if c.recipientExists then 0 else 1);
    var set_ := DirectSetDraft(o, coders, c, q);
    ClaimParts(o, coders, c, set_, budget, tx, m);
    DirectDraftAllowed(o, coders, c, q, tx, tx.instructions[m]);
    ClaimRecipientBound(o, coders, c, set_, budget, tx, m);
    ClaimAcceptedIff(o, coders, c, set_, budget, tx, m);
  }

  // ---------------------------------------------------------------------------------------------
  // assertSameTx
  // ---------------------------------------------------------------------------------------------

  /** The client's check on what comes back: passes exactly when nothing but signatures changed. */
  method AssertSameTx(tx: Transaction, tx1: Transaction) returns (passes: bool)
    ensures passes <==> tx == tx1
  {
    if |tx.instructions| != |tx1.instructions| {
      return false;
    }
    for i := 0 to |tx.instructions|
      invariant forall j :: 0 <= j < i ==> tx.instructions[j] == tx1.instructions[j]
    {
      var ix, ix1 := tx.instructions[i], tx1.instructions[i];
      if ix.programIdIndex != ix1.programIdIndex || ix.data != ix1.data {
        return false;
      }
      if |ix.accountKeyIndexes| != |ix1.accountKeyIndexes| {
        return false;
      }
      for k := 0 to |ix.accountKeyIndexes|
        invariant forall j :: 0 <= j < k ==> ix.accountKeyIndexes[j] == ix1.accountKeyIndexes[j]
      {
        if ix.accountKeyIndexes[k] != ix1.accountKeyIndexes[k] {
          return false;
        }
      }
    }
    if |tx1.accounts| != |tx.accounts| {
      return false;
    }
    for i := 0 to |tx.accounts|
      invariant forall j :: 0 <= j < i ==> tx.accounts[j] == tx1.accounts[j]
    {
      if tx.accounts[i] != tx1.accounts[i] {
        return false;
      }
    }
    return true;
  }
}
