/** Values shared by every component: machine integers, keys, accounts, transactions and errors. */
module Types {

  type Byte = b: int | 0 <= b < 256
  type U64 = n: int | 0 <= n < 0x1_0000_0000_0000_0000
  type Bytes32 = s: seq<Byte> | |s| == 32 witness [0, 0, 0, 0, 0, 0, 0, 0, 0, 0, 0, 0, 0, 0, 0, 0, 0, 0, 0, 0, 0, 0, 0, 0, 0, 0, 0, 0, 0, 0, 0, 0]

  const U64_MAX: U64 := 0xFFFF_FFFF_FFFF_FFFF
  const ZERO32: Bytes32 := [0, 0, 0, 0, 0, 0, 0, 0, 0, 0, 0, 0, 0, 0, 0, 0, 0, 0, 0, 0, 0, 0, 0, 0, 0, 0, 0, 0, 0, 0, 0, 0]

  datatype Pubkey = Pubkey(bytes: Bytes32)
  datatype Hash = Hash(bytes: Bytes32)

  datatype Option<+T> = None | Some(value: T)
  datatype Result<+T, +E> = Ok(value: T) | Err(error: E)

  /** `u64::saturating_add`. */
  function SatAdd(a: U64, b: U64): U64 {
    if a + b > U64_MAX then U64_MAX else a + b
  }

  /** `u64::saturating_sub`. */
  function SatSub(a: U64, b: U64): U64 {
    if a < b then 0 else a - b
  }

  /** A boolean as one byte. */
  function Flag(b: bool): Byte {
    if b then 1 else 0
  }

  /** The base58 strings of programs/ids.rs, decoded. */
  const SYSTEM_PROGRAM_ID := Pubkey(ZERO32)
  const TOKEN_PROGRAM_ID := Pubkey([6, 221, 246, 225, 215, 101, 161, 147, 217, 203, 225, 70, 206, 235, 121, 172,
                                    28, 180, 133, 237, 95, 91, 55, 145, 58, 140, 245, 133, 126, 255, 0, 169])

  datatype Account = Account(
    pubkey: Pubkey, lamports: U64, data: seq<Byte>, owner: Pubkey, executable: bool, rentEpoch: U64)

  /** What `load_and_verify_accounts` uses for a key the store does not hold. */
  function FreshAccount(key: Pubkey): Account {
    Account(key, 0, [], SYSTEM_PROGRAM_ID, false, 0)
  }

  type Store = map<Pubkey, Account>

  /** Every account is filed under its own pubkey. */
  ghost predicate WellKeyed(s: Store) {
    forall k :: k in s ==> s[k].pubkey == k
  }

  datatype AccountMeta = AccountMeta(pubkey: Pubkey, isSigner: bool, isWritable: bool)
  datatype Instruction = Instruction(programId: Pubkey, accounts: seq<AccountMeta>, data: seq<Byte>)
  datatype Message = Message(accountKeys: seq<Pubkey>, recentBlockhash: Hash, instructions: seq<Instruction>)
  datatype Transaction = Transaction(signatures: seq<seq<Byte>>, message: Message)

  datatype ProgramError =
    | AccountNotFound(key: Pubkey)
    | InvalidInstructionData
    | InsufficientFunds
    | NotEnoughAccountKeys
    | MissingRequiredSignature
    | AccountNotExecutable
    | AccountOwnerMismatch
    | InvalidAccountData
    | InvalidArgument
    | Custom(code: nat)
    | InternalError(reason: string)

  datatype TransactionError =
    | InvalidSignature
    | Program(error: ProgramError)
    | BlockhashNotFound
    | BlockhashExpired
    | AccountInUse
    | WouldExceedMaxBlockCostLimit
  {
    predicate IsRetryable() {
      AccountInUse? || WouldExceedMaxBlockCostLimit?
    }
  }

  /** The keys a meta list names as writable (`true`) or read-only (`false`). */
  function KeysIn(metas: seq<AccountMeta>, writable: bool): set<Pubkey> {
    set meta | meta in metas && meta.isWritable == writable :: meta.pubkey
  }

  function MetaKeys(instructions: seq<Instruction>, writable: bool): set<Pubkey> {
    if instructions == [] then {} else
      var n := |instructions| - 1;
      MetaKeys(instructions[..n], writable) + KeysIn(instructions[n].accounts, writable)
  }

  lemma {:induction false} MetaKeysMember(instructions: seq<Instruction>, ins: Instruction, meta: AccountMeta)
    requires ins in instructions && meta in ins.accounts
    ensures meta.pubkey in MetaKeys(instructions, meta.isWritable)
  {
    var n := |instructions| - 1;
    if ins in instructions[..n] {
      MetaKeysMember(instructions[..n], ins, meta);
    }
  }

  function WriteKeys(tx: Transaction): set<Pubkey> {
    MetaKeys(tx.message.instructions, true)
  }

  function ReadKeys(tx: Transaction): set<Pubkey> {
    MetaKeys(tx.message.instructions, false)
  }

  ghost predicate NoRepeats(keys: seq<Pubkey>) {
    forall i, j :: 0 <= i < j < |keys| ==> keys[i] != keys[j]
  }

  function LoadedKeys(tx: Transaction): set<Pubkey> {
    set k | k in tx.message.accountKeys
  }

  /** Every key the transaction loads is named by some meta; the code relies on this without checking it. */
  predicate Covered(tx: Transaction) {
    LoadedKeys(tx) <= ReadKeys(tx) + WriteKeys(tx)
  }

  /** The nested meta loops shared by `extract_sets`, the group lock and the cost model. */
  method CollectKeys(instructions: seq<Instruction>) returns (readSet: set<Pubkey>, writeSet: set<Pubkey>)
    ensures readSet == MetaKeys(instructions, false) && writeSet == MetaKeys(instructions, true)
  {
    readSet, writeSet := {}, {};
    for i := 0 to |instructions|
      invariant readSet == MetaKeys(instructions[..i], false) && writeSet == MetaKeys(instructions[..i], true)
    {
      assert instructions[..i + 1][..i] == instructions[..i];
      var metas := instructions[i].accounts;
      for j := 0 to |metas|
        invariant readSet == MetaKeys(instructions[..i], false) + KeysIn(metas[..j], false)
        invariant writeSet == MetaKeys(instructions[..i], true) + KeysIn(metas[..j], true)
      {
        KeysInGrow(metas, j);
        if metas[j].isWritable {
          writeSet := writeSet + {metas[j].pubkey};
        } else {
          readSet := readSet + {metas[j].pubkey};
        }
      }
      assert metas[..|metas|] == metas;
    }
    assert instructions[..|instructions|] == instructions;
  }

  lemma KeysInGrow(metas: seq<AccountMeta>, j: nat)
    requires j < |metas|
    ensures forall w :: KeysIn(metas[..j + 1], w)
                     == KeysIn(metas[..j], w) + if metas[j].isWritable == w then {metas[j].pubkey} else {}
  {
    assert metas[..j + 1] == metas[..j] + [metas[j]];
  }
}
