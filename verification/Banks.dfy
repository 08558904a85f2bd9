/** Loading, executing and overlaying one transaction on a bank. */
module Banks {
  import opened Types
  import opened Serial
  import opened BlockhashQueue
  import opened Accounts
  import Merkle

  /** `cell` is the position of the shared account cell among the transaction's loaded accounts. */
  datatype AccountInfo = AccountInfo(
    pubkey: Pubkey, isSigner: bool, isWritable: bool, cell: nat, executable: bool, rentEpoch: U64)

  /** A deterministic program executor: instruction, account infos, cells and compute budget to new cells or an error. */
  type Executor = (Instruction, seq<AccountInfo>, seq<Account>, U64) -> Result<seq<Account>, ProgramError>

  ghost predicate IsFirst(keys: seq<Pubkey>, k: Pubkey, i: nat) {
    i < |keys| && keys[i] == k && forall m :: 0 <= m < i ==> keys[m] != k
  }

  function FirstIndex(keys: seq<Pubkey>, k: Pubkey): (r: Option<nat>)
    ensures r.Some? ==> IsFirst(keys, k, r.value)
    ensures r.None? ==> k !in keys
  {
    if keys == [] then None
    else if keys[0] == k then Some(0)
    else match FirstIndex(keys[1..], k) case None => None case Some(i) => Some(i + 1)
  }

  function InfoFor(meta: AccountMeta, cell: nat, a: Account): AccountInfo {
    AccountInfo(meta.pubkey, meta.isSigner, meta.isWritable, cell, a.executable, a.rentEpoch)
  }

  /** Every meta must name a loaded key, and no cell may be taken writable twice. */
  function PrepareInfos(metas: seq<AccountMeta>, keys: seq<Pubkey>, cells: seq<Account>): (r: Result<seq<AccountInfo>, ProgramError>)
    requires |keys| == |cells|
    ensures r.Ok? ==> |r.value| == |metas|
  {
    if metas == [] then Ok([]) else
      var n := |metas| - 1;
      match PrepareInfos(metas[..n], keys, cells)
      case Err(e) => Err(e)
      case Ok(infos) =>
        match FirstIndex(keys, metas[n].pubkey)
        case None => Err(InternalError("instruction account not found in transaction"))
        case Some(i) =>
          if metas[n].isWritable && i in Borrowed(infos)
          then Err(InternalError("account borrowed mutably more than once"))
          else Ok(infos + [InfoFor(metas[n], i, cells[i])])
  }

  function Borrowed(infos: seq<AccountInfo>): set<nat> {
    set info | info in infos && info.isWritable :: info.cell
  }

  /** Executors share the loaded cells; a value with another number of cells stands for nothing the code can do and is refused. */
  function ExecuteInstructions(exec: Executor, instructions: seq<Instruction>, keys: seq<Pubkey>, cells: seq<Account>, budget: U64)
    : (r: Result<seq<Account>, TransactionError>)
    ensures r.Ok? ==> |r.value| == |keys|
    decreases |instructions|
  {
    if |keys| != |cells| then Err(Program(InternalError("cell count changed")))
    else if instructions == [] then Ok(cells)
    else
      match PrepareInfos(instructions[0].accounts, keys, cells)
      case Err(e) => Err(Program(e))
      case Ok(infos) =>
        match exec(instructions[0], infos, cells, budget)
        case Err(e) => Err(Program(e))
        case Ok(cells') => ExecuteInstructions(exec, instructions[1..], keys, cells', budget)
  }

  lemma {:induction false} SingleInstruction(exec: Executor, ins: Instruction, keys: seq<Pubkey>, cells: seq<Account>, budget: U64)
    requires |keys| == |cells| && PrepareInfos(ins.accounts, keys, cells).Ok?
    requires var r := exec(ins, PrepareInfos(ins.accounts, keys, cells).value, cells, budget); r.Ok? && |r.value| == |cells|
    ensures ExecuteInstructions(exec, [ins], keys, cells, budget)
         == Ok(exec(ins, PrepareInfos(ins.accounts, keys, cells).value, cells, budget).value)
  {
    assert [ins][1..] == [];
  }

  /** Instructions run one after another on the same cells. */
  lemma {:induction false} InstructionsConcat(exec: Executor, a: seq<Instruction>, b: seq<Instruction>, keys: seq<Pubkey>,
                                              cells: seq<Account>, budget: U64)
    ensures ExecuteInstructions(exec, a + b, keys, cells, budget)
         == match ExecuteInstructions(exec, a, keys, cells, budget)
            case Err(e) => Err(e)
            case Ok(mid) => ExecuteInstructions(exec, b, keys, mid, budget)
    decreases |a|
  {
    if a == [] {
      assert a + b == b;
    } else {
      assert (a + b)[1..] == a[1..] + b;
      if |keys| == |cells| && PrepareInfos(a[0].accounts, keys, cells).Ok? {
        var next := exec(a[0], PrepareInfos(a[0].accounts, keys, cells).value, cells, budget);
        if next.Ok? {
          InstructionsConcat(exec, a[1..], b, keys, next.value, budget);
        }
      }
    }
  }

  /** The first instruction that fails is the transaction's error, whether its infos or its program fail. */
  lemma {:induction false} FirstFailure(exec: Executor, a: seq<Instruction>, ins: Instruction, b: seq<Instruction>, keys: seq<Pubkey>,
                                        cells: seq<Account>, mid: seq<Account>, budget: U64, e: ProgramError)
    requires ExecuteInstructions(exec, a, keys, cells, budget) == Ok(mid)
    requires match PrepareInfos(ins.accounts, keys, mid) case Err(p) => p == e case Ok(infos) => exec(ins, infos, mid, budget) == Err(e)
    ensures ExecuteInstructions(exec, a + [ins] + b, keys, cells, budget) == Err(Program(e))
  {
    assert a + [ins] + b == a + ([ins] + b);
    InstructionsConcat(exec, a, [ins] + b, keys, cells, budget);
  }

  /** What a bank does with a transaction's loaded accounts. */
  function RunOnce(bank: BankView, exec: Executor, tx: Transaction, cells: seq<Account>, budget: U64): Result<seq<Account>, TransactionError> {
    match CheckPreflight(bank, tx)
    case Err(e) => Err(e)
    case Ok(_) => ExecuteInstructions(exec, tx.message.instructions, tx.message.accountKeys, cells, budget)
  }

  function RunnerFor(bank: BankView, exec: Executor, budget: Transaction -> U64): Runner {
    (tx: Transaction, cells: seq<Account>) => RunOnce(bank, exec, tx, cells, budget(tx))
  }

  /** A key the store does not hold is loaded as an empty account of the system program. */
  lemma {:induction false} LoadedExactly(v: Store, keys: seq<Pubkey>, j: nat)
    requires j < |keys|
    ensures |LoadAll(v, keys)| == |keys|
    ensures LoadAll(v, keys)[j] == if keys[j] in v then v[keys[j]] else Account(keys[j], 0, [], Pubkey(ZERO32), false, 0)
  {
  }

  // ----- infos

  /** Infos point at cells holding the account they name, and no cell is borrowed writable twice. */
  ghost predicate InfosFor(infos: seq<AccountInfo>, metas: seq<AccountMeta>, keys: seq<Pubkey>) {
    && |infos| == |metas|
    && (forall j :: 0 <= j < |infos| ==>
          && IsFirst(keys, metas[j].pubkey, infos[j].cell)
          && infos[j].pubkey == metas[j].pubkey
          && infos[j].isWritable == metas[j].isWritable && infos[j].isSigner == metas[j].isSigner)
    && (forall i, j :: 0 <= i < j < |infos| && infos[i].isWritable && infos[j].isWritable ==> infos[i].cell != infos[j].cell)
  }

  lemma {:induction false} PreparedInfos(metas: seq<AccountMeta>, keys: seq<Pubkey>, cells: seq<Account>)
    requires |keys| == |cells| && PrepareInfos(metas, keys, cells).Ok?
    ensures InfosFor(PrepareInfos(metas, keys, cells).value, metas, keys)
    ensures forall info :: info in PrepareInfos(metas, keys, cells).value ==>
      info.cell < |cells| && info.executable == cells[info.cell].executable && info.rentEpoch == cells[info.cell].rentEpoch
  {
    if metas != [] {
      var n := |metas| - 1;
      PreparedInfos(metas[..n], keys, cells);
      var infos := PrepareInfos(metas[..n], keys, cells).value;
      forall i | 0 <= i < n && infos[i].isWritable ensures infos[i].cell in Borrowed(infos) {
        assert infos[i] in infos;
      }
    }
  }

  /** Preparation fails exactly on a key the transaction did not load or a key marked writable twice. */
  lemma {:induction false} PrepareFailsIff(metas: seq<AccountMeta>, keys: seq<Pubkey>, cells: seq<Account>)
    requires |keys| == |cells|
    ensures PrepareInfos(metas, keys, cells).Ok? <==>
      (forall j :: 0 <= j < |metas| ==> metas[j].pubkey in keys) && WritableOnce(metas)
  {
    if metas != [] {
      var n := |metas| - 1;
      var init := metas[..n];
      PrepareFailsIff(init, keys, cells);
      if PrepareInfos(init, keys, cells).Ok? {
        PreparedInfos(init, keys, cells);
        var infos := PrepareInfos(init, keys, cells).value;
        var found := FirstIndex(keys, metas[n].pubkey);
        if found.Some? && metas[n].isWritable {
          SameCellSameKey(infos, init, keys, metas[n].pubkey, found.value);
        }
      }
    }
  }

  lemma SameCellSameKey(infos: seq<AccountInfo>, metas: seq<AccountMeta>, keys: seq<Pubkey>, k: Pubkey, cell: nat)
    requires InfosFor(infos, metas, keys) && IsFirst(keys, k, cell)
    ensures cell in Borrowed(infos) <==> exists j :: 0 <= j < |metas| && metas[j].isWritable && metas[j].pubkey == k
  {
    if cell in Borrowed(infos) {
      var info :| info in infos && info.isWritable && info.cell == cell;
      var j :| 0 <= j < |infos| && infos[j] == info;
      assert metas[j].isWritable && metas[j].pubkey == k;
    }
    forall j | 0 <= j < |metas| && metas[j].isWritable && metas[j].pubkey == k ensures cell in Borrowed(infos) {
      assert infos[j] in infos && IsFirst(keys, k, infos[j].cell);
    }
  }

  // ----- the frame of a whole transaction

  /** The executor keeps every cell's key and changes only cells some info borrows writable. */
  ghost predicate KeepsFrame(infos: seq<AccountInfo>, cells: seq<Account>, out: seq<Account>) {
    |out| == |cells| && forall i :: 0 <= i < |cells| ==>
      out[i].pubkey == cells[i].pubkey && (i !in Borrowed(infos) ==> out[i] == cells[i])
  }

  /** Infos index the cells, two infos sharing a cell exactly when they name one key. */
  ghost predicate SharedCells(infos: seq<AccountInfo>, cells: nat) {
    && (forall i :: 0 <= i < |infos| ==> infos[i].cell < cells)
    && (forall i, j :: 0 <= i < |infos| && 0 <= j < |infos| ==> (infos[i].pubkey == infos[j].pubkey <==> infos[i].cell == infos[j].cell))
  }

  /** No key is marked writable twice. */
  predicate WritableOnce(metas: seq<AccountMeta>) {
    forall i, j :: 0 <= i < j < |metas| && metas[i].isWritable && metas[j].isWritable ==> metas[i].pubkey != metas[j].pubkey
  }

  /** What an executor is handed: infos carrying the metas' keys and flags, prepared without error. */
  ghost predicate Describes(infos: seq<AccountInfo>, metas: seq<AccountMeta>, cells: nat) {
    && |infos| == |metas| && SharedCells(infos, cells) && WritableOnce(metas)
    && forall j :: 0 <= j < |infos| ==>
      && infos[j].pubkey == metas[j].pubkey
      && infos[j].isWritable == metas[j].isWritable && infos[j].isSigner == metas[j].isSigner
  }

  lemma {:induction false} PreparedDescribe(infos: seq<AccountInfo>, metas: seq<AccountMeta>, keys: seq<Pubkey>)
    requires InfosFor(infos, metas, keys)
    ensures Describes(infos, metas, |keys|)
  {
    forall i, j | 0 <= i < |infos| && 0 <= j < |infos|
      ensures infos[i].pubkey == infos[j].pubkey <==> infos[i].cell == infos[j].cell
    {
      assert IsFirst(keys, metas[i].pubkey, infos[i].cell) && IsFirst(keys, metas[j].pubkey, infos[j].cell);
    }
  }

  /** A cell is borrowed writable exactly when some meta marks its key writable. */
  lemma {:induction false} BorrowedIff(infos: seq<AccountInfo>, metas: seq<AccountMeta>, cells: nat, j: nat)
    requires Describes(infos, metas, cells) && j < |metas|
    ensures infos[j].cell in Borrowed(infos) <==> metas[j].pubkey in KeysIn(metas, true)
  {
    if infos[j].cell in Borrowed(infos) {
      var info :| info in infos && info.isWritable && info.cell == infos[j].cell;
      var i :| 0 <= i < |infos| && infos[i] == info;
      assert metas[i] in metas && metas[i].pubkey == metas[j].pubkey;
    }
    if metas[j].pubkey in KeysIn(metas, true) {
      var meta :| meta in metas && meta.isWritable && meta.pubkey == metas[j].pubkey;
      var i :| 0 <= i < |metas| && metas[i] == meta;
      assert infos[i] in infos && infos[i].isWritable && infos[i].cell == infos[j].cell;
    }
  }

  ghost predicate WellBehaved(exec: Executor, ins: Instruction) {
    forall infos: seq<AccountInfo>, cells: seq<Account>, budget: U64 ::
      Describes(infos, ins.accounts, |cells|) && exec(ins, infos, cells, budget).Ok? ==>
        KeepsFrame(infos, cells, exec(ins, infos, cells, budget).value)
  }

  ghost predicate CellsFor(keys: seq<Pubkey>, cells: seq<Account>) {
    |cells| == |keys| && forall i :: 0 <= i < |cells| ==> cells[i].pubkey == keys[i]
  }

  lemma {:induction false} BorrowedAreWritten(ins: Instruction, instructions: seq<Instruction>, keys: seq<Pubkey>,
                                              infos: seq<AccountInfo>, i: nat)
    requires ins in instructions && InfosFor(infos, ins.accounts, keys) && i in Borrowed(infos)
    ensures i < |keys| && keys[i] in MetaKeys(instructions, true)
  {
    var info :| info in infos && info.isWritable && info.cell == i;
    var j :| 0 <= j < |infos| && infos[j] == info;
    MetaKeysMember(instructions, ins, ins.accounts[j]);
  }

  lemma {:induction false} InstructionsKeepFrame(exec: Executor, instructions: seq<Instruction>, all: seq<Instruction>,
                                                 keys: seq<Pubkey>, cells: seq<Account>, budget: U64)
    requires forall ins :: ins in instructions ==> ins in all && WellBehaved(exec, ins)
    requires CellsFor(keys, cells) && ExecuteInstructions(exec, instructions, keys, cells, budget).Ok?
    ensures var out := ExecuteInstructions(exec, instructions, keys, cells, budget).value;
            && CellsFor(keys, out)
            && forall i :: 0 <= i < |cells| && keys[i] !in MetaKeys(all, true) ==> out[i] == cells[i]
    decreases |instructions|
  {
    if instructions != [] {
      var ins := instructions[0];
      assert ins in instructions;
      PreparedInfos(ins.accounts, keys, cells);
      var infos := PrepareInfos(ins.accounts, keys, cells).value;
      PreparedDescribe(infos, ins.accounts, keys);
      var mid := exec(ins, infos, cells, budget).value;
      forall i | 0 <= i < |cells| && keys[i] !in MetaKeys(all, true) ensures mid[i] == cells[i] {
        if i in Borrowed(infos) {
          BorrowedAreWritten(ins, all, keys, infos, i);
        }
      }
      InstructionsKeepFrame(exec, instructions[1..], all, keys, mid, budget);
    }
  }

  /** The instruction loop lifts each program's frame to the transaction: the hypothesis of the group theorem. */
  lemma {:induction false} RunnerFramed(bank: BankView, exec: Executor, budget: Transaction -> U64, tx: Transaction)
    requires forall ins :: ins in tx.message.instructions ==> WellBehaved(exec, ins)
    ensures Framed(RunnerFor(bank, exec, budget), tx)
  {
    var run := RunnerFor(bank, exec, budget);
    forall cells: seq<Account> | LoadedFor(tx, cells) && run(tx, cells).Ok?
      ensures LoadedFor(tx, run(tx, cells).value)
      ensures forall i :: 0 <= i < |cells| && cells[i].pubkey !in WriteKeys(tx) ==> run(tx, cells).value[i] == cells[i]
    {
      var ins, keys := tx.message.instructions, tx.message.accountKeys;
      InstructionsKeepFrame(exec, ins, ins, keys, cells, budget(tx));
    }
  }

  ghost predicate NeverRetryable(run: Runner) {
    forall tx: Transaction, cells: seq<Account> :: run(tx, cells).Err? ==> !run(tx, cells).error.IsRetryable()
  }

  lemma {:induction false} ExecutionErrorsAreFinal(exec: Executor, instructions: seq<Instruction>, keys: seq<Pubkey>,
                                                   cells: seq<Account>, budget: U64)
    ensures var r := ExecuteInstructions(exec, instructions, keys, cells, budget);
            r.Err? ==> r.error.Program?
    decreases |instructions|
  {
    if instructions != [] && |keys| == |cells| && PrepareInfos(instructions[0].accounts, keys, cells).Ok? {
      var r := exec(instructions[0], PrepareInfos(instructions[0].accounts, keys, cells).value, cells, budget);
      if r.Ok? {
        ExecutionErrorsAreFinal(exec, instructions[1..], keys, r.value, budget);
      }
    }
  }

  /** Neither preflight nor execution reports an error the banking stage would re-queue. */
  lemma {:induction false} BankErrorsAreFinal(bank: BankView, exec: Executor, budget: Transaction -> U64)
    ensures NeverRetryable(RunnerFor(bank, exec, budget))
  {
    var run := RunnerFor(bank, exec, budget);
    forall tx: Transaction, cells: seq<Account> | run(tx, cells).Err? ensures !run(tx, cells).error.IsRetryable() {
      ExecutionErrorsAreFinal(exec, tx.message.instructions, tx.message.accountKeys, cells, budget(tx));
    }
  }

  // ----- any accepted meta list can be loaded from any store

  /** The keys of a meta list, each once. */
  function KeysOf(metas: seq<AccountMeta>): seq<Pubkey> {
    if metas == [] then [] else
      var n := |metas| - 1;
      var init := KeysOf(metas[..n]);
      if metas[n].pubkey in init then init else init + [metas[n].pubkey]
  }

  lemma {:induction false} KeysOfOnce(metas: seq<AccountMeta>)
    ensures NoRepeats(KeysOf(metas))
  {
    if metas != [] {
      var init := KeysOf(metas[..|metas| - 1]);
      KeysOfOnce(metas[..|metas| - 1]);
      assert forall i :: 0 <= i < |init| ==> init[i] in init;
    }
  }

  lemma {:induction false} KeyOfMeta(metas: seq<AccountMeta>, j: nat)
    requires j < |metas|
    ensures metas[j].pubkey in KeysOf(metas)
  {
    var n := |metas| - 1;
    if j < n {
      KeyOfMeta(metas[..n], j);
    }
  }

  /** Infos for a meta list over the accounts a store holds under its keys. */
  ghost predicate LoadedInfos(s: Store, metas: seq<AccountMeta>, infos: seq<AccountInfo>, cells: seq<Account>) {
    && Describes(infos, metas, |cells|) && cells == LoadAll(s, KeysOf(metas)) && InfosFor(infos, metas, KeysOf(metas))
    && PrepareInfos(metas, KeysOf(metas), cells) == Ok(infos)
    && forall j :: 0 <= j < |metas| ==> cells[infos[j].cell] == LoadOr(s, metas[j].pubkey)
  }

  lemma {:induction false} LoadInfos(s: Store, metas: seq<AccountMeta>) returns (infos: seq<AccountInfo>, cells: seq<Account>)
    requires WritableOnce(metas)
    ensures LoadedInfos(s, metas, infos, cells)
  {
    var keys := KeysOf(metas);
    cells := LoadAll(s, keys);
    forall j | 0 <= j < |metas| ensures metas[j].pubkey in keys {
      KeyOfMeta(metas, j);
    }
    PrepareFailsIff(metas, keys, cells);
    infos := PrepareInfos(metas, keys, cells).value;
    PreparedInfos(metas, keys, cells);
    PreparedDescribe(infos, metas, keys);
  }

  /** Changing an account that no meta marks writable breaks the frame. */
  lemma {:induction false} FrameBroken(exec: Executor, ins: Instruction, infos: seq<AccountInfo>, cells: seq<Account>, budget: U64, j: nat)
    requires Describes(infos, ins.accounts, |cells|) && exec(ins, infos, cells, budget).Ok? && j < |ins.accounts|
    requires var out := exec(ins, infos, cells, budget).value; |out| == |cells| && out[infos[j].cell] != cells[infos[j].cell]
    requires ins.accounts[j].pubkey !in KeysIn(ins.accounts, true)
    ensures !WellBehaved(exec, ins)
  {
    BorrowedIff(infos, ins.accounts, |cells|, j);
  }

  // ----- the same, step by step

  method PrepareAccountInfos(metas: seq<AccountMeta>, keys: seq<Pubkey>, cells: seq<Account>)
    returns (r: Result<seq<AccountInfo>, ProgramError>)
    requires |keys| == |cells|
    ensures r == PrepareInfos(metas, keys, cells)
  {
    var infos: seq<AccountInfo> := [];
    var borrowedMutably: set<nat> := {};
    for j := 0 to |metas|
      invariant PrepareInfos(metas[..j], keys, cells) == Ok(infos)
      invariant borrowedMutably == Borrowed(infos)
    {
      assert metas[..j + 1][..j] == metas[..j];
      var index := FirstIndex(keys, metas[j].pubkey);
      if index.None? {
        PrepareStops(metas, keys, cells, j + 1);
        return Err(InternalError("instruction account not found in transaction"));
      }
      if metas[j].isWritable {
        if index.value in borrowedMutably {
          PrepareStops(metas, keys, cells, j + 1);
          return Err(InternalError("account borrowed mutably more than once"));
        }
        borrowedMutably := borrowedMutably + {index.value};
      }
      infos := infos + [InfoFor(metas[j], index.value, cells[index.value])];
    }
    assert metas[..|metas|] == metas;
    r := Ok(infos);
  }

  /** The first failing meta decides the error. */
  lemma {:induction false} PrepareStops(metas: seq<AccountMeta>, keys: seq<Pubkey>, cells: seq<Account>, j: nat)
    requires |keys| == |cells| && j <= |metas| && PrepareInfos(metas[..j], keys, cells).Err?
    ensures PrepareInfos(metas, keys, cells) == PrepareInfos(metas[..j], keys, cells)
  {
    if j == |metas| {
      assert metas[..j] == metas;
    } else {
      var n := |metas| - 1;
      assert metas[..n][..j] == metas[..j];
      PrepareStops(metas[..n], keys, cells, j);
    }
  }

  /** Which error: metas are looked at in order, a key that was not loaded before a second writable use of one that was. */
  lemma {:induction false} PrepareErrors(metas: seq<AccountMeta>, keys: seq<Pubkey>, cells: seq<Account>, j: nat)
    requires |keys| == |cells| && j < |metas| && PrepareInfos(metas[..j], keys, cells).Ok?
    ensures metas[j].pubkey !in keys ==>
      PrepareInfos(metas, keys, cells) == Err(InternalError("instruction account not found in transaction"))
    ensures metas[j].pubkey in keys && !WritableOnce(metas[..j + 1]) ==>
      PrepareInfos(metas, keys, cells) == Err(InternalError("account borrowed mutably more than once"))
  {
    var init := metas[..j + 1];
    assert init[..j] == metas[..j];
    PrepareFailsIff(init, keys, cells);
    PrepareFailsIff(metas[..j], keys, cells);
    if PrepareInfos(init, keys, cells).Err? {
      PrepareStops(metas, keys, cells, j + 1);
    }
  }

  /** The result has the expected error, or is an overlay over the bank's accounts. */
  ghost predicate SameKind(base: AccountStore, e: Result<Store, TransactionError>, r: Result<AccountStore, TransactionError>) {
    if e.Err? then r == Err(e.error) else r.Ok? && r.value.parent == base && r.value.Chained()
  }

  /** The result is the expected one; a success is an overlay over the bank's accounts holding the expected writes. */
  ghost predicate IsOverlay(base: AccountStore, e: Result<Store, TransactionError>, r: Result<AccountStore, TransactionError>)
    reads if r.Ok? then {r.value} else {}
  {
    SameKind(base, e, r) && (e.Ok? ==> r.value.entries == e.value)
  }

  class Bank {
    const slot: U64
    const accounts: AccountStore
    const queue: seq<BlockhashInfo>
    const parent: Bank?
    const parentHash: Hash
    var isFrozen: bool
    var finalizedHash: Option<Hash>

    ghost function View(): BankView
      reads this
    {
      BankView(slot, queue, isFrozen)
    }

    function GetHash(): Hash
      reads this
    {
      if finalizedHash.Some? then finalizedHash.value else parentHash
    }

    constructor Genesis(store: AccountStore)
      ensures View() == BankView(0, [BlockhashInfo(Hash(ZERO32), 0)], false) && accounts == store
      ensures finalizedHash == None && parentHash == Hash(ZERO32)
    {
      slot, accounts, queue, parent, parentHash := 0, store, [GENESIS_ENTRY], null, Hash(ZERO32);
      isFrozen, finalizedHash := false, None;
    }

    /** Computes the root once; a bank with an empty in-memory store cannot be frozen (the code panics). */
    method Freeze(sha: Merkle.Sha)
      requires accounts.Chained() && accounts.KeyedBelow()
      requires isFrozen || accounts.View() != map[] || accounts.parent != null
      modifies this
      ensures isFrozen
      ensures old(isFrozen) || old(finalizedHash).Some? ==> finalizedHash == old(finalizedHash)
      ensures !old(isFrozen) && old(finalizedHash).None? ==>
        finalizedHash.Some? && IsRoot(sha, old(accounts.View()), accounts.parent != null, Ok(finalizedHash.value))
    {
      if isFrozen {
        return;
      }
      if finalizedHash.None? {
        var root := accounts.GetRootHash(sha);
        finalizedHash := Some(root.value);
      }
      isFrozen := true;
    }

    /** `new_from_parent`: freeze the parent, then queue its hash under its own slot. */
    constructor FromParent(from: Bank, sha: Merkle.Sha)
      requires from.slot < U64_MAX && from.accounts.Chained() && from.accounts.KeyedBelow()
      requires from.isFrozen || from.accounts.View() != map[] || from.accounts.parent != null
      modifies from
      ensures View() == Child(old(from.View()), from.GetHash()) && parent == from && accounts == from.accounts
      ensures from.isFrozen && finalizedHash == None
      ensures parentHash == (if from.finalizedHash.Some? then from.finalizedHash.value else from.parentHash)
      ensures slot == from.slot + 1 && 0 < |queue| <= |from.queue| + 1 && queue[|queue| - 1] == BlockhashInfo(parentHash, from.slot)
    {
      from.Freeze(sha);
      var pushed := from.queue + [BlockhashInfo(from.GetHash(), from.slot)];
      slot := from.slot + 1;
      accounts := from.accounts;
      queue := if |pushed| > MAX_BLOCKHASH_QUEUE_DEPTH then pushed[1..] else pushed;
      parent := from;
      parentHash := from.GetHash();
      isFrozen, finalizedHash := false, None;
    }

    method LoadAndVerifyAccounts(tx: Transaction, store: AccountStore) returns (cells: seq<Account>)
      requires store.Chained()
      ensures cells == LoadAll(store.View(), tx.message.accountKeys)
    {
      cells := [];
      var keys := tx.message.accountKeys;
      for i := 0 to |keys|
        invariant |cells| == i && forall j :: 0 <= j < i ==> cells[j] == LoadOr(store.View(), keys[j])
      {
        var found := store.Load(keys[i]);
        cells := cells + [if found.Some? then found.value else FreshAccount(keys[i])];
      }
    }

    method ExecuteAll(tx: Transaction, loaded: seq<Account>, exec: Executor, budget: U64)
      returns (r: Result<seq<Account>, TransactionError>)
      requires |loaded| == |tx.message.accountKeys|
      ensures r == ExecuteInstructions(exec, tx.message.instructions, tx.message.accountKeys, loaded, budget)
    {
      var instructions, keys, cells := tx.message.instructions, tx.message.accountKeys, loaded;
      for i := 0 to |instructions|
        invariant |cells| == |keys|
        invariant ExecuteInstructions(exec, instructions, keys, loaded, budget)
               == ExecuteInstructions(exec, instructions[i..], keys, cells, budget)
      {
        assert instructions[i..][0] == instructions[i] && instructions[i..][1..] == instructions[i + 1..];
        var infos := PrepareAccountInfos(instructions[i].accounts, keys, cells);
        if infos.Err? {
          return Err(Program(infos.error));
        }
        var out := exec(instructions[i], infos.value, cells, budget);
        if out.Err? {
          return Err(Program(out.error));
        }
        if |out.value| != |keys| {
          return Err(Program(InternalError("cell count changed")));
        }
        cells := out.value;
      }
      r := Ok(cells);
    }

    /** On success a fresh overlay over the bank's store holding every loaded account; nothing else changes. */
    method ProcessSingleTransaction(tx: Transaction, exec: Executor, budget: Transaction -> U64)
      returns (r: Result<AccountStore, TransactionError>)
      requires accounts.Chained()
      ensures IsOverlay(accounts, Process(RunnerFor(View(), exec, budget), old(accounts.View()), tx), r)
      ensures r.Ok? ==> fresh(r.value)
      ensures accounts.View() == old(accounts.View())
    {
      var preflight := CheckPreflight(BankView(slot, queue, isFrozen), tx);
      if preflight.Err? {
        return Err(preflight.error);
      }
      var cells := LoadAndVerifyAccounts(tx, accounts);
      var out := ExecuteAll(tx, cells, exec, budget(tx));
      if out.Err? {
        return Err(out.error);
      }
      var overlay := new AccountStore.Overlay(accounts);
      for i := 0 to |out.value|
        invariant overlay.entries == Dirty(out.value[..i])
      {
        assert out.value[..i + 1][..i] == out.value[..i];
        overlay.Put(out.value[i].pubkey, out.value[i]);
      }
      assert out.value[..|out.value|] == out.value;
      r := Ok(overlay);
    }
  }
}
