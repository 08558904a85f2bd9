/** Whose lamports an accepted transaction lowers, and what that has to do with its signatures. */
module Authorization {
  import opened Types
  import opened Serial
  import opened Banks
  import opened SystemProgram
  import opened Native
  import opened Lamports
  import BlockhashQueue

  /** The keys whose signatures are checked: the first account keys, one for each signature. */
  function Signers(tx: Transaction): set<Pubkey> {
    set i | 0 <= i < |tx.signatures| && i < |tx.message.accountKeys| :: tx.message.accountKeys[i]
  }

  /** The account an accepted instruction debits, if it debits any. */
  function Payer(ins: Instruction): Option<Pubkey> {
    var a := ins.accounts;
    if ins.programId != SYSTEM_PROGRAM_ID || |a| < 2 || a[0].pubkey == a[1].pubkey then None else
      match Decode(ins.data)
      case Some(Transfer(lamports)) => if lamports > 0 then Some(a[0].pubkey) else None
      case Some(CreateAccount(lamports, _, _)) => if lamports > 0 then Some(a[0].pubkey) else None
      case _ => None
  }

  function PayersOf(ins: Instruction): set<Pubkey> {
    match Payer(ins) case Some(k) => {k} case None => {}
  }

  function Payers(instructions: seq<Instruction>): set<Pubkey> {
    if instructions == [] then {} else PayersOf(instructions[0]) + Payers(instructions[1..])
  }

  /** The keys of the cells with less lamports than before. */
  ghost function LoweredCells(keys: seq<Pubkey>, before: seq<Account>, after: seq<Account>): set<Pubkey>
    requires |keys| == |before| == |after|
  {
    set i | 0 <= i < |keys| && after[i].lamports < before[i].lamports :: keys[i]
  }

  /** The keys some instruction lowers along the execution. */
  ghost function Lowered(rent: Rent, instructions: seq<Instruction>, keys: seq<Pubkey>, cells: seq<Account>): set<Pubkey>
    decreases |instructions|
  {
    if instructions == [] || |keys| != |cells| || PrepareInfos(instructions[0].accounts, keys, cells).Err? then {} else
      var infos := PrepareInfos(instructions[0].accounts, keys, cells).value;
      PreparedInfos(instructions[0].accounts, keys, cells);
      match Dispatch(rent, instructions[0], infos, cells)
      case Err(_) => {}
      case Ok(out) =>
        if |out| != |cells| then {} else LoweredCells(keys, cells, out) + Lowered(rent, instructions[1..], keys, out)
  }

  lemma {:induction false} MoveLowers(cells: seq<Account>, from: nat, to: nat, lamports: U64)
    requires from < |cells| && to < |cells| && lamports <= cells[from].lamports
    ensures var out := Move(cells, from, to, lamports);
            forall i :: 0 <= i < |cells| ==> (out[i].lamports < cells[i].lamports <==> i == from && from != to && lamports > 0)
  {
  }

  /** An accepted instruction lowers exactly its payer. */
  lemma {:induction false} InstructionLowers(rent: Rent, ins: Instruction, infos: seq<AccountInfo>, keys: seq<Pubkey>, cells: seq<Account>)
    requires InfosFor(infos, ins.accounts, keys) && |keys| == |cells| && Dispatch(rent, ins, infos, cells).Ok?
    ensures |Dispatch(rent, ins, infos, cells).value| == |cells| && (Payer(ins).Some? ==> ins.accounts[0].isSigner)
    ensures LoweredCells(keys, cells, Dispatch(rent, ins, infos, cells).value) == PayersOf(ins)
  {
    var out := Dispatch(rent, ins, infos, cells).value;
    DispatchTouches(rent, ins, infos, cells);
    if ins.programId == SYSTEM_PROGRAM_ID {
      PreparedDescribe(infos, ins.accounts, keys);
      match Decode(ins.data) {
        case Some(Transfer(lamports)) => MoveLowers(cells, infos[0].cell, infos[1].cell, lamports);
        case Some(CreateAccount(lamports, _, _)) => MoveLowers(cells, infos[0].cell, infos[1].cell, lamports);
        case Some(Assign(_)) =>
      }
    } else {
      TokensKeepLamports(rent, ins.data, infos, cells);
      assert LoweredCells(keys, cells, out) == {};
    }
  }

  /** An accepted instruction list lowers exactly the accounts its debiting metas name. */
  lemma {:induction false} LoweredExactly(rent: Rent, instructions: seq<Instruction>, keys: seq<Pubkey>, cells: seq<Account>, budget: U64)
    requires ExecuteInstructions(NativeExecutor(rent), instructions, keys, cells, budget).Ok?
    ensures Lowered(rent, instructions, keys, cells) == Payers(instructions)
    decreases |instructions|
  {
    if instructions != [] {
      var infos := PrepareInfos(instructions[0].accounts, keys, cells).value;
      PreparedInfos(instructions[0].accounts, keys, cells);
      InstructionLowers(rent, instructions[0], infos, keys, cells);
      LoweredExactly(rent, instructions[1..], keys, Dispatch(rent, instructions[0], infos, cells).value, budget);
    }
  }

  lemma {:induction false} PayersAre(instructions: seq<Instruction>, k: Pubkey)
    ensures k in Payers(instructions) <==> exists ins :: ins in instructions && Payer(ins) == Some(k)
  {
    if instructions != [] {
      PayersAre(instructions[1..], k);
      if ins :| ins in instructions && Payer(ins) == Some(k) {
        assert ins == instructions[0] || ins in instructions[1..];
      }
    }
  }

  /** Cells of keys that no debiting meta names only gain. */
  lemma {:induction false} OthersOnlyGain(rent: Rent, instructions: seq<Instruction>, keys: seq<Pubkey>, cells: seq<Account>,
                                          budget: U64, i: nat)
    requires CellsFor(keys, cells) && i < |keys| && keys[i] !in Payers(instructions)
    requires ExecuteInstructions(NativeExecutor(rent), instructions, keys, cells, budget).Ok?
    ensures var out := ExecuteInstructions(NativeExecutor(rent), instructions, keys, cells, budget).value;
            CellsFor(keys, out) && cells[i].lamports <= out[i].lamports
    decreases |instructions|
  {
    if instructions != [] {
      var infos := PrepareInfos(instructions[0].accounts, keys, cells).value;
      PreparedInfos(instructions[0].accounts, keys, cells);
      InstructionLowers(rent, instructions[0], infos, keys, cells);
      DispatchTouches(rent, instructions[0], infos, cells);
      var mid := Dispatch(rent, instructions[0], infos, cells).value;
      assert forall j :: 0 <= j < |keys| && mid[j].lamports < cells[j].lamports ==> keys[j] in LoweredCells(keys, cells, mid);
      OthersOnlyGain(rent, instructions[1..], keys, mid, budget, i);
    }
  }

  /** After the flush, whoever has less than before is named by a debiting meta, whatever keys repeat. */
  lemma {:induction false} OnlyPayersLose(rent: Rent, s: Store, keys: seq<Pubkey>, instructions: seq<Instruction>, budget: U64, k: Pubkey)
    requires WellKeyed(s) && Accepted(rent, keys, s, instructions, budget).Ok?
    requires LoadOr(s + Dirty(Accepted(rent, keys, s, instructions, budget).value), k).lamports < LoadOr(s, k).lamports
    ensures k in Payers(instructions)
  {
    var out := Accepted(rent, keys, s, instructions, budget).value;
    if k !in Payers(instructions) {
      OnlyFirstsChange(rent, instructions, keys, LoadAll(s, keys), budget);
      DirtyInKeys(keys, out);
      if k in Dirty(out) {
        var last := LastExists(keys, k);
        LastWins(keys, out, k, last);
        OthersOnlyGain(rent, instructions, keys, LoadAll(s, keys), budget, last);
      }
    }
  }

  /**
   Nothing ties a meta's signer flag to a checked signature.  An accepted transaction lowers only accounts whose signatures
   were checked exactly if each of its debiting signer metas names one of them.
   */
  lemma {:induction false} AuthorizedIff(rent: Rent, tx: Transaction, s: Store, budget: U64)
    requires WellKeyed(s) && Accepted(rent, tx.message.accountKeys, s, tx.message.instructions, budget).Ok?
    ensures Lowered(rent, tx.message.instructions, tx.message.accountKeys, LoadAll(s, tx.message.accountKeys)) <= Signers(tx)
       <==> forall ins :: ins in tx.message.instructions && Payer(ins).Some? ==> Payer(ins).value in Signers(tx)
  {
    var keys, instructions := tx.message.accountKeys, tx.message.instructions;
    LoweredExactly(rent, instructions, keys, LoadAll(s, keys), budget);
    forall k ensures k in Payers(instructions) <==> exists ins :: ins in instructions && Payer(ins) == Some(k) {
      PayersAre(instructions, k);
    }
    forall ins | ins in instructions && Payer(ins).Some? ensures Payer(ins).value in Payers(instructions) {
    }
  }

  /** One signature, by `other`; the payment's signer meta names somebody else. */
  function Unsigned(other: Pubkey, from: Pubkey, to: Pubkey, hash: Hash): Transaction {
    Transaction([ZERO32 + ZERO32], Message([other, from, to], hash, [OneLamport(from, to)]))
  }

  /** Such a transaction is accepted whenever its hash is recent and `from` has a lamport, and `from` has one less afterwards. */
  lemma {:induction false} StrangerPays(bank: BlockhashQueue.BankView, rent: Rent, budget: Transaction -> U64, s: Store,
                                        other: Pubkey, from: Pubkey, to: Pubkey, hash: Hash)
    requires WellKeyed(s) && other != from && from != to && other != to && LoadOr(s, from).lamports >= 1
    requires BlockhashQueue.CheckPreflight(bank, Unsigned(other, from, to, hash)).Ok?
    ensures var tx := Unsigned(other, from, to, hash); var p := Process(NativeRunner(bank, rent, budget), s, tx);
            && Signers(tx) == {other} && p.Ok?
            && LoadOr(Flush(s, p), from).lamports == LoadOr(s, from).lamports - 1
  {
    var tx := Unsigned(other, from, to, hash);
    assert Signers(tx) == {other} by {
      OneSigner(other, from, to, hash);
    }
    var out := StrangerAccepted(rent, s, other, from, to, budget(tx));
    assert Process(NativeRunner(bank, rent, budget), s, tx) == Ok(Dirty(out));
  }

  lemma {:induction false} OneSigner(other: Pubkey, from: Pubkey, to: Pubkey, hash: Hash)
    ensures Signers(Unsigned(other, from, to, hash)) == {other}
  {
    assert [other, from, to][0] == other;
  }

  lemma {:induction false} StrangerAccepted(rent: Rent, s: Store, other: Pubkey, from: Pubkey, to: Pubkey, budget: U64)
    returns (out: seq<Account>)
    requires WellKeyed(s) && other != from && from != to && other != to && LoadOr(s, from).lamports >= 1
    ensures Accepted(rent, [other, from, to], s, [OneLamport(from, to)], budget) == Ok(out)
    ensures from in Dirty(out) && Dirty(out)[from].lamports == LoadOr(s, from).lamports - 1
  {
    var keys := [other, from, to];
    assert keys[0] == other && keys[1] == from && keys[2] == to;
    out := OneLamportLeaves(rent, s, keys, from, to, 1, budget);
  }
}
