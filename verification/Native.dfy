/** The native executor: system and token program behind one dispatch, and the lamports it conserves. */
module Native {
  import opened Types
  import opened Banks
  import opened Serial
  import opened SystemProgram
  import TokenProgram
  import BlockhashQueue

  type Rent = TokenProgram.Rent

  function Dispatch(rent: Rent, ins: Instruction, infos: seq<AccountInfo>, cells: seq<Account>): Result<seq<Account>, ProgramError>
    requires forall j :: 0 <= j < |infos| ==> infos[j].cell < |cells|
  {
    if ins.programId == SYSTEM_PROGRAM_ID then Entrypoint(ins.data, infos, cells)
    else if ins.programId == TOKEN_PROGRAM_ID then TokenProgram.Entrypoint(rent, ins.data, infos, cells)
    else Err(AccountNotFound(ins.programId))
  }

  /** The executor holding the system and the token program.  Prepared infos always point into the cells. */
  function NativeExecutor(rent: Rent): Executor {
    (ins: Instruction, infos: seq<AccountInfo>, cells: seq<Account>, budget: U64) =>
      if exists j :: 0 <= j < |infos| && infos[j].cell >= |cells| then Err(InvalidArgument) else Dispatch(rent, ins, infos, cells)
  }

  ghost function NativeRunner(bank: BlockhashQueue.BankView, rent: Rent, budget: Transaction -> U64): Runner {
    RunnerFor(bank, NativeExecutor(rent), budget)
  }

  // ----- which accounts are written

  /** What the instruction changes is marked writable, whichever of the two programs it calls. */
  predicate Marked(ins: Instruction) {
    SystemProgram.WritesMarked(ins) && TokenProgram.WritesMarked(ins)
  }

  /** Each program on its own decides. */
  lemma {:induction false} ProgramsDecide(rent: Rent, ins: Instruction)
    ensures ins.programId == SYSTEM_PROGRAM_ID ==> (WellBehaved(NativeExecutor(rent), ins) <==> WellBehaved(SystemExecutor(), ins))
    ensures ins.programId == TOKEN_PROGRAM_ID ==>
      (WellBehaved(NativeExecutor(rent), ins) <==> WellBehaved(TokenProgram.TokenExecutor(rent), ins))
    ensures ins.programId != SYSTEM_PROGRAM_ID && ins.programId != TOKEN_PROGRAM_ID ==> WellBehaved(NativeExecutor(rent), ins)
  {
    forall infos: seq<AccountInfo>, cells: seq<Account>, budget: U64
      ensures ins.programId == SYSTEM_PROGRAM_ID ==>
        (NativeExecutor(rent)(ins, infos, cells, budget).Ok? <==> SystemExecutor()(ins, infos, cells, budget).Ok?)
        && (NativeExecutor(rent)(ins, infos, cells, budget) == SystemExecutor()(ins, infos, cells, budget))
      ensures ins.programId == TOKEN_PROGRAM_ID ==>
        NativeExecutor(rent)(ins, infos, cells, budget) == TokenProgram.TokenExecutor(rent)(ins, infos, cells, budget)
    {
    }
  }

  /** The native executor changes writable accounts only, under every rent rule, exactly for callers that mark what changes. */
  lemma {:induction false} NativeWellBehavedIff(ins: Instruction)
    ensures (forall rent: Rent :: WellBehaved(NativeExecutor(rent), ins)) <==> Marked(ins)
  {
    SystemWellBehavedIff(ins);
    TokenProgram.TokenWellBehavedIff(ins);
    forall rent: Rent
      ensures ins.programId == SYSTEM_PROGRAM_ID ==> (WellBehaved(NativeExecutor(rent), ins) <==> WellBehaved(SystemExecutor(), ins))
    {
      ProgramsDecide(rent, ins);
    }
    forall rent: Rent
      ensures ins.programId == TOKEN_PROGRAM_ID ==>
        (WellBehaved(NativeExecutor(rent), ins) <==> WellBehaved(TokenProgram.TokenExecutor(rent), ins))
      ensures ins.programId != SYSTEM_PROGRAM_ID && ins.programId != TOKEN_PROGRAM_ID ==> WellBehaved(NativeExecutor(rent), ins)
    {
      ProgramsDecide(rent, ins);
    }
    if ins.programId == SYSTEM_PROGRAM_ID {
      var some := TokenProgram.Exempting();
      assert WellBehaved(NativeExecutor(some), ins) <==> WellBehaved(SystemExecutor(), ins);
    }
  }

  /** A transaction whose instructions mark what they change meets the group theorem's hypothesis. */
  lemma {:induction false} MarkedIsFramed(bank: BlockhashQueue.BankView, rent: Rent, budget: Transaction -> U64, tx: Transaction)
    requires forall ins :: ins in tx.message.instructions ==> Marked(ins)
    ensures Framed(NativeRunner(bank, rent, budget), tx)
  {
    forall ins | ins in tx.message.instructions ensures WellBehaved(NativeExecutor(rent), ins) {
      NativeWellBehavedIff(ins);
    }
    RunnerFramed(bank, NativeExecutor(rent), budget, tx);
  }

  // ----- lamports inside one transaction

  /** Only data of cells that some info names differs. */
  ghost predicate DataOnly(infos: seq<AccountInfo>, cells: seq<Account>, out: seq<Account>) {
    && |out| == |cells| && (forall i :: 0 <= i < |cells| ==> TokenProgram.OnlyData(cells[i], out[i]))
    && (forall i :: 0 <= i < |cells| && (forall j :: 0 <= j < |infos| ==> infos[j].cell != i) ==> out[i] == cells[i])
  }

  lemma MintTouchesData(amount: U64, infos: seq<AccountInfo>, cells: seq<Account>)
    requires (forall j :: 0 <= j < |infos| ==> infos[j].cell < |cells|) && TokenProgram.ExecuteMint(amount, infos, cells).Ok?
    ensures DataOnly(infos, cells, TokenProgram.ExecuteMint(amount, infos, cells).value)
  {
  }

  lemma TransferTouchesData(amount: U64, infos: seq<AccountInfo>, cells: seq<Account>)
    requires (forall j :: 0 <= j < |infos| ==> infos[j].cell < |cells|) && TokenProgram.ExecuteTransfer(amount, infos, cells).Ok?
    ensures DataOnly(infos, cells, TokenProgram.ExecuteTransfer(amount, infos, cells).value)
  {
  }

  lemma InitializeTouchesData(rent: Rent, decimals: Byte, authority: Pubkey, infos: seq<AccountInfo>, cells: seq<Account>)
    requires forall j :: 0 <= j < |infos| ==> infos[j].cell < |cells|
    ensures var r := TokenProgram.ExecuteInitializeMint(rent, decimals, authority, infos, cells); r.Ok? ==> DataOnly(infos, cells, r.value)
    ensures var r := TokenProgram.ExecuteInitializeAccount(rent, infos, cells); r.Ok? ==> DataOnly(infos, cells, r.value)
  {
  }

  /** The token program moves no lamports and renames nobody. */
  lemma {:induction false} TokensKeepLamports(rent: Rent, data: seq<Byte>, infos: seq<AccountInfo>, cells: seq<Account>)
    requires (forall j :: 0 <= j < |infos| ==> infos[j].cell < |cells|) && TokenProgram.Entrypoint(rent, data, infos, cells).Ok?
    ensures DataOnly(infos, cells, TokenProgram.Entrypoint(rent, data, infos, cells).value)
  {
    match TokenProgram.Decode(data).value {
      case SetAuthority(_) => TokenProgram.NestedCallFails(data);
      case MintTo(amount) => MintTouchesData(amount, infos, cells);
      case Transfer(amount) => TransferTouchesData(amount, infos, cells);
      case InitializeMint(decimals, authority) => InitializeTouchesData(rent, decimals, authority, infos, cells);
      case InitializeAccount => InitializeTouchesData(rent, 0, SYSTEM_PROGRAM_ID, infos, cells);
    }
  }

  lemma {:induction false} SameLamports(cells: seq<Account>, out: seq<Account>)
    requires |out| == |cells| && forall i :: 0 <= i < |cells| ==> out[i].lamports == cells[i].lamports
    ensures SumLamports(out) == SumLamports(cells)
  {
    if cells != [] {
      SameLamports(cells[..|cells| - 1], out[..|cells| - 1]);
    }
  }

  /** Keys stay, and a cell no info names does not change. */
  lemma {:induction false} DispatchTouches(rent: Rent, ins: Instruction, infos: seq<AccountInfo>, cells: seq<Account>)
    requires (forall j :: 0 <= j < |infos| ==> infos[j].cell < |cells|) && Dispatch(rent, ins, infos, cells).Ok?
    ensures var out := Dispatch(rent, ins, infos, cells).value;
            && |out| == |cells|
            && (forall i :: 0 <= i < |cells| ==> out[i].pubkey == cells[i].pubkey)
            && (forall i :: 0 <= i < |cells| && (forall j :: 0 <= j < |infos| ==> infos[j].cell != i) ==> out[i] == cells[i])
  {
    if ins.programId == TOKEN_PROGRAM_ID {
      TokensKeepLamports(rent, ins.data, infos, cells);
    }
  }

  lemma {:induction false} DispatchConserves(rent: Rent, ins: Instruction, infos: seq<AccountInfo>, cells: seq<Account>)
    requires (forall j :: 0 <= j < |infos| ==> infos[j].cell < |cells|) && SumLamports(cells) <= U64_MAX
    requires Dispatch(rent, ins, infos, cells).Ok?
    ensures var out := Dispatch(rent, ins, infos, cells).value; |out| == |cells| && SumLamports(out) == SumLamports(cells)
  {
    if ins.programId == SYSTEM_PROGRAM_ID {
      EntrypointConserves(ins.data, infos, cells);
    } else {
      TokensKeepLamports(rent, ins.data, infos, cells);
      SameLamports(cells, TokenProgram.Entrypoint(rent, ins.data, infos, cells).value);
    }
  }

  /** Any instruction list the native programs accept conserves the lamports of the loaded accounts. */
  lemma {:induction false} InstructionsConserve(rent: Rent, instructions: seq<Instruction>, keys: seq<Pubkey>,
                                                cells: seq<Account>, budget: U64)
    requires CellsFor(keys, cells) && SumLamports(cells) <= U64_MAX
    requires ExecuteInstructions(NativeExecutor(rent), instructions, keys, cells, budget).Ok?
    ensures var out := ExecuteInstructions(NativeExecutor(rent), instructions, keys, cells, budget).value;
            CellsFor(keys, out) && SumLamports(out) == SumLamports(cells)
    decreases |instructions|
  {
    if instructions != [] {
      var infos := PrepareInfos(instructions[0].accounts, keys, cells).value;
      PreparedInfos(instructions[0].accounts, keys, cells);
      DispatchTouches(rent, instructions[0], infos, cells);
      DispatchConserves(rent, instructions[0], infos, cells);
      InstructionsConserve(rent, instructions[1..], keys, Dispatch(rent, instructions[0], infos, cells).value, budget);
    }
  }
}
