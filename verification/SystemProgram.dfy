/** The system program, and the lamports it moves. */
module SystemProgram {
  import opened Types
  import opened Bytes
  import opened Banks

  datatype SystemInstruction =
    | Transfer(lamports: U64)
    | Assign(owner: Pubkey)
    | CreateAccount(lamports: U64, space: U64, owner: Pubkey)

  function Encode(ins: SystemInstruction): seq<Byte> {
    match ins
    case Transfer(lamports) => LittleEndian(0, 4) + LittleEndian(lamports, 8)
    case Assign(owner) => LittleEndian(1, 4) + owner.bytes
    case CreateAccount(lamports, space, owner) =>
      LittleEndian(2, 4) + LittleEndian(lamports, 8) + LittleEndian(space, 8) + owner.bytes
  }

  /** Fixed-width bincode: a four-byte variant index, the fields, and no trailing bytes. */
  function Decode(data: seq<Byte>): Option<SystemInstruction> {
    if |data| < 4 then None else
      var tag := FromLittleEndian(data[..4]);
      if tag == 0 && |data| == 12 then Some(Transfer(U64At(data, 4)))
      else if tag == 1 && |data| == 36 then Some(Assign(Pubkey(data[4..36])))
      else if tag == 2 && |data| == 52 then Some(CreateAccount(U64At(data, 4), U64At(data, 12), Pubkey(data[20..52])))
      else None
  }

  lemma {:induction false} DecodeEncode(ins: SystemInstruction)
    ensures Decode(Encode(ins)) == Some(ins)
  {
    var data := Encode(ins);
    match ins {
      case Transfer(lamports) =>
        TagAt(0, LittleEndian(lamports, 8));
        U64AtEncoded(LittleEndian(0, 4), lamports, [], data);
      case Assign(owner) =>
        TagAt(1, owner.bytes);
        SliceIs(LittleEndian(1, 4), owner.bytes, [], data);
      case CreateAccount(lamports, space, owner) =>
        CreateLayout(lamports, space, owner);
    }
  }

  lemma {:induction false} CreateLayout(lamports: U64, space: U64, owner: Pubkey)
    ensures Decode(Encode(CreateAccount(lamports, space, owner))) == Some(CreateAccount(lamports, space, owner))
  {
    var data := Encode(CreateAccount(lamports, space, owner));
    var tag, l, s := LittleEndian(2, 4), LittleEndian(lamports, 8), LittleEndian(space, 8);
    assert FromLittleEndian(data[..4]) == 2 by {
      TagAt(2, l + s + owner.bytes);
      assert data == tag + (l + s + owner.bytes);
    }
    assert U64At(data, 4) == lamports by {
      U64AtEncoded(tag, lamports, s + owner.bytes, data);
    }
    assert U64At(data, 12) == space by {
      U64AtEncoded(tag + l, space, owner.bytes, data);
    }
    assert data[20..52] == owner.bytes by {
      SliceIs(tag + l + s, owner.bytes, [], data);
    }
  }

  /** Twelve bytes 0,0,0,0 and an amount; 36 bytes 1,0,0,0 and a key; 52 bytes 2,0,0,0, an amount, a size and a key. */
  ghost predicate IsTransfer(data: seq<Byte>) {
    |data| == 12 && data[..4] == [0, 0, 0, 0]
  }

  ghost predicate IsAssign(data: seq<Byte>) {
    |data| == 36 && data[..4] == [1, 0, 0, 0]
  }

  ghost predicate IsCreate(data: seq<Byte>) {
    |data| == 52 && data[..4] == [2, 0, 0, 0]
  }

  /** What any bytes mean: the fields are little-endian numbers and keys in declaration order, with nothing behind them. */
  lemma {:induction false} DecodeExact(data: seq<Byte>)
    ensures Decode(data).Some? <==> IsTransfer(data) || IsAssign(data) || IsCreate(data)
    ensures IsTransfer(data) ==> Decode(data) == Some(Transfer(Digits8(data, 4)))
    ensures IsAssign(data) ==> Decode(data).Some? && Decode(data).value.Assign? && Decode(data).value.owner.bytes == data[4..]
    ensures IsCreate(data) ==> Decode(data).Some? && Decode(data).value.CreateAccount?
                               && Decode(data).value.lamports == Digits8(data, 4) && Decode(data).value.space == Digits8(data, 12)
                               && Decode(data).value.owner.bytes == data[20..]
  {
    if |data| >= 4 {
      TagDigits(data, 0);
      TagDigits(data, 1);
      TagDigits(data, 2);
      assert data[..4] == [data[0], data[1], data[2], data[3]];
    }
    if |data| >= 12 {
      U64Digits(data, 4);
    }
    if |data| >= 20 {
      U64Digits(data, 12);
    }
  }

  // ----- the entrypoint

  /** Moves lamports between two cells, which may be the same cell. */
  function Move(cells: seq<Account>, from: nat, to: nat, lamports: U64): (out: seq<Account>)
    requires from < |cells| && to < |cells|
    ensures |out| == |cells|
  {
    var debited := cells[from := cells[from].(lamports := SatSub(cells[from].lamports, lamports))];
    debited[to := debited[to].(lamports := SatAdd(debited[to].lamports, lamports))]
  }

  function Entrypoint(data: seq<Byte>, infos: seq<AccountInfo>, cells: seq<Account>): Result<seq<Account>, ProgramError>
    requires forall j :: 0 <= j < |infos| ==> infos[j].cell < |cells|
  {
    match Decode(data)
    case None => Err(InvalidInstructionData)
    case Some(Transfer(lamports)) =>
      if |infos| < 2 then Err(InternalError("transfer requires 2 accounts"))
      else if !infos[0].isSigner then Err(MissingRequiredSignature)
      else if cells[infos[0].cell].lamports < lamports then Err(InsufficientFunds)
      else Ok(Move(cells, infos[0].cell, infos[1].cell, lamports))
    case Some(Assign(owner)) =>
      if |infos| < 1 then Err(InternalError("assign requires 1 account"))
      else if !infos[0].isSigner then Err(MissingRequiredSignature)
      else Ok(cells[infos[0].cell := cells[infos[0].cell].(owner := owner)])
    case Some(CreateAccount(lamports, space, owner)) =>
      if |infos| < 2 then Err(NotEnoughAccountKeys)
      else if !infos[0].isSigner || !infos[1].isSigner then Err(MissingRequiredSignature)
      else if cells[infos[0].cell].lamports < lamports then Err(InsufficientFunds)
      else
        var moved := Move(cells, infos[0].cell, infos[1].cell, lamports);
        var to := infos[1].cell;
        Ok(moved[to := moved[to].(data := seq(space, _ => 0), owner := owner)])
  }

  /** The native executor holding only the system program.  Prepared infos always point into the cells. */
  function SystemExecutor(): Executor {
    (ins: Instruction, infos: seq<AccountInfo>, cells: seq<Account>, budget: U64) =>
      if ins.programId != SYSTEM_PROGRAM_ID then Err(AccountNotFound(ins.programId))
      else if exists j :: 0 <= j < |infos| && infos[j].cell >= |cells| then Err(InvalidArgument)
      else Entrypoint(ins.data, infos, cells)
  }

  /** Every account the instruction would change is named by a writable meta, unless it is refused anyway. */
  predicate WritesMarked(ins: Instruction) {
    var a, w := ins.accounts, KeysIn(ins.accounts, true);
    ins.programId == SYSTEM_PROGRAM_ID && WritableOnce(a) ==>
      match Decode(ins.data)
      case Some(Transfer(lamports)) =>
        |a| >= 2 && a[0].isSigner && lamports > 0 && a[0].pubkey != a[1].pubkey ==> a[0].pubkey in w && a[1].pubkey in w
      case Some(Assign(_)) => |a| >= 1 && a[0].isSigner ==> a[0].pubkey in w
      case Some(CreateAccount(lamports, _, _)) =>
        |a| >= 2 && a[0].isSigner && a[1].isSigner ==>
          a[1].pubkey in w && (lamports > 0 && a[0].pubkey != a[1].pubkey ==> a[0].pubkey in w)
      case None => true
  }

  /** A store in which the first account can pay and the second is owned by somebody else. */
  function Funded(a: Pubkey, b: Pubkey, lamports: U64, owner: Pubkey): Store {
    var other := if owner == SYSTEM_PROGRAM_ID then TOKEN_PROGRAM_ID else SYSTEM_PROGRAM_ID;
    map[b := FreshAccount(b).(owner := other)][a := FreshAccount(a).(lamports := lamports, owner := other)]
  }

  lemma {:induction false} UnmarkedTransfer(ins: Instruction, lamports: U64)
    requires !WritesMarked(ins) && Decode(ins.data) == Some(Transfer(lamports))
    ensures !WellBehaved(SystemExecutor(), ins)
  {
    var a := ins.accounts;
    var infos, cells := LoadInfos(Funded(a[0].pubkey, a[1].pubkey, lamports, SYSTEM_PROGRAM_ID), a);
    FrameBroken(SystemExecutor(), ins, infos, cells, 0, if a[0].pubkey in KeysIn(a, true) then 1 else 0);
  }

  lemma {:induction false} UnmarkedAssign(ins: Instruction, owner: Pubkey)
    requires !WritesMarked(ins) && Decode(ins.data) == Some(Assign(owner))
    ensures !WellBehaved(SystemExecutor(), ins)
  {
    var a := ins.accounts;
    var infos, cells := LoadInfos(Funded(a[0].pubkey, a[0].pubkey, 0, owner), a);
    FrameBroken(SystemExecutor(), ins, infos, cells, 0, 0);
  }

  lemma {:induction false} UnmarkedCreate(ins: Instruction, lamports: U64, space: U64, owner: Pubkey)
    requires !WritesMarked(ins) && Decode(ins.data) == Some(CreateAccount(lamports, space, owner))
    ensures !WellBehaved(SystemExecutor(), ins)
  {
    var a := ins.accounts;
    var infos, cells := LoadInfos(Funded(a[0].pubkey, a[1].pubkey, lamports, owner), a);
    FrameBroken(SystemExecutor(), ins, infos, cells, 0, if a[1].pubkey in KeysIn(a, true) then 0 else 1);
  }

  /** The program never looks at writable flags: it keeps to writable accounts exactly when its caller marked them. */
  lemma {:induction false} SystemWellBehavedIff(ins: Instruction)
    ensures WellBehaved(SystemExecutor(), ins) <==> WritesMarked(ins)
  {
    if WritesMarked(ins) {
      forall infos: seq<AccountInfo>, cells: seq<Account>, budget: U64 |
        Describes(infos, ins.accounts, |cells|) && SystemExecutor()(ins, infos, cells, budget).Ok?
        ensures KeepsFrame(infos, cells, SystemExecutor()(ins, infos, cells, budget).value)
      {
        BorrowedIff(infos, ins.accounts, |cells|, 0);
        if |ins.accounts| > 1 {
          BorrowedIff(infos, ins.accounts, |cells|, 1);
        }
      }
    } else {
      match Decode(ins.data) {
        case Some(Transfer(lamports)) => UnmarkedTransfer(ins, lamports);
        case Some(Assign(owner)) => UnmarkedAssign(ins, owner);
        case Some(CreateAccount(lamports, space, owner)) => UnmarkedCreate(ins, lamports, space, owner);
      }
    }
  }

  // ----- lamports inside one transaction

  function SumLamports(cells: seq<Account>): nat {
    if cells == [] then 0 else SumLamports(cells[..|cells| - 1]) + cells[|cells| - 1].lamports
  }

  lemma {:induction false} SumUpdate(cells: seq<Account>, i: nat, a: Account)
    requires i < |cells|
    ensures SumLamports(cells[i := a]) + cells[i].lamports == SumLamports(cells) + a.lamports
    ensures cells[i].lamports <= SumLamports(cells)
  {
    var n := |cells| - 1;
    if i == n {
      assert cells[i := a][..n] == cells[..n];
    } else {
      assert cells[i := a][..n] == cells[..n][i := a];
      SumUpdate(cells[..n], i, a);
    }
  }

  /** A funded move conserves lamports and saturates nowhere, even from a cell to itself. */
  lemma {:induction false} MoveConserves(cells: seq<Account>, from: nat, to: nat, lamports: U64)
    requires from < |cells| && to < |cells| && lamports <= cells[from].lamports && SumLamports(cells) <= U64_MAX
    ensures SumLamports(Move(cells, from, to, lamports)) == SumLamports(cells)
  {
    var debited := cells[from := cells[from].(lamports := SatSub(cells[from].lamports, lamports))];
    SumUpdate(cells, from, debited[from]);
    SumUpdate(debited, to, debited[to].(lamports := SatAdd(debited[to].lamports, lamports)));
  }

  lemma {:induction false} EntrypointConserves(data: seq<Byte>, infos: seq<AccountInfo>, cells: seq<Account>)
    requires (forall j :: 0 <= j < |infos| ==> infos[j].cell < |cells|) && SumLamports(cells) <= U64_MAX
    requires Entrypoint(data, infos, cells).Ok?
    ensures var out := Entrypoint(data, infos, cells).value;
            && |out| == |cells| && SumLamports(out) == SumLamports(cells)
            && forall i :: 0 <= i < |cells| ==> out[i].pubkey == cells[i].pubkey
  {
    match Decode(data) {
      case Some(Transfer(lamports)) =>
        MoveConserves(cells, infos[0].cell, infos[1].cell, lamports);
      case Some(Assign(owner)) =>
        SumUpdate(cells, infos[0].cell, cells[infos[0].cell].(owner := owner));
      case Some(CreateAccount(lamports, space, owner)) =>
        MoveConserves(cells, infos[0].cell, infos[1].cell, lamports);
        var moved, to := Move(cells, infos[0].cell, infos[1].cell, lamports), infos[1].cell;
        SumUpdate(moved, to, moved[to].(data := seq(space, _ => 0), owner := owner));
    }
  }

  // ----- what the instructions do

  /** Only lamports differ, by exactly `delta`. */
  ghost predicate OnlyLamports(before: Account, after: Account, delta: int) {
    after == before.(lamports := after.lamports) && after.lamports == before.lamports + delta
  }

  /** Bytes that are no instruction are refused. */
  lemma {:induction false} GarbageRefused(data: seq<Byte>, infos: seq<AccountInfo>, cells: seq<Account>)
    requires forall j :: 0 <= j < |infos| ==> infos[j].cell < |cells|
    ensures Entrypoint(data, infos, cells) == Err(InvalidInstructionData) <==> !IsTransfer(data) && !IsAssign(data) && !IsCreate(data)
  {
    DecodeExact(data);
  }

  /**
   A transfer succeeds exactly when its first meta signs and has the funds; the errors come in this order.  Between two cells
   it moves exactly the amount, up to the saturation of the receiver; from a cell to itself it changes nothing.
   */
  lemma {:induction false} TransferExact(data: seq<Byte>, infos: seq<AccountInfo>, cells: seq<Account>)
    requires IsTransfer(data) && |infos| >= 2 && forall j :: 0 <= j < |infos| ==> infos[j].cell < |cells|
    ensures var lamports, from, to := Digits8(data, 4), infos[0].cell, infos[1].cell;
            var r := Entrypoint(data, infos, cells);
            && (r.Ok? <==> infos[0].isSigner && lamports <= cells[from].lamports)
            && (r.Err? ==> r.error == if !infos[0].isSigner then MissingRequiredSignature else InsufficientFunds)
            && (r.Ok? && from == to ==> r.value == cells)
            && (r.Ok? && from != to ==> (
                 && |r.value| == |cells|
                 && OnlyLamports(cells[from], r.value[from], 0 - lamports as int)
                 && OnlyLamports(cells[to], r.value[to], SatAdd(cells[to].lamports, lamports) - cells[to].lamports)
                 && forall i :: 0 <= i < |cells| && i != from && i != to ==> r.value[i] == cells[i]))
            && (r.Ok? && from != to && SumLamports(cells) <= U64_MAX ==> cells[to].lamports + lamports <= U64_MAX)
  {
    DecodeExact(data);
    if infos[0].cell != infos[1].cell {
      NoOverflow(cells, infos[0].cell, infos[1].cell);
    }
  }

  /** Too few accounts are refused before anything else. */
  lemma {:induction false} TooFewAccounts(data: seq<Byte>, infos: seq<AccountInfo>, cells: seq<Account>)
    requires forall j :: 0 <= j < |infos| ==> infos[j].cell < |cells|
    ensures IsTransfer(data) && |infos| < 2 ==> Entrypoint(data, infos, cells).Err? && Entrypoint(data, infos, cells).error.InternalError?
    ensures IsAssign(data) && |infos| < 1 ==> Entrypoint(data, infos, cells).Err? && Entrypoint(data, infos, cells).error.InternalError?
    ensures IsCreate(data) && |infos| < 2 ==> Entrypoint(data, infos, cells) == Err(NotEnoughAccountKeys)
  {
    DecodeExact(data);
  }

  lemma {:induction false} NoOverflow(cells: seq<Account>, i: nat, j: nat)
    requires i < |cells| && j < |cells| && i != j
    ensures cells[i].lamports + cells[j].lamports <= SumLamports(cells)
  {
    var emptied := cells[i := cells[i].(lamports := 0)];
    SumUpdate(cells, i, emptied[i]);
    SumUpdate(emptied, j, emptied[j]);
  }

  /** Account creation also gives the new account its size in zero bytes and its owner. */
  lemma {:induction false} CreateExact(data: seq<Byte>, infos: seq<AccountInfo>, cells: seq<Account>)
    requires IsCreate(data) && |infos| >= 2 && forall j :: 0 <= j < |infos| ==> infos[j].cell < |cells|
    ensures var lamports, space, from, to := Digits8(data, 4), Digits8(data, 12), infos[0].cell, infos[1].cell;
            var r := Entrypoint(data, infos, cells);
            var made := cells[to].(data := seq(space, _ => 0), owner := Pubkey(data[20..52]));
            && (r.Ok? <==> infos[0].isSigner && infos[1].isSigner && lamports <= cells[from].lamports)
            && (r.Err? ==> r.error == if !infos[0].isSigner || !infos[1].isSigner then MissingRequiredSignature else InsufficientFunds)
            && (r.Ok? && from == to ==> r.value == cells[to := made])
            && (r.Ok? && from != to ==> (
                 && |r.value| == |cells|
                 && OnlyLamports(cells[from], r.value[from], 0 - lamports as int)
                 && OnlyLamports(made, r.value[to], SatAdd(cells[to].lamports, lamports) - cells[to].lamports)
                 && forall i :: 0 <= i < |cells| && i != from && i != to ==> r.value[i] == cells[i]))
  {
    DecodeExact(data);
  }

  /** Assignment succeeds exactly when its first meta signs, and changes the owner of the first account only. */
  lemma {:induction false} AssignExact(data: seq<Byte>, infos: seq<AccountInfo>, cells: seq<Account>)
    requires IsAssign(data) && |infos| >= 1 && forall j :: 0 <= j < |infos| ==> infos[j].cell < |cells|
    ensures var a := infos[0].cell;
            var r := Entrypoint(data, infos, cells);
            && (r.Ok? <==> infos[0].isSigner) && (r.Err? ==> r.error == MissingRequiredSignature)
            && (r.Ok? ==> (
                 && |r.value| == |cells| && r.value[a] == cells[a].(owner := Pubkey(data[4..36]))
                 && forall i :: 0 <= i < |cells| && i != a ==> r.value[i] == cells[i]))
  {
    DecodeExact(data);
  }
}
