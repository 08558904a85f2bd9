/** The token program: packed mints and holders, and the supply they must agree on. */
module TokenProgram {
  import opened Types
  import opened Bytes
  import opened Banks
  import SystemProgram

  datatype Mint = Mint(authority: Pubkey, supply: U64, decimals: Byte, isInitialized: bool)
  datatype TokenAccount = TokenAccount(mint: Pubkey, owner: Pubkey, amount: U64, isInitialized: bool)

  const MINT_LEN := 42
  const HOLDER_LEN := 73

  function PackMint(m: Mint): (packed: seq<Byte>)
    ensures |packed| == MINT_LEN
  {
    m.authority.bytes + LittleEndian(m.supply, 8) + [m.decimals] + [Flag(m.isInitialized)]
  }

  function UnpackMint(data: seq<Byte>): Option<Mint> {
    if |data| != MINT_LEN || data[41] > 1 then None
    else Some(Mint(Pubkey(data[..32]), U64At(data, 32), data[40], data[41] == 1))
  }

  function PackHolder(t: TokenAccount): (packed: seq<Byte>)
    ensures |packed| == HOLDER_LEN
  {
    t.mint.bytes + t.owner.bytes + LittleEndian(t.amount, 8) + [Flag(t.isInitialized)]
  }

  function UnpackHolder(data: seq<Byte>): Option<TokenAccount> {
    if |data| != HOLDER_LEN || data[72] > 1 then None
    else Some(TokenAccount(Pubkey(data[..32]), Pubkey(data[32..64]), U64At(data, 64), data[72] == 1))
  }

  /** Packing inverts unpacking on every mint and on every byte string that unpacks. */
  lemma {:induction false} MintRoundTrip(m: Mint, data: seq<Byte>)
    ensures UnpackMint(PackMint(m)) == Some(m)
    ensures UnpackMint(data).Some? ==> PackMint(UnpackMint(data).value) == data
  {
    var a, n := m.authority.bytes, LittleEndian(m.supply, 8);
    U64AtEncoded(a, m.supply, [m.decimals] + [Flag(m.isInitialized)], PackMint(m));
    SliceIs([], a, n + [m.decimals] + [Flag(m.isInitialized)], PackMint(m));
    if UnpackMint(data).Some? {
      EncodeDecoded(data[32..40]);
    }
  }

  lemma {:induction false} HolderRoundTrip(t: TokenAccount, data: seq<Byte>)
    ensures UnpackHolder(PackHolder(t)) == Some(t)
    ensures UnpackHolder(data).Some? ==> PackHolder(UnpackHolder(data).value) == data
  {
    var a: seq<Byte>, o: seq<Byte>, n := t.mint.bytes, t.owner.bytes, LittleEndian(t.amount, 8);
    U64AtEncoded(a + o, t.amount, [Flag(t.isInitialized)], PackHolder(t));
    SliceIs([], a, o + n + [Flag(t.isInitialized)], PackHolder(t));
    SliceIs(a, o, n + [Flag(t.isInitialized)], PackHolder(t));
    if UnpackHolder(data).Some? {
      EncodeDecoded(data[64..72]);
    }
  }

  /** A mint in 42 bytes: authority, supply, decimals, a flag. */
  lemma {:induction false} MintBytes(data: seq<Byte>)
    ensures UnpackMint(data).Some? <==> |data| == 42 && data[41] <= 1
    ensures UnpackMint(data).Some? ==> var m := UnpackMint(data).value;
            m.authority.bytes == data[..32] && m.supply == Digits8(data, 32) && m.decimals == data[40] && (m.isInitialized <==> data[41] == 1)
  {
    if |data| == 42 {
      U64Digits(data, 32);
    }
  }

  /** A token account in 73 bytes: mint, owner, amount, a flag. */
  lemma {:induction false} HolderBytes(data: seq<Byte>)
    ensures UnpackHolder(data).Some? <==> |data| == 73 && data[72] <= 1
    ensures UnpackHolder(data).Some? ==> var t := UnpackHolder(data).value;
            t.mint.bytes == data[..32] && t.owner.bytes == data[32..64] && t.amount == Digits8(data, 64) && (t.isInitialized <==> data[72] == 1)
  {
    if |data| == 73 {
      U64Digits(data, 64);
    }
  }

  datatype TokenInstruction =
    | MintTo(amount: U64)
    | Transfer(amount: U64)
    | SetAuthority(newAuthority: Pubkey)
    | InitializeMint(decimals: Byte, authority: Pubkey)
    | InitializeAccount

  function Encode(ins: TokenInstruction): seq<Byte> {
    match ins
    case MintTo(amount) => LittleEndian(0, 4) + LittleEndian(amount, 8)
    case Transfer(amount) => LittleEndian(1, 4) + LittleEndian(amount, 8)
    case SetAuthority(key) => LittleEndian(2, 4) + key.bytes
    case InitializeMint(decimals, authority) => LittleEndian(3, 4) + [decimals] + authority.bytes
    case InitializeAccount => LittleEndian(4, 4)
  }

  function Decode(data: seq<Byte>): Option<TokenInstruction> {
    if |data| < 4 then None else
      var tag := FromLittleEndian(data[..4]);
      if tag == 0 && |data| == 12 then Some(MintTo(U64At(data, 4)))
      else if tag == 1 && |data| == 12 then Some(Transfer(U64At(data, 4)))
      else if tag == 2 && |data| == 36 then Some(SetAuthority(Pubkey(data[4..36])))
      else if tag == 3 && |data| == 37 then Some(InitializeMint(data[4], Pubkey(data[5..37])))
      else if tag == 4 && |data| == 4 then Some(InitializeAccount)
      else None
  }

  lemma {:induction false} DecodeEncode(ins: TokenInstruction)
    ensures Decode(Encode(ins)) == Some(ins)
  {
    var data := Encode(ins);
    match ins {
      case MintTo(amount) =>
        TagAt(0, LittleEndian(amount, 8));
        U64AtEncoded(LittleEndian(0, 4), amount, [], data);
      case Transfer(amount) =>
        TagAt(1, LittleEndian(amount, 8));
        U64AtEncoded(LittleEndian(1, 4), amount, [], data);
      case SetAuthority(key) =>
        TagAt(2, key.bytes);
        SliceIs(LittleEndian(2, 4), key.bytes, [], data);
      case InitializeMint(decimals, authority) =>
        TagAt(3, [decimals] + authority.bytes);
        assert data == LittleEndian(3, 4) + ([decimals] + authority.bytes);
        SliceIs(LittleEndian(3, 4) + [decimals], authority.bytes, [], data);
      case InitializeAccount =>
        TagAt(4, []);
        assert data == LittleEndian(4, 4) + [];
    }
  }

  /** The bytes of each instruction: a four-byte index and its fields. */
  ghost predicate IsMintTo(data: seq<Byte>) {
    |data| == 12 && data[..4] == [0, 0, 0, 0]
  }

  ghost predicate IsTransfer(data: seq<Byte>) {
    |data| == 12 && data[..4] == [1, 0, 0, 0]
  }

  ghost predicate IsSetAuthority(data: seq<Byte>) {
    |data| == 36 && data[..4] == [2, 0, 0, 0]
  }

  ghost predicate IsInitializeMint(data: seq<Byte>) {
    |data| == 37 && data[..4] == [3, 0, 0, 0]
  }

  ghost predicate IsInitializeAccount(data: seq<Byte>) {
    data == [4, 0, 0, 0]
  }

  /** What any bytes mean. */
  lemma {:induction false} DecodeExact(data: seq<Byte>)
    ensures Decode(data).Some? <==>
      IsMintTo(data) || IsTransfer(data) || IsSetAuthority(data) || IsInitializeMint(data) || IsInitializeAccount(data)
    ensures IsMintTo(data) ==> Decode(data) == Some(MintTo(Digits8(data, 4)))
    ensures IsTransfer(data) ==> Decode(data) == Some(Transfer(Digits8(data, 4)))
    ensures IsSetAuthority(data) ==> Decode(data) == Some(SetAuthority(Pubkey(data[4..36])))
    ensures IsInitializeMint(data) ==> Decode(data) == Some(InitializeMint(data[4], Pubkey(data[5..37])))
    ensures IsInitializeAccount(data) ==> Decode(data) == Some(InitializeAccount)
  {
    if |data| >= 4 {
      TagDigits(data, 0);
      TagDigits(data, 1);
      TagDigits(data, 2);
      TagDigits(data, 3);
      TagDigits(data, 4);
      assert data[..4] == [data[0], data[1], data[2], data[3]];
    }
    if |data| == 12 {
      U64Digits(data, 4);
    }
  }

  // ----- the entrypoint

  /** What the rent sysvar's data says: nothing when it does not deserialize, else whether a balance is exempt. */
  type Rent = (seq<Byte>, U64, nat) -> Option<bool>

  /** The custom code is the position of the token error in its enumeration. */
  const AUTHORITY_MISMATCH := Custom(2)
  const TOKEN_ACCOUNT_MINT_MISMATCH := Custom(3)
  const SOURCE_NOT_OWNED_BY_SIGNER := Custom(4)
  const MINT_MISMATCH := Custom(5)
  const ALREADY_INITIALIZED := Custom(6)
  const MINT_NOT_INITIALIZED := Custom(7)
  const NOT_RENT_EXEMPT := Custom(8)

  function PackInto(a: Account, packed: seq<Byte>): Account
    requires |packed| <= |a.data|
  {
    a.(data := packed + a.data[|packed|..])
  }

  function ExecuteMint(amount: U64, infos: seq<AccountInfo>, cells: seq<Account>): Result<seq<Account>, ProgramError>
    requires forall j :: 0 <= j < |infos| ==> infos[j].cell < |cells|
  {
    if |infos| < 3 then Err(NotEnoughAccountKeys)
    else if !infos[0].isSigner then Err(MissingRequiredSignature)
    else
      var m, d := infos[1].cell, infos[2].cell;
      match UnpackMint(cells[m].data)
      case None => Err(InvalidAccountData)
      case Some(mint) =>
        if mint.authority != infos[0].pubkey then Err(AUTHORITY_MISMATCH) else
          match UnpackHolder(cells[d].data)
          case None => Err(InvalidAccountData)
          case Some(holder) =>
            if holder.mint != infos[1].pubkey then Err(TOKEN_ACCOUNT_MINT_MISMATCH)
            else Ok(Minted(cells, m, d, mint, holder, amount))
  }

  function Minted(cells: seq<Account>, m: nat, d: nat, mint: Mint, holder: TokenAccount, amount: U64): seq<Account>
    requires m < |cells| && d < |cells| && |cells[m].data| == MINT_LEN && |cells[d].data| == HOLDER_LEN
  {
    var cells' := cells[m := PackInto(cells[m], PackMint(mint.(supply := SatAdd(mint.supply, amount))))];
    cells'[d := PackInto(cells'[d], PackHolder(holder.(amount := SatAdd(holder.amount, amount))))]
  }

  function ExecuteTransfer(amount: U64, infos: seq<AccountInfo>, cells: seq<Account>): Result<seq<Account>, ProgramError>
    requires forall j :: 0 <= j < |infos| ==> infos[j].cell < |cells|
  {
    if |infos| < 3 then Err(NotEnoughAccountKeys)
    else if !infos[0].isSigner then Err(MissingRequiredSignature)
    else
      var s, d := infos[1].cell, infos[2].cell;
      match UnpackHolder(cells[s].data)
      case None => Err(InvalidAccountData)
      case Some(source) =>
        if source.owner != infos[0].pubkey then Err(SOURCE_NOT_OWNED_BY_SIGNER) else
          match UnpackHolder(cells[d].data)
          case None => Err(InvalidAccountData)
          case Some(dest) =>
            if source.mint != dest.mint then Err(MINT_MISMATCH)
            else if source.amount < amount then Err(InsufficientFunds)
            else Ok(Transferred(cells, s, d, source, dest, amount))
  }

  /** Both holders were read before either is written back. */
  function Transferred(cells: seq<Account>, s: nat, d: nat, source: TokenAccount, dest: TokenAccount, amount: U64): seq<Account>
    requires s < |cells| && d < |cells| && |cells[s].data| == HOLDER_LEN && |cells[d].data| == HOLDER_LEN
  {
    var cells' := cells[s := PackInto(cells[s], PackHolder(source.(amount := SatSub(source.amount, amount))))];
    cells'[d := PackInto(cells'[d], PackHolder(dest.(amount := SatAdd(dest.amount, amount))))]
  }

  function ExecuteInitializeMint(rent: Rent, decimals: Byte, authority: Pubkey, infos: seq<AccountInfo>, cells: seq<Account>)
    : Result<seq<Account>, ProgramError>
    requires forall j :: 0 <= j < |infos| ==> infos[j].cell < |cells|
  {
    if |infos| < 2 then Err(NotEnoughAccountKeys) else
      var m := infos[0].cell;
      match rent(cells[infos[1].cell].data, cells[m].lamports, |cells[m].data|)
      case None => Err(InternalError("failed to deserialize rent sysvar"))
      case Some(exempt) =>
        match UnpackMint(cells[m].data)
        case None => Err(InvalidAccountData)
        case Some(mint) =>
          if mint.isInitialized then Err(ALREADY_INITIALIZED)
          else if !exempt then Err(NOT_RENT_EXEMPT)
          else Ok(cells[m := PackInto(cells[m], PackMint(Mint(authority, 0, decimals, true)))])
  }

  function ExecuteInitializeAccount(rent: Rent, infos: seq<AccountInfo>, cells: seq<Account>): Result<seq<Account>, ProgramError>
    requires forall j :: 0 <= j < |infos| ==> infos[j].cell < |cells|
  {
    if |infos| < 4 then Err(NotEnoughAccountKeys) else
      var t := infos[0].cell;
      match rent(cells[infos[3].cell].data, cells[t].lamports, |cells[t].data|)
      case None => Err(InternalError("failed to deserialize rent sysvar"))
      case Some(exempt) =>
        match UnpackHolder(cells[t].data)
        case None => Err(InvalidAccountData)
        case Some(holder) =>
          if holder.isInitialized then Err(ALREADY_INITIALIZED)
          else if !exempt then Err(NOT_RENT_EXEMPT)
          else
            match UnpackMint(cells[infos[1].cell].data)
            case None => Err(InvalidAccountData)
            case Some(mint) =>
              if !mint.isInitialized then Err(MINT_NOT_INITIALIZED)
              else Ok(cells[t := PackInto(cells[t], PackHolder(TokenAccount(infos[1].pubkey, infos[2].pubkey, 0, true)))])
  }

  /** The nested system call reads the token instruction's own data, not the assign instruction built for it. */
  function ExecuteSetAuthority(data: seq<Byte>, infos: seq<AccountInfo>, cells: seq<Account>): Result<seq<Account>, ProgramError>
    requires forall j :: 0 <= j < |infos| ==> infos[j].cell < |cells|
  {
    if |infos| < 2 then Err(NotEnoughAccountKeys)
    else if !infos[1].isSigner then Err(MissingRequiredSignature)
    else SystemProgram.Entrypoint(data, infos[..1], cells)
  }

  function Entrypoint(rent: Rent, data: seq<Byte>, infos: seq<AccountInfo>, cells: seq<Account>): Result<seq<Account>, ProgramError>
    requires forall j :: 0 <= j < |infos| ==> infos[j].cell < |cells|
  {
    match Decode(data)
    case None => Err(InvalidInstructionData)
    case Some(MintTo(amount)) => ExecuteMint(amount, infos, cells)
    case Some(Transfer(amount)) => ExecuteTransfer(amount, infos, cells)
    case Some(SetAuthority(_)) => ExecuteSetAuthority(data, infos, cells)
    case Some(InitializeMint(decimals, authority)) => ExecuteInitializeMint(rent, decimals, authority, infos, cells)
    case Some(InitializeAccount) => ExecuteInitializeAccount(rent, infos, cells)
  }

  function TokenExecutor(rent: Rent): Executor {
    (ins: Instruction, infos: seq<AccountInfo>, cells: seq<Account>, budget: U64) =>
      if ins.programId != TOKEN_PROGRAM_ID then Err(AccountNotFound(ins.programId))
      else if exists j :: 0 <= j < |infos| && infos[j].cell >= |cells| then Err(InvalidArgument)
      else Entrypoint(rent, ins.data, infos, cells)
  }

  /** No token instruction that changes an authority is ever accepted, and this is why each is refused. */
  lemma {:induction false} SetAuthorityNeverSucceeds(rent: Rent, data: seq<Byte>, infos: seq<AccountInfo>, cells: seq<Account>)
    requires IsSetAuthority(data) && forall j :: 0 <= j < |infos| ==> infos[j].cell < |cells|
    ensures Entrypoint(rent, data, infos, cells) == Err(if |infos| < 2 then NotEnoughAccountKeys
                                                        else if !infos[1].isSigner then MissingRequiredSignature
                                                        else InvalidInstructionData)
  {
    DecodeExact(data);
    SystemProgram.DecodeExact(data);
  }

  /** Every account the instruction would change is named by a writable meta, unless it is refused anyway. */
  predicate WritesMarked(ins: Instruction) {
    var a, w := ins.accounts, KeysIn(ins.accounts, true);
    ins.programId == TOKEN_PROGRAM_ID && WritableOnce(a) ==>
      match Decode(ins.data)
      case Some(MintTo(amount)) =>
        |a| >= 3 && a[0].isSigner && amount > 0 && a[1].pubkey != a[2].pubkey ==> a[1].pubkey in w && a[2].pubkey in w
      case Some(Transfer(amount)) =>
        |a| >= 3 && a[0].isSigner && amount > 0 && (a[1].pubkey != a[2].pubkey || amount < U64_MAX) ==>
          a[1].pubkey in w && a[2].pubkey in w
      case Some(InitializeMint(_, _)) => |a| >= 2 ==> a[0].pubkey in w
      case Some(InitializeAccount) => |a| >= 4 && a[0].pubkey != a[1].pubkey ==> a[0].pubkey in w
      case Some(SetAuthority(_)) => true
      case None => true
  }

  /** Packing what was unpacked changes nothing. */
  lemma {:induction false} RepackIdle(a: Account)
    ensures UnpackMint(a.data).Some? ==> PackInto(a, PackMint(UnpackMint(a.data).value)) == a
    ensures UnpackHolder(a.data).Some? ==> PackInto(a, PackHolder(UnpackHolder(a.data).value)) == a
  {
    MintRoundTrip(Mint(SYSTEM_PROGRAM_ID, 0, 0, false), a.data);
    HolderRoundTrip(TokenAccount(SYSTEM_PROGRAM_ID, SYSTEM_PROGRAM_ID, 0, false), a.data);
    if UnpackMint(a.data).Some? {
    } else if UnpackHolder(a.data).Some? {
    }
  }

  lemma {:induction false} IdleMint(cells: seq<Account>, m: nat, d: nat, mint: Mint, holder: TokenAccount)
    requires m < |cells| && d < |cells| && Mints(cells[m], mint) && Holds(cells[d], holder)
    ensures Minted(cells, m, d, mint, holder, 0) == cells
  {
    RepackIdle(cells[m]);
    RepackIdle(cells[d]);
  }

  lemma {:induction false} IdleTransfer(cells: seq<Account>, s: nat, d: nat, source: TokenAccount, dest: TokenAccount, amount: U64)
    requires s < |cells| && d < |cells| && Holds(cells[s], source) && Holds(cells[d], dest)
    requires amount == 0 || (s == d && amount == source.amount == U64_MAX)
    ensures Transferred(cells, s, d, source, dest, amount) == cells
  {
    RepackIdle(cells[s]);
    RepackIdle(cells[d]);
  }

  lemma {:induction false} MintKeepsFrame(ins: Instruction, amount: U64, infos: seq<AccountInfo>, cells: seq<Account>)
    requires WritesMarked(ins) && ins.programId == TOKEN_PROGRAM_ID && Describes(infos, ins.accounts, |cells|)
    requires Decode(ins.data) == Some(MintTo(amount)) && ExecuteMint(amount, infos, cells).Ok?
    ensures KeepsFrame(infos, cells, ExecuteMint(amount, infos, cells).value)
  {
    var m, d := infos[1].cell, infos[2].cell;
    BorrowedIff(infos, ins.accounts, |cells|, 1);
    BorrowedIff(infos, ins.accounts, |cells|, 2);
    if amount == 0 {
      IdleMint(cells, m, d, UnpackMint(cells[m].data).value, UnpackHolder(cells[d].data).value);
    }
  }

  lemma {:induction false} TransferKeepsFrame(ins: Instruction, amount: U64, infos: seq<AccountInfo>, cells: seq<Account>)
    requires WritesMarked(ins) && ins.programId == TOKEN_PROGRAM_ID && Describes(infos, ins.accounts, |cells|)
    requires Decode(ins.data) == Some(Transfer(amount)) && ExecuteTransfer(amount, infos, cells).Ok?
    ensures KeepsFrame(infos, cells, ExecuteTransfer(amount, infos, cells).value)
  {
    var s, d := infos[1].cell, infos[2].cell;
    BorrowedIff(infos, ins.accounts, |cells|, 1);
    BorrowedIff(infos, ins.accounts, |cells|, 2);
    if amount == 0 || (s == d && amount == U64_MAX) {
      IdleTransfer(cells, s, d, UnpackHolder(cells[s].data).value, UnpackHolder(cells[d].data).value, amount);
    }
  }

  // ----- unmarked accounts that are changed

  function Exempting(): Rent {
    (data: seq<Byte>, lamports: U64, n: nat) => Some(true)
  }

  function WithMint(k: Pubkey, m: Mint): Account {
    FreshAccount(k).(data := PackMint(m))
  }

  function WithHolder(k: Pubkey, t: TokenAccount): Account {
    FreshAccount(k).(data := PackHolder(t))
  }

  /** A mint and an account of it can be loaded under any two different keys. */
  lemma {:induction false} StageMint(a: seq<AccountMeta>, mint: Mint, holder: TokenAccount)
    returns (infos: seq<AccountInfo>, cells: seq<Account>)
    requires WritableOnce(a) && |a| >= 3 && a[1].pubkey != a[2].pubkey
    ensures Describes(infos, a, |cells|) && Mints(cells[infos[1].cell], mint) && Holds(cells[infos[2].cell], holder)
  {
    var s: Store := map[a[1].pubkey := WithMint(a[1].pubkey, mint), a[2].pubkey := WithHolder(a[2].pubkey, holder)];
    infos, cells := LoadInfos(s, a);
    MintRoundTrip(mint, []);
    HolderRoundTrip(holder, []);
  }

  lemma {:induction false} StageHolders(a: seq<AccountMeta>, source: TokenAccount, dest: TokenAccount)
    returns (infos: seq<AccountInfo>, cells: seq<Account>)
    requires WritableOnce(a) && |a| >= 3 && (a[1].pubkey == a[2].pubkey ==> source == dest)
    ensures Describes(infos, a, |cells|) && Holds(cells[infos[1].cell], source) && Holds(cells[infos[2].cell], dest)
  {
    var s: Store := map[a[2].pubkey := WithHolder(a[2].pubkey, dest)][a[1].pubkey := WithHolder(a[1].pubkey, source)];
    infos, cells := LoadInfos(s, a);
    HolderRoundTrip(source, []);
    HolderRoundTrip(dest, []);
  }

  lemma {:induction false} UnmarkedMint(ins: Instruction, amount: U64)
    requires !WritesMarked(ins) && Decode(ins.data) == Some(MintTo(amount))
    ensures !WellBehaved(TokenExecutor(Exempting()), ins)
  {
    var a := ins.accounts;
    var mint, holder := Mint(a[0].pubkey, 0, 0, true), TokenAccount(a[1].pubkey, a[0].pubkey, 0, true);
    var infos, cells := StageMint(a, mint, holder);
    MintGrows(amount, infos, cells, mint, holder);
    FrameBroken(TokenExecutor(Exempting()), ins, infos, cells, 0, if a[1].pubkey in KeysIn(a, true) then 2 else 1);
  }

  lemma {:induction false} UnmarkedTransfer(ins: Instruction, amount: U64)
    requires !WritesMarked(ins) && Decode(ins.data) == Some(Transfer(amount))
    ensures !WellBehaved(TokenExecutor(Exempting()), ins)
  {
    var a := ins.accounts;
    var source := TokenAccount(a[1].pubkey, a[0].pubkey, amount, true);
    var dest := if a[1].pubkey == a[2].pubkey then source else source.(amount := 0);
    var infos, cells := StageHolders(a, source, dest);
    TransferMoves(amount, infos, cells, source, dest);
    FrameBroken(TokenExecutor(Exempting()), ins, infos, cells, 0, if a[1].pubkey in KeysIn(a, true) then 2 else 1);
  }

  lemma {:induction false} UnmarkedInitializeMint(ins: Instruction, decimals: Byte, authority: Pubkey)
    requires !WritesMarked(ins) && Decode(ins.data) == Some(InitializeMint(decimals, authority))
    ensures !WellBehaved(TokenExecutor(Exempting()), ins)
  {
    var a := ins.accounts;
    var blank, mint := Mint(SYSTEM_PROGRAM_ID, 0, 0, false), Mint(authority, 0, decimals, true);
    var infos, cells := LoadInfos(map[a[0].pubkey := WithMint(a[0].pubkey, blank)], a);
    MintRoundTrip(blank, []);
    RepackMint(cells[infos[0].cell], mint);
    FrameBroken(TokenExecutor(Exempting()), ins, infos, cells, 0, 0);
  }

  lemma {:induction false} StageBlank(a: seq<AccountMeta>, blank: TokenAccount, mint: Mint)
    returns (infos: seq<AccountInfo>, cells: seq<Account>)
    requires WritableOnce(a) && |a| >= 2 && a[0].pubkey != a[1].pubkey
    ensures Describes(infos, a, |cells|) && Holds(cells[infos[0].cell], blank) && Mints(cells[infos[1].cell], mint)
  {
    var s: Store := map[a[0].pubkey := WithHolder(a[0].pubkey, blank), a[1].pubkey := WithMint(a[1].pubkey, mint)];
    infos, cells := LoadInfos(s, a);
    HolderRoundTrip(blank, []);
    MintRoundTrip(mint, []);
  }

  lemma {:induction false} UnmarkedInitializeAccount(ins: Instruction)
    requires !WritesMarked(ins) && Decode(ins.data) == Some(InitializeAccount)
    ensures !WellBehaved(TokenExecutor(Exempting()), ins)
  {
    var a := ins.accounts;
    var blank, mint := TokenAccount(SYSTEM_PROGRAM_ID, SYSTEM_PROGRAM_ID, 0, false), Mint(SYSTEM_PROGRAM_ID, 0, 0, true);
    var infos, cells := StageBlank(a, blank, mint);
    Repack(cells[infos[0].cell], TokenAccount(a[1].pubkey, a[2].pubkey, 0, true));
    FrameBroken(TokenExecutor(Exempting()), ins, infos, cells, 0, 0);
  }

  /** The program never looks at writable flags: it keeps to writable accounts exactly when its caller marked them. */
  lemma {:induction false} TokenWellBehavedIff(ins: Instruction)
    ensures (forall rent: Rent :: WellBehaved(TokenExecutor(rent), ins)) <==> WritesMarked(ins)
  {
    if WritesMarked(ins) {
      forall rent: Rent, infos: seq<AccountInfo>, cells: seq<Account>, budget: U64 |
        Describes(infos, ins.accounts, |cells|) && TokenExecutor(rent)(ins, infos, cells, budget).Ok?
        ensures KeepsFrame(infos, cells, TokenExecutor(rent)(ins, infos, cells, budget).value)
      {
        match Decode(ins.data).value {
          case MintTo(amount) => MintKeepsFrame(ins, amount, infos, cells);
          case Transfer(amount) => TransferKeepsFrame(ins, amount, infos, cells);
          case SetAuthority(_) => NestedCallFails(ins.data);
          case InitializeMint(_, _) => BorrowedIff(infos, ins.accounts, |cells|, 0);
          case InitializeAccount => BorrowedIff(infos, ins.accounts, |cells|, 0);
        }
      }
    } else {
      match Decode(ins.data).value {
        case MintTo(amount) => UnmarkedMint(ins, amount);
        case Transfer(amount) => UnmarkedTransfer(ins, amount);
        case InitializeMint(decimals, authority) => UnmarkedInitializeMint(ins, decimals, authority);
        case InitializeAccount => UnmarkedInitializeAccount(ins);
      }
    }
  }

  lemma {:induction false} NestedCallFails(data: seq<Byte>)
    requires Decode(data).Some? && Decode(data).value.SetAuthority?
    ensures SystemProgram.Decode(data) == None
  {
  }

  // ----- what a mint and a transfer do

  ghost predicate Holds(a: Account, t: TokenAccount) {
    UnpackHolder(a.data) == Some(t)
  }

  ghost predicate Mints(a: Account, m: Mint) {
    UnpackMint(a.data) == Some(m)
  }

  ghost predicate OnlyData(before: Account, after: Account) {
    after == before.(data := after.data)
  }

  /**
   Accepted exactly when signed by the owner, of one mint and funded.  Between two holders exactly `amount` then moves, up to
   the receiver's saturation; from a holder to itself `amount` is added.
   */
  lemma {:induction false} TransferMoves(amount: U64, infos: seq<AccountInfo>, cells: seq<Account>, source: TokenAccount,
                                         dest: TokenAccount)
    requires |infos| >= 3 && forall j :: 0 <= j < |infos| ==> infos[j].cell < |cells|
    requires Holds(cells[infos[1].cell], source) && Holds(cells[infos[2].cell], dest)
    ensures var s, d := infos[1].cell, infos[2].cell;
            var r := ExecuteTransfer(amount, infos, cells);
            && (r.Ok? <==> infos[0].isSigner && source.owner == infos[0].pubkey && source.mint == dest.mint && amount <= source.amount)
            && (r.Ok? ==> (
                 && r.value == cells[s := r.value[s]][d := r.value[d]]
                 && OnlyData(cells[s], r.value[s]) && OnlyData(cells[d], r.value[d])
                 && (s != d ==> Holds(r.value[s], source.(amount := source.amount - amount)))
                 && Holds(r.value[d], dest.(amount := SatAdd(dest.amount, amount)))))
  {
    if ExecuteTransfer(amount, infos, cells).Ok? {
      var s, d := infos[1].cell, infos[2].cell;
      var spent, received := source.(amount := source.amount - amount), dest.(amount := SatAdd(dest.amount, amount));
      Repack(cells[s], spent);
      Repack(cells[d], received);
    }
  }

  lemma {:induction false} Repack(a: Account, t: TokenAccount)
    requires |a.data| == HOLDER_LEN
    ensures PackInto(a, PackHolder(t)) == a.(data := PackHolder(t)) && UnpackHolder(PackHolder(t)) == Some(t)
  {
    HolderRoundTrip(t, []);
  }

  lemma {:induction false} RepackMint(a: Account, m: Mint)
    requires |a.data| == MINT_LEN
    ensures PackInto(a, PackMint(m)) == a.(data := PackMint(m)) && UnpackMint(PackMint(m)) == Some(m)
  {
    MintRoundTrip(m, []);
  }

  /** Minting: accepted exactly when signed by the mint's authority into one of its holders; then both totals grow. */
  lemma {:induction false} MintGrows(amount: U64, infos: seq<AccountInfo>, cells: seq<Account>, mint: Mint, holder: TokenAccount)
    requires |infos| >= 3 && forall j :: 0 <= j < |infos| ==> infos[j].cell < |cells|
    requires Mints(cells[infos[1].cell], mint) && Holds(cells[infos[2].cell], holder)
    ensures var m, d := infos[1].cell, infos[2].cell;
            var r := ExecuteMint(amount, infos, cells);
            && (r.Ok? <==> infos[0].isSigner && mint.authority == infos[0].pubkey && holder.mint == infos[1].pubkey)
            && (r.Ok? ==> (
                 && r.value == cells[m := r.value[m]][d := r.value[d]]
                 && OnlyData(cells[m], r.value[m]) && Mints(r.value[m], mint.(supply := SatAdd(mint.supply, amount)))
                 && OnlyData(cells[d], r.value[d]) && Holds(r.value[d], holder.(amount := SatAdd(holder.amount, amount)))))
  {
    if ExecuteMint(amount, infos, cells).Ok? {
      RepackMint(cells[infos[1].cell], mint.(supply := SatAdd(mint.supply, amount)));
      Repack(cells[infos[2].cell], holder.(amount := SatAdd(holder.amount, amount)));
    }
  }

  /** Bytes that are no instruction are refused, and so are too few accounts. */
  lemma {:induction false} GarbageRefused(rent: Rent, data: seq<Byte>, infos: seq<AccountInfo>, cells: seq<Account>)
    requires forall j :: 0 <= j < |infos| ==> infos[j].cell < |cells|
    ensures !IsMintTo(data) && !IsTransfer(data) && !IsSetAuthority(data) && !IsInitializeMint(data) && !IsInitializeAccount(data) ==>
      Entrypoint(rent, data, infos, cells) == Err(InvalidInstructionData)
    ensures (IsMintTo(data) || IsTransfer(data)) && |infos| < 3 ==> Entrypoint(rent, data, infos, cells) == Err(NotEnoughAccountKeys)
    ensures (IsSetAuthority(data) || IsInitializeMint(data)) && |infos| < 2 ==> Entrypoint(rent, data, infos, cells) == Err(NotEnoughAccountKeys)
    ensures IsInitializeAccount(data) && |infos| < 4 ==> Entrypoint(rent, data, infos, cells) == Err(NotEnoughAccountKeys)
  {
    DecodeExact(data);
  }

  /**
   A transfer is accepted exactly when signed by the source's owner, of one mint and funded; the errors come in this order.
   Between two holders exactly the amount then moves, up to the receiver's saturation; from a holder to itself it is added.
   */
  lemma {:induction false} TransferExact(rent: Rent, data: seq<Byte>, infos: seq<AccountInfo>, cells: seq<Account>)
    requires IsTransfer(data) && |infos| >= 3 && forall j :: 0 <= j < |infos| ==> infos[j].cell < |cells|
    ensures var amount, s, d := Digits8(data, 4), infos[1].cell, infos[2].cell;
            var source, dest, r := UnpackHolder(cells[s].data), UnpackHolder(cells[d].data), Entrypoint(rent, data, infos, cells);
            && (r.Ok? <==>
                 && infos[0].isSigner && source.Some? && source.value.owner == infos[0].pubkey
                 && dest.Some? && source.value.mint == dest.value.mint && amount <= source.value.amount)
            && (r.Err? ==> (r.error ==
                 if !infos[0].isSigner then MissingRequiredSignature
                 else if source.None? then InvalidAccountData
                 else if source.value.owner != infos[0].pubkey then Custom(4)
                 else if dest.None? then InvalidAccountData
                 else if source.value.mint != dest.value.mint then Custom(5)
                 else InsufficientFunds))
            && (r.Ok? ==> (
                 && r.value == cells[s := r.value[s]][d := r.value[d]]
                 && OnlyData(cells[s], r.value[s]) && OnlyData(cells[d], r.value[d])
                 && (s != d ==> Holds(r.value[s], source.value.(amount := source.value.amount - amount)))
                 && Holds(r.value[d], dest.value.(amount := SatAdd(dest.value.amount, amount)))))
  {
    DecodeExact(data);
    var source, dest := UnpackHolder(cells[infos[1].cell].data), UnpackHolder(cells[infos[2].cell].data);
    if source.Some? && dest.Some? {
      TransferMoves(Digits8(data, 4), infos, cells, source.value, dest.value);
    }
  }

  /** Minting is accepted exactly when signed by the mint's authority into one of its holders; then both totals grow, saturating. */
  lemma {:induction false} MintExact(rent: Rent, data: seq<Byte>, infos: seq<AccountInfo>, cells: seq<Account>)
    requires IsMintTo(data) && |infos| >= 3 && forall j :: 0 <= j < |infos| ==> infos[j].cell < |cells|
    ensures var amount, m, d := Digits8(data, 4), infos[1].cell, infos[2].cell;
            var mint, holder, r := UnpackMint(cells[m].data), UnpackHolder(cells[d].data), Entrypoint(rent, data, infos, cells);
            && (r.Ok? <==>
                 && infos[0].isSigner && mint.Some? && mint.value.authority == infos[0].pubkey
                 && holder.Some? && holder.value.mint == infos[1].pubkey)
            && (r.Err? ==> (r.error ==
                 if !infos[0].isSigner then MissingRequiredSignature
                 else if mint.None? then InvalidAccountData
                 else if mint.value.authority != infos[0].pubkey then Custom(2)
                 else if holder.None? then InvalidAccountData
                 else Custom(3)))
            && (r.Ok? ==> (
                 && r.value == cells[m := r.value[m]][d := r.value[d]]
                 && OnlyData(cells[m], r.value[m]) && Mints(r.value[m], mint.value.(supply := SatAdd(mint.value.supply, amount)))
                 && OnlyData(cells[d], r.value[d]) && Holds(r.value[d], holder.value.(amount := SatAdd(holder.value.amount, amount)))))
  {
    DecodeExact(data);
    var mint, holder := UnpackMint(cells[infos[1].cell].data), UnpackHolder(cells[infos[2].cell].data);
    if mint.Some? && holder.Some? {
      MintGrows(Digits8(data, 4), infos, cells, mint.value, holder.value);
    }
  }

  /** A mint is initialized exactly once, when rent-exempt; it then has the given authority and decimals, and no supply. */
  lemma {:induction false} InitializeMintExact(rent: Rent, data: seq<Byte>, infos: seq<AccountInfo>, cells: seq<Account>)
    requires IsInitializeMint(data) && |infos| >= 2 && forall j :: 0 <= j < |infos| ==> infos[j].cell < |cells|
    ensures var m := infos[0].cell;
            var was, r := UnpackMint(cells[m].data), Entrypoint(rent, data, infos, cells);
            var exempt := rent(cells[infos[1].cell].data, cells[m].lamports, |cells[m].data|);
            && (r.Ok? <==> exempt == Some(true) && was.Some? && !was.value.isInitialized)
            && (r.Err? && exempt.None? ==> r.error.InternalError?)
            && (r.Err? && exempt.Some? ==> (r.error ==
                 if was.None? then InvalidAccountData else if was.value.isInitialized then Custom(6) else Custom(8)))
            && (r.Ok? ==> (
                 && r.value == cells[m := r.value[m]] && OnlyData(cells[m], r.value[m])
                 && Mints(r.value[m], Mint(Pubkey(data[5..37]), 0, data[4], true))))
  {
    DecodeExact(data);
    if |cells[infos[0].cell].data| == MINT_LEN {
      RepackMint(cells[infos[0].cell], Mint(Pubkey(data[5..37]), 0, data[4], true));
    }
  }

  /** A holder is initialized exactly once, when rent-exempt and for an initialized mint; it starts empty. */
  lemma {:induction false} InitializeAccountExact(rent: Rent, data: seq<Byte>, infos: seq<AccountInfo>, cells: seq<Account>)
    requires IsInitializeAccount(data) && |infos| >= 4 && forall j :: 0 <= j < |infos| ==> infos[j].cell < |cells|
    ensures var t := infos[0].cell;
            var was, mint, r := UnpackHolder(cells[t].data), UnpackMint(cells[infos[1].cell].data), Entrypoint(rent, data, infos, cells);
            var exempt := rent(cells[infos[3].cell].data, cells[t].lamports, |cells[t].data|);
            && (r.Ok? <==> exempt == Some(true) && was.Some? && !was.value.isInitialized && mint.Some? && mint.value.isInitialized)
            && (r.Err? && exempt.None? ==> r.error.InternalError?)
            && (r.Err? && exempt.Some? ==> (r.error ==
                 if was.None? then InvalidAccountData
                 else if was.value.isInitialized then Custom(6)
                 else if exempt == Some(false) then Custom(8)
                 else if mint.None? then InvalidAccountData
                 else Custom(7)))
            && (r.Ok? ==> (
                 && r.value == cells[t := r.value[t]] && OnlyData(cells[t], r.value[t])
                 && Holds(r.value[t], TokenAccount(infos[1].pubkey, infos[2].pubkey, 0, true))))
  {
    DecodeExact(data);
    if |cells[infos[0].cell].data| == HOLDER_LEN {
      Repack(cells[infos[0].cell], TokenAccount(infos[1].pubkey, infos[2].pubkey, 0, true));
    }
  }
}
