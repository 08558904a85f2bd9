/** Every mint's supply is the sum of what its holders have, over whole runs. */
module TokenSupply {
  import opened Types
  import opened Bytes
  import opened Collections
  import opened Serial
  import opened Banks
  import opened TokenProgram
  import Lamports
  import Native
  import SystemProgram
  import BlockhashQueue

  const ZERO_KEY := Pubkey(ZERO32)

  function AmountOf(k: Pubkey, a: Account): nat {
    match UnpackHolder(a.data)
    case Some(t) => if t.mint == k then t.amount else 0
    case None => 0
  }

  ghost function AmountsOf(k: Pubkey): Account -> nat {
    (a: Account) => AmountOf(k, a)
  }

  /** All tokens of one mint, over every account in the store. */
  ghost function Held(s: Store, k: Pubkey): nat {
    MapSum(s, AmountsOf(k))
  }

  function MintAt(s: Store, k: Pubkey): Option<Mint> {
    if k in s then UnpackMint(s[k].data) else None
  }

  function HolderAt(s: Store, k: Pubkey): Option<TokenAccount> {
    if k in s then UnpackHolder(s[k].data) else None
  }

  /** The invariant: supplies are exact, and only a holder of an initialized mint has anything. */
  ghost predicate Ledger(s: Store) {
    && MintAt(s, ZERO_KEY) == None
    && (forall k :: MintAt(s, k).Some? ==> MintAt(s, k).value.supply == Held(s, k))
    && (forall k :: HolderAt(s, k).Some? ==> HolderGrounded(s, HolderAt(s, k).value))
  }

  ghost predicate HolderGrounded(s: Store, t: TokenAccount) {
    if t.isInitialized then MintAt(s, t.mint).Some? && MintAt(s, t.mint).value.isInitialized
    else t.mint == ZERO_KEY && t.amount == 0
  }

  /** All data that could be a mint or a holder is zero. */
  ghost predicate Zeroed(s: Store) {
    && MintAt(s, ZERO_KEY) == None
    && (forall k :: MintAt(s, k).Some? ==> MintAt(s, k).value == Mint(ZERO_KEY, 0, 0, false))
    && (forall k :: HolderAt(s, k).Some? ==> HolderAt(s, k).value == TokenAccount(ZERO_KEY, ZERO_KEY, 0, false))
  }

  lemma {:induction false} SumOfZeros(s: Store, f: Account -> nat)
    requires forall k :: k in s ==> f(s[k]) == 0
    ensures MapSum(s, f) == 0
    decreases |s|
  {
    if s != map[] {
      SumOfZeros(s - {PickKey(s)}, f);
    }
  }

  lemma {:induction false} NothingHeld(s: Store, k: Pubkey)
    requires forall h :: HolderAt(s, h).Some? && HolderAt(s, h).value.mint == k ==> HolderAt(s, h).value.amount == 0
    ensures Held(s, k) == 0
  {
    forall h | h in s ensures AmountsOf(k)(s[h]) == 0 {
      assert HolderAt(s, h) == UnpackHolder(s[h].data);
    }
    SumOfZeros(s, AmountsOf(k));
  }

  lemma {:induction false} ZeroedIsLedger(s: Store)
    requires Zeroed(s)
    ensures Ledger(s)
  {
    forall k | MintAt(s, k).Some? ensures MintAt(s, k).value.supply == Held(s, k) {
      NothingHeld(s, k);
    }
  }

  /** Changing one account changes each mint's holdings by that account's difference. */
  lemma {:induction false} PutHeld(s: Store, k: Pubkey, a: Account, m: Pubkey)
    ensures Held(s[k := a], m) + (if k in s then AmountOf(m, s[k]) else 0) == Held(s, m) + AmountOf(m, a)
  {
    MapSumUpdate(s, AmountsOf(m), k, a);
  }

  lemma {:induction false} TwoHoldersFit(s: Store, a: Pubkey, b: Pubkey, m: Pubkey)
    requires a in s && b in s && a != b
    ensures AmountOf(m, s[a]) + AmountOf(m, s[b]) <= Held(s, m)
  {
    MapSumRemove(s, AmountsOf(m), a);
    MapSumRemove(s - {a}, AmountsOf(m), b);
  }

  lemma {:induction false} HolderFits(s: Store, a: Pubkey, m: Pubkey)
    requires a in s
    ensures AmountOf(m, s[a]) <= Held(s, m)
  {
    MapSumRemove(s, AmountsOf(m), a);
  }

  // ----- rewriting a mint or a holder

  function PutMint(s: Store, k: Pubkey, m: Mint): Store
    requires k in s
  {
    s[k := s[k].(data := PackMint(m))]
  }

  function PutHolder(s: Store, k: Pubkey, t: TokenAccount): Store
    requires k in s
  {
    s[k := s[k].(data := PackHolder(t))]
  }

  lemma {:induction false} PutMintViews(s: Store, k: Pubkey, m: Mint)
    requires MintAt(s, k).Some?
    ensures var s' := PutMint(s, k, m);
            && (forall j :: MintAt(s', j) == if j == k then Some(m) else MintAt(s, j))
            && (forall j :: HolderAt(s', j) == HolderAt(s, j))
            && (forall j :: Held(s', j) == Held(s, j))
  {
    MintRoundTrip(m, []);
    forall j ensures Held(PutMint(s, k, m), j) == Held(s, j) {
      PutHeld(s, k, s[k].(data := PackMint(m)), j);
    }
  }

  lemma {:induction false} PutHolderViews(s: Store, k: Pubkey, t: TokenAccount)
    requires HolderAt(s, k).Some?
    ensures var s' := PutHolder(s, k, t); var was := HolderAt(s, k).value;
            && (forall j :: MintAt(s', j) == MintAt(s, j))
            && (forall j :: HolderAt(s', j) == if j == k then Some(t) else HolderAt(s, j))
            && (forall j :: Held(s', j) + (if was.mint == j then was.amount else 0)
                         == Held(s, j) + (if t.mint == j then t.amount else 0))
  {
    HolderRoundTrip(t, []);
    forall j ensures Held(PutHolder(s, k, t), j) + AmountOf(j, s[k]) == Held(s, j) + AmountOf(j, s[k].(data := PackHolder(t))) {
      PutHeld(s, k, s[k].(data := PackHolder(t)), j);
    }
  }

  // ----- the four instructions on the ledger

  function MintStep(s: Store, m: Pubkey, d: Pubkey, amount: U64): Store
    requires MintAt(s, m).Some? && HolderAt(s, d).Some?
  {
    var mint, holder := MintAt(s, m).value, HolderAt(s, d).value;
    var s' := PutMint(s, m, mint.(supply := SatAdd(mint.supply, amount)));
    PutHolder(s', d, holder.(amount := SatAdd(holder.amount, amount)))
  }

  /** Room to mint, or one holder owning everything, in which case both additions stop at the same value. */
  ghost predicate Roomy(mint: Mint, holder: TokenAccount, amount: U64) {
    mint.supply + amount <= U64_MAX || holder.amount == mint.supply
  }

  /** Minting keeps the ledger exactly when it is roomy. */
  lemma {:induction false} MintKeepsLedgerIff(s: Store, m: Pubkey, d: Pubkey, amount: U64)
    requires Ledger(s) && MintAt(s, m).Some? && HolderAt(s, d).Some? && HolderAt(s, d).value.mint == m
    ensures Ledger(MintStep(s, m, d, amount)) <==> Roomy(MintAt(s, m).value, HolderAt(s, d).value, amount)
  {
    var mint, holder := MintAt(s, m).value, HolderAt(s, d).value;
    var mint' := mint.(supply := SatAdd(mint.supply, amount));
    var s1 := PutMint(s, m, mint');
    PutMintViews(s, m, mint');
    PutHolderViews(s1, d, holder.(amount := SatAdd(holder.amount, amount)));
    HolderFits(s, d, m);
    var s2 := MintStep(s, m, d, amount);
    assert MintAt(s2, m).value == mint' && Held(s2, m) + holder.amount == Held(s, m) + SatAdd(holder.amount, amount);
  }

  function TransferStep(s: Store, a: Pubkey, b: Pubkey, amount: U64): Store
    requires HolderAt(s, a).Some? && HolderAt(s, b).Some?
  {
    var source, dest := HolderAt(s, a).value, HolderAt(s, b).value;
    var s' := PutHolder(s, a, source.(amount := SatSub(source.amount, amount)));
    PutHolder(s', b, dest.(amount := SatAdd(dest.amount, amount)))
  }

  /** A funded transfer between two accounts keeps the ledger and saturates nowhere. */
  lemma {:induction false} SendKeepsLedger(s: Store, a: Pubkey, b: Pubkey, amount: U64)
    requires Ledger(s) && a != b && HolderAt(s, a).Some? && HolderAt(s, b).Some?
    requires HolderAt(s, a).value.mint == HolderAt(s, b).value.mint && amount <= HolderAt(s, a).value.amount
    ensures Ledger(TransferStep(s, a, b, amount)) && HolderAt(s, b).value.amount + amount <= U64_MAX
  {
    var source, dest := HolderAt(s, a).value, HolderAt(s, b).value;
    var spent := source.(amount := SatSub(source.amount, amount));
    assert HolderGrounded(s, source) && HolderGrounded(s, dest);
    TwoHoldersFit(s, a, b, source.mint);
    PutHolderViews(s, a, spent);
    PutHolderViews(PutHolder(s, a, spent), b, dest.(amount := SatAdd(dest.amount, amount)));
  }

  /** More of this mint is held than it has ever supplied. */
  ghost predicate Overheld(s: Store, m: Pubkey) {
    MintAt(s, m).Some? && MintAt(s, m).value.supply < Held(s, m)
  }

  /** Sending to oneself adds the amount sent, up to saturation. */
  lemma {:induction false} SelfSendKeepsLedgerIff(s: Store, a: Pubkey, amount: U64)
    requires Ledger(s) && HolderAt(s, a).Some? && amount <= HolderAt(s, a).value.amount
    ensures Ledger(TransferStep(s, a, a, amount)) <==> amount == 0 || HolderAt(s, a).value.amount == U64_MAX
    ensures 0 < amount && HolderAt(s, a).value.amount < U64_MAX ==> Overheld(TransferStep(s, a, a, amount), HolderAt(s, a).value.mint)
  {
    var source := HolderAt(s, a).value;
    var spent, received := source.(amount := SatSub(source.amount, amount)), source.(amount := SatAdd(source.amount, amount));
    PutHolderViews(s, a, spent);
    PutHolderViews(PutHolder(s, a, spent), a, received);
    var s2 := TransferStep(s, a, a, amount);
    assert HolderGrounded(s, source) && HolderAt(s2, a) == Some(received) && MintAt(s2, source.mint) == MintAt(s, source.mint);
  }

  /** A funded transfer keeps the ledger unless its source is its destination: that creates the amount sent. */
  lemma {:induction false} TransferKeepsLedgerIff(s: Store, a: Pubkey, b: Pubkey, amount: U64)
    requires Ledger(s) && HolderAt(s, a).Some? && HolderAt(s, b).Some?
    requires HolderAt(s, a).value.mint == HolderAt(s, b).value.mint && amount <= HolderAt(s, a).value.amount
    ensures Ledger(TransferStep(s, a, b, amount)) <==> a != b || amount == 0 || HolderAt(s, a).value.amount == U64_MAX
    ensures a != b ==> HolderAt(s, b).value.amount + amount <= U64_MAX
  {
    if a == b {
      SelfSendKeepsLedgerIff(s, a, amount);
    } else {
      SendKeepsLedger(s, a, b, amount);
    }
  }

  /** Nobody holds tokens of a mint that was never initialized, so starting it at zero supply is right. */
  lemma {:induction false} InitializeMintKeepsLedger(s: Store, m: Pubkey, decimals: Byte, authority: Pubkey)
    requires Ledger(s) && MintAt(s, m).Some? && !MintAt(s, m).value.isInitialized
    ensures Ledger(PutMint(s, m, Mint(authority, 0, decimals, true)))
  {
    PutMintViews(s, m, Mint(authority, 0, decimals, true));
    NothingHeld(s, m);
  }

  lemma {:induction false} InitializeAccountKeepsLedger(s: Store, k: Pubkey, m: Pubkey, owner: Pubkey)
    requires Ledger(s) && HolderAt(s, k).Some? && !HolderAt(s, k).value.isInitialized
    requires MintAt(s, m).Some? && MintAt(s, m).value.isInitialized
    ensures Ledger(PutHolder(s, k, TokenAccount(m, owner, 0, true)))
  {
    PutHolderViews(s, k, TokenAccount(m, owner, 0, true));
    assert HolderGrounded(s, HolderAt(s, k).value);
  }

  lemma {:induction false} ZeroBytes(n: nat)
    ensures LittleEndian(0, n) == seq(n, _ => 0)
  {
    if n > 0 {
      ZeroBytes(n - 1);
    }
  }

  function Blank(space: nat): seq<Byte> {
    seq(space, _ => 0)
  }

  /** Zeroed data is an uninitialized mint or holder, if it has the length for it. */
  lemma {:induction false} BlankViews(space: nat)
    ensures UnpackMint(Blank(space)) == if space == MINT_LEN then Some(Mint(ZERO_KEY, 0, 0, false)) else None
    ensures UnpackHolder(Blank(space)) == if space == HOLDER_LEN then Some(TokenAccount(ZERO_KEY, ZERO_KEY, 0, false)) else None
  {
    ZeroBytes(8);
    MintRoundTrip(Mint(ZERO_KEY, 0, 0, false), []);
    HolderRoundTrip(TokenAccount(ZERO_KEY, ZERO_KEY, 0, false), []);
    assert PackMint(Mint(ZERO_KEY, 0, 0, false)) == Blank(MINT_LEN);
    assert PackHolder(TokenAccount(ZERO_KEY, ZERO_KEY, 0, false)) == Blank(HOLDER_LEN);
  }

  lemma {:induction false} BlankedViews(s: Store, k: Pubkey, a: Account, space: nat)
    requires k in s && a.data == Blank(space)
    ensures var s' := s[k := a];
            && (forall j :: MintAt(s', j) == if j != k then MintAt(s, j) else if space == MINT_LEN then Some(Mint(ZERO_KEY, 0, 0, false)) else None)
            && (forall j :: HolderAt(s', j) == if j != k then HolderAt(s, j)
                                               else if space == HOLDER_LEN then Some(TokenAccount(ZERO_KEY, ZERO_KEY, 0, false)) else None)
            && (forall j :: Held(s', j) + AmountOf(j, s[k]) == Held(s, j))
  {
    BlankViews(space);
    forall j ensures Held(s[k := a], j) + AmountOf(j, s[k]) == Held(s, j) {
      PutHeld(s, k, a, j);
    }
  }

  lemma {:induction false} BlankKeepsLedger(s: Store, k: Pubkey, a: Account, space: nat)
    requires Ledger(s) && k in s && a.data == Blank(space) && Creatable(s, k, space)
    ensures Ledger(s[k := a])
  {
    var s' := s[k := a];
    BlankedViews(s, k, a, space);
    assert HolderAt(s, k) == UnpackHolder(s[k].data);
    forall j | MintAt(s', j).Some? ensures MintAt(s', j).value.supply == Held(s', j) {
      if j == k {
        forall h | HolderAt(s', h).Some? ensures HolderAt(s', h).value.mint != k {
          assert h != k ==> HolderGrounded(s, HolderAt(s, h).value);
        }
        NothingHeld(s', k);
      }
    }
    forall h | HolderAt(s', h).Some? ensures HolderGrounded(s', HolderAt(s', h).value) {
      assert h != k ==> HolderGrounded(s, HolderAt(s, h).value);
    }
  }

  lemma {:induction false} BlankBreaksLedger(s: Store, k: Pubkey, a: Account, space: nat)
    requires Ledger(s) && k in s && a.data == Blank(space) && !Creatable(s, k, space)
    ensures !Ledger(s[k := a])
  {
    var s' := s[k := a];
    BlankedViews(s, k, a, space);
    assert HolderAt(s, k) == UnpackHolder(s[k].data) && MintAt(s, k) == UnpackMint(s[k].data);
    if HolderAt(s, k).Some? && HolderAt(s, k).value.amount != 0 {
      var m := HolderAt(s, k).value.mint;
      assert HolderGrounded(s, HolderAt(s, k).value) && m != k;
      assert MintAt(s', m) == MintAt(s, m) && Held(s', m) < MintAt(s', m).value.supply;
    } else if k != ZERO_KEY || space != MINT_LEN {
      var h :| HolderAt(s, h).Some? && HolderAt(s, h).value.isInitialized && HolderAt(s, h).value.mint == k;
      assert HolderGrounded(s, HolderAt(s, h).value);
      assert HolderAt(s', h) == HolderAt(s, h) && !HolderGrounded(s', HolderAt(s', h).value);
    }
  }

  /** Creating an account over an old one keeps every supply exact if and only if no tokens are lost and no mint appears at the zero key. */
  lemma {:induction false} CreateKeepsLedgerIff(s: Store, k: Pubkey, a: Account, space: nat)
    requires Ledger(s) && k in s && a.data == seq(space, _ => 0)
    ensures Ledger(s[k := a]) <==> Creatable(s, k, space)
  {
    if Creatable(s, k, space) {
      BlankKeepsLedger(s, k, a, space);
    } else {
      BlankBreaksLedger(s, k, a, space);
    }
  }

  // ----- accounts loaded by a transaction, seen through the store they will be flushed to

  ghost function View(s: Store, cells: seq<Account>): Store {
    s + Dirty(cells)
  }

  lemma {:induction false} ViewAt(s: Store, keys: seq<Pubkey>, cells: seq<Account>, i: nat)
    requires CellsFor(keys, cells) && NoRepeats(keys) && i < |cells|
    ensures keys[i] in View(s, cells) && View(s, cells)[keys[i]] == cells[i]
  {
    Lamports.LastWins(keys, cells, keys[i], i);
  }

  lemma SwapPuts<K, V>(m: map<K, V>, j: K, v: V, k: K, w: V)
    requires j != k
    ensures m[j := v][k := w] == m[k := w][j := v]
  {
  }

  lemma {:induction false} ViewPut(s: Store, keys: seq<Pubkey>, cells: seq<Account>, i: nat, a: Account)
    requires CellsFor(keys, cells) && NoRepeats(keys) && i < |cells| && a.pubkey == keys[i]
    ensures View(s, cells[i := a]) == View(s, cells)[keys[i] := a]
  {
    var n := |cells| - 1;
    if i == n {
      PutLast(s, cells, a);
    } else {
      PutInit(s, cells, i, a);
      ViewPut(s, keys[..n], cells[..n], i, a);
      SwapPuts(View(s, cells[..n]), keys[i], a, keys[n], cells[n]);
      Lamports.DirtyLast(s, cells);
    }
  }

  lemma {:induction false} PutLast(s: Store, cells: seq<Account>, a: Account)
    requires cells != [] && a.pubkey == cells[|cells| - 1].pubkey
    ensures View(s, cells[|cells| - 1 := a]) == View(s, cells)[a.pubkey := a]
  {
    var n := |cells| - 1;
    Lamports.DirtyLast(s, cells);
    Lamports.DirtyLast(s, cells[n := a]);
    assert cells[n := a][..n] == cells[..n];
  }

  lemma {:induction false} PutInit(s: Store, cells: seq<Account>, i: nat, a: Account)
    requires i < |cells| - 1
    ensures var n := |cells| - 1;
            View(s, cells[i := a]) == View(s, cells[..n][i := a])[cells[n].pubkey := cells[n]]
  {
    Lamports.DirtyLast(s, cells[i := a]);
    assert cells[i := a][..|cells| - 1] == cells[..|cells| - 1][i := a];
  }

  ghost predicate SameTokens(s: Store, t: Store) {
    forall k :: MintAt(t, k) == MintAt(s, k) && HolderAt(t, k) == HolderAt(s, k) && Held(t, k) == Held(s, k)
  }

  lemma {:induction false} PutUnseen(s: Store, p: Pubkey, a: Account)
    requires a.data == if p in s then s[p].data else []
    ensures SameTokens(s, s[p := a])
  {
    forall k ensures Held(s[p := a], k) == Held(s, k) {
      PutHeld(s, p, a, k);
    }
  }

  /** Writing back what was loaded shows no difference. */
  lemma {:induction false} WriteBackUnseen(s: Store, d: Store)
    requires forall k :: k in d ==> d[k] == LoadOr(s, k)
    ensures SameTokens(s, s + d)
    decreases |d|
  {
    if d == map[] {
      assert s + d == s;
    } else {
      var p := PickKey(d);
      var rest := d - {p};
      WriteBackUnseen(s, rest);
      PutUnseen(s + rest, p, d[p]);
      Lamports.OverrideOne(s, d, p);
    }
  }

  lemma {:induction false} LoadedUnseen(s: Store, keys: seq<Pubkey>)
    requires WellKeyed(s) && Ledger(s)
    ensures Ledger(View(s, LoadAll(s, keys)))
  {
    var d := Dirty(LoadAll(s, keys));
    DirtyEntries(LoadAll(s, keys));
    forall k | k in d ensures d[k] == LoadOr(s, k) {
      Lamports.DirtyInKeys(keys, LoadAll(s, keys));
      var i := Lamports.LastExists(keys, k);
      Lamports.LastWins(keys, LoadAll(s, keys), k, i);
    }
    WriteBackUnseen(s, d);
  }

  // ----- one instruction inside a transaction

  /** Every mint this instruction performs is roomy. */
  ghost predicate RoomyInstruction(data: seq<Byte>, infos: seq<AccountInfo>, cells: seq<Account>)
    requires forall j :: 0 <= j < |infos| ==> infos[j].cell < |cells|
  {
    Decode(data).Some? && Decode(data).value.MintTo? && |infos| >= 3 ==>
      forall mint, holder :: Mints(cells[infos[1].cell], mint) && Holds(cells[infos[2].cell], holder) ==>
        Roomy(mint, holder, Decode(data).value.amount)
  }

  /** The account may be created anew: it holds no tokens, nobody holds tokens of it, and it is no mint at the zero key. */
  ghost predicate Creatable(s: Store, k: Pubkey, space: nat) {
    && (k == ZERO_KEY ==> space != MINT_LEN) && (HolderAt(s, k).Some? ==> HolderAt(s, k).value.amount == 0)
    && forall h :: HolderAt(s, h).Some? && HolderAt(s, h).value.isInitialized ==> HolderAt(s, h).value.mint != k
  }

  /** Every mint is roomy, and no account with tokens is created over. */
  ghost predicate SoundInstruction(s: Store, ins: Instruction, infos: seq<AccountInfo>, cells: seq<Account>)
    requires forall j :: 0 <= j < |infos| ==> infos[j].cell < |cells|
  {
    && (ins.programId == TOKEN_PROGRAM_ID ==> RoomyInstruction(ins.data, infos, cells))
    && (ins.programId == SYSTEM_PROGRAM_ID && |infos| >= 2 ==>
          match SystemProgram.Decode(ins.data)
          case Some(CreateAccount(_, space, _)) => Creatable(View(s, cells), infos[1].pubkey, space)
          case _ => true)
  }

  ghost predicate Loaded(infos: seq<AccountInfo>, metas: seq<AccountMeta>, keys: seq<Pubkey>, cells: seq<Account>) {
    CellsFor(keys, cells) && NoRepeats(keys) && InfosFor(infos, metas, keys)
  }

  /** New data in one cell is new data under its key. */
  lemma {:induction false} PutData(s: Store, keys: seq<Pubkey>, cells: seq<Account>, i: nat, data: seq<Byte>)
    requires CellsFor(keys, cells) && NoRepeats(keys) && i < |cells|
    ensures var out := cells[i := cells[i].(data := data)]; var v := View(s, cells);
            && CellsFor(keys, out) && keys[i] in v && v[keys[i]] == cells[i]
            && View(s, out) == v[keys[i] := v[keys[i]].(data := data)]
  {
    ViewAt(s, keys, cells, i);
    ViewPut(s, keys, cells, i, cells[i].(data := data));
  }

  lemma {:induction false} MintView(s: Store, keys: seq<Pubkey>, cells: seq<Account>, m: nat, d: nat, mint: Mint,
                                    holder: TokenAccount, amount: U64)
    requires CellsFor(keys, cells) && NoRepeats(keys) && m < |cells| && d < |cells|
    requires Mints(cells[m], mint) && Holds(cells[d], holder)
    ensures var out := Minted(cells, m, d, mint, holder, amount); var v := View(s, cells);
            && CellsFor(keys, out) && MintAt(v, keys[m]) == Some(mint) && HolderAt(v, keys[d]) == Some(holder)
            && View(s, out) == MintStep(v, keys[m], keys[d], amount)
  {
    var mint', holder' := mint.(supply := SatAdd(mint.supply, amount)), holder.(amount := SatAdd(holder.amount, amount));
    RepackMint(cells[m], mint');
    Repack(cells[d], holder');
    ViewAt(s, keys, cells, d);
    PutData(s, keys, cells, m, PackMint(mint'));
    PutData(s, keys, cells[m := cells[m].(data := PackMint(mint'))], d, PackHolder(holder'));
  }

  lemma {:induction false} TransferView(s: Store, keys: seq<Pubkey>, cells: seq<Account>, a: nat, b: nat,
                                        source: TokenAccount, dest: TokenAccount, amount: U64)
    requires CellsFor(keys, cells) && NoRepeats(keys) && a < |cells| && b < |cells|
    requires Holds(cells[a], source) && Holds(cells[b], dest)
    ensures var out := Transferred(cells, a, b, source, dest, amount); var v := View(s, cells);
            && CellsFor(keys, out) && HolderAt(v, keys[a]) == Some(source) && HolderAt(v, keys[b]) == Some(dest)
            && View(s, out) == TransferStep(v, keys[a], keys[b], amount)
  {
    var source', dest' := source.(amount := SatSub(source.amount, amount)), dest.(amount := SatAdd(dest.amount, amount));
    var mid := cells[a := cells[a].(data := PackHolder(source'))];
    Repack(cells[a], source');
    Repack(mid[b], dest');
    ViewAt(s, keys, cells, b);
    PutData(s, keys, cells, a, PackHolder(source'));
    PutData(s, keys, mid, b, PackHolder(dest'));
  }

  lemma {:induction false} InitializeMintView(s: Store, rent: Rent, decimals: Byte, authority: Pubkey, infos: seq<AccountInfo>,
                                              metas: seq<AccountMeta>, keys: seq<Pubkey>, cells: seq<Account>)
    requires Loaded(infos, metas, keys, cells) && ExecuteInitializeMint(rent, decimals, authority, infos, cells).Ok?
    requires Ledger(View(s, cells))
    ensures var out := ExecuteInitializeMint(rent, decimals, authority, infos, cells).value;
            CellsFor(keys, out) && Ledger(View(s, out))
  {
    var m, mint := infos[0].cell, Mint(authority, 0, decimals, true);
    ViewAt(s, keys, cells, m);
    RepackMint(cells[m], mint);
    ViewPut(s, keys, cells, m, cells[m].(data := PackMint(mint)));
    InitializeMintKeepsLedger(View(s, cells), infos[0].pubkey, decimals, authority);
  }

  lemma {:induction false} InitializeAccountView(s: Store, rent: Rent, infos: seq<AccountInfo>,
                                                 metas: seq<AccountMeta>, keys: seq<Pubkey>, cells: seq<Account>)
    requires Loaded(infos, metas, keys, cells) && ExecuteInitializeAccount(rent, infos, cells).Ok?
    requires Ledger(View(s, cells))
    ensures var out := ExecuteInitializeAccount(rent, infos, cells).value;
            CellsFor(keys, out) && Ledger(View(s, out))
  {
    var t, holder := infos[0].cell, TokenAccount(infos[1].pubkey, infos[2].pubkey, 0, true);
    ViewAt(s, keys, cells, t);
    ViewAt(s, keys, cells, infos[1].cell);
    Repack(cells[t], holder);
    ViewPut(s, keys, cells, t, cells[t].(data := PackHolder(holder)));
    InitializeAccountKeepsLedger(View(s, cells), infos[0].pubkey, infos[1].pubkey, infos[2].pubkey);
  }

  lemma {:induction false} MintArm(s: Store, keys: seq<Pubkey>, cells: seq<Account>, m: nat, d: nat, mint: Mint,
                                   holder: TokenAccount, amount: U64)
    requires CellsFor(keys, cells) && NoRepeats(keys) && m < |cells| && d < |cells| && Ledger(View(s, cells))
    requires Mints(cells[m], mint) && Holds(cells[d], holder) && holder.mint == keys[m] && Roomy(mint, holder, amount)
    ensures var out := Minted(cells, m, d, mint, holder, amount);
            CellsFor(keys, out) && Ledger(View(s, out))
  {
    MintView(s, keys, cells, m, d, mint, holder, amount);
    MintKeepsLedgerIff(View(s, cells), keys[m], keys[d], amount);
  }

  /** An accepted transfer, as a step of the store. */
  lemma {:induction false} TransferArm(s: Store, keys: seq<Pubkey>, cells: seq<Account>, a: nat, b: nat,
                                       source: TokenAccount, dest: TokenAccount, amount: U64)
    requires CellsFor(keys, cells) && NoRepeats(keys) && a < |cells| && b < |cells| && Ledger(View(s, cells))
    requires Holds(cells[a], source) && Holds(cells[b], dest) && source.mint == dest.mint && amount <= source.amount
    ensures var out := Transferred(cells, a, b, source, dest, amount);
            && CellsFor(keys, out)
            && (Ledger(View(s, out)) <==> keys[a] != keys[b] || amount == 0 || source.amount == U64_MAX)
  {
    TransferView(s, keys, cells, a, b, source, dest, amount);
    TransferKeepsLedgerIff(View(s, cells), keys[a], keys[b], amount);
  }

  /** A transfer that names one account as source and destination and that the code accepts and that adds something. */
  predicate SelfTransfer(ins: Instruction) {
    var a := ins.accounts;
    && ins.programId == TOKEN_PROGRAM_ID && WritableOnce(a)
    && |a| >= 3 && a[0].isSigner && a[1].pubkey == a[2].pubkey
    && match Decode(ins.data) case Some(Transfer(amount)) => 0 < amount < U64_MAX case _ => false
  }

  lemma {:induction false} TokenKeepsLedger(s: Store, rent: Rent, ins: Instruction, infos: seq<AccountInfo>, keys: seq<Pubkey>,
                                            cells: seq<Account>)
    requires Loaded(infos, ins.accounts, keys, cells) && Entrypoint(rent, ins.data, infos, cells).Ok?
    requires Ledger(View(s, cells)) && RoomyInstruction(ins.data, infos, cells)
    requires ins.programId == TOKEN_PROGRAM_ID && !SelfTransfer(ins)
    ensures var out := Entrypoint(rent, ins.data, infos, cells).value;
            CellsFor(keys, out) && Ledger(View(s, out))
  {
    match Decode(ins.data).value {
      case MintTo(amount) =>
        var m, d := infos[1].cell, infos[2].cell;
        MintArm(s, keys, cells, m, d, UnpackMint(cells[m].data).value, UnpackHolder(cells[d].data).value, amount);
      case Transfer(amount) =>
        PreparedDescribe(infos, ins.accounts, keys);
        var a, b := infos[1].cell, infos[2].cell;
        TransferArm(s, keys, cells, a, b, UnpackHolder(cells[a].data).value, UnpackHolder(cells[b].data).value, amount);
      case SetAuthority(_) =>
        NestedCallFails(ins.data);
      case InitializeMint(decimals, authority) =>
        InitializeMintView(s, rent, decimals, authority, infos, ins.accounts, keys, cells);
      case InitializeAccount =>
        InitializeAccountView(s, rent, infos, ins.accounts, keys, cells);
    }
  }

  /** A cell that keeps its key and data shows no difference. */
  lemma {:induction false} PutSame(s: Store, keys: seq<Pubkey>, cells: seq<Account>, i: nat, a: Account)
    requires CellsFor(keys, cells) && NoRepeats(keys) && i < |cells| && a.pubkey == keys[i] && a.data == cells[i].data
    ensures CellsFor(keys, cells[i := a]) && SameTokens(View(s, cells), View(s, cells[i := a]))
  {
    ViewAt(s, keys, cells, i);
    ViewPut(s, keys, cells, i, a);
    PutUnseen(View(s, cells), keys[i], a);
  }

  lemma {:induction false} SameLedger(s: Store, t: Store)
    requires SameTokens(s, t) && Ledger(s)
    ensures Ledger(t)
  {
    forall k | HolderAt(t, k).Some? ensures HolderGrounded(t, HolderAt(t, k).value) {
      assert HolderGrounded(s, HolderAt(s, k).value);
    }
  }

  lemma {:induction false} MoveUnseen(s: Store, keys: seq<Pubkey>, cells: seq<Account>, from: nat, to: nat, lamports: U64)
    requires CellsFor(keys, cells) && NoRepeats(keys) && from < |cells| && to < |cells|
    ensures var out := SystemProgram.Move(cells, from, to, lamports);
            && CellsFor(keys, out) && SameTokens(View(s, cells), View(s, out)) && (forall i :: 0 <= i < |cells| ==> out[i].data == cells[i].data)
  {
    var debited := cells[from := cells[from].(lamports := SatSub(cells[from].lamports, lamports))];
    PutSame(s, keys, cells, from, debited[from]);
    PutSame(s, keys, debited, to, debited[to].(lamports := SatAdd(debited[to].lamports, lamports)));
  }

  lemma {:induction false} CreateView(s: Store, keys: seq<Pubkey>, cells: seq<Account>, from: nat, to: nat, lamports: U64,
                                      space: U64, owner: Pubkey)
    requires CellsFor(keys, cells) && NoRepeats(keys) && from < |cells| && to < |cells|
    requires Ledger(View(s, cells)) && Creatable(View(s, cells), keys[to], space)
    ensures var moved := SystemProgram.Move(cells, from, to, lamports);
            var out := moved[to := moved[to].(data := seq(space, _ => 0), owner := owner)];
            CellsFor(keys, out) && Ledger(View(s, out))
  {
    var moved := SystemProgram.Move(cells, from, to, lamports);
    var made := moved[to].(data := seq(space, _ => 0), owner := owner);
    MoveUnseen(s, keys, cells, from, to, lamports);
    SameLedger(View(s, cells), View(s, moved));
    SameCreatable(View(s, cells), View(s, moved), keys[to], space);
    ViewAt(s, keys, moved, to);
    ViewPut(s, keys, moved, to, made);
    BlankKeepsLedger(View(s, moved), keys[to], made, space);
  }

  lemma {:induction false} SameCreatable(s: Store, t: Store, k: Pubkey, space: nat)
    requires SameTokens(s, t) && Creatable(s, k, space)
    ensures Creatable(t, k, space)
  {
    forall h | HolderAt(t, h).Some? && HolderAt(t, h).value.isInitialized ensures HolderAt(t, h).value.mint != k {
      assert HolderAt(t, h) == HolderAt(s, h);
    }
  }

  lemma {:induction false} SystemKeepsLedger(s: Store, ins: Instruction, infos: seq<AccountInfo>, keys: seq<Pubkey>, cells: seq<Account>)
    requires Loaded(infos, ins.accounts, keys, cells) && SystemProgram.Entrypoint(ins.data, infos, cells).Ok?
    requires Ledger(View(s, cells)) && SoundInstruction(s, ins, infos, cells) && ins.programId == SYSTEM_PROGRAM_ID
    ensures var out := SystemProgram.Entrypoint(ins.data, infos, cells).value;
            CellsFor(keys, out) && Ledger(View(s, out))
  {
    match SystemProgram.Decode(ins.data).value {
      case Transfer(lamports) =>
        MoveUnseen(s, keys, cells, infos[0].cell, infos[1].cell, lamports);
        SameLedger(View(s, cells), View(s, SystemProgram.Move(cells, infos[0].cell, infos[1].cell, lamports)));
      case Assign(owner) =>
        var i := infos[0].cell;
        PutSame(s, keys, cells, i, cells[i].(owner := owner));
        SameLedger(View(s, cells), View(s, cells[i := cells[i].(owner := owner)]));
      case CreateAccount(lamports, space, owner) =>
        CreateView(s, keys, cells, infos[0].cell, infos[1].cell, lamports, space, owner);
    }
  }

  lemma {:induction false} InstructionKeepsLedger(s: Store, rent: Rent, ins: Instruction, infos: seq<AccountInfo>,
                                                  keys: seq<Pubkey>, cells: seq<Account>)
    requires Loaded(infos, ins.accounts, keys, cells) && Native.Dispatch(rent, ins, infos, cells).Ok?
    requires Ledger(View(s, cells)) && SoundInstruction(s, ins, infos, cells) && !SelfTransfer(ins)
    ensures var out := Native.Dispatch(rent, ins, infos, cells).value;
            CellsFor(keys, out) && Ledger(View(s, out))
  {
    if ins.programId == SYSTEM_PROGRAM_ID {
      SystemKeepsLedger(s, ins, infos, keys, cells);
    } else {
      TokenKeepsLedger(s, rent, ins, infos, keys, cells);
    }
  }

  // ----- whole transactions and runs

  /** Every instruction along the execution is sound. */
  ghost predicate SoundExecution(s: Store, rent: Rent, instructions: seq<Instruction>, keys: seq<Pubkey>, cells: seq<Account>)
    decreases |instructions|
  {
    instructions != [] && |keys| == |cells| && PrepareInfos(instructions[0].accounts, keys, cells).Ok? ==> (
      var infos := PrepareInfos(instructions[0].accounts, keys, cells).value;
      PreparedInfos(instructions[0].accounts, keys, cells);
      var r := Native.Dispatch(rent, instructions[0], infos, cells);
      r.Ok? ==> SoundInstruction(s, instructions[0], infos, cells) && SoundExecution(s, rent, instructions[1..], keys, r.value))
  }

  lemma {:induction false} ExecutionKeepsLedger(s: Store, rent: Rent, instructions: seq<Instruction>, keys: seq<Pubkey>,
                                                cells: seq<Account>, budget: U64)
    requires CellsFor(keys, cells) && NoRepeats(keys) && Ledger(View(s, cells))
    requires (forall ins :: ins in instructions ==> !SelfTransfer(ins)) && SoundExecution(s, rent, instructions, keys, cells)
    requires ExecuteInstructions(Native.NativeExecutor(rent), instructions, keys, cells, budget).Ok?
    ensures Ledger(View(s, ExecuteInstructions(Native.NativeExecutor(rent), instructions, keys, cells, budget).value))
    decreases |instructions|
  {
    if instructions != [] {
      var ins := instructions[0];
      assert ins in instructions;
      var infos := PrepareInfos(ins.accounts, keys, cells).value;
      PreparedInfos(ins.accounts, keys, cells);
      InstructionKeepsLedger(s, rent, ins, infos, keys, cells);
      ExecutionKeepsLedger(s, rent, instructions[1..], keys, Native.Dispatch(rent, ins, infos, cells).value, budget);
    }
  }

  // ----- exactly which instructions keep every ledger

  /** Whatever the ledger, the rent rule and the loaded keys: if accepted and sound, the instruction keeps the ledger. */
  ghost predicate KeepsEveryLedger(ins: Instruction) {
    forall rent: Rent, s: Store, keys: seq<Pubkey>, budget: U64 ::
      (WellKeyed(s) && Ledger(s) && NoRepeats(keys) && SoundExecution(s, rent, [ins], keys, LoadAll(s, keys))
       && Executed(rent, ins, s, keys, budget).Ok?) ==>
        Ledger(View(s, Executed(rent, ins, s, keys, budget).value))
  }

  ghost function Executed(rent: Rent, ins: Instruction, s: Store, keys: seq<Pubkey>, budget: U64): Result<seq<Account>, TransactionError> {
    ExecuteInstructions(Native.NativeExecutor(rent), [ins], keys, LoadAll(s, keys), budget)
  }

  /** A mint other than `k` and `j`, not at the zero key. */
  function SomeMint(k: Pubkey, j: Pubkey): (m: Pubkey)
    ensures m != k && m != j && m != ZERO_KEY
  {
    var one, two, three := Pubkey(ZERO32[0 := 1]), Pubkey(ZERO32[0 := 2]), Pubkey(ZERO32[0 := 3]);
    assert one.bytes[0] == 1 && two.bytes[0] == 2 && three.bytes[0] == 3;
    if one != k && one != j then one else if two != k && two != j then two else three
  }

  /** One mint whose whole supply `k` holds; `j` has an account of it, too. */
  function OneHolder(k: Pubkey, j: Pubkey, owner: Pubkey, amount: U64): Store {
    var m := SomeMint(k, j);
    map[m := WithMint(m, Mint(owner, amount, 0, true))]
       [j := WithHolder(j, TokenAccount(m, owner, 0, true))][k := WithHolder(k, TokenAccount(m, owner, amount, true))]
  }

  lemma {:induction false} OneHolderSees(k: Pubkey, j: Pubkey, owner: Pubkey, amount: U64)
    ensures var s := OneHolder(k, j, owner, amount); var m := SomeMint(k, j);
            && WellKeyed(s)
            && (forall x :: MintAt(s, x) == if x == m then Some(Mint(owner, amount, 0, true)) else None)
            && (forall x :: HolderAt(s, x) == if x == k then Some(TokenAccount(m, owner, amount, true))
                                             else if x == j then Some(TokenAccount(m, owner, 0, true)) else None)
  {
    MintRoundTrip(Mint(owner, amount, 0, true), []);
    HolderRoundTrip(TokenAccount(SomeMint(k, j), owner, amount, true), []);
    HolderRoundTrip(TokenAccount(SomeMint(k, j), owner, 0, true), []);
  }

  lemma {:induction false} OneHolderHolds(k: Pubkey, j: Pubkey, owner: Pubkey, amount: U64)
    ensures Held(OneHolder(k, j, owner, amount), SomeMint(k, j)) == amount
  {
    var m, none: Store := SomeMint(k, j), map[];
    var mint := WithMint(m, Mint(owner, amount, 0, true));
    var empty, full := WithHolder(j, TokenAccount(m, owner, 0, true)), WithHolder(k, TokenAccount(m, owner, amount, true));
    HolderRoundTrip(TokenAccount(m, owner, amount, true), []);
    HolderRoundTrip(TokenAccount(m, owner, 0, true), []);
    assert none[m := mint] == map[m := mint];
    PutHeld(none, m, mint, m);
    PutHeld(none[m := mint], j, empty, m);
    PutHeld(none[m := mint][j := empty], k, full, m);
  }

  lemma {:induction false} OneHolderLedger(k: Pubkey, j: Pubkey, owner: Pubkey, amount: U64)
    ensures var s := OneHolder(k, j, owner, amount);
            WellKeyed(s) && Ledger(s) && HolderAt(s, k) == Some(TokenAccount(SomeMint(k, j), owner, amount, true))
  {
    OneHolderSees(k, j, owner, amount);
    OneHolderHolds(k, j, owner, amount);
  }

  function SelfStore(ins: Instruction): Store
    requires SelfTransfer(ins)
  {
    OneHolder(ins.accounts[1].pubkey, ins.accounts[1].pubkey, ins.accounts[0].pubkey, Decode(ins.data).value.amount)
  }

  function SelfHolder(ins: Instruction): TokenAccount
    requires SelfTransfer(ins)
  {
    TokenAccount(SomeMint(ins.accounts[1].pubkey, ins.accounts[1].pubkey), ins.accounts[0].pubkey, Decode(ins.data).value.amount, true)
  }

  lemma {:induction false} SelfTransferRuns(ins: Instruction) returns (infos: seq<AccountInfo>, cells: seq<Account>)
    requires SelfTransfer(ins)
    ensures LoadedInfos(SelfStore(ins), ins.accounts, infos, cells) && Holds(cells[infos[1].cell], SelfHolder(ins))
  {
    OneHolderSees(ins.accounts[1].pubkey, ins.accounts[1].pubkey, ins.accounts[0].pubkey, Decode(ins.data).value.amount);
    infos, cells := LoadInfos(SelfStore(ins), ins.accounts);
    assert HolderAt(SelfStore(ins), ins.accounts[1].pubkey) == Some(SelfHolder(ins));
  }

  lemma {:induction false} SelfTransferEnds(ins: Instruction, infos: seq<AccountInfo>, cells: seq<Account>)
    requires SelfTransfer(ins) && LoadedInfos(SelfStore(ins), ins.accounts, infos, cells) && Holds(cells[infos[1].cell], SelfHolder(ins))
    requires Ledger(SelfStore(ins)) && WellKeyed(SelfStore(ins))
    ensures var h, c := SelfHolder(ins), infos[1].cell;
            && ExecuteTransfer(h.amount, infos, cells) == Ok(Transferred(cells, c, c, h, h, h.amount))
            && Overheld(View(SelfStore(ins), Transferred(cells, c, c, h, h, h.amount)), h.mint)
  {
    var h, c, keys := SelfHolder(ins), infos[1].cell, KeysOf(ins.accounts);
    KeysOfOnce(ins.accounts);
    LoadedUnseen(SelfStore(ins), keys);
    TransferView(SelfStore(ins), keys, cells, c, c, h, h, h.amount);
    SelfSendKeepsLedgerIff(View(SelfStore(ins), cells), keys[c], h.amount);
  }

  /** The code accepts a transfer from an account to itself, and more is held than supplied afterwards. */
  lemma {:induction false} SelfTransferMints(ins: Instruction, rent: Rent, budget: U64)
    requires SelfTransfer(ins)
    ensures var s := SelfStore(ins); var keys := KeysOf(ins.accounts); var r := Executed(rent, ins, s, keys, budget);
            && WellKeyed(s) && Ledger(s) && NoRepeats(keys) && SoundExecution(s, rent, [ins], keys, LoadAll(s, keys))
            && r.Ok? && Overheld(View(s, r.value), SelfHolder(ins).mint)
  {
    var a, keys := ins.accounts, KeysOf(ins.accounts);
    var infos, cells := SelfTransferRuns(ins);
    OneHolderLedger(a[1].pubkey, a[1].pubkey, a[0].pubkey, SelfHolder(ins).amount);
    SelfTransferEnds(ins, infos, cells);
    KeysOfOnce(a);
    ExecutorAccepts(rent, ins, infos, cells, budget);
    SingleInstruction(Native.NativeExecutor(rent), ins, keys, cells, budget);
    TransfersAreSound(SelfStore(ins), rent, ins, keys, cells);
  }

  lemma {:induction false} ExecutorAccepts(rent: Rent, ins: Instruction, infos: seq<AccountInfo>, cells: seq<Account>, budget: U64)
    requires ins.programId == TOKEN_PROGRAM_ID && Decode(ins.data).Some? && Decode(ins.data).value.Transfer?
    requires forall j :: 0 <= j < |infos| ==> infos[j].cell < |cells|
    ensures Native.NativeExecutor(rent)(ins, infos, cells, budget) == ExecuteTransfer(Decode(ins.data).value.amount, infos, cells)
  {
  }

  lemma {:induction false} TransfersAreSound(s: Store, rent: Rent, ins: Instruction, keys: seq<Pubkey>, cells: seq<Account>)
    requires ins.programId == TOKEN_PROGRAM_ID && Decode(ins.data).Some? && Decode(ins.data).value.Transfer?
    ensures SoundExecution(s, rent, [ins], keys, cells)
  {
    assert [ins][1..] == [];
  }

  /** Every other native instruction keeps every ledger, whatever its metas say about writing. */
  lemma {:induction false} KeepsEveryLedgerIff(ins: Instruction)
    ensures KeepsEveryLedger(ins) <==> !SelfTransfer(ins)
  {
    if SelfTransfer(ins) {
      SelfTransferMints(ins, Exempting(), 0);
    } else {
      forall rent: Rent, s: Store, keys: seq<Pubkey>, budget: U64 |
        WellKeyed(s) && Ledger(s) && NoRepeats(keys) && SoundExecution(s, rent, [ins], keys, LoadAll(s, keys))
        && Executed(rent, ins, s, keys, budget).Ok?
        ensures Ledger(View(s, Executed(rent, ins, s, keys, budget).value))
      {
        LoadedUnseen(s, keys);
        ExecutionKeepsLedger(s, rent, [ins], keys, LoadAll(s, keys), budget);
      }
    }
  }

  // ----- exactly which account-key lists keep every ledger

  /** Whatever the ledger and the sound instructions accepted over these keys, self-transfers aside: the flush keeps the ledger. */
  ghost predicate KeepsLedgers(keys: seq<Pubkey>) {
    forall rent: Rent, s: Store, instructions: seq<Instruction>, budget: U64 ::
      (WellKeyed(s) && Ledger(s) && (forall ins :: ins in instructions ==> !SelfTransfer(ins))
       && SoundExecution(s, rent, instructions, keys, LoadAll(s, keys)) && Lamports.Accepted(rent, keys, s, instructions, budget).Ok?) ==>
        Ledger(View(s, Lamports.Accepted(rent, keys, s, instructions, budget).value))
  }

  /** One token from an account that owns itself to another. */
  function OneToken(from: Pubkey, to: Pubkey): Instruction {
    Instruction(TOKEN_PROGRAM_ID, [AccountMeta(from, true, false), AccountMeta(from, false, false), AccountMeta(to, false, true)],
                Encode(Transfer(1)))
  }

  lemma {:induction false} OneTokenMoves(rent: Rent, s: Store, keys: seq<Pubkey>, from: Pubkey, to: Pubkey, m: Pubkey, budget: U64)
    returns (a: nat, b: nat, out: seq<Account>)
    requires from in keys && to in keys && from != to && WellKeyed(s)
    requires HolderAt(s, from) == Some(TokenAccount(m, from, 1, true)) && HolderAt(s, to) == Some(TokenAccount(m, from, 0, true))
    ensures IsFirst(keys, from, a) && IsFirst(keys, to, b) && CellsFor(keys, out)
    ensures Lamports.Accepted(rent, keys, s, [OneToken(from, to)], budget) == Ok(out)
    ensures out == LoadAll(s, keys)[a := out[a]][b := out[b]] && Holds(out[b], TokenAccount(m, from, 1, true))
  {
    var ins, cells := OneToken(from, to), LoadAll(s, keys);
    PrepareFailsIff(ins.accounts, keys, cells);
    PreparedInfos(ins.accounts, keys, cells);
    var infos := PrepareInfos(ins.accounts, keys, cells).value;
    a, b := infos[1].cell, infos[2].cell;
    assert CellsFor(keys, cells);
    out := OneTokenAccepted(rent, from, to, m, infos, cells, budget);
    SingleInstruction(Native.NativeExecutor(rent), ins, keys, cells, budget);
  }

  lemma {:induction false} OneTokenIsTransfer(from: Pubkey, to: Pubkey)
    ensures Decode(OneToken(from, to).data) == Some(Transfer(1))
  {
    DecodeEncode(Transfer(1));
  }

  lemma {:induction false} OneTokenAccepted(rent: Rent, from: Pubkey, to: Pubkey, m: Pubkey, infos: seq<AccountInfo>,
                                            cells: seq<Account>, budget: U64)
    returns (out: seq<Account>)
    requires |infos| == 3 && infos[0].isSigner && infos[0].pubkey == from && infos[1].cell != infos[2].cell
    requires forall j :: 0 <= j < |infos| ==> infos[j].cell < |cells|
    requires Holds(cells[infos[1].cell], TokenAccount(m, from, 1, true))
    requires Holds(cells[infos[2].cell], TokenAccount(m, from, 0, true))
    ensures Native.NativeExecutor(rent)(OneToken(from, to), infos, cells, budget) == Ok(out)
    ensures var a, b := infos[1].cell, infos[2].cell;
            && |out| == |cells| && out == cells[a := out[a]][b := out[b]] && (forall i :: 0 <= i < |cells| ==> out[i].pubkey == cells[i].pubkey)
            && Holds(out[b], TokenAccount(m, from, 1, true))
  {
    var source, dest := TokenAccount(m, from, 1, true), TokenAccount(m, from, 0, true);
    OneTokenIsTransfer(from, to);
    ExecutorAccepts(rent, OneToken(from, to), infos, cells, budget);
    TransferMoves(1, infos, cells, source, dest);
    out := ExecuteTransfer(1, infos, cells).value;
  }

  /** A token sent from a repeated key to an unrepeated one is also kept by the sender. */
  lemma {:induction false} TokenAppears(keys: seq<Pubkey>, i: nat, j: nat)
    requires i < |keys| && j < |keys| && Lamports.RepeatsAt(keys, i) && !Lamports.RepeatsAt(keys, j)
    ensures !KeepsLedgers(keys)
  {
    var rent, from, to := Exempting(), keys[i], keys[j];
    var s, m := OneHolder(from, to, from, 1), SomeMint(from, to);
    OneHolderLedger(from, to, from, 1);
    OneHolderSees(from, to, from, 1);
    SendTwice(rent, s, keys, i, j, m);
  }

  lemma {:induction false} SendTwice(rent: Rent, s: Store, keys: seq<Pubkey>, i: nat, j: nat, m: Pubkey)
    requires i < |keys| && j < |keys| && Lamports.RepeatsAt(keys, i) && !Lamports.RepeatsAt(keys, j)
    requires WellKeyed(s) && Ledger(s) && MintAt(s, m).Some? && MintAt(s, m).value.supply == 1
    requires HolderAt(s, keys[i]) == Some(TokenAccount(m, keys[i], 1, true)) && HolderAt(s, keys[j]) == Some(TokenAccount(m, keys[i], 0, true))
    ensures !KeepsLedgers(keys)
  {
    var from, to := keys[i], keys[j];
    var a, b, out := OneTokenMoves(rent, s, keys, from, to, m, 0);
    assert View(s, out)[from] == s[from] && to in View(s, out) && View(s, out)[to] == out[b] by {
      var last := Lamports.LastExists(keys, from);
      Lamports.LastWins(keys, out, from, last);
      assert Lamports.IsLast(keys, to, b);
      Lamports.LastWins(keys, out, to, b);
    }
    OthersWrittenBack(s, keys, out, a, b, m);
    KeptAndSent(s, View(s, out), from, to, m);
    OneTokenIsTransfer(from, to);
    TransfersAreSound(s, rent, OneToken(from, to), keys, LoadAll(s, keys));
    LedgerLost(rent, s, keys, OneToken(from, to), out);
  }

  lemma {:induction false} LedgerLost(rent: Rent, s: Store, keys: seq<Pubkey>, ins: Instruction, out: seq<Account>)
    requires WellKeyed(s) && Ledger(s) && !SelfTransfer(ins) && SoundExecution(s, rent, [ins], keys, LoadAll(s, keys))
    requires Lamports.Accepted(rent, keys, s, [ins], 0) == Ok(out) && !Ledger(View(s, out))
    ensures !KeepsLedgers(keys)
  {
  }

  lemma {:induction false} KeptAndSent(s: Store, t: Store, from: Pubkey, to: Pubkey, m: Pubkey)
    requires from in s && from in t && to in t && from != to && t[from] == s[from] && m in s && m in t && t[m] == s[m]
    requires MintAt(s, m).Some? && MintAt(s, m).value.supply == 1 && AmountOf(m, s[from]) == 1 && AmountOf(m, t[to]) == 1
    ensures !Ledger(t)
  {
    TwoHoldersFit(t, from, to, m);
    assert Overheld(t, m);
  }

  lemma {:induction false} OthersWrittenBack(s: Store, keys: seq<Pubkey>, out: seq<Account>, a: nat, b: nat, m: Pubkey)
    requires CellsFor(keys, out) && a < |keys| && b < |keys| && out == LoadAll(s, keys)[a := out[a]][b := out[b]]
    requires m in s && m != keys[a] && m != keys[b]
    ensures m in View(s, out) && View(s, out)[m] == s[m]
  {
    Lamports.DirtyInKeys(keys, out);
    if m in Dirty(out) {
      var x := Lamports.LastExists(keys, m);
      Lamports.LastWins(keys, out, m, x);
    }
  }

  /** As with lamports: supplies stay exact over precisely the key lists in which no key repeats or every key does. */
  lemma {:induction false} KeepsLedgersIff(keys: seq<Pubkey>)
    ensures KeepsLedgers(keys) <==> NoRepeats(keys) || Lamports.AllRepeat(keys)
  {
    if NoRepeats(keys) || Lamports.AllRepeat(keys) {
      forall rent: Rent, s: Store, instructions: seq<Instruction>, budget: U64 |
        WellKeyed(s) && Ledger(s) && (forall ins :: ins in instructions ==> !SelfTransfer(ins))
        && SoundExecution(s, rent, instructions, keys, LoadAll(s, keys)) && Lamports.Accepted(rent, keys, s, instructions, budget).Ok?
        ensures Ledger(View(s, Lamports.Accepted(rent, keys, s, instructions, budget).value))
      {
        if NoRepeats(keys) {
          LoadedUnseen(s, keys);
          ExecutionKeepsLedger(s, rent, instructions, keys, LoadAll(s, keys), budget);
        } else {
          Lamports.RepeatedKeysWriteBack(rent, keys, s, instructions, budget);
          WriteBackUnseen(s, Dirty(Lamports.Accepted(rent, keys, s, instructions, budget).value));
          SameLedger(s, View(s, Lamports.Accepted(rent, keys, s, instructions, budget).value));
        }
      }
    } else {
      var i, x :| 0 <= i < x < |keys| && keys[i] == keys[x];
      var j :| 0 <= j < |keys| && !Lamports.RepeatsAt(keys, j);
      assert Lamports.RepeatsAt(keys, i);
      TokenAppears(keys, i, j);
    }
  }

  // ----- whole runs

  /** What the theorem asks of a transaction: unrepeated keys and no transfer from an account to itself. */
  ghost predicate KeepsSupply(tx: Transaction) {
    NoRepeats(tx.message.accountKeys) && forall ins :: ins in tx.message.instructions ==> !SelfTransfer(ins)
  }

  ghost predicate SoundRun(run: Runner, rent: Rent, s: Store, txs: seq<Transaction>)
    decreases |txs|
  {
    txs != [] ==>
      var keys := txs[0].message.accountKeys;
      && SoundExecution(s, rent, txs[0].message.instructions, keys, LoadAll(s, keys))
      && SoundRun(run, rent, Flush(s, Process(run, s, txs[0])), txs[1..])
  }

  /** Any sequence of native transactions, failures included, leaves every supply equal to what is held. */
  lemma {:induction false} RunKeepsLedger(bank: BlockhashQueue.BankView, rent: Rent,
                                          budget: Transaction -> U64, s: Store, txs: seq<Transaction>)
    requires WellKeyed(s) && Ledger(s) && (forall tx :: tx in txs ==> KeepsSupply(tx))
    requires SoundRun(Native.NativeRunner(bank, rent, budget), rent, s, txs)
    ensures Ledger(SerialStore(Native.NativeRunner(bank, rent, budget), s, txs))
    decreases |txs|
  {
    if txs != [] {
      var run, tx := Native.NativeRunner(bank, rent, budget), txs[0];
      var keys := tx.message.accountKeys;
      assert tx in txs && KeepsSupply(tx);
      var s' := Flush(s, Process(run, s, tx));
      if run(tx, LoadAll(s, keys)).Ok? {
        LoadedUnseen(s, keys);
        ExecutionKeepsLedger(s, rent, tx.message.instructions, keys, LoadAll(s, keys), budget(tx));
      }
      FlushKeyed(run, s, s, tx);
      RunKeepsLedger(bank, rent, budget, s', txs[1..]);
    }
  }

  /** From zeroed token data every reachable store has exact supplies. */
  lemma {:induction false} SupplyOverRuns(bank: BlockhashQueue.BankView, rent: Rent,
                                          budget: Transaction -> U64, s: Store, txs: seq<Transaction>, k: Pubkey)
    requires WellKeyed(s) && Zeroed(s) && (forall tx :: tx in txs ==> KeepsSupply(tx))
    requires SoundRun(Native.NativeRunner(bank, rent, budget), rent, s, txs)
    ensures var end := SerialStore(Native.NativeRunner(bank, rent, budget), s, txs);
            MintAt(end, k).Some? ==> MintAt(end, k).value.supply == Held(end, k)
  {
    ZeroedIsLedger(s);
    RunKeepsLedger(bank, rent, budget, s, txs);
  }
}
