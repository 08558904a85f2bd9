/** Conservation of lamports over whole stores, batches and interleavings. */
module Lamports {
  import opened Types
  import opened Serial
  import opened Collections
  import opened Banks
  import opened SystemProgram
  import opened Native
  import Coverage
  import Scheduler
  import BlockhashQueue
  import TokenProgram

  ghost function LamportsOf(): Account -> nat {
    (a: Account) => a.lamports
  }

  ghost function Total(s: Store): nat {
    MapSum(s, LamportsOf())
  }

  ghost predicate AllRepeat(keys: seq<Pubkey>) {
    forall i :: 0 <= i < |keys| ==> RepeatsAt(keys, i)
  }

  ghost predicate RepeatsAt(keys: seq<Pubkey>, i: nat)
    requires i < |keys|
  {
    exists j :: 0 <= j < |keys| && j != i && keys[j] == keys[i]
  }

  // ----- flushing an overlay

  lemma {:induction false} PutTotal(s: Store, a: Account)
    ensures Total(s[a.pubkey := a]) + LoadOr(s, a.pubkey).lamports == Total(s) + a.lamports
  {
    MapSumUpdate(s, LamportsOf(), a.pubkey, a);
  }

  lemma {:induction false} DirtyLast(s: Store, cells: seq<Account>)
    requires cells != []
    ensures var last := cells[|cells| - 1];
            s + Dirty(cells) == (s + Dirty(cells[..|cells| - 1]))[last.pubkey := last]
  {
  }

  lemma {:induction false} LoadSumLast(s: Store, keys: seq<Pubkey>)
    requires keys != []
    ensures var n := |keys| - 1;
            SumLamports(LoadAll(s, keys)) == SumLamports(LoadAll(s, keys[..n])) + LoadOr(s, keys[n]).lamports
  {
    assert LoadAll(s, keys)[..|keys| - 1] == LoadAll(s, keys[..|keys| - 1]);
  }

  lemma {:induction false} DirtyInKeys(keys: seq<Pubkey>, cells: seq<Account>)
    requires CellsFor(keys, cells)
    ensures forall k :: k in Dirty(cells) ==> k in keys
  {
    DirtyEntries(cells);
    forall k | k in Dirty(cells) ensures k in keys {
      var i :| 0 <= i < |cells| && cells[i].pubkey == k;
      assert keys[i] == k;
    }
  }

  /** With unrepeated keys, flushing replaces exactly the loaded accounts. */
  lemma {:induction false} FlushTotal(s: Store, keys: seq<Pubkey>, cells: seq<Account>)
    requires NoRepeats(keys) && CellsFor(keys, cells)
    ensures Total(s + Dirty(cells)) + SumLamports(LoadAll(s, keys)) == Total(s) + SumLamports(cells)
  {
    if keys == [] {
      assert s + map[] == s;
    } else {
      var n := |keys| - 1;
      FlushTotal(s, keys[..n], cells[..n]);
      DirtyInKeys(keys[..n], cells[..n]);
      DirtyLast(s, cells);
      PutTotal(s + Dirty(cells[..n]), cells[n]);
      LoadSumLast(s, keys);
    }
  }

  function Emptied(cells: seq<Account>): seq<Account> {
    seq(|cells|, i requires 0 <= i < |cells| => cells[i].(lamports := 0))
  }

  lemma {:induction false} EmptiedSum(cells: seq<Account>)
    ensures SumLamports(Emptied(cells)) == 0
  {
    if cells != [] {
      assert Emptied(cells)[..|cells| - 1] == Emptied(cells[..|cells| - 1]);
      EmptiedSum(cells[..|cells| - 1]);
    }
  }

  /** Distinct loaded accounts hold no more than the whole store. */
  lemma {:induction false} LoadedBounded(s: Store, keys: seq<Pubkey>)
    requires NoRepeats(keys) && WellKeyed(s)
    ensures SumLamports(LoadAll(s, keys)) <= Total(s)
  {
    FlushTotal(s, keys, Emptied(LoadAll(s, keys)));
    EmptiedSum(LoadAll(s, keys));
  }

  // ----- one transaction, and any serial run

  lemma {:induction false} ProcessConserves(bank: BlockhashQueue.BankView, rent: Rent,
                                            budget: Transaction -> U64, s: Store, tx: Transaction)
    requires WellKeyed(s) && Total(s) <= U64_MAX && NoRepeats(tx.message.accountKeys)
    ensures Total(Flush(s, Process(NativeRunner(bank, rent, budget), s, tx))) == Total(s)
  {
    var keys := tx.message.accountKeys;
    var cells := LoadAll(s, keys);
    var r := NativeRunner(bank, rent, budget)(tx, cells);
    if r.Ok? {
      LoadedBounded(s, keys);
      InstructionsConserve(rent, tx.message.instructions, keys, cells, budget(tx));
      FlushTotal(s, keys, r.value);
    }
  }

  /** Any sequence of system transactions with unrepeated keys leaves the total unchanged, failures included. */
  lemma {:induction false} SerialConserves(bank: BlockhashQueue.BankView, rent: Rent,
                                           budget: Transaction -> U64, s: Store, txs: seq<Transaction>)
    requires WellKeyed(s) && Total(s) <= U64_MAX && forall tx :: tx in txs ==> NoRepeats(tx.message.accountKeys)
    ensures Total(SerialStore(NativeRunner(bank, rent, budget), s, txs)) == Total(s)
    decreases |txs|
  {
    if txs != [] {
      var run := NativeRunner(bank, rent, budget);
      assert txs[0] in txs;
      ProcessConserves(bank, rent, budget, s, txs[0]);
      FlushKeyed(run, s, s, txs[0]);
      SerialConserves(bank, rent, budget, Flush(s, Process(run, s, txs[0])), txs[1..]);
    }
  }

  // ----- exactly which account-key lists conserve lamports

  /** Whatever the store and the accepted native instructions, a transaction over these keys conserves the total. */
  ghost predicate Conserves(keys: seq<Pubkey>) {
    forall rent: Rent, s: Store, instructions: seq<Instruction>, budget: U64 ::
      WellKeyed(s) && Total(s) <= U64_MAX && Accepted(rent, keys, s, instructions, budget).Ok? ==>
        Total(s + Dirty(Accepted(rent, keys, s, instructions, budget).value)) == Total(s)
  }

  ghost function Accepted(rent: Rent, keys: seq<Pubkey>, s: Store, instructions: seq<Instruction>, budget: U64)
    : Result<seq<Account>, TransactionError>
  {
    ExecuteInstructions(NativeExecutor(rent), instructions, keys, LoadAll(s, keys), budget)
  }

  /** Instructions reach a key through its first cell only. */
  lemma {:induction false} OnlyFirstsChange(rent: Rent, instructions: seq<Instruction>, keys: seq<Pubkey>, cells: seq<Account>, budget: U64)
    requires CellsFor(keys, cells) && ExecuteInstructions(NativeExecutor(rent), instructions, keys, cells, budget).Ok?
    ensures var out := ExecuteInstructions(NativeExecutor(rent), instructions, keys, cells, budget).value;
            && CellsFor(keys, out)
            && forall i :: 0 <= i < |cells| && !IsFirst(keys, keys[i], i) ==> out[i] == cells[i]
    decreases |instructions|
  {
    if instructions != [] {
      var ins := instructions[0];
      var infos := PrepareInfos(ins.accounts, keys, cells).value;
      PreparedInfos(ins.accounts, keys, cells);
      DispatchTouches(rent, ins, infos, cells);
      var mid := Dispatch(rent, ins, infos, cells).value;
      OnlyFirstsChange(rent, instructions[1..], keys, mid, budget);
      forall i | 0 <= i < |cells| && !IsFirst(keys, keys[i], i) ensures mid[i] == cells[i] {
        assert forall j :: 0 <= j < |infos| ==> IsFirst(keys, ins.accounts[j].pubkey, infos[j].cell);
      }
    }
  }

  /** The last cell of a key is the one written back. */
  ghost predicate IsLast(keys: seq<Pubkey>, k: Pubkey, i: nat) {
    i < |keys| && keys[i] == k && forall m :: i < m < |keys| ==> keys[m] != k
  }

  lemma {:induction false} LastExists(keys: seq<Pubkey>, k: Pubkey) returns (i: nat)
    requires k in keys
    ensures IsLast(keys, k, i)
  {
    var n := |keys| - 1;
    if keys[n] == k {
      i := n;
    } else {
      i := LastExists(keys[..n], k);
    }
  }

  lemma {:induction false} LastWins(keys: seq<Pubkey>, cells: seq<Account>, k: Pubkey, i: nat)
    requires CellsFor(keys, cells) && IsLast(keys, k, i)
    ensures k in Dirty(cells) && Dirty(cells)[k] == cells[i]
  {
    var n := |keys| - 1;
    if i < n {
      LastWins(keys[..n], cells[..n], k, i);
    }
  }

  lemma {:induction false} OverrideOne<K, V>(s: map<K, V>, d: map<K, V>, k: K)
    requires k in d
    ensures s + d == (s + (d - {k}))[k := d[k]]
  {
  }

  /** Writing back what was loaded changes no lamports. */
  lemma {:induction false} WriteBackTotal(s: Store, d: Store)
    requires WellKeyed(s) && forall k :: k in d ==> d[k] == LoadOr(s, k)
    ensures Total(s + d) == Total(s)
    decreases |d|
  {
    if d == map[] {
      assert s + d == s;
    } else {
      var k := PickKey(d);
      WriteBackTotal(s, d - {k});
      OverrideOne(s, d, k);
      PutTotal(s + (d - {k}), d[k]);
    }
  }

  /** If every key repeats, nothing an instruction changes is written back. */
  lemma {:induction false} RepeatedKeysWriteBack(rent: Rent, keys: seq<Pubkey>, s: Store, instructions: seq<Instruction>, budget: U64)
    requires AllRepeat(keys) && WellKeyed(s) && Accepted(rent, keys, s, instructions, budget).Ok?
    ensures var d := Dirty(Accepted(rent, keys, s, instructions, budget).value); forall k :: k in d ==> d[k] == LoadOr(s, k)
  {
    var out := Accepted(rent, keys, s, instructions, budget).value;
    OnlyFirstsChange(rent, instructions, keys, LoadAll(s, keys), budget);
    DirtyInKeys(keys, out);
    forall k | k in Dirty(out) ensures Dirty(out)[k] == LoadOr(s, k) {
      var i := LastExists(keys, k);
      LastWins(keys, out, k, i);
      assert RepeatsAt(keys, i);
    }
  }

  /** The instruction that exposes a repeated key: one lamport, signed. */
  function OneLamport(from: Pubkey, to: Pubkey): Instruction {
    Instruction(SYSTEM_PROGRAM_ID, [AccountMeta(from, true, true), AccountMeta(to, false, true)], Encode(Transfer(1)))
  }

  lemma {:induction false} OneLamportMoves(rent: Rent, keys: seq<Pubkey>, s: Store, from: Pubkey, to: Pubkey, budget: U64)
    returns (a: nat, b: nat)
    requires from in keys && to in keys && from != to && LoadOr(s, from).lamports >= 1
    ensures IsFirst(keys, from, a) && IsFirst(keys, to, b)
    ensures Accepted(rent, keys, s, [OneLamport(from, to)], budget) == Ok(Move(LoadAll(s, keys), a, b, 1))
  {
    var ins, cells := OneLamport(from, to), LoadAll(s, keys);
    var infos := OneLamportPrepared(keys, cells, from, to);
    a, b := infos[0].cell, infos[1].cell;
    OneLamportAccepted(rent, from, to, infos, cells, budget);
    SingleInstruction(NativeExecutor(rent), ins, keys, cells, budget);
  }

  lemma {:induction false} OneLamportPrepared(keys: seq<Pubkey>, cells: seq<Account>, from: Pubkey,
                                              to: Pubkey) returns (infos: seq<AccountInfo>)
    requires |keys| == |cells| && from in keys && to in keys && from != to
    ensures PrepareInfos(OneLamport(from, to).accounts, keys, cells) == Ok(infos)
    ensures |infos| == 2 && infos[0].isSigner && IsFirst(keys, from, infos[0].cell) && IsFirst(keys, to, infos[1].cell)
  {
    var metas := OneLamport(from, to).accounts;
    PrepareFailsIff(metas, keys, cells);
    PreparedInfos(metas, keys, cells);
    infos := PrepareInfos(metas, keys, cells).value;
  }

  lemma {:induction false} OneLamportAccepted(rent: Rent, from: Pubkey, to: Pubkey, infos: seq<AccountInfo>,
                                              cells: seq<Account>, budget: U64)
    requires |infos| == 2 && infos[0].isSigner && 1 <= |cells| && (forall j :: 0 <= j < |infos| ==> infos[j].cell < |cells|)
    requires cells[infos[0].cell].lamports >= 1
    ensures NativeExecutor(rent)(OneLamport(from, to), infos, cells, budget) == Ok(Move(cells, infos[0].cell, infos[1].cell, 1))
  {
    assert Dispatch(rent, OneLamport(from, to), infos, cells) == Entrypoint(Encode(Transfer(1)), infos, cells);
    TransferFrom(infos, cells, 1);
  }

  lemma {:induction false} TransferFrom(infos: seq<AccountInfo>, cells: seq<Account>, lamports: U64)
    requires |infos| == 2 && infos[0].cell < |cells| && infos[1].cell < |cells| && infos[0].isSigner
    requires lamports <= cells[infos[0].cell].lamports
    ensures Entrypoint(Encode(Transfer(lamports)), infos, cells) == Ok(Move(cells, infos[0].cell, infos[1].cell, lamports))
  {
    DecodeEncode(Transfer(lamports));
  }

  lemma {:induction false} TwoHolders(t: Store, a: Pubkey, b: Pubkey)
    requires a in t && b in t && a != b
    ensures t[a].lamports + t[b].lamports <= Total(t)
  {
    MapSumRemove(t, LamportsOf(), a);
    MapSumRemove(t - {a}, LamportsOf(), b);
  }

  lemma {:induction false} SingletonTotal(a: Account)
    ensures Total(map[a.pubkey := a]) == a.lamports
  {
    var none: Store := map[];
    PutTotal(none, a);
    assert none[a.pubkey := a] == map[a.pubkey := a];
  }

  /** Moving a lamport out of a repeated key leaves it in that key's last cell too. */
  lemma {:induction false} KeptAndSent(keys: seq<Pubkey>, cells: seq<Account>, i: nat, j: nat, a: nat, b: nat)
    requires CellsFor(keys, cells) && i < |keys| && j < |keys| && keys[i] != keys[j]
    requires RepeatsAt(keys, i) && !RepeatsAt(keys, j) && IsFirst(keys, keys[i], a) && IsFirst(keys, keys[j], b)
    requires (forall m :: 0 <= m < |keys| && keys[m] == keys[i] ==> cells[m].lamports == 1) && cells[b].lamports == 0
    ensures var d := Dirty(Move(cells, a, b, 1));
            && keys[i] in d && keys[j] in d && d[keys[i]].lamports == 1 && d[keys[j]].lamports == 1
  {
    var out := Move(cells, a, b, 1);
    var last := LastExists(keys, keys[i]);
    LastWins(keys, out, keys[i], last);
    assert IsLast(keys, keys[j], b);
    LastWins(keys, out, keys[j], b);
  }

  lemma {:induction false} TwoInFlush(s: Store, d: Store, a: Pubkey, b: Pubkey)
    requires a in d && b in d && a != b
    ensures d[a].lamports + d[b].lamports <= Total(s + d)
  {
    TwoHolders(s + d, a, b);
  }

  /** One lamport sent from a repeated key to an unrepeated one is also kept by the sender. */
  lemma {:induction false} LamportAppears(rent: Rent, keys: seq<Pubkey>, i: nat, j: nat)
    requires i < |keys| && j < |keys| && RepeatsAt(keys, i) && !RepeatsAt(keys, j)
    ensures !Conserves(keys)
  {
    var from, to := keys[i], keys[j];
    var holder := FreshAccount(from).(lamports := 1);
    var s: Store := map[from := holder];
    SingletonTotal(holder);
    var a, b := OneLamportMoves(rent, keys, s, from, to, 0);
    KeptAndSent(keys, LoadAll(s, keys), i, j, a, b);
    var accepted := Accepted(rent, keys, s, [OneLamport(from, to)], 0);
    TwoInFlush(s, Dirty(accepted.value), from, to);
    NotConserved(rent, keys, s, [OneLamport(from, to)], 0);
  }

  lemma {:induction false} NotConserved(rent: Rent, keys: seq<Pubkey>, s: Store, instructions: seq<Instruction>, budget: U64)
    requires WellKeyed(s) && Total(s) <= U64_MAX && Accepted(rent, keys, s, instructions, budget).Ok?
    requires Total(s + Dirty(Accepted(rent, keys, s, instructions, budget).value)) != Total(s)
    ensures !Conserves(keys)
  {
  }

  /**
   The total is conserved exactly for key lists in which no key repeats or every key does: a repeated key is
   written back from its last cell, while instructions only reach its first.
   */
  lemma {:induction false} ConservesIff(keys: seq<Pubkey>)
    ensures Conserves(keys) <==> NoRepeats(keys) || AllRepeat(keys)
  {
    if NoRepeats(keys) || AllRepeat(keys) {
      forall rent: Rent, s: Store, instructions: seq<Instruction>, budget: U64 |
        WellKeyed(s) && Total(s) <= U64_MAX && Accepted(rent, keys, s, instructions, budget).Ok?
        ensures Total(s + Dirty(Accepted(rent, keys, s, instructions, budget).value)) == Total(s)
      {
        if NoRepeats(keys) {
          LoadedBounded(s, keys);
          InstructionsConserve(rent, instructions, keys, LoadAll(s, keys), budget);
          FlushTotal(s, keys, Accepted(rent, keys, s, instructions, budget).value);
        } else {
          RepeatedKeysWriteBack(rent, keys, s, instructions, budget);
          WriteBackTotal(s, Dirty(Accepted(rent, keys, s, instructions, budget).value));
        }
      }
    } else {
      var i, m :| 0 <= i < m < |keys| && keys[i] == keys[m];
      var j :| 0 <= j < |keys| && !RepeatsAt(keys, j);
      assert RepeatsAt(keys, i);
      LamportAppears(TokenProgram.Exempting(), keys, i, j);
    }
  }

  // ----- a loaded account that no meta names

  /** Sends one lamport, loading both accounts. */
  function Payment(from: Pubkey, to: Pubkey, hash: Hash): Transaction {
    Transaction([ZERO32 + ZERO32], Message([from, to], hash, [OneLamport(from, to)]))
  }

  /** Loads an account and does nothing with it. */
  function Onlooker(key: Pubkey, hash: Hash): Transaction {
    Transaction([ZERO32 + ZERO32], Message([key], hash, []))
  }

  lemma {:induction false} OnlookerWritesBack(bank: BlockhashQueue.BankView, rent: Rent,
                                              budget: Transaction -> U64, s: Store, key: Pubkey, hash: Hash)
    requires BlockhashQueue.CheckPreflight(bank, Onlooker(key, hash)).Ok?
    ensures Process(NativeRunner(bank, rent, budget), s, Onlooker(key, hash)) == Ok(Dirty([LoadOr(s, key)]))
  {
    var tx, cells := Onlooker(key, hash), [LoadOr(s, key)];
    assert LoadAll(s, tx.message.accountKeys) == cells;
    assert NativeRunner(bank, rent, budget)(tx, cells) == Ok(cells);
  }

  /** Sent from a key that does not repeat, the lamport is gone after the flush. */
  lemma {:induction false} OneLamportLeaves(rent: Rent, s: Store, keys: seq<Pubkey>, from: Pubkey, to: Pubkey, i: nat, budget: U64)
    returns (out: seq<Account>)
    requires WellKeyed(s) && from != to && LoadOr(s, from).lamports >= 1
    requires to in keys && IsFirst(keys, from, i) && IsLast(keys, from, i)
    ensures Accepted(rent, keys, s, [OneLamport(from, to)], budget) == Ok(out)
    ensures from in Dirty(out) && Dirty(out)[from].lamports == LoadOr(s, from).lamports - 1
  {
    var a, b := OneLamportMoves(rent, keys, s, from, to, budget);
    assert a == i && b != i;
    out := Move(LoadAll(s, keys), i, b, 1);
    MovedAway(keys, LoadAll(s, keys), i, b);
  }

  lemma {:induction false} MovedAway(keys: seq<Pubkey>, cells: seq<Account>, i: nat, b: nat)
    requires CellsFor(keys, cells) && i < |keys| && b < |keys| && i != b && IsLast(keys, keys[i], i) && cells[i].lamports >= 1
    ensures var d := Dirty(Move(cells, i, b, 1)); keys[i] in d && d[keys[i]].lamports == cells[i].lamports - 1
  {
    LastWins(keys, Move(cells, i, b, 1), keys[i], i);
  }

  lemma {:induction false} PaymentDebits(bank: BlockhashQueue.BankView, rent: Rent,
                                         budget: Transaction -> U64, s: Store, from: Pubkey, to: Pubkey, hash: Hash)
    requires WellKeyed(s) && from != to && LoadOr(s, from).lamports >= 1
    requires BlockhashQueue.CheckPreflight(bank, Payment(from, to, hash)).Ok?
    ensures var p := Process(NativeRunner(bank, rent, budget), s, Payment(from, to, hash));
            p.Ok? && from in p.value && p.value[from].lamports == LoadOr(s, from).lamports - 1
  {
    var keys := [from, to];
    assert keys[0] == from && keys[1] == to;
    var out := OneLamportLeaves(rent, s, keys, from, to, 0, budget(Payment(from, to, hash)));
  }

  /**
   The schedule puts a payment and an onlooker that names the payer in no meta into one group.  Both succeed, the onlooker's
   stale write-back returns the lamport to the payer, and the receiver keeps it.
   */
  lemma {:induction false} StaleWriteBackMints(bank: BlockhashQueue.BankView, rent: Rent, budget: Transaction -> U64, s: Store,
                                               from: Pubkey, to: Pubkey, hash: Hash)
    requires WellKeyed(s) && Total(s) <= U64_MAX && from != to && LoadOr(s, from).lamports >= 1
    requires BlockhashQueue.CheckPreflight(bank, Payment(from, to, hash)).Ok?
    ensures var txs := [Payment(from, to, hash), Onlooker(from, hash)];
            var run := NativeRunner(bank, rent, budget);
            && Scheduler.IsSchedule(txs, [[0, 1]])
            && Outcomes(ParallelResults(run, s, txs)) == [None, None]
            && Total(Commit(s, ParallelResults(run, s, txs))) == Total(s) + 1
            && Total(SerialStore(run, s, txs)) == Total(s)
  {
    var pay, look := Payment(from, to, hash), Onlooker(from, hash);
    var run := NativeRunner(bank, rent, budget);
    assert Scheduler.IsSchedule([pay, look], [[0, 1]]) by {
      Coverage.PairIsSchedule(pay, look);
    }
    StaleLamport(bank, rent, budget, s, from, to, hash);
    CommitOfTwo(run, s, pay, look);
    assert Total(SerialStore(run, s, [pay, look])) == Total(s) by {
      SerialPair(bank, rent, budget, s, pay, look);
    }
  }

  lemma {:induction false} SerialPair(bank: BlockhashQueue.BankView, rent: Rent,
                                      budget: Transaction -> U64, s: Store, x: Transaction, y: Transaction)
    requires WellKeyed(s) && Total(s) <= U64_MAX && NoRepeats(x.message.accountKeys) && NoRepeats(y.message.accountKeys)
    ensures Total(SerialStore(NativeRunner(bank, rent, budget), s, [x, y])) == Total(s)
  {
    SerialConserves(bank, rent, budget, s, [x, y]);
  }

  lemma {:induction false} StaleLamport(bank: BlockhashQueue.BankView, rent: Rent,
                                        budget: Transaction -> U64, s: Store, from: Pubkey, to: Pubkey, hash: Hash)
    requires WellKeyed(s) && Total(s) <= U64_MAX && from != to && LoadOr(s, from).lamports >= 1
    requires BlockhashQueue.CheckPreflight(bank, Payment(from, to, hash)).Ok?
    ensures var run := NativeRunner(bank, rent, budget);
            var first, second := Process(run, s, Payment(from, to, hash)), Process(run, s, Onlooker(from, hash));
            first.Ok? && second.Ok? && Total(Flush(Flush(s, first), second)) == Total(s) + 1
  {
    var run := NativeRunner(bank, rent, budget);
    var first, second := Process(run, s, Payment(from, to, hash)), Process(run, s, Onlooker(from, hash));
    assert first.Ok? && from in first.value && first.value[from].lamports == LoadOr(s, from).lamports - 1 by {
      PaymentDebits(bank, rent, budget, s, from, to, hash);
    }
    assert Total(Flush(s, first)) == Total(s) by {
      ProcessConserves(bank, rent, budget, s, Payment(from, to, hash));
    }
    assert second == Ok(Dirty([LoadOr(s, from)])) by {
      OnlookerWritesBack(bank, rent, budget, s, from, hash);
    }
    StaleResults(s, first, second, LoadOr(s, from));
  }

  lemma {:induction false} StaleResults(s: Store, first: Result<Store, TransactionError>,
                                        second: Result<Store, TransactionError>, a: Account)
    requires first.Ok? && a.pubkey in first.value && first.value[a.pubkey].lamports == a.lamports - 1
    requires Total(Flush(s, first)) == Total(s) && second == Ok(Dirty([a]))
    ensures Total(Flush(Flush(s, first), second)) == Total(s) + 1
  {
    StaleGain(s, first.value, a);
  }

  /** Writing back an account as it was one lamport ago adds that lamport. */
  lemma {:induction false} StaleGain(s: Store, d: Store, a: Account)
    requires a.pubkey in d && d[a.pubkey].lamports == a.lamports - 1 && Total(s + d) == Total(s)
    ensures Total(s + d + Dirty([a])) == Total(s) + 1
  {
    PutTotal(s + d, a);
    OneWriteBack(s + d, a);
  }

  lemma OneWriteBack(s: Store, a: Account)
    ensures s + Dirty([a]) == s[a.pubkey := a]
  {
    assert [a][..0] == [];
  }

  lemma {:induction false} CommitOfTwo(run: Runner, s: Store, x: Transaction, y: Transaction)
    ensures Commit(s, ParallelResults(run, s, [x, y])) == Flush(Flush(s, Process(run, s, x)), Process(run, s, y))
    ensures Outcomes(ParallelResults(run, s, [x, y])) == [Outcome(Process(run, s, x)), Outcome(Process(run, s, y))]
  {
    var results := ParallelResults(run, s, [x, y]);
    assert results == [Process(run, s, x), Process(run, s, y)];
    assert results[1..] == [results[1]] && results[1..][1..] == [];
    var first := Flush(s, results[0]);
    assert Commit(first, results[1..]) == Commit(Flush(first, results[1]), []);
  }
}
