/** What it takes for scheduling and locking, which look at metas, to protect the accounts a transaction loads. */
module Coverage {
  import opened Types
  import opened Serial
  import Scheduler
  import AccountLocks

  /** Scheduled into one group, `a` before `tx`. */
  ghost predicate Together(txs: seq<Transaction>, groups: seq<seq<nat>>, g: nat, a: nat, b: nat, tx: Transaction) {
    && Scheduler.IsSchedule(txs, groups) && g < |groups| && a < b < |groups[g]|
    && groups[g][a] < |txs| && groups[g][b] < |txs| && txs[groups[g][b]] == tx
  }

  /** However it is scheduled, no earlier member of its group changes what it loads. */
  ghost predicate AlwaysApart(tx: Transaction) {
    forall txs, groups, g, a, b :: Together(txs, groups, g, a, b, tx) ==> Apart(txs[groups[g][a]], tx)
  }

  /** A transaction whose one instruction marks one key writable. */
  function WriterOf(k: Pubkey): Transaction {
    Transaction([ZERO32 + ZERO32],
                Message([k], Hash(ZERO32), [Instruction(SYSTEM_PROGRAM_ID, [AccountMeta(k, false, true)], [])]))
  }

  lemma {:induction false} WriterKeys(k: Pubkey)
    ensures WriteKeys(WriterOf(k)) == {k} && ReadKeys(WriterOf(k)) == {} && LoadedKeys(WriterOf(k)) == {k}
  {
    var metas := [AccountMeta(k, false, true)];
    var instructions := WriterOf(k).message.instructions;
    assert metas[0] in metas;
    assert KeysIn(metas, true) == {k} && KeysIn(metas, false) == {};
    assert instructions[..0] == [];
    assert MetaKeys(instructions, true) == MetaKeys([], true) + KeysIn(metas, true);
    assert MetaKeys(instructions, false) == MetaKeys([], false) + KeysIn(metas, false);
    assert WriterOf(k).message.accountKeys[0] == k;
  }

  /** Two transactions without conflict form one group. */
  lemma {:induction false} PairIsSchedule(x: Transaction, y: Transaction)
    requires !Scheduler.Conflict(x, y)
    ensures Scheduler.IsSchedule([x, y], [[0, 1]])
  {
    var groups: seq<seq<nat>> := [[0, 1]];
    assert 0 in groups[0] && 1 in groups[0];
    assert Scheduler.Increasing(groups[0], 2) && Scheduler.ConflictFree([x, y], groups[0]);
  }

  /** Grouping protects a transaction in every batch exactly when its metas name every key it loads. */
  lemma {:induction false} AlwaysApartIffCovered(tx: Transaction)
    ensures AlwaysApart(tx) <==> Covered(tx)
  {
    if Covered(tx) {
      forall txs, groups, g, a, b | Together(txs, groups, g, a, b, tx) ensures Apart(txs[groups[g][a]], tx) {
        assert !Scheduler.Conflict(txs[groups[g][a]], txs[groups[g][b]]);
      }
    } else {
      var k :| k in LoadedKeys(tx) && k !in ReadKeys(tx) + WriteKeys(tx);
      WriterKeys(k);
      PairIsSchedule(WriterOf(k), tx);
      assert Together([WriterOf(k), tx], [[0, 1]], 0, 0, 1, tx);
      assert !Apart(WriterOf(k), tx);
    }
  }

  /** No transaction that can be locked beside it writes what it loads. */
  ghost predicate LocksProtect(tx: Transaction) {
    forall other: Transaction :: AccountLocks.Compatible(AccountLocks.GuardFor([other]), AccountLocks.GuardFor([tx])) ==>
      WriteKeys(other) !! LoadedKeys(tx)
  }

  lemma {:induction false} GuardOfOne(tx: Transaction)
    ensures AccountLocks.GuardFor([tx]) == AccountLocks.LockGuard(WriteKeys(tx), ReadKeys(tx))
  {
    assert [tx][..0] == [];
    assert forall w :: AccountLocks.GroupKeys([tx], w) == AccountLocks.GroupKeys([], w) + MetaKeys(tx.message.instructions, w);
  }

  /** Group locks protect a transaction from every other caller exactly when its metas name every key it loads. */
  lemma {:induction false} LocksProtectIffCovered(tx: Transaction)
    ensures LocksProtect(tx) <==> Covered(tx)
  {
    GuardOfOne(tx);
    if Covered(tx) {
      forall other: Transaction | AccountLocks.Compatible(AccountLocks.GuardFor([other]), AccountLocks.GuardFor([tx]))
        ensures WriteKeys(other) !! LoadedKeys(tx)
      {
        GuardOfOne(other);
      }
    } else {
      var k :| k in LoadedKeys(tx) && k !in ReadKeys(tx) + WriteKeys(tx);
      WriterKeys(k);
      GuardOfOne(WriterOf(k));
      assert AccountLocks.Compatible(AccountLocks.GuardFor([WriterOf(k)]), AccountLocks.GuardFor([tx]));
    }
  }
}
