/** `BankingStage::process_batch`: verify, schedule, charge, lock, execute, settle, commit, unlock. */
module BankingStage {
  import opened Types
  import opened Serial
  import opened CostModel
  import opened BatchCourse
  import Scheduler
  import AccountLocks
  import Accounts
  import Banks
  import BlockhashQueue

  ghost function RunOn(bank: Banks.Bank, exec: Banks.Executor): Runner
    reads bank
  {
    Banks.RunnerFor(bank.View(), exec, Budget())
  }

  /** `run` is what the bank does, with each transaction's own cost as its compute budget. */
  ghost predicate Runs(run: Runner, view: BlockhashQueue.BankView, exec: Banks.Executor) {
    forall tx: Transaction, cells: seq<Account> :: run(tx, cells) == Banks.RunOnce(view, exec, tx, cells, CostOf(tx).Sum())
  }

  class BankingStage {
    const locks: AccountLocks.AccountLocks
    const costs: CostTracker
    var requeued: seq<Transaction>

    constructor ()
      ensures locks.Valid() && locks.guards == map[] && costs.Valid() && requeued == []
      ensures costs.limits == Limits(60_000_000, 24_000_000) && Kept() == Books(Ledger(0, map[]), multiset{})
      ensures fresh(locks) && fresh(costs)
    {
      locks := new AccountLocks.AccountLocks();
      costs := new CostTracker(Limits(MAX_BLOCK_UNITS, MAX_WRITABLE_ACCOUNT_UNITS));
      requeued := [];
    }

    /** What the cost tracker holds. */
    ghost function Kept(): Books
      reads costs
    {
      Books(costs.State(), costs.outstanding)
    }

    /** The limits every stage is built with: `MAX_BLOCK_UNITS` and `MAX_WRITABLE_ACCOUNT_UNITS`. */
    predicate Standard() {
      costs.limits == Limits(60_000_000, 24_000_000)
    }

    // ----- admission

    /** Charges the transaction if it fits. */
    method TryCharge(tx: Transaction) returns (fits: bool)
      requires costs.Valid()
      modifies costs
      ensures costs.Valid() && fits == WouldFit(costs.limits, old(costs.State()), CostOf(tx)).Ok?
      ensures Kept() == if fits then Charged(old(Kept()), CostOf(tx)) else old(Kept())
    {
      var cost := CalculateCost(tx);
      var r := costs.Fits(cost);
      fits := r.Ok?;
      if fits {
        costs.AddCost(cost);
      }
    }

    /** The first a members are judged and the admitted ones charged. */
    ghost predicate Admitting(b: Books, prices: seq<TransactionCost>, group: Indices, a: nat,
                              admitted: Indices, before: Results, results: Results)
      requires InRange(group, |prices|) && a <= |group|
      reads this, costs
    {
      costs.Valid() && Tally(admitted, Kept()) == Admission(costs.limits, b, prices, group, a) && Judged(group[..a], admitted, before, results)
    }

    method AdmitOne(txs: seq<Transaction>, group: Indices, a: nat, admitted: Indices, before: Results, results: Results, ghost b: Books)
      returns (admitted': Indices, results': Results)
      requires InRange(group, |txs|) && |before| == |txs| && Distinct(group) && a < |group|
      requires Admitting(b, Costs(txs), group, a, admitted, before, results)
      modifies costs
      ensures Admitting(b, Costs(txs), group, a + 1, admitted', before, results')
    {
      var i := group[a];
      AdmittedFrom(costs.limits, b, Costs(txs), group, a);
      JudgeOne(group, a, admitted, before, results);
      var fits := TryCharge(txs[i]);
      if fits {
        admitted', results' := admitted + [i], results;
      } else {
        admitted', results' := admitted, results[i := Some(WouldExceedMaxBlockCostLimit)];
      }
    }

    /** The cost loop: charge what fits, report the rest without re-queueing it. */
    method AdmitGroup(txs: seq<Transaction>, group: Indices, before: Results) returns (admitted: Indices, results: Results)
      requires InRange(group, |txs|) && |before| == |txs| && Distinct(group) && costs.Valid()
      modifies costs
      ensures Admitting(old(Kept()), Costs(txs), group, |group|, admitted, before, results)
    {
      admitted, results := [], before;
      ghost var b := Kept();
      for a := 0 to |group|
        invariant Admitting(b, Costs(txs), group, a, admitted, before, results)
      {
        admitted, results := AdmitOne(txs, group, a, admitted, before, results, b);
      }
    }

    // ----- execution

    method ExecuteOne(bank: Banks.Bank, tx: Transaction, exec: Banks.Executor, ghost run: Runner) returns (r: Result<Store, TransactionError>)
      requires bank.accounts.Chained() && Runs(run, bank.View(), exec)
      ensures r == Process(run, old(bank.accounts.View()), tx) && (r.Err? ==> !r.error.IsRetryable())
      ensures bank.accounts.View() == old(bank.accounts.View())
    {
      Banks.BankErrorsAreFinal(bank.View(), exec, Budget());
      var done := bank.ProcessSingleTransaction(tx, exec, Budget());
      r := if done.Ok? then Ok(done.value.entries) else Err(done.error);
    }

    /** The parallel map: every member runs against the same store, each on its own overlay, kept as its dirty map. */
    method ExecuteGroup(bank: Banks.Bank, txs: seq<Transaction>, exec: Banks.Executor, ghost run: Runner)
      returns (rs: seq<Result<Store, TransactionError>>)
      requires bank.accounts.Chained() && Runs(run, bank.View(), exec)
      ensures rs == ParallelResults(run, old(bank.accounts.View()), txs)
      ensures bank.accounts.View() == old(bank.accounts.View())
      ensures forall p :: 0 <= p < |rs| && rs[p].Err? ==> !rs[p].error.IsRetryable()
    {
      rs := [];
      ghost var v := bank.accounts.View();
      for p := 0 to |txs|
        invariant rs == ParallelResults(run, v, txs[..p])
        invariant bank.accounts.View() == v
        invariant forall q :: 0 <= q < p ==> rs[q].Err? ==> !rs[q].error.IsRetryable()
      {
        ParallelSnoc(run, v, txs, p);
        var r := ExecuteOne(bank, txs[p], exec, run);
        rs := rs + [r];
      }
      assert txs[..|txs|] == txs;
    }

    // ----- settling

    method RefundFailed(tx: Transaction, e: TransactionError)
      requires costs.Valid() && CostOf(tx) in costs.outstanding
      modifies costs, this`requeued
      ensures costs.Valid() && Kept() == TakenBack(old(Kept()), CostOf(tx))
      ensures requeued == old(requeued) + if e.IsRetryable() then [tx] else []
    {
      costs.SubtractCost(CostOf(tx));
      if e.IsRetryable() {
        requeued := requeued + [tx];
      }
    }

    /** The first p members are settled. */
    ghost predicate Settling(b: Books, prices: seq<TransactionCost>, admitted: Indices, outs: Results, p: nat,
                             before: Results, results: Results)
      requires InRange(admitted, |prices|) && |outs| == |admitted| && p <= |admitted| && |before| == |prices|
      reads this, costs
    {
      costs.Valid() && Kept() == Refunded(b, prices, admitted, outs, p) && results == Reports(admitted, outs, p, before)
    }

    method SettleOne(txs: seq<Transaction>, admitted: Indices, rs: seq<Result<Store, TransactionError>>, p: nat,
                     before: Results, results: Results, ghost b: Books)
      returns (results': Results, kept: seq<Store>)
      requires InRange(admitted, |txs|) && Distinct(admitted) && |rs| == |admitted| && p < |rs|
      requires |before| == |txs| && Settling(b, Costs(txs), admitted, Outcomes(rs), p, before, results)
      requires before[admitted[p]] == None && (rs[p].Err? ==> !rs[p].error.IsRetryable())
      requires CostOf(txs[admitted[p]]) in costs.outstanding
      modifies costs, this`requeued
      ensures Settling(b, Costs(txs), admitted, Outcomes(rs), p + 1, before, results')
      ensures Overlays(rs[..p + 1]) == Overlays(rs[..p]) + kept
      ensures requeued == old(requeued)
    {
      var i := admitted[p];
      SettleOverlay(rs, p);
      Unreported(admitted, Outcomes(rs), p, before);
      if rs[p].Ok? {
        results', kept := results, [rs[p].value];
      } else {
        RefundFailed(txs[i], rs[p].error);
        results', kept := results[i := Some(rs[p].error)], [];
      }
    }

    /** The result loop: keep successful overlays, refund and report failures, re-queue retryable ones. */
    method Settle(txs: seq<Transaction>, admitted: Indices, rs: seq<Result<Store, TransactionError>>, before: Results, ghost b: Books)
      returns (results: Results, overlays: seq<Store>)
      requires InRange(admitted, |txs|) && Distinct(admitted) && |rs| == |admitted| && |before| == |txs|
      requires forall i :: i in admitted ==> before[i] == None
      requires forall p :: 0 <= p < |rs| && rs[p].Err? ==> !rs[p].error.IsRetryable()
      requires costs.Valid() && Kept() == b && Refundable(b, Costs(txs), admitted)
      modifies costs, this`requeued
      ensures Settling(b, Costs(txs), admitted, Outcomes(rs), |rs|, before, results) && overlays == Overlays(rs)
      ensures requeued == old(requeued)
    {
      results, overlays := before, [];
      for p := 0 to |rs|
        invariant Settling(b, Costs(txs), admitted, Outcomes(rs), p, before, results) && overlays == Overlays(rs[..p])
        invariant requeued == old(requeued)
      {
        assert admitted[p] in admitted && CostOf(txs[admitted[p]]) in Refunded(b, Costs(txs), admitted, Outcomes(rs), p).out;
        var kept;
        results, kept := SettleOne(txs, admitted, rs, p, before, results, b);
        overlays := overlays + kept;
      }
      assert rs[..|rs|] == rs;
    }

    method FlushAll(dirty: seq<Store>, base: Accounts.AccountStore)
      requires base.Chained()
      modifies base
      ensures base.View() == old(base.View()) + Merge(dirty)
    {
      var overlays := Accounts.Stack(dirty, base);
      assert Accounts.DirtyOf(overlays) == dirty;
      Accounts.CommitOverlays(overlays, base);
    }

    /** The record has been sent: settle the results and flush the kept overlays. */
    method SettleAndCommit(bank: Banks.Bank, txs: seq<Transaction>, admitted: Indices, rs: seq<Result<Store, TransactionError>>,
                           before: Results, ghost b: Books)
      returns (results: Results)
      requires bank.accounts.Chained() && InRange(admitted, |txs|) && Distinct(admitted)
      requires |rs| == |admitted| && |before| == |txs| && forall i :: i in admitted ==> before[i] == None
      requires forall p :: 0 <= p < |rs| && rs[p].Err? ==> !rs[p].error.IsRetryable()
      requires costs.Valid() && Kept() == b && Refundable(b, Costs(txs), admitted)
      modifies costs, this`requeued, bank.accounts
      ensures Settling(b, Costs(txs), admitted, Outcomes(rs), |rs|, before, results)
      ensures bank.accounts.View() == Commit(old(bank.accounts.View()), rs)
      ensures requeued == old(requeued)
    {
      var overlays;
      results, overlays := Settle(txs, admitted, rs, before, b);
      CommitIsMerge(bank.accounts.View(), rs);
      FlushAll(overlays, bank.accounts);
    }

    // ----- one group

    ghost predicate Unlocked()
      reads this, locks
    {
      locks.Valid() && locks.guards == map[]
    }

    ghost predicate Ready(bank: Banks.Bank)
      reads this, locks, costs, bank.accounts, bank.accounts.below
    {
      Unlocked() && costs.Valid() && bank.accounts.Chained()
    }

    /** Hashes the first signature of every member and sends the record. */
    method RecordTransactions(txs: seq<Transaction>, sent: bool) returns (stop: Option<Stop>)
      ensures stop == RecordOf(txs, sent)
    {
      for p := 0 to |txs|
        invariant forall q :: 0 <= q < p ==> txs[q].signatures != []
      {
        if txs[p].signatures == [] {
          return Some(RecorderPanicked);
        }
      }
      stop := if txs == [] || sent then None else Some(RecordRefused);
    }

    /** After execution: record, settle, commit.  If the record fails the overlays are dropped and nothing is settled. */
    method Finish(bank: Banks.Bank, txs: seq<Transaction>, admitted: Indices, rs: seq<Result<Store, TransactionError>>, sent: bool,
                  before: Results, ghost b: Books)
      returns (stop: Option<Stop>, results: Results)
      requires bank.accounts.Chained() && InRange(admitted, |txs|) && Distinct(admitted)
      requires |rs| == |admitted| && |before| == |txs| && forall i :: i in admitted ==> before[i] == None
      requires forall p :: 0 <= p < |rs| && rs[p].Err? ==> !rs[p].error.IsRetryable()
      requires costs.Valid() && Kept() == b && Refundable(b, Costs(txs), admitted)
      modifies costs, this`requeued, bank.accounts
      ensures bank.accounts.Chained() && costs.Valid() && requeued == old(requeued)
      ensures stop == RecordOf(Scheduler.Select(txs, admitted), sent)
      ensures bank.accounts.View() == if stop.None? then Commit(old(bank.accounts.View()), rs) else old(bank.accounts.View())
      ensures Kept() == if stop.None? then Refunded(b, Costs(txs), admitted, Outcomes(rs), |admitted|) else b
      ensures stop.None? ==> results == Reports(admitted, Outcomes(rs), |admitted|, before)
    {
      stop := RecordTransactions(Scheduler.Select(txs, admitted), sent);
      results := before;
      if stop.None? {
        results := SettleAndCommit(bank, txs, admitted, rs, before, b);
      }
    }

    /** Lock and execute.  Nobody holds a guard, so locking cannot fail. */
    method LockAndExecute(bank: Banks.Bank, group: seq<Transaction>, exec: Banks.Executor, ghost run: Runner)
      returns (guard: AccountLocks.LockGuard, rs: seq<Result<Store, TransactionError>>, ghost id: nat)
      requires Unlocked() && bank.accounts.Chained() && Runs(run, bank.View(), exec)
      modifies locks
      ensures locks.Valid() && locks.guards == map[id := guard]
      ensures bank.accounts.Chained() && bank.accounts.View() == old(bank.accounts.View())
      ensures rs == ParallelResults(run, old(bank.accounts.View()), group)
      ensures forall p :: 0 <= p < |rs| && rs[p].Err? ==> !rs[p].error.IsRetryable()
    {
      var r;
      r, id := locks.TryLockAccountsForGroup(group);
      guard := r.value;
      rs := ExecuteGroup(bank, group, exec, run);
    }

    /** Record, settle and commit, then unlock: the table is empty again. */
    method FinishAndUnlock(bank: Banks.Bank, txs: seq<Transaction>, admitted: Indices, rs: seq<Result<Store, TransactionError>>,
                           sent: bool, before: Results, guard: AccountLocks.LockGuard, ghost id: nat, ghost b: Books)
      returns (stop: Option<Stop>, results: Results)
      requires locks.Valid() && locks.guards == map[id := guard]
      requires bank.accounts.Chained() && InRange(admitted, |txs|) && Distinct(admitted)
      requires |rs| == |admitted| && |before| == |txs| && forall i :: i in admitted ==> before[i] == None
      requires forall p :: 0 <= p < |rs| && rs[p].Err? ==> !rs[p].error.IsRetryable()
      requires costs.Valid() && Kept() == b && Refundable(b, Costs(txs), admitted)
      modifies costs, locks, this`requeued, bank.accounts
      ensures Ready(bank) && requeued == old(requeued)
      ensures stop == RecordOf(Scheduler.Select(txs, admitted), sent)
      ensures bank.accounts.View() == if stop.None? then Commit(old(bank.accounts.View()), rs) else old(bank.accounts.View())
      ensures Kept() == if stop.None? then Refunded(b, Costs(txs), admitted, Outcomes(rs), |admitted|) else b
      ensures stop.None? ==> results == Reports(admitted, Outcomes(rs), |admitted|, before)
    {
      stop, results := Finish(bank, txs, admitted, rs, sent, before, b);
      locks.DropGuard(guard, id);
    }

    /** The part of a group's processing that holds its locks. */
    method RunAdmitted(bank: Banks.Bank, txs: seq<Transaction>, admitted: Indices, exec: Banks.Executor, sent: bool,
                       before: Results, ghost run: Runner, ghost b: Books)
      returns (stop: Option<Stop>, results: Results, ghost rs: seq<Result<Store, TransactionError>>)
      requires Unlocked() && bank.accounts.Chained() && Runs(run, bank.View(), exec)
      requires InRange(admitted, |txs|) && Distinct(admitted) && |before| == |txs| && forall i :: i in admitted ==> before[i] == None
      requires costs.Valid() && Kept() == b && Refundable(b, Costs(txs), admitted)
      modifies costs, locks, this`requeued, bank.accounts
      ensures Ready(bank) && requeued == old(requeued)
      ensures rs == ParallelResults(run, old(bank.accounts.View()), Scheduler.Select(txs, admitted))
      ensures stop == RecordOf(Scheduler.Select(txs, admitted), sent)
      ensures bank.accounts.View() == if stop.None? then Commit(old(bank.accounts.View()), rs) else old(bank.accounts.View())
      ensures Kept() == if stop.None? then Refunded(b, Costs(txs), admitted, Outcomes(rs), |admitted|) else b
      ensures stop.None? ==> results == Reports(admitted, Outcomes(rs), |admitted|, before)
    {
      var guard, ran, id := LockAndExecute(bank, Scheduler.Select(txs, admitted), exec, run);
      rs := ran;
      stop, results := FinishAndUnlock(bank, txs, admitted, ran, sent, before, guard, id, b);
    }

    /** Where the batch stands: the store and the books are the course's. */
    ghost predicate StandsAt(bank: Banks.Bank, c: Course)
      reads this, locks, costs, bank.accounts, bank.accounts.below
    {
      Ready(bank) && bank.accounts.View() == c.store && Kept() == c.books
    }

    /**
     One scheduled group: charge, lock, execute, record, settle, commit, unlock.  If the record fails, the admitted stay
     charged and nothing is committed.
     */
    method ProcessGroup(bank: Banks.Bank, txs: seq<Transaction>, group: Indices, exec: Banks.Executor, sent: bool,
                        before: Results, ghost run: Runner, ghost c: Course)
      returns (stop: Option<Stop>, results: Results, ghost t: Tally, ghost rs: seq<Result<Store, TransactionError>>)
      requires StandsAt(bank, c) && IsCourse(txs, c) && Runs(run, bank.View(), exec)
      requires InRange(group, |txs|) && Distinct(group) && |before| == |txs|
      requires forall i :: i in group ==> before[i] == None
      modifies this`requeued, locks, costs, bank.accounts
      ensures requeued == old(requeued)
      ensures t == Admission(costs.limits, c.books, Costs(txs), group, |group|)
      ensures rs == ParallelResults(run, c.store, Scheduler.Select(txs, t.admitted))
      ensures stop == RecordOf(Scheduler.Select(txs, t.admitted), sent)
      ensures stop.None? ==> StandsAt(bank, After(Costs(txs), c, t, rs))
      ensures stop.None? ==> GroupReported(group, t.admitted, Outcomes(rs), before, results)
      ensures stop.Some? ==> StandsAt(bank, c.(books := t.books))
    {
      var admitted, judged;
      admitted, judged := AdmitGroup(txs, group, before);
      t := Tally(admitted, Kept());
      AdmittedCharged(costs.limits, c.books, Costs(txs), group, t);
      if admitted == [] {
        stop, results, rs := None, judged, [];
      } else {
        stop, results, rs := RunAdmitted(bank, txs, admitted, exec, sent, judged, run, t.books);
      }
      if stop.None? {
        SettledIsReported(group, admitted, Outcomes(rs), before, judged, results);
      }
    }

    /** Signature verification: some slice out of range ends the batch; else failures are reported and the others passed on. */
    method VerifyAll(txs: seq<Transaction>, verify: Verify) returns (panicked: bool, passed: Indices, results: Results)
      ensures panicked <==> exists tx :: tx in txs && !Sliceable(tx)
      ensures !panicked ==> IsPassed(txs, verify, passed) && results == Initial(txs, verify)
    {
      panicked, passed, results := false, [], [];
      for i := 0 to |txs|
        invariant forall j :: 0 <= j < i ==> Sliceable(txs[j])
        invariant Scheduler.Increasing(passed, i)
        invariant forall j :: j in passed <==> 0 <= j < i && verify(txs[j]).Ok?
        invariant |results| == i && forall j :: 0 <= j < i ==> results[j] == Initial(txs, verify)[j]
      {
        if !Sliceable(txs[i]) {
          return true, passed, results;
        }
        if verify(txs[i]).Ok? {
          passed, results := passed + [i], results + [None];
        } else {
          results := results + [Some(verify(txs[i]).error)];
        }
      }
    }

    /** Everything known before group |h| - 1. */
    ghost predicate AtGroup(bank: Banks.Bank, txs: seq<Transaction>, verify: Verify, run: Runner, passed: Indices,
                            groups: seq<seq<nat>>, sent: nat -> bool, h: seq<Course>, results: Results)
      requires InBounds(passed, groups)
      reads this, locks, costs, bank.accounts, bank.accounts.below
    {
      && Reached(costs.limits, Costs(txs), run, txs, Originals(passed, groups), sent, h)
      && ReportedUpTo(txs, verify, h[|h| - 1], Flattened(passed, groups, |h| - 1), results) && StandsAt(bank, h[|h| - 1])
    }

    /** The group loop's body. */
    method NextGroup(bank: Banks.Bank, txs: seq<Transaction>, exec: Banks.Executor, sent: nat -> bool, passed: Indices,
                     groups: seq<seq<nat>>, g: nat, before: Results, ghost verify: Verify, ghost run: Runner, ghost h: seq<Course>)
      returns (stop: Option<Stop>, results: Results, ghost h': seq<Course>)
      requires Scheduled(txs, verify, passed, groups) && Runs(run, bank.View(), exec)
      requires AtGroup(bank, txs, verify, run, passed, groups, sent, h, before) && |h| == g + 1 <= |groups|
      modifies this`requeued, locks, costs, bank.accounts
      ensures requeued == old(requeued) && h <= h'
      ensures stop.None? ==> AtGroup(bank, txs, verify, run, passed, groups, sent, h', results) && |h'| == |h| + 1
      ensures stop.Some? ==> h' == h && Charging(costs.limits, Costs(txs), txs, Members(passed, groups, g), sent(g), h[g], stop, Kept())
      ensures stop.Some? ==> Ready(bank) && bank.accounts.View() == h[g].store
    {
      ghost var seen := Flattened(passed, groups, g);
      var group := Members(passed, groups, g);
      NextUnreached(txs, verify, passed, groups, g);
      GroupFresh(txs, verify, group, seen, h[g], before);
      ghost var t, rs;
      stop, results, t, rs := ProcessGroup(bank, txs, group, exec, sent(g), before, run, h[g]);
      h' := h;
      if stop.None? {
        ghost var d := After(Costs(txs), h[g], t, rs);
        h' := h + [d];
        ReachedNext(costs.limits, Costs(txs), run, txs, Originals(passed, groups), sent, h, group, d);
        AdmittedCharged(costs.limits, h[g].books, Costs(txs), group, t);
        ReportStep(txs, verify, h[g], seen, group, t.admitted, Outcomes(rs), d, before, results);
      }
    }

    /** The group loop. */
    method RunGroups(bank: Banks.Bank, txs: seq<Transaction>, exec: Banks.Executor, sent: nat -> bool, passed: Indices,
                     groups: seq<seq<nat>>, initial: Results, ghost verify: Verify, ghost run: Runner, ghost start: Course)
      returns (stop: Option<Stop>, results: Results, ghost h: seq<Course>)
      requires Scheduled(txs, verify, passed, groups) && Runs(run, bank.View(), exec)
      requires AtGroup(bank, txs, verify, run, passed, groups, sent, [start], initial)
      modifies this`requeued, locks, costs, bank.accounts
      ensures requeued == old(requeued) && 0 < |h| && h[0] == start
      ensures stop.None? ==> AtGroup(bank, txs, verify, run, passed, groups, sent, h, results) && |h| == |groups| + 1
      ensures stop.Some? ==> |h| <= |groups| && Reached(costs.limits, Costs(txs), run, txs, Originals(passed, groups), sent, h)
      ensures stop.Some? ==> Charging(costs.limits, Costs(txs), txs, Members(passed, groups, |h| - 1), sent(|h| - 1), h[|h| - 1], stop, Kept())
      ensures stop.Some? ==> Ready(bank) && bank.accounts.View() == h[|h| - 1].store
    {
      stop, results, h := None, initial, [start];
      for g := 0 to |groups|
        invariant requeued == old(requeued) && stop == None
        invariant AtGroup(bank, txs, verify, run, passed, groups, sent, h, results) && |h| == g + 1 && h[0] == start
      {
        stop, results, h := NextGroup(bank, txs, exec, sent, passed, groups, g, results, verify, run, h);
        if stop.Some? {
          return;
        }
      }
    }

    method ScheduleVerified(txs: seq<Transaction>, passed: Indices, ghost verify: Verify) returns (groups: seq<seq<nat>>)
      requires IsPassed(txs, verify, passed)
      ensures Scheduled(txs, verify, passed, groups)
    {
      groups := Scheduler.Schedule(Scheduler.Select(txs, passed));
      ScheduleInBounds(txs, verify, passed, groups);
    }

    /** The scheduled batch, before the tracker is reset. */
    method RunScheduled(bank: Banks.Bank, txs: seq<Transaction>, exec: Banks.Executor, sent: nat -> bool, passed: Indices, initial: Results,
                        ghost verify: Verify, ghost run: Runner)
      returns (stop: Option<Stop>, results: Results, ghost groups: seq<seq<nat>>, ghost h: seq<Course>)
      requires Ready(bank) && Runs(run, bank.View(), exec)
      requires IsPassed(txs, verify, passed) && initial == Initial(txs, verify)
      modifies this`requeued, locks, costs, bank.accounts
      ensures Ready(bank) && requeued == old(requeued)
      ensures stop.None? ==> Completed(costs.limits, old(Kept()), run, old(bank.accounts.View()), bank.accounts.View(), txs, verify,
                                       passed, groups, sent, h, results)
      ensures stop.None? ==> Kept() == h[|groups|].books
      ensures stop.Some? ==> Interrupted(costs.limits, old(Kept()), Kept(), run, old(bank.accounts.View()), bank.accounts.View(), txs,
                                         verify, passed, groups, sent, h, stop.value)
    {
      ghost var start := Course([], [], Kept(), bank.accounts.View());
      var scheduled := ScheduleVerified(txs, passed, verify);
      groups := scheduled;
      ReachedFirst(costs.limits, Costs(txs), run, txs, verify, passed, groups, sent, start);
      stop, results, h := RunGroups(bank, txs, exec, sent, passed, scheduled, initial, verify, run, start);
      if stop.None? {
        AllReported(txs, verify, passed, groups, h[|groups|], results);
      }
    }

    /** The scheduled batch and the reset of the tracker, unless a record failed. */
    method RunAndReset(bank: Banks.Bank, txs: seq<Transaction>, exec: Banks.Executor, sent: nat -> bool, passed: Indices, initial: Results,
                       ghost verify: Verify, ghost run: Runner)
      returns (r: Result<Results, Stop>, ghost groups: seq<seq<nat>>, ghost h: seq<Course>, ghost charges: Charges)
      requires Ready(bank) && Runs(run, bank.View(), exec)
      requires IsPassed(txs, verify, passed) && initial == Initial(txs, verify)
      modifies this`requeued, locks, costs, bank.accounts
      ensures Ready(bank) && requeued == old(requeued) && (r.Err? ==> r.error != VerifierPanicked)
      ensures r.Ok? ==> Completed(costs.limits, old(Kept()), run, old(bank.accounts.View()), bank.accounts.View(), txs, verify,
                                  passed, groups, sent, h, r.value)
      ensures r.Ok? ==> charges == h[|groups|].books.out && Kept() == Books(EMPTY, multiset{})
      ensures r.Err? ==> Interrupted(costs.limits, old(Kept()), Kept(), run, old(bank.accounts.View()), bank.accounts.View(), txs,
                                     verify, passed, groups, sent, h, r.error)
    {
      var stop, results;
      stop, results, groups, h := RunScheduled(bank, txs, exec, sent, passed, initial, verify, run);
      charges := costs.outstanding;
      if stop.None? {
        costs.ResetAll();
        r := Ok(results);
      } else {
        r := Err(stop.value);
      }
    }

    /**
     The whole batch.  `verify` says what the signatures of a sliceable transaction amount to, `sent(g)` whether the PoH
     service takes group g's record.  `charges` is what was outstanding just before the tracker was reset.
     */
    method ProcessBatch(bank: Banks.Bank, txs: seq<Transaction>, exec: Banks.Executor, verify: Verify, sent: nat -> bool)
      returns (r: Result<Results, Stop>, ghost passed: Indices, ghost groups: seq<seq<nat>>, ghost h: seq<Course>, ghost charges: Charges)
      requires Ready(bank) && Standard()
      modifies this`requeued, locks, costs, bank.accounts
      ensures Ready(bank) && requeued == old(requeued)
      ensures r == Err(VerifierPanicked) <==> exists tx :: tx in txs && |tx.signatures| > |tx.message.accountKeys|
      ensures r == Err(VerifierPanicked) ==> bank.accounts.View() == old(bank.accounts.View()) && Kept() == old(Kept())
      ensures r.Ok? ==> Completed(Limits(60_000_000, 24_000_000), old(Kept()), old(RunOn(bank, exec)), old(bank.accounts.View()), bank.accounts.View(),
                                  txs, verify, passed, groups, sent, h, r.value)
      ensures r.Ok? ==> charges == h[|groups|].books.out && Kept() == Books(EMPTY, multiset{})
      ensures r.Err? && r.error != VerifierPanicked ==>
        Interrupted(Limits(60_000_000, 24_000_000), old(Kept()), Kept(), old(RunOn(bank, exec)), old(bank.accounts.View()), bank.accounts.View(),
                    txs, verify, passed, groups, sent, h, r.error)
    {
      var panicked, passedOn, initial := VerifyAll(txs, verify);
      passed, groups, h, charges := passedOn, [], [], multiset{};
      if panicked {
        return Err(VerifierPanicked), passed, groups, h, charges;
      }
      r, groups, h, charges := RunAndReset(bank, txs, exec, sent, passedOn, initial, verify, RunOn(bank, exec));
    }
  }
}
