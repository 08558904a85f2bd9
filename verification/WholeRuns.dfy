/** The programs' ledgers over whole batches and over interleavings of concurrent callers. */
module WholeRuns {
  import opened Types
  import opened Serial
  import opened Native
  import opened Lamports
  import opened BatchCourse
  import BlockhashQueue
  import CostModel
  import Coverage
  import Protocol
  import ProtocolSafety
  import Scheduler
  import TokenSupply

  lemma {:induction false} ChosenFrom(txs: seq<Transaction>, order: Indices, tx: Transaction) returns (i: nat)
    requires InRange(order, |txs|) && tx in Scheduler.Select(txs, order)
    ensures i in order && txs[i] == tx
  {
    var p :| 0 <= p < |order| && Scheduler.Select(txs, order)[p] == tx;
    i := order[p];
  }

  /** The transaction marks every account it changes. */
  predicate AllMarked(tx: Transaction) {
    forall ins :: ins in tx.message.instructions ==> Marked(ins)
  }

  /** What a caller can check of a batch beforehand, for its native run to be the serial one. */
  ghost predicate Orderly(txs: seq<Transaction>, verify: Verify) {
    PeacefulBatch(txs, verify) && forall tx :: tx in txs && verify(tx).Ok? ==> AllMarked(tx)
  }

  /** An orderly batch that returned Ok leaves the serial store of the transactions it executed. */
  lemma {:induction false} OrderlyBatch(bank: BlockhashQueue.BankView, rent: Rent, lim: CostModel.Limits, b: CostModel.Books,
    v: Store, v': Store, txs: seq<Transaction>, verify: Verify, passed: Indices, groups: seq<seq<nat>>, sent: nat -> bool,
    h: seq<Course>, results: Results)
    requires WellKeyed(v) && Orderly(txs, verify)
    requires Completed(lim, b, NativeRunner(bank, rent, Budget()), v, v', txs, verify, passed, groups, sent, h, results)
    ensures InRange(h[|groups|].order, |txs|)
    ensures v' == SerialStore(NativeRunner(bank, rent, Budget()), v, Scheduler.Select(txs, h[|groups|].order))
  {
    var run := NativeRunner(bank, rent, Budget());
    forall tx | tx in txs && verify(tx).Ok? ensures Framed(run, tx) {
      MarkedIsFramed(bank, rent, Budget(), tx);
    }
    BatchIsSerial(lim, b, run, v, v', txs, verify, passed, groups, sent, h, results);
  }

  /** An orderly batch of transactions with unrepeated keys keeps the lamports. */
  lemma {:induction false} BatchConserves(bank: BlockhashQueue.BankView, rent: Rent, lim: CostModel.Limits, b: CostModel.Books,
    v: Store, v': Store, txs: seq<Transaction>, verify: Verify, passed: Indices, groups: seq<seq<nat>>, sent: nat -> bool,
    h: seq<Course>, results: Results)
    requires WellKeyed(v) && Total(v) <= U64_MAX && Orderly(txs, verify)
    requires Completed(lim, b, NativeRunner(bank, rent, Budget()), v, v', txs, verify, passed, groups, sent, h, results)
    requires forall i :: i in h[|groups|].order ==> NoRepeats(txs[i].message.accountKeys)
    ensures Total(v') == Total(v)
  {
    OrderlyBatch(bank, rent, lim, b, v, v', txs, verify, passed, groups, sent, h, results);
    var chosen := Scheduler.Select(txs, h[|groups|].order);
    forall tx | tx in chosen ensures NoRepeats(tx.message.accountKeys) {
      var i := ChosenFrom(txs, h[|groups|].order, tx);
    }
    SerialConserves(bank, rent, Budget(), v, chosen);
  }

  /** An orderly batch keeps every supply exact, if no account sends to itself and everything is sound when reached. */
  lemma {:induction false} BatchKeepsSupply(bank: BlockhashQueue.BankView, rent: Rent, lim: CostModel.Limits, b: CostModel.Books,
    v: Store, v': Store, txs: seq<Transaction>, verify: Verify, passed: Indices, groups: seq<seq<nat>>, sent: nat -> bool,
    h: seq<Course>, results: Results)
    requires WellKeyed(v) && TokenSupply.Ledger(v) && Orderly(txs, verify)
    requires Completed(lim, b, NativeRunner(bank, rent, Budget()), v, v', txs, verify, passed, groups, sent, h, results)
    requires forall i :: i in h[|groups|].order ==> TokenSupply.KeepsSupply(txs[i])
    requires TokenSupply.SoundRun(NativeRunner(bank, rent, Budget()), rent, v, Scheduler.Select(txs, h[|groups|].order))
    ensures TokenSupply.Ledger(v')
  {
    OrderlyBatch(bank, rent, lim, b, v, v', txs, verify, passed, groups, sent, h, results);
    var chosen := Scheduler.Select(txs, h[|groups|].order);
    forall tx | tx in chosen ensures TokenSupply.KeepsSupply(tx) {
      var i := ChosenFrom(txs, h[|groups|].order, tx);
    }
    TokenSupply.RunKeepsLedger(bank, rent, Budget(), v, chosen);
  }

  // ----- the batch that is not orderly

  lemma SelectBoth<T>(s: seq<T>)
    requires |s| == 2
    ensures Scheduler.Select(s, [0, 1]) == s
  {
  }

  lemma {:induction false} TwoPassed(txs: seq<Transaction>, verify: Verify, passed: Indices, groups: seq<seq<nat>>)
    requires |txs| == 2 && verify(txs[0]).Ok? && verify(txs[1]).Ok? && !Scheduler.Conflict(txs[0], txs[1])
    requires Scheduled(txs, verify, passed, groups)
    ensures passed == [0, 1] && groups == [[0, 1]] && Members(passed, groups, 0) == [0, 1]
  {
    var both: Indices := [0, 1];
    assert passed == both by {
      assert both[0] == 0 && both[1] == 1;
      PassedUnique(txs, verify, passed, both);
    }
    SelectBoth(txs);
    assert groups == [both] by {
      assert txs == [txs[0], txs[1]];
      Coverage.PairIsSchedule(txs[0], txs[1]);
      Scheduler.ScheduleUnique(txs, groups, [both]);
    }
    SelectBoth(both);
  }

  /** Both of two transactions fit, one after the other. */
  predicate BothFit(lim: CostModel.Limits, b: CostModel.Books, txs: seq<Transaction>)
    requires |txs| == 2
  {
    CostModel.WouldFit(lim, b.ledger, CostModel.CostOf(txs[0])).Ok?
    && CostModel.WouldFit(lim, CostModel.Charge(b.ledger, CostModel.CostOf(txs[0])), CostModel.CostOf(txs[1])).Ok?
  }

  lemma {:induction false} TwoAdmitted(lim: CostModel.Limits, b: CostModel.Books, txs: seq<Transaction>)
    requires |txs| == 2 && BothFit(lim, b, txs)
    ensures Admission(lim, b, Costs(txs), [0, 1], 2).admitted == [0, 1]
  {
    assert Admission(lim, b, Costs(txs), [0, 1], 0) == Tally([], b);
    assert Admission(lim, b, Costs(txs), [0, 1], 1) == Tally([0], CostModel.Charged(b, CostModel.CostOf(txs[0])));
  }

  lemma {:induction false} TwoCourse(lim: CostModel.Limits, run: Runner, txs: seq<Transaction>, c: Course, d: Course)
    requires |txs| == 2 && BothFit(lim, c.books, txs) && c.order == [] && c.outcomes == []
    requires d == NextCourse(lim, Costs(txs), run, txs, c, [0, 1])
    ensures var rs := ParallelResults(run, c.store, txs); d.order == [0, 1] && d.outcomes == Outcomes(rs) && d.store == Commit(c.store, rs)
  {
    TwoAdmitted(lim, c.books, txs);
    SelectBoth(txs);
  }

  lemma {:induction false} TwoReported(txs: seq<Transaction>, verify: Verify, d: Course, results: Results)
    requires |txs| == 2 && Reported(txs, verify, d, results) && d.order == [0, 1]
    ensures results == d.outcomes
  {
    assert results[d.order[0]] == d.outcomes[0] && results[d.order[1]] == d.outcomes[1];
  }

  /** Two verified, affordable transactions without conflict run on one snapshot. */
  lemma {:induction false} TwoTogether(lim: CostModel.Limits, b: CostModel.Books, run: Runner, v: Store, v': Store, txs: seq<Transaction>,
    verify: Verify, passed: Indices, groups: seq<seq<nat>>, sent: nat -> bool, h: seq<Course>, results: Results)
    requires |txs| == 2 && verify(txs[0]).Ok? && verify(txs[1]).Ok? && !Scheduler.Conflict(txs[0], txs[1]) && BothFit(lim, b, txs)
    requires Completed(lim, b, run, v, v', txs, verify, passed, groups, sent, h, results)
    ensures v' == Commit(v, ParallelResults(run, v, txs)) && results == Outcomes(ParallelResults(run, v, txs))
  {
    TwoPassed(txs, verify, passed, groups);
    assert h[1] == NextCourse(lim, Costs(txs), run, txs, h[0], Originals(passed, groups)[0]);
    TwoCourse(lim, run, txs, h[0], h[1]);
    TwoReported(txs, verify, h[1], results);
  }

  /**
   What process_batch does with a payment and a transaction that merely loads the payer: it reports success for both and
   leaves one lamport too many.
   */
  lemma {:induction false} BatchMints(bank: BlockhashQueue.BankView, rent: Rent, lim: CostModel.Limits, b: CostModel.Books,
    v: Store, v': Store, from: Pubkey, to: Pubkey, hash: Hash, verify: Verify, passed: Indices, groups: seq<seq<nat>>,
    sent: nat -> bool, h: seq<Course>, results: Results)
    requires WellKeyed(v) && Total(v) <= U64_MAX && from != to && LoadOr(v, from).lamports >= 1
    requires BlockhashQueue.CheckPreflight(bank, Payment(from, to, hash)).Ok?
    requires verify(Payment(from, to, hash)).Ok? && verify(Onlooker(from, hash)).Ok?
    requires BothFit(lim, b, [Payment(from, to, hash), Onlooker(from, hash)])
    requires Completed(lim, b, NativeRunner(bank, rent, Budget()), v, v', [Payment(from, to, hash), Onlooker(from, hash)], verify,
                       passed, groups, sent, h, results)
    ensures results == [None, None] && Total(v') == Total(v) + 1
  {
    var txs := [Payment(from, to, hash), Onlooker(from, hash)];
    StaleWriteBackMints(bank, rent, Budget(), v, from, to, hash);
    assert !Scheduler.Conflict(txs[0], txs[1]);
    TwoTogether(lim, b, NativeRunner(bank, rent, Budget()), v, v', txs, verify, passed, groups, sent, h, results);
  }

  // ----- interleavings

  lemma {:induction false} FlatMembers(log: seq<seq<Transaction>>, tx: Transaction)
    requires tx in Protocol.Flat(log)
    ensures exists e :: 0 <= e < |log| && tx in log[e]
  {
    var n := |log| - 1;
    if tx !in log[n] {
      FlatMembers(log[..n], tx);
    }
  }

  /** Every finished interleaving of concurrent callers keeps the lamports. */
  lemma {:induction false} InterleavingConserves(bank: BlockhashQueue.BankView, rent: Rent, budget: Transaction -> U64, s0: Store,
                                                 evs: seq<Protocol.Event>, t: Protocol.System)
    requires WellKeyed(s0) && Total(s0) <= U64_MAX && t.tasks == map[]
    requires Protocol.Interleaving(NativeRunner(bank, rent, budget), Protocol.Init(s0), evs, t)
    requires forall e, tx :: 0 <= e < |t.log| && tx in t.log[e] ==> NoRepeats(tx.message.accountKeys)
    ensures Total(t.store) == Total(s0)
  {
    ProtocolSafety.EveryInterleavingIsSerial(NativeRunner(bank, rent, budget), s0, evs, t);
    forall tx | tx in Protocol.Flat(t.log) ensures NoRepeats(tx.message.accountKeys) {
      FlatMembers(t.log, tx);
    }
    SerialConserves(bank, rent, budget, s0, Protocol.Flat(t.log));
  }

  /** And every supply stays exact. */
  lemma {:induction false} InterleavingKeepsSupply(bank: BlockhashQueue.BankView, rent: Rent, budget: Transaction -> U64, s0: Store,
                                                   evs: seq<Protocol.Event>, t: Protocol.System)
    requires WellKeyed(s0) && TokenSupply.Ledger(s0) && t.tasks == map[]
    requires Protocol.Interleaving(NativeRunner(bank, rent, budget), Protocol.Init(s0), evs, t)
    requires forall e, tx :: 0 <= e < |t.log| && tx in t.log[e] ==> TokenSupply.KeepsSupply(tx)
    requires TokenSupply.SoundRun(NativeRunner(bank, rent, budget), rent, s0, Protocol.Flat(t.log))
    ensures TokenSupply.Ledger(t.store)
  {
    ProtocolSafety.EveryInterleavingIsSerial(NativeRunner(bank, rent, budget), s0, evs, t);
    forall tx | tx in Protocol.Flat(t.log) ensures TokenSupply.KeepsSupply(tx) {
      FlatMembers(t.log, tx);
    }
    TokenSupply.RunKeepsLedger(bank, rent, budget, s0, Protocol.Flat(t.log));
  }
}
