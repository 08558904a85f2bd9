/** What `process_batch` computes, as functions: who is admitted, what each group commits, and what stays charged. */
module BatchCourse {
  import opened Types
  import opened Serial
  import opened CostModel
  import Scheduler
  import Coverage
  import Interference

  type Indices = seq<nat>
  type Results = seq<Option<TransactionError>>
  type Verify = Transaction -> Result<(), TransactionError>

  ghost predicate InRange(order: Indices, n: nat) {
    forall p :: 0 <= p < |order| ==> order[p] < n
  }

  ghost predicate Distinct(order: Indices) {
    forall p, q :: 0 <= p < q < |order| ==> order[p] != order[q]
  }

  /** The compute budget handed to execution is the transaction's own cost. */
  function Budget(): Transaction -> U64 {
    (tx: Transaction) => CostOf(tx).Sum()
  }

  // ----- how a batch can end early

  /** Why `process_batch` ends before its last group. */
  datatype Stop = VerifierPanicked | RecordRefused | RecorderPanicked

  /** `verify_signatures_sync` slices the account keys by the number of signatures. */
  predicate Sliceable(tx: Transaction) {
    |tx.signatures| <= |tx.message.accountKeys|
  }

  /** `record_transactions`: it indexes every first signature, then sends; `sent` says whether the PoH service takes it. */
  function RecordOf(txs: seq<Transaction>, sent: bool): Option<Stop> {
    if exists p :: 0 <= p < |txs| && txs[p].signatures == [] then Some(RecorderPanicked)
    else if txs == [] || sent then None else Some(RecordRefused)
  }

  // ----- the schedule, in original indices

  /** `passed` lists, in order, exactly the transactions whose signatures verify. */
  ghost predicate IsPassed(txs: seq<Transaction>, verify: Verify, passed: Indices) {
    Scheduler.Increasing(passed, |txs|) && forall j :: j in passed <==> 0 <= j < |txs| && verify(txs[j]).Ok?
  }

  ghost predicate InBounds(passed: Indices, groups: seq<seq<nat>>) {
    forall g :: 0 <= g < |groups| ==> InRange(groups[g], |passed|)
  }

  /** The first-fit schedule of the verified transactions. */
  ghost predicate Scheduled(txs: seq<Transaction>, verify: Verify, passed: Indices, groups: seq<seq<nat>>) {
    IsPassed(txs, verify, passed) && Scheduler.IsSchedule(Scheduler.Select(txs, passed), groups) && InBounds(passed, groups)
  }

  lemma {:induction false} ScheduleInBounds(txs: seq<Transaction>, verify: Verify, passed: Indices, groups: seq<seq<nat>>)
    requires IsPassed(txs, verify, passed) && Scheduler.IsSchedule(Scheduler.Select(txs, passed), groups)
    ensures Scheduled(txs, verify, passed, groups)
  {
    forall g | 0 <= g < |groups| ensures InRange(groups[g], |passed|) {
      assert Scheduler.Increasing(groups[g], |passed|);
    }
  }

  /** Group g, in original indices. */
  function Members(passed: Indices, groups: seq<seq<nat>>, g: nat): Indices
    requires g < |groups| && InRange(groups[g], |passed|)
  {
    Scheduler.Select(passed, groups[g])
  }

  /** All groups, in original indices. */
  function Originals(passed: Indices, groups: seq<seq<nat>>): (lists: seq<Indices>)
    requires InBounds(passed, groups)
    ensures |lists| == |groups|
  {
    seq(|groups|, g requires 0 <= g < |groups| => Members(passed, groups, g))
  }

  /** The first g groups, one after another. */
  function Flattened(passed: Indices, groups: seq<seq<nat>>, g: nat): Indices
    requires g <= |groups| && InBounds(passed, groups)
  {
    if g == 0 then [] else Flattened(passed, groups, g - 1) + Members(passed, groups, g - 1)
  }

  lemma {:induction false} MembersVerified(txs: seq<Transaction>, verify: Verify, passed: Indices, groups: seq<seq<nat>>, g: nat)
    requires IsPassed(txs, verify, passed) && InBounds(passed, groups) && g < |groups|
    ensures InRange(Members(passed, groups, g), |txs|)
    ensures forall a :: 0 <= a < |groups[g]| ==> verify(txs[Members(passed, groups, g)[a]]).Ok?
  {
    forall a | 0 <= a < |groups[g]| ensures verify(txs[Members(passed, groups, g)[a]]).Ok? {
      assert passed[groups[g][a]] in passed;
    }
  }

  lemma {:induction false} FlattenedSource(passed: Indices, groups: seq<seq<nat>>, g: nat, i: nat) returns (h: nat, x: nat)
    requires g <= |groups| && InBounds(passed, groups) && i in Flattened(passed, groups, g)
    ensures h < g && x in groups[h] && x < |passed| && passed[x] == i
  {
    var last := Members(passed, groups, g - 1);
    if i in last {
      var a :| 0 <= a < |last| && last[a] == i;
      h, x := g - 1, groups[g - 1][a];
    } else {
      h, x := FlattenedSource(passed, groups, g - 1, i);
    }
  }

  lemma {:induction false} FlattenedTarget(passed: Indices, groups: seq<seq<nat>>, g: nat, h: nat, x: nat)
    requires h < g <= |groups| && InBounds(passed, groups) && x in groups[h]
    ensures x < |passed| && passed[x] in Flattened(passed, groups, g)
  {
    var a :| 0 <= a < |groups[h]| && groups[h][a] == x;
    if h == g - 1 {
      assert Members(passed, groups, h)[a] == passed[x];
    } else {
      FlattenedTarget(passed, groups, g - 1, h, x);
    }
  }

  lemma SameIndex(passed: Indices, x: nat, y: nat)
    requires forall a, b :: 0 <= a < b < |passed| ==> passed[a] < passed[b]
    requires x < |passed| && y < |passed| && passed[x] == passed[y]
    ensures x == y
  {
  }

  /** No transaction is in two groups. */
  lemma {:induction false} MembersUnseen(txs: seq<Transaction>, verify: Verify, passed: Indices, groups: seq<seq<nat>>, g: nat)
    requires Scheduled(txs, verify, passed, groups) && g < |groups|
    ensures Distinct(Members(passed, groups, g))
    ensures forall i :: i in Members(passed, groups, g) ==> i !in Flattened(passed, groups, g)
  {
    var group := Members(passed, groups, g);
    assert Scheduler.Increasing(groups[g], |passed|);
    forall i | i in group ensures i !in Flattened(passed, groups, g) {
      var a :| 0 <= a < |group| && group[a] == i;
      assert groups[g][a] in groups[g];
      if i in Flattened(passed, groups, g) {
        var h, x := FlattenedSource(passed, groups, g, i);
        SameIndex(passed, x, groups[g][a]);
        assert false;
      }
    }
  }

  /** Every verified transaction is in some group. */
  lemma {:induction false} AllScheduled(txs: seq<Transaction>, verify: Verify, passed: Indices, groups: seq<seq<nat>>, i: nat)
    requires Scheduled(txs, verify, passed, groups) && i < |txs| && verify(txs[i]).Ok?
    ensures i in Flattened(passed, groups, |groups|)
  {
    assert i in passed;
    var x :| 0 <= x < |passed| && passed[x] == i;
    assert Scheduler.InSome(groups, x);
    var h :| 0 <= h < |groups| && x in groups[h];
    FlattenedTarget(passed, groups, |groups|, h, x);
  }

  // ----- charges

  /** What each transaction costs. */
  function Costs(txs: seq<Transaction>): (costs: seq<TransactionCost>)
    ensures |costs| == |txs|
  {
    seq(|txs|, i requires 0 <= i < |txs| => CostOf(txs[i]))
  }

  /** The costs of the listed transactions from position p on. */
  ghost function Remaining(costs: seq<TransactionCost>, order: Indices, p: nat): Charges
    requires InRange(order, |costs|) && p <= |order|
    decreases |order| - p
  {
    if p == |order| then multiset{} else multiset{costs[order[p]]} + Remaining(costs, order, p + 1)
  }

  /** The costs of those among the first p listed transactions that committed. */
  ghost function Committed(costs: seq<TransactionCost>, order: Indices, outcomes: Results, p: nat): Charges
    requires InRange(order, |costs|) && |outcomes| == |order| && p <= |order|
  {
    if p == 0 then multiset{} else
      Committed(costs, order, outcomes, p - 1)
      + if outcomes[p - 1].None? then multiset{costs[order[p - 1]]} else multiset{}
  }

  lemma {:induction false} RemainingSnoc(costs: seq<TransactionCost>, order: Indices, i: nat, p: nat)
    requires InRange(order, |costs|) && i < |costs| && p <= |order|
    ensures InRange(order + [i], |costs|)
    ensures Remaining(costs, order + [i], p) == Remaining(costs, order, p) + multiset{costs[i]}
    decreases |order| - p
  {
    if p < |order| {
      RemainingSnoc(costs, order, i, p + 1);
    } else {
      assert Remaining(costs, order + [i], p + 1) == multiset{};
    }
  }

  lemma {:induction false} CommittedConcat(costs: seq<TransactionCost>, a: Indices, outA: Results,
                                           b: Indices, outB: Results, q: nat)
    requires InRange(a, |costs|) && InRange(b, |costs|) && |outA| == |a| && |outB| == |b| && q <= |b|
    ensures InRange(a + b, |costs|)
    ensures Committed(costs, a + b, outA + outB, |a| + q) == Committed(costs, a, outA, |a|) + Committed(costs, b, outB, q)
  {
    if q == 0 {
      CommittedPrefix(costs, a, outA, b, outB, |a|);
    } else {
      CommittedConcat(costs, a, outA, b, outB, q - 1);
      var last := if outB[q - 1].None? then multiset{costs[b[q - 1]]} else multiset{};
      CommittedStep(costs, a + b, outA + outB, |a| + q, last);
      CommittedStep(costs, b, outB, q, last);
      Extend(Committed(costs, a, outA, |a|), Committed(costs, b, outB, q - 1), last,
             Committed(costs, a + b, outA + outB, |a| + q - 1), Committed(costs, a + b, outA + outB, |a| + q), Committed(costs, b, outB, q));
    }
  }

  lemma Extend<T>(a: multiset<T>, b: multiset<T>, last: multiset<T>, ab: multiset<T>, abLast: multiset<T>, bLast: multiset<T>)
    requires ab == a + b && abLast == ab + last && bLast == b + last
    ensures abLast == a + bLast
  {
  }

  lemma CommittedStep(costs: seq<TransactionCost>, order: Indices, outcomes: Results, p: nat, last: Charges)
    requires InRange(order, |costs|) && |outcomes| == |order| && 0 < p <= |order|
    requires last == if outcomes[p - 1].None? then multiset{costs[order[p - 1]]} else multiset{}
    ensures Committed(costs, order, outcomes, p) == Committed(costs, order, outcomes, p - 1) + last
  {
  }

  lemma Regroup<T>(a: multiset<T>, b: multiset<T>, c: multiset<T>)
    ensures (a + b) + c == a + (b + c)
  {
  }

  lemma {:induction false} CommittedPrefix(costs: seq<TransactionCost>, a: Indices, outA: Results,
                                           b: Indices, outB: Results, p: nat)
    requires InRange(a, |costs|) && InRange(b, |costs|) && |outA| == |a| && |outB| == |b| && p <= |a|
    ensures InRange(a + b, |costs|)
    ensures Committed(costs, a + b, outA + outB, p) == Committed(costs, a, outA, p)
  {
    if p > 0 {
      CommittedPrefix(costs, a, outA, b, outB, p - 1);
    }
  }

  // ----- admission and refunds

  datatype Tally = Tally(admitted: Indices, books: Books)

  /** Each of a group's first a members is admitted exactly if it fits the ledger it meets, and is then charged to it. */
  function Admission(lim: Limits, b: Books, costs: seq<TransactionCost>, group: Indices, a: nat): (t: Tally)
    requires InRange(group, |costs|) && a <= |group|
    ensures InRange(t.admitted, |costs|)
  {
    if a == 0 then Tally([], b) else
      var before, cost := Admission(lim, b, costs, group, a - 1), costs[group[a - 1]];
      if WouldFit(lim, before.books.ledger, cost).Ok?
      then Tally(before.admitted + [group[a - 1]], Charged(before.books, cost)) else before
  }

  /** The charges of those among the first p admitted transactions that failed are taken back. */
  function Refunded(b: Books, costs: seq<TransactionCost>, admitted: Indices, outcomes: Results, p: nat): Books
    requires InRange(admitted, |costs|) && |outcomes| == |admitted| && p <= |admitted|
  {
    if p == 0 then b else
      var before := Refunded(b, costs, admitted, outcomes, p - 1);
      if outcomes[p - 1].Some? then TakenBack(before, costs[admitted[p - 1]]) else before
  }

  /** Admission adds exactly the charges of the admitted. */
  lemma {:induction false} AdmissionCharges(lim: Limits, b: Books, costs: seq<TransactionCost>, group: Indices, a: nat)
    requires InRange(group, |costs|) && a <= |group|
    ensures var t := Admission(lim, b, costs, group, a); t.books.out == b.out + Remaining(costs, t.admitted, 0)
  {
    if a > 0 {
      AdmissionCharges(lim, b, costs, group, a - 1);
      RemainingSnoc(costs, Admission(lim, b, costs, group, a - 1).admitted, group[a - 1], 0);
    }
  }

  /** After p members are settled, the charges of the committed ones and of the unsettled ones are left. */
  ghost function Left(paid: Charges, costs: seq<TransactionCost>, admitted: Indices, outs: Results, p: nat): Charges
    requires InRange(admitted, |costs|) && |outs| == |admitted| && p <= |admitted|
  {
    paid + (Committed(costs, admitted, outs, p) + Remaining(costs, admitted, p))
  }

  lemma {:induction false} RefundedCharges(b: Books, paid: Charges, costs: seq<TransactionCost>, admitted: Indices, outs: Results, p: nat)
    requires InRange(admitted, |costs|) && |outs| == |admitted| && p <= |admitted|
    requires b.out == paid + Remaining(costs, admitted, 0)
    ensures Refunded(b, costs, admitted, outs, p).out == Left(paid, costs, admitted, outs, p)
  {
    LeftAtFirst(paid, costs, admitted, outs);
    var now := b.out;
    for q := 0 to p
      invariant now == Refunded(b, costs, admitted, outs, q).out == Left(paid, costs, admitted, outs, q)
    {
      RefundedOut(b, costs, admitted, outs, q, now);
      LeftNext(paid, costs, admitted, outs, q, now);
      now := Refunded(b, costs, admitted, outs, q + 1).out;
    }
  }

  lemma LeftAtLast(paid: Charges, costs: seq<TransactionCost>, admitted: Indices, outs: Results)
    requires InRange(admitted, |costs|) && |outs| == |admitted|
    ensures Left(paid, costs, admitted, outs, |outs|) == paid + Committed(costs, admitted, outs, |outs|)
  {
    assert Remaining(costs, admitted, |outs|) == multiset{};
  }

  lemma LeftAtFirst(paid: Charges, costs: seq<TransactionCost>, admitted: Indices, outs: Results)
    requires InRange(admitted, |costs|) && |outs| == |admitted|
    ensures Left(paid, costs, admitted, outs, 0) == paid + Remaining(costs, admitted, 0)
  {
    assert Committed(costs, admitted, outs, 0) == multiset{};
  }

  /** One charge moves from the unsettled part to the committed ones, or is taken back. */
  lemma {:induction false} LeftNext(paid: Charges, costs: seq<TransactionCost>, admitted: Indices, outs: Results, p: nat, now: Charges)
    requires InRange(admitted, |costs|) && p < |admitted| == |outs| && now == Left(paid, costs, admitted, outs, p)
    ensures var c := costs[admitted[p]];
            c in now && Left(paid, costs, admitted, outs, p + 1) == if outs[p].None? then now else now - multiset{c}
  {
    MoveCharge(paid, Committed(costs, admitted, outs, p), Remaining(costs, admitted, p + 1), costs[admitted[p]]);
  }

  lemma MoveCharge<T>(paid: multiset<T>, committed: multiset<T>, rest: multiset<T>, c: T)
    ensures paid + (committed + (multiset{c} + rest)) == paid + ((committed + multiset{c}) + rest)
    ensures paid + (committed + (multiset{c} + rest)) - multiset{c} == paid + ((committed + multiset{}) + rest)
    ensures c in paid + (committed + (multiset{c} + rest))
  {
  }

  /** However the members fare, whoever is not settled yet is still charged. */
  ghost predicate Refundable(b: Books, costs: seq<TransactionCost>, admitted: Indices) {
    InRange(admitted, |costs|) && forall outs: Results, p :: |outs| == |admitted| && 0 <= p < |admitted| ==>
      costs[admitted[p]] in Refunded(b, costs, admitted, outs, p).out
  }

  lemma {:induction false} ChargedIsRefundable(b: Books, paid: Charges, costs: seq<TransactionCost>, admitted: Indices)
    requires InRange(admitted, |costs|) && b.out == paid + Remaining(costs, admitted, 0)
    ensures Refundable(b, costs, admitted)
  {
    forall outs: Results, p | |outs| == |admitted| && 0 <= p < |admitted|
      ensures costs[admitted[p]] in Refunded(b, costs, admitted, outs, p).out
    {
      RefundedCharges(b, paid, costs, admitted, outs, p);
      LeftNext(paid, costs, admitted, outs, p, Refunded(b, costs, admitted, outs, p).out);
    }
  }

  /** What a group's admission gives its processing. */
  lemma {:induction false} AdmittedCharged(lim: Limits, b: Books, costs: seq<TransactionCost>, group: Indices, t: Tally)
    requires InRange(group, |costs|) && Distinct(group) && t == Admission(lim, b, costs, group, |group|)
    ensures Distinct(t.admitted) && (forall i :: i in t.admitted ==> i in group) && Refundable(t.books, costs, t.admitted)
    ensures group[..|group|] == group
  {
    assert group[..|group|] == group;
    AdmittedFrom(lim, b, costs, group, |group|);
    AdmittedOnce(lim, b, costs, group, |group|);
    AdmissionCharges(lim, b, costs, group, |group|);
    ChargedIsRefundable(t.books, b.out, costs, t.admitted);
  }

  lemma RefundedOut(b: Books, costs: seq<TransactionCost>, admitted: Indices, outs: Results, p: nat, now: Charges)
    requires InRange(admitted, |costs|) && p < |outs| == |admitted| && now == Refunded(b, costs, admitted, outs, p).out
    ensures Refunded(b, costs, admitted, outs, p + 1).out == if outs[p].None? then now else now - multiset{costs[admitted[p]]}
  {
  }

  lemma {:induction false} AdmittedFrom(lim: Limits, b: Books, costs: seq<TransactionCost>, group: Indices, a: nat)
    requires InRange(group, |costs|) && a <= |group|
    ensures forall i :: i in Admission(lim, b, costs, group, a).admitted ==> i in group[..a]
  {
    if a > 0 {
      AdmittedFrom(lim, b, costs, group, a - 1);
      assert group[..a] == group[..a - 1] + [group[a - 1]];
    }
  }

  lemma {:induction false} AdmittedOnce(lim: Limits, b: Books, costs: seq<TransactionCost>, group: Indices, a: nat)
    requires InRange(group, |costs|) && a <= |group| && Distinct(group)
    ensures Distinct(Admission(lim, b, costs, group, a).admitted)
  {
    if a > 0 {
      AdmittedOnce(lim, b, costs, group, a - 1);
      AdmittedFrom(lim, b, costs, group, a - 1);
      AppendOnce(Admission(lim, b, costs, group, a - 1).admitted, group, a - 1);
    }
  }

  lemma AppendOnce(order: Indices, group: Indices, a: nat)
    requires Distinct(order) && Distinct(group) && a < |group| && forall i :: i in order ==> i in group[..a]
    ensures Distinct(order + [group[a]]) && group[a] !in order
  {
    forall p | 0 <= p < |order| ensures order[p] != group[a] {
      assert order[p] in order;
    }
  }

  // ----- the course of a batch

  /** The executed transactions with their outcomes, the books and the store. */
  datatype Course = Course(order: Indices, outcomes: Results, books: Books, store: Store)

  ghost predicate IsCourse<T>(txs: seq<T>, c: Course) {
    InRange(c.order, |txs|) && |c.outcomes| == |c.order|
  }

  /** The course once the admitted members' results are settled and committed. */
  function After(costs: seq<TransactionCost>, c: Course, t: Tally, rs: seq<Result<Store, TransactionError>>): (d: Course)
    requires IsCourse(costs, c) && InRange(t.admitted, |costs|) && |rs| == |t.admitted|
    ensures IsCourse(costs, d)
  {
    Course(c.order + t.admitted, c.outcomes + Outcomes(rs),
           Refunded(t.books, costs, t.admitted, Outcomes(rs), |t.admitted|), Commit(c.store, rs))
  }

  /** One group: admitted, run on one snapshot, committed in order, and refunded for its failures. */
  function NextCourse(lim: Limits, costs: seq<TransactionCost>, run: Runner, txs: seq<Transaction>, c: Course, group: Indices): (d: Course)
    requires |costs| == |txs| && IsCourse(txs, c) && InRange(group, |txs|)
    ensures IsCourse(txs, d)
  {
    var t := Admission(lim, c.books, costs, group, |group|);
    After(costs, c, t, ParallelResults(run, c.store, Scheduler.Select(txs, t.admitted)))
  }

  /** `h[g]` is where the batch stands after g groups. */
  ghost predicate History(lim: Limits, costs: seq<TransactionCost>, run: Runner, txs: seq<Transaction>, lists: seq<Indices>, h: seq<Course>) {
    && |costs| == |txs| && 0 < |h| <= |lists| + 1
    && (forall g :: 0 <= g < |lists| ==> InRange(lists[g], |txs|))
    && (forall g :: 0 <= g < |h| ==> IsCourse(txs, h[g]))
    && forall g :: 0 < g < |h| ==> h[g] == NextCourse(lim, costs, run, txs, h[g - 1], lists[g - 1])
  }

  /** Whom the group's record speaks of: the members admitted when the group is reached. */
  function Admitted(lim: Limits, costs: seq<TransactionCost>, c: Course, group: Indices): Indices
    requires InRange(group, |costs|)
  {
    Admission(lim, c.books, costs, group, |group|).admitted
  }

  /** Every group but the last was recorded. */
  ghost predicate Recorded(lim: Limits, costs: seq<TransactionCost>, txs: seq<Transaction>, lists: seq<Indices>, sent: nat -> bool, h: seq<Course>)
    requires |costs| == |txs| && |h| <= |lists| + 1 && forall g :: 0 <= g < |lists| ==> InRange(lists[g], |txs|)
  {
    forall g :: 0 <= g < |h| - 1 ==> RecordOf(Scheduler.Select(txs, Admitted(lim, costs, h[g], lists[g])), sent(g)) == None
  }

  /** The record of this group fails while its members are charged. */
  ghost predicate Charging(lim: Limits, costs: seq<TransactionCost>, txs: seq<Transaction>, group: Indices, sent: bool,
                           c: Course, stop: Option<Stop>, b: Books)
    requires |costs| == |txs| && InRange(group, |txs|)
  {
    var t := Admission(lim, c.books, costs, group, |group|);
    stop == RecordOf(Scheduler.Select(txs, t.admitted), sent) && b == t.books
  }

  ghost predicate Reached(lim: Limits, costs: seq<TransactionCost>, run: Runner, txs: seq<Transaction>, lists: seq<Indices>,
                          sent: nat -> bool, h: seq<Course>) {
    History(lim, costs, run, txs, lists, h) && Recorded(lim, costs, txs, lists, sent, h)
  }

  lemma {:induction false} ReachedNext(lim: Limits, costs: seq<TransactionCost>, run: Runner, txs: seq<Transaction>, lists: seq<Indices>,
                                       sent: nat -> bool, h: seq<Course>, group: Indices, d: Course)
    requires Reached(lim, costs, run, txs, lists, sent, h) && |h| <= |lists| && group == lists[|h| - 1]
    requires d == NextCourse(lim, costs, run, txs, h[|h| - 1], group)
    requires RecordOf(Scheduler.Select(txs, Admitted(lim, costs, h[|h| - 1], group)), sent(|h| - 1)) == None
    ensures Reached(lim, costs, run, txs, lists, sent, h + [d])
  {
  }

  lemma {:induction false} ReachedFirst(lim: Limits, costs: seq<TransactionCost>, run: Runner, txs: seq<Transaction>, verify: Verify,
                                        passed: Indices, groups: seq<seq<nat>>, sent: nat -> bool, start: Course)
    requires Scheduled(txs, verify, passed, groups) && |costs| == |txs| && start.order == [] && start.outcomes == []
    ensures Reached(lim, costs, run, txs, Originals(passed, groups), sent, [start])
    ensures ReportedUpTo(txs, verify, start, Flattened(passed, groups, 0), Initial(txs, verify))
  {
    forall g | 0 <= g < |groups| ensures InRange(Originals(passed, groups)[g], |txs|) {
      MembersVerified(txs, verify, passed, groups, g);
    }
  }

  /** What a batch that returned Ok has done. */
  ghost predicate Completed(lim: Limits, b: Books, run: Runner, v: Store, v': Store, txs: seq<Transaction>, verify: Verify,
                            passed: Indices, groups: seq<seq<nat>>, sent: nat -> bool, h: seq<Course>, results: Results) {
    && Scheduled(txs, verify, passed, groups) && Reached(lim, Costs(txs), run, txs, Originals(passed, groups), sent, h)
    && |h| == |groups| + 1 && h[0] == Course([], [], b, v) && v' == h[|groups|].store
    && Reported(txs, verify, h[|groups|], results)
  }

  /** What a batch has done whose record failed: the groups before it are committed, its own members are charged and nothing else. */
  ghost predicate Interrupted(lim: Limits, b: Books, b': Books, run: Runner, v: Store, v': Store, txs: seq<Transaction>, verify: Verify,
                              passed: Indices, groups: seq<seq<nat>>, sent: nat -> bool, h: seq<Course>, stop: Stop) {
    && Scheduled(txs, verify, passed, groups) && Reached(lim, Costs(txs), run, txs, Originals(passed, groups), sent, h)
    && |h| <= |groups| && h[0] == Course([], [], b, v) && v' == h[|h| - 1].store
    && Charging(lim, Costs(txs), txs, Members(passed, groups, |h| - 1), sent(|h| - 1), h[|h| - 1], Some(stop), b')
  }

  /** Executed transactions report their outcomes, the others their signature error or the cost rejection. */
  ghost predicate Reported(txs: seq<Transaction>, verify: Verify, c: Course, results: Results) {
    && IsCourse(txs, c) && |results| == |txs|
    && (forall p :: 0 <= p < |c.order| ==> results[c.order[p]] == c.outcomes[p])
    && (forall i :: 0 <= i < |txs| && i !in c.order ==>
          results[i] == match verify(txs[i]) case Err(e) => Some(e) case Ok(_) => Some(WouldExceedMaxBlockCostLimit))
  }

  lemma {:induction false} DistinctConcat(a: Indices, b: Indices)
    requires Distinct(a) && Distinct(b) && forall i :: i in b ==> i !in a
    ensures Distinct(a + b)
  {
    forall p, q | 0 <= p < |a| && 0 <= q < |b| ensures a[p] != b[q] {
      assert b[q] in b && a[p] in a;
    }
  }

  /** Each transaction is executed at most once, and only if its group has been reached. */
  lemma {:induction false} CourseOnce(lim: Limits, costs: seq<TransactionCost>, run: Runner, txs: seq<Transaction>, verify: Verify, passed: Indices,
                                      groups: seq<seq<nat>>, h: seq<Course>, g: nat)
    requires Scheduled(txs, verify, passed, groups)
    requires History(lim, costs, run, txs, Originals(passed, groups), h) && h[0].order == [] && g < |h|
    ensures Distinct(h[g].order) && forall i :: i in h[g].order ==> i in Flattened(passed, groups, g)
  {
    if g > 0 {
      CourseOnce(lim, costs, run, txs, verify, passed, groups, h, g - 1);
      MembersUnseen(txs, verify, passed, groups, g - 1);
      NextOnce(lim, costs, run, txs, h[g - 1], Members(passed, groups, g - 1), h[g], Flattened(passed, groups, g - 1));
    }
  }

  lemma {:induction false} NextOnce(lim: Limits, costs: seq<TransactionCost>, run: Runner, txs: seq<Transaction>,
                                    c: Course, group: Indices, d: Course, seen: Indices)
    requires |costs| == |txs| && IsCourse(txs, c) && InRange(group, |txs|) && Distinct(c.order) && Distinct(group)
    requires (forall i :: i in c.order ==> i in seen) && forall i :: i in group ==> i !in seen
    requires d == NextCourse(lim, costs, run, txs, c, group)
    ensures Distinct(d.order) && forall i :: i in d.order ==> i in seen + group
  {
    AdmittedFrom(lim, c.books, costs, group, |group|);
    AdmittedOnce(lim, c.books, costs, group, |group|);
    DistinctConcat(c.order, Admission(lim, c.books, costs, group, |group|).admitted);
  }

  lemma {:induction false} NextCharges(lim: Limits, costs: seq<TransactionCost>, run: Runner, txs: seq<Transaction>, c: Course, group: Indices,
                                       d: Course, paid: Charges)
    requires |costs| == |txs| && IsCourse(txs, c) && InRange(group, |txs|) && d == NextCourse(lim, costs, run, txs, c, group)
    requires c.books.out == paid + Committed(costs, c.order, c.outcomes, |c.order|)
    ensures d.books.out == paid + Committed(costs, d.order, d.outcomes, |d.order|)
  {
    var t := Admission(lim, c.books, costs, group, |group|);
    AdmissionCharges(lim, c.books, costs, group, |group|);
    AfterCharges(costs, c, t, ParallelResults(run, c.store, Scheduler.Select(txs, t.admitted)), d, paid);
  }

  lemma {:induction false} AfterCharges(costs: seq<TransactionCost>, c: Course, t: Tally, rs: seq<Result<Store, TransactionError>>,
                                        d: Course, paid: Charges)
    requires IsCourse(costs, c) && InRange(t.admitted, |costs|) && |rs| == |t.admitted| && d == After(costs, c, t, rs)
    requires t.books.out == c.books.out + Remaining(costs, t.admitted, 0)
    requires c.books.out == paid + Committed(costs, c.order, c.outcomes, |c.order|)
    ensures d.books.out == paid + Committed(costs, d.order, d.outcomes, |d.order|)
  {
    var outs, n := Outcomes(rs), |t.admitted|;
    var now, done, more := c.books.out, Committed(costs, c.order, c.outcomes, |c.order|), Committed(costs, t.admitted, outs, n);
    assert d.books.out == now + more by {
      RefundedCharges(t.books, now, costs, t.admitted, outs, n);
      LeftAtLast(now, costs, t.admitted, outs);
    }
    assert Committed(costs, d.order, d.outcomes, |d.order|) == done + more by {
      CommittedConcat(costs, c.order, c.outcomes, t.admitted, outs, n);
    }
    Regroup(paid, done, more);
  }

  /** At every point of a batch exactly the committed transactions' charges have been added. */
  lemma {:induction false} HistoryCharges(lim: Limits, costs: seq<TransactionCost>, run: Runner, txs: seq<Transaction>,
                                          lists: seq<Indices>, h: seq<Course>, g: nat)
    requires History(lim, costs, run, txs, lists, h) && g < |h| && h[0].order == []
    ensures h[g].books.out == h[0].books.out + Committed(costs, h[g].order, h[g].outcomes, |h[g].order|)
  {
    var p := 0;
    while p < g
      invariant p <= g && h[p].books.out == h[0].books.out + Committed(costs, h[p].order, h[p].outcomes, |h[p].order|)
    {
      NextCharges(lim, costs, run, txs, h[p], lists[p], h[p + 1], h[0].books.out);
      p := p + 1;
    }
  }

  /** A completed batch: nobody ran twice, exactly the committed transactions were charged, whoever ran was verified and signed. */
  lemma {:induction false} CompletedBatch(lim: Limits, b: Books, run: Runner, v: Store, v': Store, txs: seq<Transaction>, verify: Verify,
                                          passed: Indices, groups: seq<seq<nat>>, sent: nat -> bool, h: seq<Course>, results: Results)
    requires Completed(lim, b, run, v, v', txs, verify, passed, groups, sent, h, results)
    ensures var c := h[|groups|];
            && Distinct(c.order) && c.books.out == b.out + Committed(Costs(txs), c.order, c.outcomes, |c.order|)
            && forall i :: i in c.order ==> verify(txs[i]).Ok?
  {
    CourseOnce(lim, Costs(txs), run, txs, verify, passed, groups, h, |groups|);
    HistoryCharges(lim, Costs(txs), run, txs, Originals(passed, groups), h, |groups|);
    forall i | i in h[|groups|].order ensures i < |txs| && verify(txs[i]).Ok? {
      var g, x := FlattenedSource(passed, groups, |groups|, i);
      assert passed[x] in passed;
    }
  }

  /** A batch is interrupted only if the PoH service refuses a record or some admitted transaction has no signature. */
  lemma {:induction false} InterruptedBatch(lim: Limits, b: Books, b': Books, run: Runner, v: Store, v': Store, txs: seq<Transaction>,
                                            verify: Verify, passed: Indices, groups: seq<seq<nat>>, sent: nat -> bool, h: seq<Course>, stop: Stop)
    requires Interrupted(lim, b, b', run, v, v', txs, verify, passed, groups, sent, h, stop)
    ensures stop == RecordRefused ==> !sent(|h| - 1)
    ensures stop != RecordRefused ==> stop == RecorderPanicked && exists tx :: tx in txs && verify(tx).Ok? && tx.signatures == []
  {
    var group := Members(passed, groups, |h| - 1);
    var admitted := Admitted(lim, Costs(txs), h[|h| - 1], group);
    MembersVerified(txs, verify, passed, groups, |h| - 1);
    AdmittedFrom(lim, h[|h| - 1].books, Costs(txs), group, |group|);
    var chosen := Scheduler.Select(txs, admitted);
    if p :| 0 <= p < |chosen| && chosen[p].signatures == [] {
      assert admitted[p] in admitted && group[..|group|] == group;
      var a :| 0 <= a < |group| && group[a] == admitted[p];
      assert txs[admitted[p]] in txs && verify(txs[group[a]]).Ok?;
    }
  }

  // ----- one result for each input

  lemma {:induction false} PassedUnique(txs: seq<Transaction>, verify: Verify, p: Indices, q: Indices)
    requires IsPassed(txs, verify, p) && IsPassed(txs, verify, q)
    ensures p == q
  {
    Scheduler.IncreasingUnique(p, q, |txs|);
  }

  lemma {:induction false} SameHistory(lim: Limits, costs: seq<TransactionCost>, run: Runner, txs: seq<Transaction>,
                                       lists: seq<Indices>, h: seq<Course>, k: seq<Course>, g: nat)
    requires History(lim, costs, run, txs, lists, h) && History(lim, costs, run, txs, lists, k)
    requires h[0] == k[0] && g < |h| && g < |k|
    ensures h[g] == k[g]
  {
    if g > 0 {
      SameHistory(lim, costs, run, txs, lists, h, k, g - 1);
    }
  }

  lemma {:induction false} SameReports(txs: seq<Transaction>, verify: Verify, c: Course,
                                       r: Results, t: Results)
    requires Reported(txs, verify, c, r) && Reported(txs, verify, c, t)
    ensures r == t
  {
    forall i | 0 <= i < |txs| ensures r[i] == t[i] {
      if i in c.order {
        var p :| 0 <= p < |c.order| && c.order[p] == i;
      }
    }
  }

  /** Same transactions, same signatures, same store, same ledger: same schedule, same results, same store. */
  lemma {:induction false} BatchIsDetermined(lim: Limits, b: Books, run: Runner, v: Store, txs: seq<Transaction>, verify: Verify,
    passed: Indices, groups: seq<seq<nat>>, sent: nat -> bool, h: seq<Course>, r: Results, v': Store,
    passed': Indices, groups': seq<seq<nat>>, sent': nat -> bool, k: seq<Course>, t: Results, w': Store)
    requires Completed(lim, b, run, v, v', txs, verify, passed, groups, sent, h, r)
    requires Completed(lim, b, run, v, w', txs, verify, passed', groups', sent', k, t)
    ensures passed' == passed && groups' == groups && t == r && w' == v'
  {
    PassedUnique(txs, verify, passed, passed');
    Scheduler.ScheduleUnique(Scheduler.Select(txs, passed), groups, groups');
    SameHistory(lim, Costs(txs), run, txs, Originals(passed, groups), h, k, |groups|);
    SameReports(txs, verify, h[|groups|], r, t);
  }

  // ----- what the loops do to the reported results

  /** Rejected members are reported, everything else is as before. */
  ghost predicate Judged(group: Indices, admitted: Indices, before: Results, results: Results) {
    |results| == |before| && forall i :: 0 <= i < |results| ==>
      results[i] == if i in group && i !in admitted then Some(WouldExceedMaxBlockCostLimit) else before[i]
  }

  lemma {:induction false} JudgeOne(group: Indices, a: nat, admitted: Indices, before: Results, results: Results)
    requires Distinct(group) && InRange(group, |before|) && a < |group| && forall i :: i in admitted ==> i in group[..a]
    requires Judged(group[..a], admitted, before, results)
    ensures Judged(group[..a + 1], admitted + [group[a]], before, results)
    ensures Judged(group[..a + 1], admitted, before, results[group[a] := Some(WouldExceedMaxBlockCostLimit)])
  {
    assert group[..a + 1] == group[..a] + [group[a]];
    assert group[a] !in group[..a];
  }

  /** The first p admitted members report their outcome; nothing else has changed. */
  ghost predicate SettledTo(admitted: Indices, outs: Results, p: nat, before: Results, results: Results)
    requires p <= |admitted| == |outs|
  {
    && |results| == |before| && InRange(admitted, |results|)
    && (forall q :: 0 <= q < p ==> results[admitted[q]] == outs[q])
    && (forall i :: 0 <= i < |results| && i !in admitted[..p] ==> results[i] == before[i])
  }

  /** The results once the first p admitted members have reported their outcome. */
  function Reports(admitted: Indices, outs: Results, p: nat, before: Results): (results: Results)
    requires p <= |admitted| == |outs| && InRange(admitted, |before|)
    ensures |results| == |before|
  {
    if p == 0 then before else Reports(admitted, outs, p - 1, before)[admitted[p - 1] := outs[p - 1]]
  }

  lemma {:induction false} ReportsSettle(admitted: Indices, outs: Results, p: nat, before: Results)
    requires p <= |admitted| == |outs| && InRange(admitted, |before|) && Distinct(admitted)
    ensures SettledTo(admitted, outs, p, before, Reports(admitted, outs, p, before))
  {
    var now := before;
    for q := 0 to p
      invariant now == Reports(admitted, outs, q, before) && SettledTo(admitted, outs, q, before, now)
    {
      assert admitted[..q + 1] == admitted[..q] + [admitted[q]] && admitted[q] !in admitted[..q];
      now := now[admitted[q] := outs[q]];
    }
  }

  /** A member that has not reported yet still shows what it showed before. */
  lemma {:induction false} Unreported(admitted: Indices, outs: Results, p: nat, before: Results)
    requires p < |admitted| == |outs| && InRange(admitted, |before|) && Distinct(admitted)
    ensures Reports(admitted, outs, p, before)[admitted[p]] == before[admitted[p]]
  {
    ReportsSettle(admitted, outs, p, before);
    assert admitted[p] !in admitted[..p];
  }

  lemma {:induction false} SettleOverlay(rs: seq<Result<Store, TransactionError>>, p: nat)
    requires p < |rs|
    ensures Overlays(rs[..p + 1]) == Overlays(rs[..p]) + if rs[p].Ok? then [rs[p].value] else []
  {
    assert rs[..p + 1] == rs[..p] + [rs[p]];
    OverlaysSnoc(rs[..p], rs[p]);
  }

  /** A group's admitted members report their outcome, the others the cost rejection; nothing else has changed. */
  ghost predicate GroupReported(group: Indices, admitted: Indices, outs: Results, before: Results, results: Results) {
    && |results| == |before| && |outs| == |admitted| && InRange(admitted, |results|)
    && (forall p :: 0 <= p < |admitted| ==> results[admitted[p]] == outs[p])
    && (forall i :: 0 <= i < |results| && i !in admitted ==>
          results[i] == if i in group then Some(WouldExceedMaxBlockCostLimit) else before[i])
  }

  lemma {:induction false} SettledIsReported(group: Indices, admitted: Indices, outs: Results, before: Results,
                                             judged: Results, results: Results)
    requires Judged(group, admitted, before, judged) && |outs| == |admitted| && InRange(admitted, |before|) && Distinct(admitted)
    requires results == Reports(admitted, outs, |admitted|, judged)
    ensures GroupReported(group, admitted, outs, before, results)
  {
    ReportsSettle(admitted, outs, |admitted|, judged);
    assert admitted[..|admitted|] == admitted;
  }

  /** Executed transactions report their outcomes; the others their signature error, or the cost rejection once seen. */
  ghost predicate ReportedUpTo(txs: seq<Transaction>, verify: Verify, c: Course, seen: Indices, results: Results) {
    && IsCourse(txs, c) && |results| == |txs| && (forall i :: i in c.order ==> i in seen)
    && (forall p :: 0 <= p < |c.order| ==> results[c.order[p]] == c.outcomes[p])
    && (forall i :: 0 <= i < |txs| && i !in c.order ==>
          results[i] == match verify(txs[i])
                        case Err(e) => Some(e)
                        case Ok(_) => if i in seen then Some(WouldExceedMaxBlockCostLimit) else None)
  }

  lemma {:induction false} ReportStep(txs: seq<Transaction>, verify: Verify, c: Course, seen: Indices, group: Indices,
                                      admitted: Indices, outs: Results, d: Course, before: Results, results: Results)
    requires ReportedUpTo(txs, verify, c, seen, before) && GroupReported(group, admitted, outs, before, results)
    requires IsCourse(txs, d) && d.order == c.order + admitted && d.outcomes == c.outcomes + outs
    requires Unreached(txs, verify, group, seen) && forall i :: i in admitted ==> i in group
    ensures ReportedUpTo(txs, verify, d, seen + group, results)
  {
    forall p | 0 <= p < |d.order| ensures results[d.order[p]] == d.outcomes[p] {
      if p < |c.order| {
        assert c.order[p] in c.order;
        assert c.order[p] in seen;
      } else {
        assert d.order[p] == admitted[p - |c.order|];
      }
    }
    forall i | 0 <= i < |txs| && i !in d.order
      ensures results[i] == match verify(txs[i])
                            case Err(e) => Some(e)
                            case Ok(_) => if i in seen + group then Some(WouldExceedMaxBlockCostLimit) else None
    {
      assert i !in c.order && i !in admitted;
    }
  }

  function Initial(txs: seq<Transaction>, verify: Verify): Results {
    seq(|txs|, i requires 0 <= i < |txs| => match verify(txs[i]) case Ok(_) => None case Err(e) => Some(e))
  }

  /** A group that has not been reached: its members are verified and unseen. */
  ghost predicate Unreached(txs: seq<Transaction>, verify: Verify, group: Indices, seen: Indices) {
    && InRange(group, |txs|) && Distinct(group) && (forall i :: i in group ==> i !in seen)
    && (forall i :: 0 <= i < |txs| && i in group ==> verify(txs[i]).Ok?)
  }

  lemma {:induction false} NextUnreached(txs: seq<Transaction>, verify: Verify, passed: Indices, groups: seq<seq<nat>>, g: nat)
    requires Scheduled(txs, verify, passed, groups) && g < |groups|
    ensures Unreached(txs, verify, Members(passed, groups, g), Flattened(passed, groups, g))
  {
    MembersVerified(txs, verify, passed, groups, g);
    MembersUnseen(txs, verify, passed, groups, g);
    var group := Members(passed, groups, g);
    forall i | 0 <= i < |txs| && i in group ensures verify(txs[i]).Ok? {
      var a :| 0 <= a < |group| && group[a] == i;
    }
  }

  /** Nothing of it is reported yet. */
  lemma {:induction false} GroupFresh(txs: seq<Transaction>, verify: Verify, group: Indices, seen: Indices, c: Course, results: Results)
    requires Unreached(txs, verify, group, seen) && ReportedUpTo(txs, verify, c, seen, results)
    ensures forall i :: i in group ==> results[i] == None
  {
    forall i | i in group ensures results[i] == None && i < |txs| {
      var a :| 0 <= a < |group| && group[a] == i;
    }
  }

  lemma {:induction false} AllReported(txs: seq<Transaction>, verify: Verify, passed: Indices, groups: seq<seq<nat>>,
                                       c: Course, results: Results)
    requires Scheduled(txs, verify, passed, groups) && ReportedUpTo(txs, verify, c, Flattened(passed, groups, |groups|), results)
    ensures Reported(txs, verify, c, results)
  {
    forall i | 0 <= i < |txs| && verify(txs[i]).Ok? ensures i in Flattened(passed, groups, |groups|) {
      AllScheduled(txs, verify, passed, groups, i);
    }
  }

  // ----- when the course is the serial one

  /** Members of a group are pairwise free of interference, so any sub-list of it is too. */
  ghost predicate Peaceful(txs: seq<Transaction>, group: Indices) {
    InRange(group, |txs|) && forall a, b :: 0 <= a < b < |group| ==> Apart(txs[group[a]], txs[group[b]])
  }

  lemma {:induction false} AdmittedPeaceful(lim: Limits, b: Books, costs: seq<TransactionCost>, txs: seq<Transaction>,
                                            group: Indices, a: nat)
    requires |costs| == |txs| && Peaceful(txs, group) && a <= |group|
    ensures Peaceful(txs, Admission(lim, b, costs, group, a).admitted)
  {
    var now: Indices := [];
    for p := 0 to a
      invariant now == Admission(lim, b, costs, group, p).admitted && Peaceful(txs, now)
    {
      AdmittedFrom(lim, b, costs, group, p);
      AppendPeaceful(txs, now, group, p);
      now := Admission(lim, b, costs, group, p + 1).admitted;
    }
  }

  lemma AppendPeaceful(txs: seq<Transaction>, order: Indices, group: Indices, a: nat)
    requires Peaceful(txs, order) && Peaceful(txs, group) && a < |group| && forall i :: i in order ==> i in group[..a]
    ensures Peaceful(txs, order + [group[a]])
  {
    forall p | 0 <= p < |order| ensures Apart(txs[order[p]], txs[group[a]]) {
      assert order[p] in order;
      var b :| 0 <= b < a && group[b] == order[p];
    }
  }

  /** No scheduled group has a member loading what an earlier one loads and writes; the schedule is unique, so a caller can check. */
  ghost predicate PeacefulBatch(txs: seq<Transaction>, verify: Verify) {
    forall passed: Indices, groups: seq<seq<nat>>, g :: Scheduled(txs, verify, passed, groups) && 0 <= g < |groups| ==>
      Peaceful(txs, Members(passed, groups, g))
  }

  /** Every transaction that will be scheduled keeps to the accounts its metas mark writable. */
  ghost predicate FramedBatch(run: Runner, txs: seq<Transaction>, verify: Verify) {
    forall tx :: tx in txs && verify(tx).Ok? ==> Framed(run, tx)
  }

  lemma SelectConcat(txs: seq<Transaction>, a: Indices, b: Indices)
    requires InRange(a, |txs|) && InRange(b, |txs|)
    ensures InRange(a + b, |txs|) && Scheduler.Select(txs, a + b) == Scheduler.Select(txs, a) + Scheduler.Select(txs, b)
  {
  }

  /** A group whose members are free of interference and keep to their writable accounts. */
  ghost predicate Quiet(run: Runner, txs: seq<Transaction>, group: Indices) {
    Peaceful(txs, group) && forall i :: i in group ==> Framed(run, txs[i])
  }

  ghost predicate AllQuiet(run: Runner, txs: seq<Transaction>, lists: seq<Indices>) {
    forall g :: 0 <= g < |lists| ==> Quiet(run, txs, lists[g])
  }

  lemma {:induction false} BatchIsQuiet(run: Runner, txs: seq<Transaction>, verify: Verify, passed: Indices, groups: seq<seq<nat>>)
    requires Scheduled(txs, verify, passed, groups) && PeacefulBatch(txs, verify) && FramedBatch(run, txs, verify)
    ensures AllQuiet(run, txs, Originals(passed, groups))
  {
    forall g | 0 <= g < |groups| ensures Quiet(run, txs, Members(passed, groups, g)) {
      MembersVerified(txs, verify, passed, groups, g);
      var group := Members(passed, groups, g);
      forall i | i in group ensures Framed(run, txs[i]) {
        var a :| 0 <= a < |group| && group[a] == i;
        assert txs[group[a]] in txs;
      }
    }
  }

  /** One group, on its own. */
  lemma {:induction false} GroupCourseIsSerial(lim: Limits, costs: seq<TransactionCost>, run: Runner, txs: seq<Transaction>,
                                               c: Course, group: Indices)
    requires |costs| == |txs| && WellKeyed(c.store) && Quiet(run, txs, group)
    ensures var chosen := Scheduler.Select(txs, Admission(lim, c.books, costs, group, |group|).admitted);
            var rs := ParallelResults(run, c.store, chosen);
            Commit(c.store, rs) == SerialStore(run, c.store, chosen) && Outcomes(rs) == SerialOutcomes(run, c.store, chosen)
  {
    var admitted := Admission(lim, c.books, costs, group, |group|).admitted;
    var chosen := Scheduler.Select(txs, admitted);
    AdmittedFrom(lim, c.books, costs, group, |group|);
    AdmittedPeaceful(lim, c.books, costs, txs, group, |group|);
    PeacefulIsNonInterfering(txs, admitted);
    forall tx | tx in chosen ensures Framed(run, tx) {
      var p :| 0 <= p < |chosen| && chosen[p] == tx;
      assert admitted[p] in admitted;
    }
    GroupIsSerial(run, c.store, chosen);
  }

  /** The course is the serial run of the executed transactions, in their order. */
  ghost predicate IsSerial(run: Runner, v: Store, txs: seq<Transaction>, c: Course) {
    && IsCourse(txs, c) && c.store == SerialStore(run, v, Scheduler.Select(txs, c.order))
    && c.outcomes == SerialOutcomes(run, v, Scheduler.Select(txs, c.order))
  }

  lemma {:induction false} NextIsSerial(lim: Limits, costs: seq<TransactionCost>, run: Runner, v: Store, txs: seq<Transaction>,
                                        c: Course, group: Indices, d: Course)
    requires |costs| == |txs| && WellKeyed(v) && IsSerial(run, v, txs, c) && Quiet(run, txs, group)
    requires d == NextCourse(lim, costs, run, txs, c, group)
    ensures IsSerial(run, v, txs, d)
  {
    var admitted := Admission(lim, c.books, costs, group, |group|).admitted;
    SerialKeyed(run, v, Scheduler.Select(txs, c.order));
    GroupCourseIsSerial(lim, costs, run, txs, c, group);
    SelectConcat(txs, c.order, admitted);
    SerialConcat(run, v, Scheduler.Select(txs, c.order), Scheduler.Select(txs, admitted));
  }

  lemma {:induction false} HistoryIsSerial(lim: Limits, costs: seq<TransactionCost>, run: Runner, v: Store, txs: seq<Transaction>,
                                           lists: seq<Indices>, h: seq<Course>, g: nat)
    requires History(lim, costs, run, txs, lists, h) && g < |h| && AllQuiet(run, txs, lists)
    requires WellKeyed(v) && IsSerial(run, v, txs, h[0])
    ensures IsSerial(run, v, txs, h[g])
  {
    var p := 0;
    while p < g
      invariant p <= g && IsSerial(run, v, txs, h[p])
    {
      NextIsSerial(lim, costs, run, v, txs, h[p], lists[p], h[p + 1]);
      p := p + 1;
    }
  }

  /** With peaceful groups and framed programs the batch's store and outcomes are those of running it one by one. */
  lemma {:induction false} BatchIsSerial(lim: Limits, b: Books, run: Runner, v: Store, v': Store, txs: seq<Transaction>, verify: Verify,
                                         passed: Indices, groups: seq<seq<nat>>, sent: nat -> bool, h: seq<Course>, results: Results)
    requires WellKeyed(v) && Completed(lim, b, run, v, v', txs, verify, passed, groups, sent, h, results)
    requires PeacefulBatch(txs, verify) && FramedBatch(run, txs, verify)
    ensures var order := h[|groups|].order; var chosen := Scheduler.Select(txs, order);
            && v' == SerialStore(run, v, chosen)
            && forall p :: 0 <= p < |order| ==> results[order[p]] == SerialOutcomes(run, v, chosen)[p]
  {
    BatchIsQuiet(run, txs, verify, passed, groups);
    assert Scheduler.Select(txs, []) == [];
    HistoryIsSerial(lim, Costs(txs), run, v, txs, Originals(passed, groups), h, |groups|);
  }

  /** Naming every loaded key in a meta is enough. */
  lemma {:induction false} CoveredIsPeaceful(txs: seq<Transaction>, verify: Verify)
    requires forall tx :: tx in txs && verify(tx).Ok? ==> Covered(tx)
    ensures PeacefulBatch(txs, verify)
  {
    forall passed: Indices, groups: seq<seq<nat>>, g | Scheduled(txs, verify, passed, groups) && 0 <= g < |groups|
      ensures Peaceful(txs, Members(passed, groups, g))
    {
      var ptxs, picked := Scheduler.Select(txs, passed), Members(passed, groups, g);
      MembersVerified(txs, verify, passed, groups, g);
      forall a, b | 0 <= a < b < |picked| ensures Apart(txs[picked[a]], txs[picked[b]]) {
        assert txs[picked[b]] in txs;
        assert Coverage.Together(ptxs, groups, g, a, b, txs[picked[b]]);
        Coverage.AlwaysApartIffCovered(txs[picked[b]]);
      }
    }
  }

  ghost predicate GroupInvisible(txs: seq<Transaction>, group: Indices) {
    InRange(group, |txs|) && Interference.ParallelInvisible(Scheduler.Select(txs, group))
  }

  lemma {:induction false} PeacefulIsNonInterfering(txs: seq<Transaction>, group: Indices)
    requires InRange(group, |txs|)
    ensures Peaceful(txs, group) <==> NonInterfering(Scheduler.Select(txs, group))
  {
    var chosen := Scheduler.Select(txs, group);
    if NonInterfering(chosen) {
      forall a, b | 0 <= a < b < |group| ensures Apart(txs[group[a]], txs[group[b]]) {
        assert Apart(chosen[a], chosen[b]);
      }
    }
  }

  /** Peace is what it takes for no program to notice that the batch's groups ran in parallel. */
  lemma {:induction false} PeacefulIffInvisible(txs: seq<Transaction>, verify: Verify)
    ensures PeacefulBatch(txs, verify) <==>
      forall passed: Indices, groups: seq<seq<nat>>, g :: Scheduled(txs, verify, passed, groups) && 0 <= g < |groups| ==>
        GroupInvisible(txs, Members(passed, groups, g))
  {
    forall passed: Indices, groups: seq<seq<nat>>, g | Scheduled(txs, verify, passed, groups) && 0 <= g < |groups|
      ensures Peaceful(txs, Members(passed, groups, g)) <==> GroupInvisible(txs, Members(passed, groups, g))
    {
      MembersVerified(txs, verify, passed, groups, g);
      Interference.InvisibleIffNonInterfering(Scheduler.Select(txs, Members(passed, groups, g)));
      PeacefulIsNonInterfering(txs, Members(passed, groups, g));
    }
  }
}
