/** Who is executed under the two cost limits of a block, in exact sums of prices. */
module BatchLimits {
  import opened Types
  import opened Collections
  import opened Serial
  import opened CostModel
  import opened BatchCourse
  import Banks
  import BlockhashQueue
  import Scheduler

  /** A block's limit and an account's. */
  const LIMITS := Limits(60_000_000, 24_000_000)

  // ----- the books stay exact along a batch

  lemma {:induction false} AdmissionBalanced(lim: Limits, b: Books, costs: seq<TransactionCost>, group: Indices, a: nat)
    requires lim.block < U64_MAX && Balanced(lim, b.ledger, b.out) && InRange(group, |costs|) && a <= |group|
    ensures var t := Admission(lim, b, costs, group, a); Balanced(lim, t.books.ledger, t.books.out)
  {
    var now := b;
    for p := 0 to a
      invariant now == Admission(lim, b, costs, group, p).books && Balanced(lim, now.ledger, now.out)
    {
      var c := costs[group[p]];
      if WouldFit(lim, now.ledger, c).Ok? {
        ChargeBalances(lim, now.ledger, now.out, c);
      }
      now := Admission(lim, b, costs, group, p + 1).books;
    }
  }

  lemma {:induction false} RefundedBalanced(lim: Limits, b: Books, costs: seq<TransactionCost>, admitted: Indices, outs: Results, p: nat)
    requires Balanced(lim, b.ledger, b.out) && Refundable(b, costs, admitted) && p <= |outs| == |admitted|
    ensures var r := Refunded(b, costs, admitted, outs, p); Balanced(lim, r.ledger, r.out)
  {
    var now := b;
    for q := 0 to p
      invariant now == Refunded(b, costs, admitted, outs, q) && Balanced(lim, now.ledger, now.out)
    {
      assert costs[admitted[q]] in Refunded(b, costs, admitted, outs, q).out;
      if outs[q].Some? {
        RefundBalances(lim, now.ledger, now.out, costs[admitted[q]]);
      }
      now := Refunded(b, costs, admitted, outs, q + 1);
    }
  }

  lemma {:induction false} HistoryBalanced(lim: Limits, costs: seq<TransactionCost>, run: Runner, txs: seq<Transaction>,
                                           lists: seq<Indices>, h: seq<Course>, g: nat)
    requires History(lim, costs, run, txs, lists, h) && g < |h| && lim.block < U64_MAX
    requires Balanced(lim, h[0].books.ledger, h[0].books.out)
    ensures Balanced(lim, h[g].books.ledger, h[g].books.out)
  {
    var p := 0;
    while p < g
      invariant p <= g && Balanced(lim, h[p].books.ledger, h[p].books.out)
    {
      NextBalanced(lim, costs, run, txs, h[p], lists[p], h[p + 1]);
      p := p + 1;
    }
  }

  lemma {:induction false} NextBalanced(lim: Limits, costs: seq<TransactionCost>, run: Runner, txs: seq<Transaction>,
                                        c: Course, group: Indices, d: Course)
    requires |costs| == |txs| && IsCourse(txs, c) && InRange(group, |txs|) && d == NextCourse(lim, costs, run, txs, c, group)
    requires lim.block < U64_MAX && Balanced(lim, c.books.ledger, c.books.out)
    ensures Balanced(lim, d.books.ledger, d.books.out)
  {
    var t := Admission(lim, c.books, costs, group, |group|);
    AdmissionBalanced(lim, c.books, costs, group, |group|);
    AdmissionCharges(lim, c.books, costs, group, |group|);
    ChargedIsRefundable(t.books, c.books.out, costs, t.admitted);
    RefundedBalanced(lim, t.books, costs, t.admitted, Outcomes(ParallelResults(run, c.store, Scheduler.Select(txs, t.admitted))), |t.admitted|);
  }

  // ----- each transaction has its turn once

  lemma {:induction false} OneGroup(txs: seq<Transaction>, verify: Verify, passed: Indices, groups: seq<seq<nat>>, g: nat, m: nat, i: nat)
    requires Scheduled(txs, verify, passed, groups) && g < m < |groups|
    ensures !(i in Members(passed, groups, g) && i in Members(passed, groups, m))
  {
    if i in Members(passed, groups, g) {
      var a :| 0 <= a < |groups[g]| && Members(passed, groups, g)[a] == i;
      FlattenedTarget(passed, groups, m, g, groups[g][a]);
      MembersUnseen(txs, verify, passed, groups, m);
    }
  }

  lemma {:induction false} SameButOne(lim: Limits, b: Books, costs: seq<TransactionCost>, group: Indices, q: nat, i: nat)
    requires InRange(group, |costs|) && q < |group| && group[q] != i
    ensures i in Admission(lim, b, costs, group, q + 1).admitted <==> i in Admission(lim, b, costs, group, q).admitted
  {
  }

  lemma {:induction false} AdmittedAt(lim: Limits, b: Books, costs: seq<TransactionCost>, group: Indices, a: nat, p: nat)
    requires InRange(group, |costs|) && Distinct(group) && a < p <= |group|
    ensures group[a] !in Admission(lim, b, costs, group, a).admitted
    ensures group[a] in Admission(lim, b, costs, group, p).admitted <==> group[a] in Admission(lim, b, costs, group, a + 1).admitted
  {
    AdmittedFrom(lim, b, costs, group, a);
    StillAdmitted(lim, b, costs, group, a + 1, p, group[a]);
  }

  lemma {:induction false} StillAdmitted(lim: Limits, b: Books, costs: seq<TransactionCost>, group: Indices, from: nat, p: nat, i: nat)
    requires InRange(group, |costs|) && from <= p <= |group| && forall q :: from <= q < p ==> group[q] != i
    ensures i in Admission(lim, b, costs, group, p).admitted <==> i in Admission(lim, b, costs, group, from).admitted
  {
    if from < p {
      StillAdmitted(lim, b, costs, group, from, p - 1, i);
      SameButOne(lim, b, costs, group, p - 1, i);
    }
  }

  /** A member of group g has been executed exactly if its group admitted it. */
  lemma {:induction false} ExecutedFrom(lim: Limits, costs: seq<TransactionCost>, run: Runner, txs: seq<Transaction>, verify: Verify,
                                        passed: Indices, groups: seq<seq<nat>>, h: seq<Course>, g: nat, i: nat)
    requires Scheduled(txs, verify, passed, groups) && History(lim, costs, run, txs, Originals(passed, groups), h)
    requires h[0].order == [] && g + 1 < |h| && i in Members(passed, groups, g)
    ensures i in h[|h| - 1].order <==> i in Admitted(lim, costs, h[g], Members(passed, groups, g))
    ensures i !in h[g].order
  {
    var lists := Originals(passed, groups);
    var m := 0;
    while m < |h| - 1
      invariant m <= |h| - 1 && (m <= g ==> i !in h[m].order)
      invariant m > g ==> (i in h[m].order <==> i in Admitted(lim, costs, h[g], lists[g])) && i !in h[g].order
    {
      AdmittedFrom(lim, h[m].books, costs, lists[m], |lists[m]|);
      assert lists[m][..|lists[m]|] == lists[m];
      if m < g {
        OneGroup(txs, verify, passed, groups, m, g, i);
      } else if g < m {
        OneGroup(txs, verify, passed, groups, g, m, i);
      }
      m := m + 1;
    }
  }

  // ----- the exact sums decide

  /** The exact sums of the outstanding prices leave room: in the block, and on every already charged account it writes. */
  ghost predicate Within(b: Books, c: TransactionCost) {
    && Total(b.out) + c.Sum() <= 60_000_000
    && forall k :: k in c.writable && k in b.ledger.byAccount ==> TotalOn(b.out, k) + c.Sum() <= 24_000_000
  }

  lemma {:induction false} NextAdmitted(costs: seq<TransactionCost>, b: Books, group: Indices, a: nat)
    requires InRange(group, |costs|) && a < |group| && Balanced(LIMITS, b.ledger, b.out)
    ensures var t, next := Admission(LIMITS, b, costs, group, a), Admission(LIMITS, b, costs, group, a + 1);
            next.admitted == t.admitted + if Within(t.books, costs[group[a]]) then [group[a]] else []
  {
    var t := Admission(LIMITS, b, costs, group, a);
    AdmissionBalanced(LIMITS, b, costs, group, a);
    FitsIff(LIMITS, t.books.ledger, t.books.out, costs[group[a]]);
  }

  lemma {:induction false} TurnDecides(costs: seq<TransactionCost>, b: Books, group: Indices, a: nat, t: Tally)
    requires InRange(group, |costs|) && Distinct(group) && a < |group| && Balanced(LIMITS, b.ledger, b.out)
    requires t == Admission(LIMITS, b, costs, group, a)
    ensures group[a] in Admission(LIMITS, b, costs, group, |group|).admitted <==> Within(t.books, costs[group[a]])
  {
    AdmittedAt(LIMITS, b, costs, group, a, |group|);
    NextAdmitted(costs, b, group, a);
  }

  /** What is outstanding in the middle of a group: the committed transactions and the group's members admitted so far. */
  ghost predicate OutstandingAt(costs: seq<TransactionCost>, b: Books, c: Course, t: Tally) {
    && IsCourse(costs, c) && InRange(t.admitted, |costs|)
    && t.books.out == b.out + Committed(costs, c.order, c.outcomes, |c.order|) + Remaining(costs, t.admitted, 0)
  }

  lemma {:induction false} TurnCharges(lim: Limits, costs: seq<TransactionCost>, run: Runner, txs: seq<Transaction>, lists: seq<Indices>,
                                       h: seq<Course>, g: nat, a: nat, b: Books, t: Tally)
    requires History(lim, costs, run, txs, lists, h) && g < |h| && g < |lists| && h[0].order == [] && a <= |lists[g]| && h[0].books == b
    requires t == Admission(lim, h[g].books, costs, lists[g], a)
    ensures OutstandingAt(costs, b, h[g], t)
  {
    HistoryCharges(lim, costs, run, txs, lists, h, g);
    AdmissionCharges(lim, h[g].books, costs, lists[g], a);
  }

  /** The a-th member of group g is executed exactly if it stays within the limits when it has its turn. */
  lemma {:induction false} TurnIff(costs: seq<TransactionCost>, run: Runner, txs: seq<Transaction>, verify: Verify, passed: Indices,
                                   groups: seq<seq<nat>>, b: Books, h: seq<Course>, g: nat, a: nat, i: nat, t: Tally)
    requires Scheduled(txs, verify, passed, groups) && History(LIMITS, costs, run, txs, Originals(passed, groups), h)
    requires h[0].order == [] && h[0].books == b && Balanced(LIMITS, b.ledger, b.out)
    requires |h| == |groups| + 1 && g < |groups| && a < |groups[g]| && i == Members(passed, groups, g)[a]
    requires InRange(Members(passed, groups, g), |txs|) && t == Admission(LIMITS, h[g].books, costs, Members(passed, groups, g), a)
    ensures OutstandingAt(costs, b, h[g], t) && (i in h[|groups|].order <==> Within(t.books, costs[i]))
  {
    var group := Members(passed, groups, g);
    assert OutstandingAt(costs, b, h[g], t) by {
      TurnCharges(LIMITS, costs, run, txs, Originals(passed, groups), h, g, a, b, t);
    }
    assert i in Admitted(LIMITS, costs, h[g], group) <==> Within(t.books, costs[i]) by {
      MembersUnseen(txs, verify, passed, groups, g);
      HistoryBalanced(LIMITS, costs, run, txs, Originals(passed, groups), h, g);
      TurnDecides(costs, h[g].books, group, a, t);
    }
    assert i in h[|groups|].order <==> i in Admitted(LIMITS, costs, h[g], group) by {
      ExecutedFrom(LIMITS, costs, run, txs, verify, passed, groups, h, g, i);
    }
  }

  /** A completed batch under the block's limits: whoever is within them at its turn is executed, the others are reported. */
  lemma {:induction false} ExecutedIff(b: Books, run: Runner, v: Store, v': Store, txs: seq<Transaction>, verify: Verify, passed: Indices,
                                       groups: seq<seq<nat>>, sent: nat -> bool, h: seq<Course>, results: Results,
                                       costs: seq<TransactionCost>, g: nat, a: nat, i: nat, t: Tally)
    requires Completed(LIMITS, b, run, v, v', txs, verify, passed, groups, sent, h, results) && Balanced(LIMITS, b.ledger, b.out)
    requires g < |groups| && a < |groups[g]| && i == Members(passed, groups, g)[a] && InRange(Members(passed, groups, g), |txs|)
    requires costs == Costs(txs) && t == Admission(LIMITS, h[g].books, costs, Members(passed, groups, g), a)
    ensures OutstandingAt(costs, b, h[g], t) && (i in h[|groups|].order <==> Within(t.books, costs[i]))
    ensures i !in h[|groups|].order ==> results[i] == Some(WouldExceedMaxBlockCostLimit)
  {
    TurnIff(costs, run, txs, verify, passed, groups, b, h, g, a, i, t);
    MembersVerified(txs, verify, passed, groups, g);
  }

  // ----- the costs of some transactions are at most those of all

  ghost function Sum(w: seq<nat>): nat {
    if w == [] then 0 else Sum(w[..|w| - 1]) + w[|w| - 1]
  }

  ghost function SumAt(w: seq<nat>, order: Indices): nat
    requires InRange(order, |w|)
  {
    if order == [] then 0 else SumAt(w, order[..|order| - 1]) + w[order[|order| - 1]]
  }

  lemma {:induction false} SumAtSnoc(w: seq<nat>, order: Indices, i: nat)
    requires InRange(order, |w|) && i < |w|
    ensures InRange(order + [i], |w|) && SumAt(w, order + [i]) == SumAt(w, order) + w[i]
  {
    assert (order + [i])[..|order|] == order;
  }

  lemma {:induction false} SumAtConcat(w: seq<nat>, a: Indices, b: Indices)
    requires InRange(a, |w|) && InRange(b, |w|)
    ensures InRange(a + b, |w|) && SumAt(w, a + b) == SumAt(w, a) + SumAt(w, b)
  {
    if b == [] {
      assert a + b == a;
    } else {
      var n := |b| - 1;
      SumAtConcat(w, a, b[..n]);
      SumAtSnoc(w, a + b[..n], b[n]);
      assert a + b == (a + b[..n]) + [b[n]];
    }
  }

  lemma {:induction false} SumAtShorter(w: seq<nat>, order: Indices)
    requires w != [] && InRange(order, |w| - 1)
    ensures SumAt(w, order) == SumAt(w[..|w| - 1], order)
  {
    if order != [] {
      SumAtShorter(w, order[..|order| - 1]);
    }
  }

  lemma {:induction false} SumAtRemove(w: seq<nat>, order: Indices, p: nat)
    requires InRange(order, |w|) && p < |order|
    ensures InRange(order[..p] + order[p + 1..], |w|)
    ensures SumAt(w, order) == SumAt(w, order[..p] + order[p + 1..]) + w[order[p]]
  {
    assert order == order[..p] + [order[p]] + order[p + 1..];
    SumAtConcat(w, order[..p] + [order[p]], order[p + 1..]);
    SumAtConcat(w, order[..p], [order[p]]);
    SumAtConcat(w, order[..p], order[p + 1..]);
    SumAtSnoc(w, [], order[p]);
    assert [] + [order[p]] == [order[p]];
  }

  lemma {:induction false} SumAtMost(w: seq<nat>, order: Indices)
    requires InRange(order, |w|) && Distinct(order)
    ensures SumAt(w, order) <= Sum(w)
  {
    if w == [] {
      assert order == [];
    } else {
      var n := |w| - 1;
      if p :| 0 <= p < |order| && order[p] == n {
        var rest := order[..p] + order[p + 1..];
        SumAtRemove(w, order, p);
        assert InRange(rest, n);
        SumAtShorter(w, rest);
        SumAtMost(w[..n], rest);
      } else {
        SumAtShorter(w, order);
        SumAtMost(w[..n], order);
      }
    }
  }

  // ----- a batch that fits

  /** The prices of the transactions whose signatures verify, added up. */
  ghost function BlockPrice(txs: seq<Transaction>, verify: Verify): nat {
    if txs == [] then 0 else
      var n := |txs| - 1;
      BlockPrice(txs[..n], verify) + if verify(txs[n]).Ok? then Price(txs[n]) else 0
  }

  /** Those of the transactions among them that mark the key writable. */
  ghost function KeyPrice(txs: seq<Transaction>, verify: Verify, k: Pubkey): nat {
    if txs == [] then 0 else
      var n := |txs| - 1;
      KeyPrice(txs[..n], verify, k)
      + if verify(txs[n]).Ok? && k in WrittenBy(txs[n].message.instructions) then Price(txs[n]) else 0
  }

  ghost predicate Affordable(txs: seq<Transaction>, verify: Verify) {
    BlockPrice(txs, verify) <= 60_000_000 && forall k :: KeyPrice(txs, verify, k) <= 24_000_000
  }

  /** What each transaction contributes to a sum of charges. */
  ghost function Weights(txs: seq<Transaction>, verify: Verify, f: TransactionCost -> nat): (w: seq<nat>)
    ensures |w| == |txs|
  {
    seq(|txs|, i requires 0 <= i < |txs| => if verify(txs[i]).Ok? then f(CostOf(txs[i])) else 0)
  }

  lemma {:induction false} BlockWeights(txs: seq<Transaction>, verify: Verify)
    ensures Sum(Weights(txs, verify, CostFn())) == BlockPrice(txs, verify)
  {
    if txs != [] {
      var n := |txs| - 1;
      BlockWeights(txs[..n], verify);
      assert Weights(txs, verify, CostFn())[..n] == Weights(txs[..n], verify, CostFn());
      CostIsPrice(txs[n]);
    }
  }

  lemma {:induction false} KeyWeights(txs: seq<Transaction>, verify: Verify, k: Pubkey)
    ensures Sum(Weights(txs, verify, CostOnFn(k))) == KeyPrice(txs, verify, k)
  {
    if txs != [] {
      var n := |txs| - 1;
      KeyWeights(txs[..n], verify, k);
      assert Weights(txs, verify, CostOnFn(k))[..n] == Weights(txs[..n], verify, CostOnFn(k));
      CostIsPrice(txs[n]);
    }
  }

  ghost predicate AllVerified(txs: seq<Transaction>, verify: Verify, order: Indices) {
    InRange(order, |txs|) && forall p :: 0 <= p < |order| ==> verify(txs[order[p]]).Ok?
  }

  lemma {:induction false} CommittedBounded(txs: seq<Transaction>, verify: Verify, f: TransactionCost -> nat, order: Indices, outs: Results, p: nat)
    requires AllVerified(txs, verify, order) && |outs| == |order| && p <= |order|
    ensures BagSum(Committed(Costs(txs), order, outs, p), f) <= SumAt(Weights(txs, verify, f), order[..p])
  {
    if p > 0 {
      CommittedBounded(txs, verify, f, order, outs, p - 1);
      assert order[..p] == order[..p - 1] + [order[p - 1]];
      SumAtSnoc(Weights(txs, verify, f), order[..p - 1], order[p - 1]);
      CommittedSum(Costs(txs), f, order, outs, p);
    }
  }

  lemma {:induction false} CommittedSum(costs: seq<TransactionCost>, f: TransactionCost -> nat, order: Indices, outs: Results, p: nat)
    requires InRange(order, |costs|) && |outs| == |order| && 0 < p <= |order|
    ensures BagSum(Committed(costs, order, outs, p), f) <= BagSum(Committed(costs, order, outs, p - 1), f) + f(costs[order[p - 1]])
  {
    var last := if outs[p - 1].None? then multiset{costs[order[p - 1]]} else multiset{};
    CommittedStep(costs, order, outs, p, last);
    OneMoreOrNot(Committed(costs, order, outs, p - 1), last, f, costs[order[p - 1]]);
  }

  lemma {:induction false} OneMoreOrNot(before: Charges, last: Charges, f: TransactionCost -> nat, c: TransactionCost)
    requires last == multiset{c} || last == multiset{}
    ensures BagSum(before + last, f) <= BagSum(before, f) + f(c)
  {
    BagSumAdd(before, f, c);
    assert last == multiset{} ==> before + last == before;
  }

  lemma {:induction false} RemainingSum(txs: seq<Transaction>, verify: Verify, f: TransactionCost -> nat, order: Indices)
    requires AllVerified(txs, verify, order)
    ensures BagSum(Remaining(Costs(txs), order, 0), f) == SumAt(Weights(txs, verify, f), order)
  {
    if order != [] {
      var n := |order| - 1;
      RemainingSum(txs, verify, f, order[..n]);
      assert order == order[..n] + [order[n]];
      RemainingSnoc(Costs(txs), order[..n], order[n], 0);
      BagSumAdd(Remaining(Costs(txs), order[..n], 0), f, Costs(txs)[order[n]]);
    }
  }

  /** What is outstanding at a turn is at most the sum over the transactions that had theirs. */
  lemma {:induction false} OutstandingBounded(txs: seq<Transaction>, verify: Verify, f: TransactionCost -> nat, b: Books, c: Course, t: Tally)
    requires OutstandingAt(Costs(txs), b, c, t) && b.out == multiset{}
    requires AllVerified(txs, verify, c.order) && AllVerified(txs, verify, t.admitted)
    ensures InRange(c.order + t.admitted, |txs|)
    ensures BagSum(t.books.out, f) <= SumAt(Weights(txs, verify, f), c.order + t.admitted)
  {
    var committed, rest := Committed(Costs(txs), c.order, c.outcomes, |c.order|), Remaining(Costs(txs), t.admitted, 0);
    CommittedBounded(txs, verify, f, c.order, c.outcomes, |c.order|);
    assert c.order[..|c.order|] == c.order;
    RemainingSum(txs, verify, f, t.admitted);
    SumAtConcat(Weights(txs, verify, f), c.order, t.admitted);
    assert BagSum(t.books.out, f) == BagSum(committed, f) + BagSum(rest, f) by {
      BagSumUnion(committed, rest, f);
      FromNothing(committed, rest);
    }
  }

  lemma FromNothing<T>(a: multiset<T>, b: multiset<T>)
    ensures multiset{} + a + b == a + b
  {
  }

  /** With its own weight, it is still at most the sum over all verified transactions. */
  lemma {:induction false} TurnBounded(txs: seq<Transaction>, verify: Verify, f: TransactionCost -> nat, b: Books, c: Course, t: Tally, i: nat)
    requires OutstandingAt(Costs(txs), b, c, t) && b.out == multiset{} && i < |txs| && verify(txs[i]).Ok?
    requires AllVerified(txs, verify, c.order) && AllVerified(txs, verify, t.admitted) && Distinct(c.order + t.admitted + [i])
    ensures BagSum(t.books.out, f) + f(CostOf(txs[i])) <= Sum(Weights(txs, verify, f))
  {
    OutstandingBounded(txs, verify, f, b, c, t);
    SumAtSnoc(Weights(txs, verify, f), c.order + t.admitted, i);
    SumAtMost(Weights(txs, verify, f), c.order + t.admitted + [i]);
  }

  lemma {:induction false} AffordableIsWithin(txs: seq<Transaction>, verify: Verify, b: Books, c: Course, t: Tally, i: nat)
    requires OutstandingAt(Costs(txs), b, c, t) && b.out == multiset{} && i < |txs| && verify(txs[i]).Ok? && Affordable(txs, verify)
    requires AllVerified(txs, verify, c.order) && AllVerified(txs, verify, t.admitted) && Distinct(c.order + t.admitted + [i])
    ensures Within(t.books, Costs(txs)[i])
  {
    TurnBounded(txs, verify, CostFn(), b, c, t, i);
    BlockWeights(txs, verify);
    forall k | k in CostOf(txs[i]).writable ensures TotalOn(t.books.out, k) + CostOf(txs[i]).Sum() <= 24_000_000 {
      TurnBounded(txs, verify, CostOnFn(k), b, c, t, i);
      KeyWeights(txs, verify, k);
    }
  }

  /** Whoever had a turn before member a of group g is verified, and is not that member. */
  lemma {:induction false} HadTurn(txs: seq<Transaction>, verify: Verify, passed: Indices, groups: seq<seq<nat>>, costs: seq<TransactionCost>,
                                   run: Runner, h: seq<Course>, g: nat, a: nat, t: Tally)
    requires Scheduled(txs, verify, passed, groups) && History(LIMITS, costs, run, txs, Originals(passed, groups), h) && h[0].order == []
    requires g < |h| && g < |groups| && a < |groups[g]| && InRange(Members(passed, groups, g), |txs|)
    requires t == Admission(LIMITS, h[g].books, costs, Members(passed, groups, g), a)
    ensures AllVerified(txs, verify, h[g].order) && AllVerified(txs, verify, t.admitted)
    ensures Distinct(h[g].order + t.admitted + [Members(passed, groups, g)[a]])
  {
    var group := Members(passed, groups, g);
    CourseOnce(LIMITS, costs, run, txs, verify, passed, groups, h, g);
    AdmittedFrom(LIMITS, h[g].books, costs, group, a);
    NextUnreached(txs, verify, passed, groups, g);
    AdmittedOnce(LIMITS, h[g].books, costs, group, a);
    AppendOnce(t.admitted, group, a);
    FlattenedVerified(txs, verify, passed, groups, g, h[g].order);
    FreshTurn(h[g].order, t.admitted, group, a, Flattened(passed, groups, g));
  }

  lemma {:induction false} FlattenedVerified(txs: seq<Transaction>, verify: Verify, passed: Indices, groups: seq<seq<nat>>, g: nat, order: Indices)
    requires Scheduled(txs, verify, passed, groups) && g <= |groups| && forall i :: i in order ==> i in Flattened(passed, groups, g)
    ensures AllVerified(txs, verify, order)
  {
    forall p | 0 <= p < |order| ensures order[p] < |txs| && verify(txs[order[p]]).Ok? {
      assert order[p] in order;
      var m, x := FlattenedSource(passed, groups, g, order[p]);
      assert passed[x] in passed;
    }
  }

  lemma {:induction false} FreshTurn(done: Indices, admitted: Indices, group: Indices, a: nat, seen: Indices)
    requires Distinct(done) && a < |group| && Distinct(admitted + [group[a]])
    requires (forall i :: i in done ==> i in seen) && (forall i :: i in group ==> i !in seen) && forall i :: i in admitted ==> i in group
    ensures Distinct(done + admitted + [group[a]])
  {
    DistinctConcat(done, admitted + [group[a]]);
    assert done + (admitted + [group[a]]) == done + admitted + [group[a]];
  }

  // ----- what is reported for the executed

  ghost predicate Final(outs: Results) {
    forall p :: 0 <= p < |outs| && outs[p].Some? ==> !outs[p].value.IsRetryable()
  }

  lemma {:induction false} HistoryFinal(lim: Limits, costs: seq<TransactionCost>, run: Runner, txs: seq<Transaction>,
                                        lists: seq<Indices>, h: seq<Course>, g: nat)
    requires History(lim, costs, run, txs, lists, h) && g < |h| && h[0].outcomes == [] && Banks.NeverRetryable(run)
    ensures Final(h[g].outcomes)
  {
    var p := 0;
    while p < g
      invariant p <= g && Final(h[p].outcomes)
    {
      var chosen := Scheduler.Select(txs, Admission(lim, h[p].books, costs, lists[p], |lists[p]|).admitted);
      ResultsFinal(run, h[p].store, chosen);
      assert h[p + 1].outcomes == h[p].outcomes + Outcomes(ParallelResults(run, h[p].store, chosen));
      p := p + 1;
    }
  }

  lemma ResultsFinal(run: Runner, v: Store, txs: seq<Transaction>)
    requires Banks.NeverRetryable(run)
    ensures Final(Outcomes(ParallelResults(run, v, txs)))
  {
  }

  lemma {:induction false} ExecutedReport(txs: seq<Transaction>, verify: Verify, c: Course, results: Results, i: nat)
    requires Reported(txs, verify, c, results) && Final(c.outcomes) && i in c.order
    ensures i < |results| && results[i] != Some(WouldExceedMaxBlockCostLimit)
  {
    var p :| 0 <= p < |c.order| && c.order[p] == i;
  }

  lemma {:induction false} AffordableMember(b: Books, run: Runner, v: Store, v': Store, txs: seq<Transaction>, verify: Verify, passed: Indices,
                                            groups: seq<seq<nat>>, sent: nat -> bool, h: seq<Course>, results: Results, i: nat)
    requires Completed(LIMITS, b, run, v, v', txs, verify, passed, groups, sent, h, results) && Balanced(LIMITS, b.ledger, b.out)
    requires b.out == multiset{} && Affordable(txs, verify) && i < |txs| && verify(txs[i]).Ok?
    ensures i in h[|groups|].order
  {
    AllScheduled(txs, verify, passed, groups, i);
    var g, x := FlattenedSource(passed, groups, |groups|, i);
    var a :| 0 <= a < |groups[g]| && groups[g][a] == x;
    MembersVerified(txs, verify, passed, groups, g);
    var t := Admission(LIMITS, h[g].books, Costs(txs), Members(passed, groups, g), a);
    ExecutedIff(b, run, v, v', txs, verify, passed, groups, sent, h, results, Costs(txs), g, a, i, t);
    HadTurn(txs, verify, passed, groups, Costs(txs), run, h, g, a, t);
    AffordableIsWithin(txs, verify, b, h[g], t, i);
  }

  /**
   Nothing outstanding, prices of at most 60_000_000 in all and 24_000_000 on any one account: every transaction whose
   signatures verify is executed, and none is reported as over the limit.
   */
  lemma {:induction false} AffordableBatch(view: BlockhashQueue.BankView, exec: Banks.Executor, b: Books, v: Store, v': Store,
                                           txs: seq<Transaction>, verify: Verify, passed: Indices, groups: seq<seq<nat>>,
                                           sent: nat -> bool, h: seq<Course>, results: Results)
    requires Completed(LIMITS, b, Banks.RunnerFor(view, exec, Budget()), v, v', txs, verify, passed, groups, sent, h, results)
    requires b.out == multiset{} && Balanced(LIMITS, b.ledger, b.out) && Affordable(txs, verify)
    ensures forall i :: 0 <= i < |txs| && verify(txs[i]).Ok? ==>
      i in h[|groups|].order && results[i] != Some(WouldExceedMaxBlockCostLimit)
  {
    var run := Banks.RunnerFor(view, exec, Budget());
    Banks.BankErrorsAreFinal(view, exec, Budget());
    HistoryFinal(LIMITS, Costs(txs), run, txs, Originals(passed, groups), h, |groups|);
    forall i | 0 <= i < |txs| && verify(txs[i]).Ok?
      ensures i in h[|groups|].order && results[i] != Some(WouldExceedMaxBlockCostLimit)
    {
      AffordableMember(b, run, v, v', txs, verify, passed, groups, sent, h, results, i);
      ExecutedReport(txs, verify, h[|groups|], results, i);
    }
  }

  /** The other direction: past 60_000_000 in the block, or past 24_000_000 on an already charged account it writes, it is rejected. */
  lemma {:induction false} OverLimitRejected(b: Books, run: Runner, v: Store, v': Store, txs: seq<Transaction>, verify: Verify, passed: Indices,
                                             groups: seq<seq<nat>>, sent: nat -> bool, h: seq<Course>, results: Results, g: nat, a: nat, t: Tally)
    requires Completed(LIMITS, b, run, v, v', txs, verify, passed, groups, sent, h, results) && Balanced(LIMITS, b.ledger, b.out)
    requires g < |groups| && a < |groups[g]| && InRange(Members(passed, groups, g), |txs|)
    requires t == Admission(LIMITS, h[g].books, Costs(txs), Members(passed, groups, g), a)
    requires var tx := txs[Members(passed, groups, g)[a]];
             || Total(t.books.out) + Price(tx) > 60_000_000
             || exists k :: k in WrittenBy(tx.message.instructions) && k in t.books.ledger.byAccount && TotalOn(t.books.out, k) + Price(tx) > 24_000_000
    ensures var i := Members(passed, groups, g)[a];
            i < |results| && i !in h[|groups|].order && results[i] == Some(WouldExceedMaxBlockCostLimit)
  {
    var i := Members(passed, groups, g)[a];
    ExecutedIff(b, run, v, v', txs, verify, passed, groups, sent, h, results, Costs(txs), g, a, i, t);
    CostIsPrice(txs[i]);
  }

  /** The compute budget handed to execution is the transaction's price. */
  lemma {:induction false} BudgetIsPrice(tx: Transaction)
    ensures Budget()(tx) == Price(tx)
  {
    CostIsPrice(tx);
  }
}
