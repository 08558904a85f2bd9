/** In which order a batch executes, and when exactly it is interrupted. */
module BatchOrder {
  import opened Types
  import opened Serial
  import opened CostModel
  import opened BatchCourse
  import Scheduler

  /** The order is part of the list, taken at increasing positions. */
  ghost predicate InOrderOf(order: Indices, list: Indices) {
    exists at: Indices :: Scheduler.Increasing(at, |list|) && order == Scheduler.Select(list, at)
  }

  lemma {:induction false} InOrderSkip(order: Indices, list: Indices, i: nat)
    requires InOrderOf(order, list)
    ensures InOrderOf(order, list + [i])
  {
    var at: Indices :| Scheduler.Increasing(at, |list|) && order == Scheduler.Select(list, at);
    assert order == Scheduler.Select(list + [i], at);
  }

  lemma {:induction false} InOrderJoin(order: Indices, list: Indices, order': Indices, list': Indices)
    requires InOrderOf(order, list) && InOrderOf(order', list')
    ensures InOrderOf(order + order', list + list')
  {
    var at: Indices :| Scheduler.Increasing(at, |list|) && order == Scheduler.Select(list, at);
    var at': Indices :| Scheduler.Increasing(at', |list'|) && order' == Scheduler.Select(list', at');
    var shifted: Indices := seq(|at'|, p requires 0 <= p < |at'| => |list| + at'[p]);
    assert Scheduler.Increasing(at + shifted, |list + list'|);
    assert order + order' == Scheduler.Select(list + list', at + shifted);
  }

  lemma {:induction false} InOrderOne(i: nat)
    ensures InOrderOf([i], [i])
  {
    var at: Indices := [0];
    assert Scheduler.Increasing(at, 1) && [i] == Scheduler.Select([i], at);
  }

  lemma {:induction false} AdmittedInOrder(lim: Limits, b: Books, costs: seq<TransactionCost>, group: Indices, a: nat)
    requires InRange(group, |costs|) && a <= |group|
    ensures InOrderOf(Admission(lim, b, costs, group, a).admitted, group[..a])
  {
    if a == 0 {
      assert Scheduler.Increasing([], 0) && [] == Scheduler.Select(group[..0], []);
    } else {
      AdmittedInOrder(lim, b, costs, group, a - 1);
      var before := Admission(lim, b, costs, group, a - 1).admitted;
      assert group[..a] == group[..a - 1] + [group[a - 1]];
      InOrderSkip(before, group[..a - 1], group[a - 1]);
      InOrderOne(group[a - 1]);
      InOrderJoin(before, group[..a - 1], [group[a - 1]], [group[a - 1]]);
    }
  }

  /** Every group's admitted members had a signature to record. */
  lemma {:induction false} RecordedSigned(txs: seq<Transaction>, admitted: Indices, sent: bool)
    requires InRange(admitted, |txs|)
    ensures RecordOf(Scheduler.Select(txs, admitted), sent) == Some(RecorderPanicked) <==> exists i :: i in admitted && txs[i].signatures == []
  {
    var chosen := Scheduler.Select(txs, admitted);
    if i :| i in admitted && txs[i].signatures == [] {
      var p :| 0 <= p < |admitted| && admitted[p] == i;
      assert chosen[p].signatures == [];
    }
    if p :| 0 <= p < |chosen| && chosen[p].signatures == [] {
      assert admitted[p] in admitted;
    }
  }

  /** Why a record stops the batch. */
  lemma {:induction false} StopReason(txs: seq<Transaction>, admitted: Indices, sent: bool, stop: Stop)
    requires InRange(admitted, |txs|) && RecordOf(Scheduler.Select(txs, admitted), sent) == Some(stop)
    ensures stop == RecorderPanicked <==> exists i :: i in admitted && txs[i].signatures == []
    ensures stop == RecordRefused <==> admitted != [] && !sent && forall i :: i in admitted ==> txs[i].signatures != []
  {
    RecordedSigned(txs, admitted, sent);
  }

  lemma {:induction false} HistoryInOrder(lim: Limits, costs: seq<TransactionCost>, run: Runner, txs: seq<Transaction>, passed: Indices,
                                          groups: seq<seq<nat>>, sent: nat -> bool, h: seq<Course>, g: nat)
    requires InBounds(passed, groups) && Reached(lim, costs, run, txs, Originals(passed, groups), sent, h)
    requires g < |h| && h[0].order == []
    ensures InOrderOf(h[g].order, Flattened(passed, groups, g)) && forall i :: i in h[g].order ==> txs[i].signatures != []
  {
    if g == 0 {
      assert Scheduler.Increasing([], 0) && h[0].order == Scheduler.Select(Flattened(passed, groups, 0), []);
    } else {
      HistoryInOrder(lim, costs, run, txs, passed, groups, sent, h, g - 1);
      var group := Members(passed, groups, g - 1);
      assert Originals(passed, groups)[g - 1] == group;
      var admitted := Admitted(lim, costs, h[g - 1], group);
      AdmittedInOrder(lim, h[g - 1].books, costs, group, |group|);
      assert group[..|group|] == group;
      InOrderJoin(h[g - 1].order, Flattened(passed, groups, g - 1), admitted, group);
      RecordedSigned(txs, admitted, sent(g - 1));
      assert h[g].order == h[g - 1].order + admitted;
    }
  }

  /** Every group before the last state of the history had its record taken, or nobody to record. */
  ghost predicate RecordsTaken(lim: Limits, costs: seq<TransactionCost>, passed: Indices, groups: seq<seq<nat>>, sent: nat -> bool,
                               h: seq<Course>)
    requires InBounds(passed, groups) && |h| <= |groups| + 1
    requires forall g :: 0 <= g < |groups| ==> InRange(Members(passed, groups, g), |costs|)
  {
    forall g :: 0 <= g < |h| - 1 ==> sent(g) || Admitted(lim, costs, h[g], Members(passed, groups, g)) == []
  }

  lemma {:induction false} TakenSoFar(lim: Limits, costs: seq<TransactionCost>, run: Runner, txs: seq<Transaction>, verify: Verify,
                                      passed: Indices, groups: seq<seq<nat>>, sent: nat -> bool, h: seq<Course>)
    requires Scheduled(txs, verify, passed, groups) && Reached(lim, costs, run, txs, Originals(passed, groups), sent, h)
    ensures forall g :: 0 <= g < |groups| ==> InRange(Members(passed, groups, g), |costs|)
    ensures RecordsTaken(lim, costs, passed, groups, sent, h)
  {
    forall g | 0 <= g < |groups| ensures InRange(Members(passed, groups, g), |costs|) {
      assert Originals(passed, groups)[g] == Members(passed, groups, g);
    }
    forall g | 0 <= g < |h| - 1 ensures sent(g) || Admitted(lim, costs, h[g], Members(passed, groups, g)) == [] {
      var admitted := Admitted(lim, costs, h[g], Originals(passed, groups)[g]);
      assert RecordOf(Scheduler.Select(txs, admitted), sent(g)) == None;
    }
  }

  /** A completed batch executes in the order of its schedule, group by group, and only transactions with a signature to record. */
  lemma {:induction false} CompletedInOrder(lim: Limits, b: Books, run: Runner, v: Store, v': Store, txs: seq<Transaction>, verify: Verify,
                                            passed: Indices, groups: seq<seq<nat>>, sent: nat -> bool, h: seq<Course>, results: Results)
    requires Completed(lim, b, run, v, v', txs, verify, passed, groups, sent, h, results)
    ensures var order := h[|groups|].order;
            InOrderOf(order, Flattened(passed, groups, |groups|)) && forall i :: i in order ==> i < |txs| && txs[i].signatures != []
    ensures forall g :: 0 <= g < |groups| ==>
      InRange(Members(passed, groups, g), |txs|) && (sent(g) || Admitted(lim, Costs(txs), h[g], Members(passed, groups, g)) == [])
  {
    TakenSoFar(lim, Costs(txs), run, txs, verify, passed, groups, sent, h);
    HistoryInOrder(lim, Costs(txs), run, txs, passed, groups, sent, h, |groups|);
  }

  /**
   At the first group that stops, the recorder panics exactly if an admitted member has no signature, and else the record was
   refused: it had members to speak of, and was not sent.  The admitted members stay charged and nothing of them is committed.
   */
  lemma {:induction false} InterruptedExactly(lim: Limits, b: Books, b': Books, run: Runner, v: Store, v': Store, txs: seq<Transaction>,
                                              verify: Verify, passed: Indices, groups: seq<seq<nat>>, sent: nat -> bool, h: seq<Course>, stop: Stop)
    requires Interrupted(lim, b, b', run, v, v', txs, verify, passed, groups, sent, h, stop)
    ensures var g, c := |h| - 1, h[|h| - 1];
            var admitted := Admitted(lim, Costs(txs), c, Members(passed, groups, g));
            && (stop == RecorderPanicked <==> exists i :: i in admitted && txs[i].signatures == [])
            && (stop == RecordRefused <==> admitted != [] && !sent(g) && forall i :: i in admitted ==> txs[i].signatures != [])
            && v' == c.store && b'.out == c.books.out + Remaining(Costs(txs), admitted, 0)
            && InOrderOf(c.order, Flattened(passed, groups, g))
    ensures forall g :: 0 <= g < |groups| ==> InRange(Members(passed, groups, g), |txs|)
    ensures RecordsTaken(lim, Costs(txs), passed, groups, sent, h)
  {
    TakenSoFar(lim, Costs(txs), run, txs, verify, passed, groups, sent, h);
    var g, c := |h| - 1, h[|h| - 1];
    var group := Members(passed, groups, g);
    StopReason(txs, Admitted(lim, Costs(txs), c, group), sent(g), stop);
    AdmissionCharges(lim, c.books, Costs(txs), group, |group|);
    HistoryInOrder(lim, Costs(txs), run, txs, passed, groups, sent, h, g);
  }
}
