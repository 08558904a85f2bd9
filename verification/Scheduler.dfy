/** `TransactionScheduler`: greedy first-fit grouping that tracks only each group's write set. */
module Scheduler {
  import opened Types

  datatype TransactionSets = TransactionSets(readSet: set<Pubkey>, writeSet: set<Pubkey>)

  function SetsOf(tx: Transaction): TransactionSets {
    TransactionSets(ReadKeys(tx), WriteKeys(tx))
  }

  method ExtractSets(tx: Transaction) returns (sets: TransactionSets)
    ensures sets == SetsOf(tx)
  {
    var readSet, writeSet := CollectKeys(tx.message.instructions);
    sets := TransactionSets(readSet, writeSet);
  }

  // ----- what a schedule is

  /** `later` reads or writes a key `earlier` writes. */
  predicate Conflict(earlier: Transaction, later: Transaction) {
    !(WriteKeys(earlier) !! ReadKeys(later) + WriteKeys(later))
  }

  ghost predicate Increasing(s: seq<nat>, bound: nat) {
    && (forall a :: 0 <= a < |s| ==> s[a] < bound)
    && forall a, b :: 0 <= a < b < |s| ==> s[a] < s[b]
  }

  ghost predicate ConflictFree(txs: seq<Transaction>, group: seq<nat>)
    requires Increasing(group, |txs|)
  {
    forall a, b :: 0 <= a < b < |group| ==> !Conflict(txs[group[a]], txs[group[b]])
  }

  /** Transaction i was kept out of the group by a lower-numbered member of it. */
  ghost predicate Blocked(txs: seq<Transaction>, group: seq<nat>, i: nat)
    requires Increasing(group, |txs|) && i < |txs|
  {
    exists j :: j in group && j < i && Conflict(txs[j], txs[i])
  }

  ghost predicate WellGrouped(txs: seq<Transaction>, groups: seq<seq<nat>>) {
    forall g :: 0 <= g < |groups| ==>
      groups[g] != [] && Increasing(groups[g], |txs|) && ConflictFree(txs, groups[g])
  }

  ghost predicate InSome(groups: seq<seq<nat>>, i: nat) {
    exists g :: 0 <= g < |groups| && i in groups[g]
  }

  ghost predicate Exclusive(groups: seq<seq<nat>>) {
    forall g, h, i :: 0 <= g < h < |groups| && i in groups[g] ==> i !in groups[h]
  }

  ghost predicate FirstFit(txs: seq<Transaction>, groups: seq<seq<nat>>)
    requires WellGrouped(txs, groups)
  {
    forall g, h, i :: 0 <= g < h < |groups| && i in groups[h] ==> Blocked(txs, groups[g], i)
  }

  ghost predicate IsSchedule(txs: seq<Transaction>, groups: seq<seq<nat>>) {
    && WellGrouped(txs, groups)
    && (forall i :: 0 <= i < |txs| ==> InSome(groups, i))
    && Exclusive(groups)
    && FirstFit(txs, groups)
  }

  // ----- the algorithm

  function GroupWrites(txs: seq<Transaction>, group: seq<nat>): set<Pubkey>
    requires forall a :: 0 <= a < |group| ==> group[a] < |txs|
  {
    set a, k | 0 <= a < |group| && k in WriteKeys(txs[group[a]]) :: k
  }

  lemma IncreasingSnoc(s: seq<nat>, i: nat, bound: nat)
    requires Increasing(s, bound) && i < bound && forall j :: j in s ==> j < i
    ensures Increasing(s + [i], bound)
  {
    forall a | 0 <= a < |s| ensures s[a] < i {
      assert s[a] in s;
    }
  }

  lemma JoinGroup(txs: seq<Transaction>, group: seq<nat>, i: nat)
    requires Increasing(group, |txs|) && ConflictFree(txs, group)
    requires i < |txs| && forall j :: j in group ==> j < i
    requires ReadKeys(txs[i]) + WriteKeys(txs[i]) !! GroupWrites(txs, group)
    ensures Increasing(group + [i], |txs|) && ConflictFree(txs, group + [i])
    ensures GroupWrites(txs, group + [i]) == GroupWrites(txs, group) + WriteKeys(txs[i])
    ensures forall m :: 0 <= m < |txs| && Blocked(txs, group, m) ==> Blocked(txs, group + [i], m)
  {
    var joined := group + [i];
    IncreasingSnoc(group, i, |txs|);
    forall a, b | 0 <= a < b < |joined| ensures !Conflict(txs[joined[a]], txs[joined[b]]) {
      if b == |group| {
        assert WriteKeys(txs[group[a]]) <= GroupWrites(txs, group);
      }
    }
    forall k | k in GroupWrites(txs, group) + WriteKeys(txs[i]) ensures k in GroupWrites(txs, joined) {
      if k in WriteKeys(txs[i]) {
        assert joined[|group|] == i;
      } else {
        var a :| 0 <= a < |group| && k in WriteKeys(txs[group[a]]);
        assert joined[a] == group[a];
      }
    }
  }

  /** The indices seen so far, split into the group and those kept for later. */
  ghost predicate SplitInto(txs: seq<Transaction>, seen: seq<nat>, group: seq<nat>, kept: seq<nat>) {
    && Increasing(group, |txs|) && Increasing(kept, |txs|) && ConflictFree(txs, group)
    && |group| + |kept| == |seen| && (seen != [] ==> group != [])
    && (forall i :: i in seen <==> i in group || i in kept)
    && (forall i :: i in group ==> i !in kept)
    && (forall i :: i in kept ==> Blocked(txs, group, i))
  }

  lemma {:induction false} TakeIn(txs: seq<Transaction>, seen: seq<nat>, group: seq<nat>, kept: seq<nat>, i: nat)
    requires i < |txs| && SplitInto(txs, seen, group, kept) && Increasing(seen + [i], |txs|)
    requires SetsOf(txs[i]).readSet !! GroupWrites(txs, group) && SetsOf(txs[i]).writeSet !! GroupWrites(txs, group)
    ensures Increasing(group + [i], |txs|) && GroupWrites(txs, group + [i]) == GroupWrites(txs, group) + WriteKeys(txs[i])
    ensures SplitInto(txs, seen + [i], group + [i], kept)
  {
    SeenBefore(seen, i, |txs|);
    JoinGroup(txs, group, i);
    forall k | k in kept ensures Blocked(txs, group + [i], k) {
      assert Blocked(txs, group, k);
    }
  }

  lemma {:induction false} LeaveOut(txs: seq<Transaction>, seen: seq<nat>, group: seq<nat>, kept: seq<nat>, i: nat)
    requires i < |txs| && SplitInto(txs, seen, group, kept) && Increasing(seen + [i], |txs|)
    requires !(SetsOf(txs[i]).readSet !! GroupWrites(txs, group) && SetsOf(txs[i]).writeSet !! GroupWrites(txs, group))
    ensures SplitInto(txs, seen + [i], group, kept + [i])
  {
    SeenBefore(seen, i, |txs|);
    var k :| k in GroupWrites(txs, group) && k in SetsOf(txs[i]).readSet + SetsOf(txs[i]).writeSet;
    var a :| 0 <= a < |group| && k in WriteKeys(txs[group[a]]);
    assert group[a] in group && group[a] in seen;
    IncreasingSnoc(kept, i, |txs|);
  }

  lemma SeenBefore(seen: seq<nat>, i: nat, bound: nat)
    requires Increasing(seen + [i], bound)
    ensures i < bound && forall j :: j in seen ==> j < i
  {
    assert (seen + [i])[|seen|] == i;
    assert forall a :: 0 <= a < |seen| ==> (seen + [i])[a] == seen[a];
  }

  /** One `retain` pass over the remaining indices. */
  method TakeGroup(txs: seq<Transaction>, sets: seq<TransactionSets>, remaining: seq<nat>)
    returns (group: seq<nat>, kept: seq<nat>)
    requires |sets| == |txs| && forall i :: 0 <= i < |txs| ==> sets[i] == SetsOf(txs[i])
    requires Increasing(remaining, |txs|) && remaining != []
    ensures SplitInto(txs, remaining, group, kept)
  {
    group, kept := [], [];
    var writeSet: set<Pubkey> := {};
    for p := 0 to |remaining|
      invariant SplitInto(txs, remaining[..p], group, kept)
      invariant writeSet == GroupWrites(txs, group)
    {
      var i := remaining[p];
      assert remaining[..p + 1] == remaining[..p] + [i];
      if sets[i].readSet !! writeSet && sets[i].writeSet !! writeSet {
        TakeIn(txs, remaining[..p], group, kept, i);
        group := group + [i];
        writeSet := writeSet + sets[i].writeSet;
      } else {
        LeaveOut(txs, remaining[..p], group, kept, i);
        kept := kept + [i];
      }
    }
    assert remaining[..|remaining|] == remaining;
  }

  function Select<T>(s: seq<T>, group: seq<nat>): seq<T>
    requires forall a :: 0 <= a < |group| ==> group[a] < |s|
  {
    seq(|group|, a requires 0 <= a < |group| => s[group[a]])
  }

  /** The groups, as position lists; the caller pairs each position with its original index. */
  method Schedule(txs: seq<Transaction>) returns (groups: seq<seq<nat>>)
    ensures IsSchedule(txs, groups)
  {
    var sets := [];
    for i := 0 to |txs|
      invariant |sets| == i && forall j :: 0 <= j < i ==> sets[j] == SetsOf(txs[j])
    {
      var s := ExtractSets(txs[i]);
      sets := sets + [s];
    }
    var remaining: seq<nat> := seq(|txs|, i requires 0 <= i < |txs| => i);
    forall i | 0 <= i < |txs| ensures i in remaining {
      assert remaining[i] == i;
    }
    groups := [];
    while remaining != []
      invariant GroupedSoFar(txs, groups, remaining)
      decreases |remaining|
    {
      var group, kept := TakeGroup(txs, sets, remaining);
      NextGroup(txs, groups, remaining, group, kept);
      groups := groups + [group];
      remaining := kept;
    }
  }

  /** The groups made so far, and the indices still to be grouped, each blocked by every group. */
  ghost predicate GroupedSoFar(txs: seq<Transaction>, groups: seq<seq<nat>>, remaining: seq<nat>) {
    && Increasing(remaining, |txs|) && WellGrouped(txs, groups)
    && (forall i :: 0 <= i < |txs| ==> i in remaining || InSome(groups, i))
    && (forall g, i :: 0 <= g < |groups| && i in groups[g] ==> i !in remaining)
    && Exclusive(groups) && FirstFit(txs, groups)
    && (forall g, i :: 0 <= g < |groups| && i in remaining ==> Blocked(txs, groups[g], i))
  }

  lemma {:induction false} NextGroup(txs: seq<Transaction>, groups: seq<seq<nat>>, remaining: seq<nat>, group: seq<nat>, kept: seq<nat>)
    requires GroupedSoFar(txs, groups, remaining) && remaining != [] && SplitInto(txs, remaining, group, kept)
    ensures GroupedSoFar(txs, groups + [group], kept) && |kept| < |remaining|
  {
    var after := groups + [group];
    forall i | 0 <= i < |txs| ensures i in kept || InSome(after, i) {
      if InSome(groups, i) {
        var g :| 0 <= g < |groups| && i in groups[g];
        assert i in after[g];
      } else if i in group {
        assert i in after[|groups|];
      }
    }
  }

  // ----- the specification has exactly one solution

  lemma Ordered(group: seq<nat>, bound: nat, i: nat, j: nat) returns (a: nat, b: nat)
    requires Increasing(group, bound) && i in group && j in group && i < j
    ensures a < b < |group| && group[a] == i && group[b] == j
  {
    a :| 0 <= a < |group| && group[a] == i;
    b :| 0 <= b < |group| && group[b] == j;
  }

  lemma {:induction false} SameGroup(txs: seq<Transaction>, p: seq<seq<nat>>, q: seq<seq<nat>>, i: nat, g: nat, h: nat)
    requires IsSchedule(txs, p) && IsSchedule(txs, q)
    requires g < |p| && h < |q| && i in p[g] && i in q[h]
    ensures g == h
    decreases i, if g < h then 0 else 1
  {
    if g < h {
      assert Blocked(txs, q[g], i);
      var j :| j in q[g] && j < i && Conflict(txs[j], txs[i]);
      assert InSome(p, j);
      var g' :| 0 <= g' < |p| && j in p[g'];
      SameGroup(txs, p, q, j, g', g);
      var a, b := Ordered(p[g], |txs|, j, i);
      assert false;
    } else if h < g {
      SameGroup(txs, q, p, i, h, g);
    }
  }

  lemma {:induction false} IncreasingUnique(s: seq<nat>, t: seq<nat>, bound: nat)
    requires Increasing(s, bound) && Increasing(t, bound)
    requires forall i :: i in s <==> i in t
    ensures s == t
  {
    assert s != [] ==> s[0] in s;
    assert t != [] ==> t[0] in t;
    if s != [] {
      var s', t' := s[1..], t[1..];
      assert s == [s[0]] + s' && t == [t[0]] + t';
      forall i ensures i in s' <==> i in t' {
        if i in s' { assert i in s && i > s[0]; }
        if i in t' { assert i in t && i > t[0]; }
      }
      IncreasingUnique(s', t', bound);
    }
  }

  lemma SameMembers(txs: seq<Transaction>, p: seq<seq<nat>>, q: seq<seq<nat>>, g: nat)
    requires IsSchedule(txs, p) && IsSchedule(txs, q) && g < |p|
    ensures g < |q| && forall i :: i in p[g] ==> i in q[g]
  {
    forall i | i in p[g] ensures g < |q| && i in q[g] {
      assert i < |txs|;
      assert InSome(q, i);
      var h :| 0 <= h < |q| && i in q[h];
      SameGroup(txs, p, q, i, g, h);
    }
    assert p[g][0] in p[g];
  }

  lemma NotLonger(txs: seq<Transaction>, p: seq<seq<nat>>, q: seq<seq<nat>>)
    requires IsSchedule(txs, p) && IsSchedule(txs, q)
    ensures |p| <= |q|
  {
    if p != [] {
      SameMembers(txs, p, q, |p| - 1);
    }
  }

  /** First-fit is fully determined by the four clauses of IsSchedule. */
  lemma ScheduleUnique(txs: seq<Transaction>, p: seq<seq<nat>>, q: seq<seq<nat>>)
    requires IsSchedule(txs, p) && IsSchedule(txs, q)
    ensures p == q
  {
    NotLonger(txs, p, q);
    NotLonger(txs, q, p);
    forall g | 0 <= g < |p| ensures p[g] == q[g] {
      SameMembers(txs, p, q, g);
      SameMembers(txs, q, p, g);
      IncreasingUnique(p[g], q[g], |txs|);
    }
  }
}
