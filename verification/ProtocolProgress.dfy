/** Nothing deadlocks: from every reachable state the holders of guards can record and commit, and then all is serial. */
module ProtocolProgress {
  import opened Types
  import opened Serial
  import opened Protocol
  import opened ProtocolSafety
  import Collections
  import AccountLocks
  import Sequences

  // ----- how much a task still has to do

  function MemberWork(tx: Transaction, m: Member): nat {
    match m
    case Loading(loaded) => if |loaded| > |Keys(tx)| then 1 else |Keys(tx)| - |loaded| + 1
    case Finished(_) => 0
  }

  function MembersWork(group: seq<Transaction>, members: seq<Member>): nat
    requires |group| == |members|
  {
    if members == [] then 0 else
      var n := |members| - 1;
      MembersWork(group[..n], members[..n]) + MemberWork(group[n], members[n])
  }

  function FlushWork(overlays: seq<Store>): nat {
    if overlays == [] then 0 else |overlays[0]| + 1 + FlushWork(overlays[1..])
  }

  lemma {:induction false} WorkUpdate(group: seq<Transaction>, members: seq<Member>, i: nat, m: Member)
    requires |group| == |members| && i < |members|
    ensures MembersWork(group, members[i := m]) + MemberWork(group[i], members[i])
         == MembersWork(group, members) + MemberWork(group[i], m)
  {
    var n := |members| - 1;
    if i == n {
      assert members[i := m][..n] == members[..n];
    } else {
      assert members[i := m][..n] == members[..n][i := m];
      WorkUpdate(group[..n], members[..n], i, m);
    }
  }

  function PhaseRank(phase: Phase): nat {
    if phase.Executing? then 1 else 0
  }

  function PhaseWork(group: seq<Transaction>, phase: Phase): nat {
    match phase
    case Executing(members) => if |members| == |group| then MembersWork(group, members) else 0
    case Committing(overlays) => FlushWork(overlays)
  }

  predicate Shorter(group: seq<Transaction>, a: Phase, b: Phase) {
    || PhaseRank(a) < PhaseRank(b)
    || (PhaseRank(a) == PhaseRank(b) && PhaseWork(group, a) < PhaseWork(group, b))
  }

  /** A holder's step, other than the drop of its guard, shortens its own task and touches no other. */
  ghost predicate OwnProgress(s: System, t: System, c: nat) {
    && c in s.tasks && c in t.tasks && t.tasks == s.tasks[c := t.tasks[c]] && t.tasks[c].group == s.tasks[c].group
    && Shorter(s.tasks[c].group, t.tasks[c].phase, s.tasks[c].phase)
    && t.log == s.log + (if s.tasks[c].phase.Executing? && t.tasks[c].phase.Committing? then [s.tasks[c].group] else [])
  }

  lemma {:induction false} MemberProgress(run: Runner, s: System, ev: Event)
    requires Enabled(run, s, ev) && (ev.LoadNext? || ev.Execute?)
    ensures OwnProgress(s, Apply(run, s, ev), ev.caller)
  {
    var task := s.tasks[ev.caller];
    var after := Apply(run, s, ev).tasks[ev.caller];
    WorkUpdate(task.group, task.phase.members, ev.i, after.phase.members[ev.i]);
  }

  lemma {:induction false} FlushProgress(run: Runner, s: System, c: nat, k: Pubkey)
    requires Enabled(run, s, FlushKey(c, k))
    ensures OwnProgress(s, Apply(run, s, FlushKey(c, k)), c)
  {
    var overlays := s.tasks[c].phase.overlays;
    var rest := [overlays[0] - {k}] + overlays[1..];
    assert rest[1..] == overlays[1..];
  }

  lemma {:induction false} StepProgress(run: Runner, s: System, ev: Event)
    requires Enabled(run, s, ev) && GoesOn(ev) && !ev.Release?
    ensures OwnProgress(s, Apply(run, s, ev), ev.caller)
  {
    match ev
    case LoadNext(_, _) => MemberProgress(run, s, ev);
    case Execute(_, _) => MemberProgress(run, s, ev);
    case Record(_) =>
    case FlushKey(c, k) => FlushProgress(run, s, c, k);
    case NextOverlay(_) =>
  }

  // ----- letting holders finish

  /** `evs` is an interleaving in which nobody locks and nobody gives up. */
  ghost predicate Winding(run: Runner, s: System, evs: seq<Event>, t: System) {
    Interleaving(run, s, evs, t) && forall ev :: ev in evs ==> GoesOn(ev)
  }

  lemma Split<T>(a: seq<T>, b: seq<T>)
    ensures a + b == if a == [] then b else [a[0]] + (a[1..] + b)
  {
  }

  lemma {:induction false} InterleavingConcat(run: Runner, s: System, a: seq<Event>, t: System, b: seq<Event>, u: System)
    requires Interleaving(run, s, a, t) && Interleaving(run, t, b, u)
    ensures Interleaving(run, s, a + b, u)
    decreases |a|
  {
    Split(a, b);
    if a != [] {
      InterleavingConcat(run, Apply(run, s, a[0]), a[1..], t, b, u);
    }
  }

  /** One step of the holder. */
  ghost predicate Steps(run: Runner, s: System, ev: Event, t: System) {
    Enabled(run, s, ev) && GoesOn(ev) && t == Apply(run, s, ev)
  }

  lemma {:induction false} HolderStep(run: Runner, s0: Store, s: System, c: nat) returns (ev: Event, next: System)
    requires Inv(run, s0, s) && c in s.tasks
    ensures Steps(run, s, ev, next) && Inv(run, s0, next)
    ensures if ev.Release? then next.tasks == s.tasks - {c} && next.log == s.log && s.tasks[c].phase.Committing? else OwnProgress(s, next, c)
  {
    HolderCanStep(run, s0, s, c);
    ev :| Enabled(run, s, ev) && GoesOn(ev) && ev.caller == c;
    StepKeeps(run, s0, s, ev);
    next := Apply(run, s, ev);
    if !ev.Release? {
      StepProgress(run, s, ev);
    }
  }

  lemma {:induction false} WindingStep(run: Runner, s: System, ev: Event, next: System, evs: seq<Event>, t: System)
    requires Steps(run, s, ev, next) && Winding(run, next, evs, t)
    ensures Winding(run, s, [ev] + evs, t)
  {
  }

  /** What this holder has still to record. */
  function Unrecorded(t: Task): seq<seq<Transaction>> {
    if t.phase.Executing? then [t.group] else []
  }

  lemma {:induction false} StillUnrecorded(s: System, next: System, c: nat, t: System)
    requires OwnProgress(s, next, c) && t.log == next.log + Unrecorded(next.tasks[c]) && t.tasks == next.tasks - {c}
    ensures t.log == s.log + Unrecorded(s.tasks[c]) && t.tasks == s.tasks - {c}
  {
  }

  /** One holder, left alone, records its group if it has not, and reaches the drop of its guard. */
  lemma {:induction false} HolderFinishes(run: Runner, s0: Store, s: System, c: nat) returns (evs: seq<Event>, t: System)
    requires Inv(run, s0, s) && c in s.tasks
    ensures Winding(run, s, evs, t) && Inv(run, s0, t) && t.log == s.log + Unrecorded(s.tasks[c]) && t.tasks == s.tasks - {c}
    decreases PhaseRank(s.tasks[c].phase), PhaseWork(s.tasks[c].group, s.tasks[c].phase)
  {
    var ev, next := HolderStep(run, s0, s, c);
    if ev.Release? {
      evs, t := [], next;
    } else {
      evs, t := HolderFinishes(run, s0, next, c);
      StillUnrecorded(s, next, c, t);
    }
    WindingStep(run, s, ev, next, evs, t);
    evs := [ev] + evs;
  }

  /** The groups that the listed holders have still to record, in that order. */
  function AllUnrecorded(tasks: map<nat, Task>, order: seq<nat>): seq<seq<Transaction>>
    requires forall c :: c in order ==> c in tasks
  {
    if order == [] then [] else Unrecorded(tasks[order[0]]) + AllUnrecorded(tasks, order[1..])
  }

  /** Each holder, once. */
  ghost predicate Lists(order: seq<nat>, tasks: map<nat, Task>) {
    (forall c :: c in order <==> c in tasks) && forall i, j :: 0 <= i < j < |order| ==> order[i] != order[j]
  }

  lemma {:induction false} ListsFirst(tasks: map<nat, Task>, c: nat, order: seq<nat>)
    requires c in tasks && Lists(order, tasks - {c})
    ensures Lists([c] + order, tasks)
    ensures AllUnrecorded(tasks, [c] + order) == Unrecorded(tasks[c]) + AllUnrecorded(tasks - {c}, order)
  {
    assert forall i :: 0 <= i < |order| ==> order[i] in order;
    assert ([c] + order)[1..] == order;
    FewerTasks(tasks, c, order);
  }

  lemma {:induction false} FewerTasks(tasks: map<nat, Task>, c: nat, order: seq<nat>)
    requires forall d :: d in order ==> d in tasks - {c}
    ensures AllUnrecorded(tasks, order) == AllUnrecorded(tasks - {c}, order)
  {
    if order != [] {
      FewerTasks(tasks, c, order[1..]);
    }
  }

  /** `evs` lets every holder record and drop its guard; `order` is the order in which they finish. */
  ghost predicate AllFinish(run: Runner, s: System, evs: seq<Event>, t: System, order: seq<nat>) {
    Winding(run, s, evs, t) && t.tasks == map[] && Lists(order, s.tasks) && t.log == s.log + AllUnrecorded(s.tasks, order)
  }

  lemma {:induction false} WindingConcat(run: Runner, s: System, a: seq<Event>, t: System, b: seq<Event>, u: System)
    requires Winding(run, s, a, t) && Winding(run, t, b, u)
    ensures Winding(run, s, a + b, u)
  {
    InterleavingConcat(run, s, a, t, b, u);
  }

  lemma {:induction false} FirstAndRest(run: Runner, s: System, c: nat, first: seq<Event>, mid: System, later: seq<Event>,
                                        t: System, rest: seq<nat>)
    requires c in s.tasks && mid.log == s.log + Unrecorded(s.tasks[c]) && mid.tasks == s.tasks - {c}
    requires Winding(run, s, first, mid) && AllFinish(run, mid, later, t, rest)
    ensures AllFinish(run, s, first + later, t, [c] + rest)
  {
    assert Winding(run, s, first + later, t) by {
      WindingConcat(run, s, first, mid, later, t);
    }
    ListsFirst(s.tasks, c, rest);
    Sequences.Assoc(s.log, Unrecorded(s.tasks[c]), AllUnrecorded(mid.tasks, rest));
  }

  lemma {:induction false} HoldersFinish(run: Runner, s0: Store, s: System) returns (evs: seq<Event>, t: System, order: seq<nat>)
    requires Inv(run, s0, s)
    ensures AllFinish(run, s, evs, t, order)
    decreases |s.tasks|
  {
    if s.tasks == map[] {
      evs, t, order := [], s, [];
    } else {
      var c := Collections.PickKey(s.tasks);
      var first, mid := HolderFinishes(run, s0, s, c);
      var later, rest;
      later, t, rest := HoldersFinish(run, s0, mid);
      FirstAndRest(run, s, c, first, mid, later, t, rest);
      evs, order := first + later, [c] + rest;
    }
  }

  /** No guard and no lock is left, every holder's group is recorded, and the store is the serial result of the record. */
  ghost predicate FinishedSerially(run: Runner, s0: Store, s: System, order: seq<nat>, t: System) {
    && Lists(order, s.tasks) && t.log == s.log + AllUnrecorded(s.tasks, order)
    && t.tasks == map[] && t.locks == AccountLocks.UNLOCKED && t.store == SerialStore(run, s0, Flat(t.log))
  }

  /**
   From every state an interleaving can reach, the current holders can finish without any further lock attempt and without
   giving up; exactly their groups are then recorded besides those already recorded, the store is the serial result of the
   record, and no lock is left.
   */
  lemma {:induction false} EveryStateCanFinish(run: Runner, s0: Store, evs: seq<Event>, s: System)
    requires WellKeyed(s0) && Interleaving(run, Init(s0), evs, s)
    ensures exists more, t, order :: Winding(run, s, more, t) && FinishedSerially(run, s0, s, order, t)
  {
    InitInv(run, s0);
    RunKeeps(run, s0, Init(s0), evs, s);
    var more, t, order := HoldersFinish(run, s0, s);
    InterleavingConcat(run, Init(s0), evs, s, more, t);
    EveryInterleavingIsSerial(run, s0, evs + more, t);
    assert Winding(run, s, more, t) && FinishedSerially(run, s0, s, order, t);
  }
}
