/** Every interleaving of the protocol is equivalent to the serial run of the recorded groups in record order. */
module ProtocolSafety {
  import opened Types
  import opened Serial
  import opened Claims
  import opened Protocol
  import AccountLocks

  // ----- the serial reference along the log

  /** Recording a group moves the serial store on by what the group, executed on one snapshot, flushes. */
  lemma {:induction false} DoneNext(run: Runner, s0: Store, log: seq<seq<Transaction>>, group: seq<Transaction>)
    requires WellKeyed(s0) && Admissible(run, group)
    ensures var done := Done(run, s0, log);
            && WellKeyed(done) && Done(run, s0, log + [group]) == done + Owed(run, done, group)
            && Outcomes(ParallelResults(run, done, group)) == SerialOutcomes(run, done, group)
  {
    var done := Done(run, s0, log);
    assert (log + [group])[..|log|] == log;
    SerialKeyed(run, s0, Flat(log));
    SerialConcat(run, s0, Flat(log), group);
    GroupIsSerial(run, done, group);
    CommitIsMerge(done, ParallelResults(run, done, group));
  }

  lemma OwedLegit(run: Runner, done: Store, group: seq<Transaction>)
    requires WellKeyed(done) && Admissible(run, group)
    ensures AllLegit(done, group, Overlays(ParallelResults(run, done, group)))
    ensures Legit(done, LockedKeys(group), WrittenKeys(group), Owed(run, done, group))
  {
    OverlaysLegit(run, done, group, group);
    MergeLegit(done, group, Overlays(ParallelResults(run, done, group)));
  }

  // ----- what a holder has seen stays true while others commit

  ghost predicate Stable(done: Store, done': Store, keys: set<Pubkey>) {
    forall k :: k in keys ==> LoadOr(done', k) == LoadOr(done, k)
  }

  lemma MemberKeys(run: Runner, group: seq<Transaction>, i: nat)
    requires Admissible(run, group) && i < |group|
    ensures LoadedKeys(group[i]) <= LockedKeys(group)
  {
    assert group[i] in group;
    GroupCoversMember(group, group[i]);
  }

  lemma MemberStable(run: Runner, done: Store, done': Store, tx: Transaction, m: Member, keys: set<Pubkey>)
    requires MemberOk(run, done, tx, m) && Stable(done, done', keys) && LoadedKeys(tx) <= keys
    ensures MemberOk(run, done', tx, m)
  {
    assert forall i :: 0 <= i < |Keys(tx)| ==> Keys(tx)[i] in LoadedKeys(tx);
    assert LoadAll(done', Keys(tx)) == LoadAll(done, Keys(tx));
    if m.Loading? {
      assert LoadAll(done', Keys(tx)[..|m.loaded|]) == LoadAll(done, Keys(tx)[..|m.loaded|]);
    }
  }

  lemma TaskStable(run: Runner, done: Store, done': Store, t: Task)
    requires TaskOk(run, done, t) && Stable(done, done', LockedKeys(t.group))
    ensures TaskOk(run, done', t)
  {
    if t.phase.Executing? {
      forall i | 0 <= i < |t.group| ensures MemberOk(run, done', t.group[i], t.phase.members[i]) {
        MemberKeys(run, t.group, i);
        MemberStable(run, done, done', t.group[i], t.phase.members[i], LockedKeys(t.group));
      }
    }
  }

  /** A recorded group changes no serial value that a separate holder has locked. */
  lemma RecordStable(done: Store, me: Claim, other: Claim, owed: Store)
    requires Separate(other, me) && Legit(done, me.locked, me.written, owed)
    ensures Stable(done, done + owed, other.locked)
  {
  }

  /** Nor one that it only reads itself. */
  lemma RecordedLegit(done: Store, group: seq<Transaction>, overlays: seq<Store>, owed: Store)
    requires AllLegit(done, group, overlays) && Legit(done, LockedKeys(group), WrittenKeys(group), owed)
    ensures AllLegit(done + owed, group, overlays)
  {
  }

  // ----- locks separate claims

  lemma HoldersSeparate(tasks: map<nat, Task>, c: nat, d: nat)
    requires AccountLocks.PairwiseCompatible(GuardsOf(tasks)) && c in tasks && d in tasks && c != d
    ensures Separate(ClaimOf(tasks[c]), ClaimOf(tasks[d]))
  {
    assert AccountLocks.Compatible(GuardsOf(tasks)[c], GuardsOf(tasks)[d]);
  }

  lemma NewcomerSeparate(s: System, t: Task, c: nat)
    requires AccountLocks.Represents(s.locks, GuardsOf(s.tasks)) && c in s.tasks
    requires !AccountLocks.Denied(s.locks, AccountLocks.GuardFor(t.group))
    ensures Separate(ClaimOf(s.tasks[c]), ClaimOf(t))
  {
    AccountLocks.DeniedIffIncompatible(s.locks, GuardsOf(s.tasks), AccountLocks.GuardFor(t.group));
    assert AccountLocks.Compatible(GuardsOf(s.tasks)[c], AccountLocks.GuardFor(t.group));
  }

  // ----- one task changes

  lemma OneTaskChanged(tasks: map<nat, Task>, c: nat, t: Task)
    ensures ClaimsOf(tasks[c := t]) == ClaimsOf(tasks)[c := ClaimOf(t)]
    ensures GuardsOf(tasks[c := t]) == GuardsOf(tasks)[c := AccountLocks.GuardFor(t.group)]
  {
  }

  lemma SameGroup(tasks: map<nat, Task>, c: nat, t: Task)
    requires c in tasks && t.group == tasks[c].group
    ensures GuardsOf(tasks[c := t]) == GuardsOf(tasks)
  {
  }

  lemma OneTaskOk(run: Runner, done: Store, tasks: map<nat, Task>, c: nat, t: Task)
    requires TasksOk(run, done, tasks) && TaskOk(run, done, t)
    ensures TasksOk(run, done, tasks[c := t])
  {
  }

  lemma OneTaskGone(tasks: map<nat, Task>, c: nat)
    ensures ClaimsOf(tasks - {c}) == ClaimsOf(tasks) - {c} && GuardsOf(tasks - {c}) == GuardsOf(tasks) - {c}
  {
  }

  // ----- acquiring

  lemma AcquireKeeps(run: Runner, s0: Store, s: System, c: nat, group: seq<Transaction>)
    requires Inv(run, s0, s) && c !in s.tasks && Admissible(run, group)
    requires !AccountLocks.Denied(s.locks, AccountLocks.GuardFor(group))
    ensures Inv(run, s0, Acquired(s, c, group))
  {
    var t := Acquired(s, c, group).tasks[c];
    assert LedgerOk(s.store, Done(run, s0, s.log), ClaimsOf(s.tasks)[c := ClaimOf(t)]) by {
      forall d | d in ClaimsOf(s.tasks) ensures Separate(ClaimsOf(s.tasks)[d], ClaimOf(t)) {
        NewcomerSeparate(s, t, d);
      }
      AddClaim(s.store, Done(run, s0, s.log), ClaimsOf(s.tasks), c, ClaimOf(t));
    }
    AccountLocks.AcquireKeeps(s.locks, GuardsOf(s.tasks), c, AccountLocks.GuardFor(group));
    OneTaskChanged(s.tasks, c, t);
    OneTaskOk(run, Done(run, s0, s.log), s.tasks, c, t);
  }

  // ----- executing

  lemma SelfUpdate<V>(m: map<nat, V>, c: nat)
    requires c in m
    ensures m[c := m[c]] == m
  {
  }

  /** A move that changes neither the store nor what the task owes. */
  lemma QuietMove(run: Runner, s0: Store, s: System, c: nat, phase: Phase)
    requires Inv(run, s0, s) && c in s.tasks
    requires TaskOk(run, Done(run, s0, s.log), s.tasks[c].(phase := phase))
    requires ClaimOf(s.tasks[c].(phase := phase)) == ClaimOf(s.tasks[c])
    ensures Inv(run, s0, WithPhase(s, c, phase))
  {
    var t := s.tasks[c].(phase := phase);
    OneTaskChanged(s.tasks, c, t);
    SelfUpdate(ClaimsOf(s.tasks), c);
    SameGroup(s.tasks, c, t);
    OneTaskOk(run, Done(run, s0, s.log), s.tasks, c, t);
  }

  lemma LoadedValue(run: Runner, s: System, done: Store, c: nat, i: nat, key: Pubkey)
    requires LedgerOk(s.store, done, ClaimsOf(s.tasks)) && IsExecuting(s, c) && Admissible(run, s.tasks[c].group)
    requires i < |s.tasks[c].group| && key in LoadedKeys(s.tasks[c].group[i])
    ensures LoadOr(s.store, key) == LoadOr(done, key)
  {
    MemberKeys(run, s.tasks[c].group, i);
    assert SeesDone(s.store, done, ClaimsOf(s.tasks)[c]);
  }

  lemma LoadMember(done: Store, store: Store, keys: seq<Pubkey>, loaded: seq<Account>)
    requires |loaded| < |keys| && loaded == LoadAll(done, keys[..|loaded|])
    requires LoadOr(store, keys[|loaded|]) == LoadOr(done, keys[|loaded|])
    ensures loaded + [LoadOr(store, keys[|loaded|])] == LoadAll(done, keys[..|loaded| + 1])
  {
  }

  lemma OneMemberOk(run: Runner, done: Store, group: seq<Transaction>, members: seq<Member>, i: nat, m: Member)
    requires MembersOk(run, done, group, members) && i < |members| && MemberOk(run, done, group[i], m)
    ensures MembersOk(run, done, group, members[i := m])
  {
  }

  /** Loading one more account keeps what a member has loaded equal to its serial loads. */
  lemma LoadKeeps(run: Runner, s0: Store, s: System, c: nat, i: nat)
    requires Inv(run, s0, s) && Enabled(run, s, LoadNext(c, i))
    ensures Inv(run, s0, Apply(run, s, LoadNext(c, i)))
  {
    var t, done := s.tasks[c], Done(run, s0, s.log);
    assert TaskOk(run, done, t);
    var tx, m := t.group[i], t.phase.members[i];
    assert MemberOk(run, done, tx, m);
    var next := Apply(run, s, LoadNext(c, i)).tasks[c].phase;
    assert MembersOk(run, done, t.group, next.members) by {
      LoadedValue(run, s, done, c, i, Keys(tx)[|m.loaded|]);
      LoadMember(done, s.store, Keys(tx), m.loaded);
      OneMemberOk(run, done, t.group, t.phase.members, i, next.members[i]);
    }
    QuietMove(run, s0, s, c, next);
  }

  /** A member that loaded everything computes its serial result. */
  lemma ExecuteKeeps(run: Runner, s0: Store, s: System, c: nat, i: nat)
    requires Inv(run, s0, s) && Enabled(run, s, Execute(c, i))
    ensures Inv(run, s0, Apply(run, s, Execute(c, i)))
  {
    var t, done := s.tasks[c], Done(run, s0, s.log);
    assert TaskOk(run, done, t);
    var tx, m := t.group[i], t.phase.members[i];
    assert MemberOk(run, done, tx, m);
    var next := Apply(run, s, Execute(c, i)).tasks[c].phase;
    assert MembersOk(run, done, t.group, next.members) by {
      assert Keys(tx)[..|Keys(tx)|] == Keys(tx);
      OneMemberOk(run, done, t.group, t.phase.members, i, next.members[i]);
    }
    QuietMove(run, s0, s, c, next);
  }

  // ----- recording

  lemma AllFinished(run: Runner, done: Store, group: seq<Transaction>, members: seq<Member>)
    requires MembersOk(run, done, group, members) && forall m :: m in members ==> m.Finished?
    ensures Results(members) == ParallelResults(run, done, group)
  {
    forall i | 0 <= i < |members| ensures Results(members)[i] == Process(run, done, group[i]) {
      assert MemberOk(run, done, group[i], members[i]) && members[i] in members;
    }
  }

  lemma OutcomesNext(run: Runner, s0: Store, log: seq<seq<Transaction>>, outcomes: seq<seq<Option<TransactionError>>>,
                     group: seq<Transaction>, more: seq<Option<TransactionError>>)
    requires OutcomesOk(run, s0, log, outcomes) && more == SerialOutcomes(run, Done(run, s0, log), group)
    ensures OutcomesOk(run, s0, log + [group], outcomes + [more])
  {
    forall e | 0 <= e <= |log|
      ensures (outcomes + [more])[e] == SerialOutcomes(run, Done(run, s0, (log + [group])[..e]), (log + [group])[e])
    {
      assert (log + [group])[..e] == log[..e];
      assert e == |log| ==> log[..e] == log;
    }
  }

  /** Everybody's loads and results are those of the serial store as it moves on. */
  lemma RecordTasks(run: Runner, done: Store, tasks: map<nat, Task>, c: nat, owed: Store, t: Task)
    requires TasksOk(run, done, tasks) && c in tasks && AccountLocks.PairwiseCompatible(GuardsOf(tasks))
    requires Legit(done, LockedKeys(tasks[c].group), WrittenKeys(tasks[c].group), owed)
    requires TaskOk(run, done + owed, t)
    ensures TasksOk(run, done + owed, tasks[c := t])
  {
    forall d | d in tasks && d != c ensures TaskOk(run, done + owed, tasks[d]) {
      HoldersSeparate(tasks, d, c);
      RecordStable(done, ClaimOf(tasks[c]), ClaimOf(tasks[d]), owed);
      TaskStable(run, done, done + owed, tasks[d]);
    }
  }

  lemma RecordLedger(store: Store, done: Store, tasks: map<nat, Task>, c: nat, overlays: seq<Store>)
    requires LedgerOk(store, done, ClaimsOf(tasks)) && c in tasks && tasks[c].phase.Executing?
    requires AccountLocks.PairwiseCompatible(GuardsOf(tasks))
    requires Legit(done, LockedKeys(tasks[c].group), WrittenKeys(tasks[c].group), Merge(overlays))
    ensures LedgerOk(store, done + Merge(overlays), ClaimsOf(tasks[c := tasks[c].(phase := Committing(overlays))]))
  {
    forall d | d in ClaimsOf(tasks) && d != c ensures Separate(ClaimsOf(tasks)[d], ClaimsOf(tasks)[c]) {
      HoldersSeparate(tasks, d, c);
    }
    StartCommit(store, done, ClaimsOf(tasks), c, Merge(overlays));
    OneTaskChanged(tasks, c, tasks[c].(phase := Committing(overlays)));
  }

  lemma RecordKeeps(run: Runner, s0: Store, s: System, c: nat)
    requires Inv(run, s0, s) && Enabled(run, s, Record(c))
    ensures Inv(run, s0, Apply(run, s, Record(c)))
  {
    var t, done := s.tasks[c], Done(run, s0, s.log);
    assert TaskOk(run, done, t);
    AllFinished(run, done, t.group, t.phase.members);
    var results := ParallelResults(run, done, t.group);
    var overlays, owed := Overlays(results), Owed(run, done, t.group);
    var next := t.(phase := Committing(overlays));
    DoneNext(run, s0, s.log, t.group);
    OwedLegit(run, done, t.group);
    assert TasksOk(run, done + owed, s.tasks[c := next]) by {
      RecordedLegit(done, t.group, overlays, owed);
      RecordTasks(run, done, s.tasks, c, owed, next);
    }
    RecordLedger(s.store, done, s.tasks, c, overlays);
    SameGroup(s.tasks, c, next);
    OutcomesNext(run, s0, s.log, s.outcomes, t.group, Outcomes(results));
  }

  // ----- committing

  lemma NextOverlayKeeps(run: Runner, s0: Store, s: System, c: nat)
    requires Inv(run, s0, s) && Enabled(run, s, NextOverlay(c))
    ensures Inv(run, s0, Apply(run, s, NextOverlay(c)))
  {
    assert TaskOk(run, Done(run, s0, s.log), s.tasks[c]);
    var overlays := s.tasks[c].phase.overlays;
    assert Merge(overlays) == Merge(overlays[1..]);
    QuietMove(run, s0, s, c, Committing(overlays[1..]));
  }

  /** Flushing k from the current overlay pays k, unless a later overlay of the group writes k again. */
  lemma FlushPays(overlays: seq<Store>, k: Pubkey)
    requires overlays != [] && k in overlays[0]
    ensures Paid(Merge(overlays), Merge([overlays[0] - {k}] + overlays[1..]), k, overlays[0][k])
  {
    var overlays' := [overlays[0] - {k}] + overlays[1..];
    assert overlays'[1..] == overlays[1..];
    var before, after := Merge(overlays), Merge(overlays');
    assert forall x :: x != k ==> Agree(before, after, x);
  }

  lemma FlushLegit(done: Store, group: seq<Transaction>, overlays: seq<Store>, k: Pubkey)
    requires AllLegit(done, group, overlays) && overlays != [] && k in overlays[0]
    ensures AllLegit(done, group, [overlays[0] - {k}] + overlays[1..])
    ensures k !in WrittenKeys(group) ==> overlays[0][k] == LoadOr(done, k)
  {
    assert Legit(done, LockedKeys(group), WrittenKeys(group), overlays[0]);
  }

  lemma FlushLedger(store: Store, done: Store, tasks: map<nat, Task>, c: nat, k: Pubkey, overlays: seq<Store>)
    requires LedgerOk(store, done, ClaimsOf(tasks)) && AccountLocks.PairwiseCompatible(GuardsOf(tasks))
    requires c in tasks && tasks[c].phase == Committing(overlays) && overlays != [] && k in overlays[0]
    requires k !in WrittenKeys(tasks[c].group) ==> overlays[0][k] == LoadOr(done, k)
    ensures LedgerOk(store[k := overlays[0][k]], done,
                     ClaimsOf(tasks[c := tasks[c].(phase := Committing([overlays[0] - {k}] + overlays[1..]))]))
  {
    var rest := [overlays[0] - {k}] + overlays[1..];
    forall d | d in ClaimsOf(tasks) && d != c ensures Separate(ClaimsOf(tasks)[d], ClaimsOf(tasks)[c]) {
      HoldersSeparate(tasks, d, c);
    }
    FlushPays(overlays, k);
    FlushClaim(store, done, ClaimsOf(tasks), c, k, overlays[0][k], Merge(rest));
    OneTaskChanged(tasks, c, tasks[c].(phase := Committing(rest)));
  }

  lemma FlushKeeps(run: Runner, s0: Store, s: System, c: nat, k: Pubkey)
    requires Inv(run, s0, s) && Enabled(run, s, FlushKey(c, k))
    ensures Inv(run, s0, Apply(run, s, FlushKey(c, k)))
  {
    var t, done := s.tasks[c], Done(run, s0, s.log);
    assert TaskOk(run, done, t);
    var overlays := t.phase.overlays;
    var next := t.(phase := Committing([overlays[0] - {k}] + overlays[1..]));
    FlushLegit(done, t.group, overlays, k);
    FlushLedger(s.store, done, s.tasks, c, k, overlays);
    SameGroup(s.tasks, c, next);
    OneTaskOk(run, done, s.tasks, c, next);
  }

  // ----- releasing, and giving up

  /** Whoever owes nothing may drop its guard: after its last flush, or before its group is recorded. */
  lemma ReleaseKeeps(run: Runner, s0: Store, s: System, c: nat)
    requires Inv(run, s0, s) && c in s.tasks && ClaimOf(s.tasks[c]).pending == map[]
    ensures Inv(run, s0, Released(s, c))
  {
    assert LedgerOk(s.store, Done(run, s0, s.log), ClaimsOf(s.tasks) - {c}) by {
      DropClaim(s.store, Done(run, s0, s.log), ClaimsOf(s.tasks), c);
    }
    AccountLocks.ReleaseKeeps(s.locks, GuardsOf(s.tasks), c);
    OneTaskGone(s.tasks, c);
  }

  // ----- whole interleavings

  /** One step of any caller keeps the invariant. */
  lemma StepKeeps(run: Runner, s0: Store, s: System, ev: Event)
    requires Inv(run, s0, s) && Enabled(run, s, ev)
    ensures Inv(run, s0, Apply(run, s, ev))
  {
    match ev
    case TryLock(c, group) =>
      if !AccountLocks.Denied(s.locks, AccountLocks.GuardFor(group)) {
        AcquireKeeps(run, s0, s, c, group);
      }
    case LoadNext(c, i) => LoadKeeps(run, s0, s, c, i);
    case Execute(c, i) => ExecuteKeeps(run, s0, s, c, i);
    case Record(c) => RecordKeeps(run, s0, s, c);
    case Abort(c) => ReleaseKeeps(run, s0, s, c);
    case FlushKey(c, k) => FlushKeeps(run, s0, s, c, k);
    case NextOverlay(c) => NextOverlayKeeps(run, s0, s, c);
    case Release(c) => ReleaseKeeps(run, s0, s, c);
  }

  lemma {:induction false} RunKeeps(run: Runner, s0: Store, s: System, evs: seq<Event>, t: System)
    requires Inv(run, s0, s) && Interleaving(run, s, evs, t)
    ensures Inv(run, s0, t)
    decreases |evs|
  {
    if evs != [] {
      StepKeeps(run, s0, s, evs[0]);
      RunKeeps(run, s0, Apply(run, s, evs[0]), evs[1..], t);
    }
  }

  lemma InitInv(run: Runner, s0: Store)
    requires WellKeyed(s0)
    ensures Inv(run, s0, Init(s0))
  {
    assert GuardsOf(map[]) == map[] && ClaimsOf(map[]) == map[];
  }

  /**
   Serializability: once every guard is dropped, the store and every recorded transaction's outcome are those of running the
   recorded groups one transaction at a time in record order, and no lock is left.  Groups that gave up have left no trace.
   */
  lemma EveryInterleavingIsSerial(run: Runner, s0: Store, evs: seq<Event>, t: System)
    requires WellKeyed(s0) && Interleaving(run, Init(s0), evs, t) && t.tasks == map[]
    ensures t.store == SerialStore(run, s0, Flat(t.log))
    ensures t.locks == AccountLocks.UNLOCKED
    ensures |t.outcomes| == |t.log| && forall e :: 0 <= e < |t.log| ==>
      t.outcomes[e] == SerialOutcomes(run, SerialStore(run, s0, Flat(t.log[..e])), t.log[e])
  {
    InitInv(run, s0);
    RunKeeps(run, s0, Init(s0), evs, t);
    assert GuardsOf(t.tasks) == map[] && ClaimsOf(t.tasks) == map[];
    AllSettled(t.store, Done(run, s0, t.log));
    AccountLocks.RepresentsUnique(t.locks, AccountLocks.UNLOCKED, map[]);
    forall e | 0 <= e < |t.log| ensures t.outcomes[e] == SerialOutcomes(run, SerialStore(run, s0, Flat(t.log[..e])), t.log[e]) {
      assert Done(run, s0, t.log[..e]) == SerialStore(run, s0, Flat(t.log[..e]));
    }
  }

  /** An event by which a caller goes on with its group. */
  predicate GoesOn(ev: Event) {
    !ev.TryLock? && !ev.Abort?
  }

  /** While any guard is held, its holder can go on without giving up: denied attempts retry, but nothing deadlocks. */
  lemma HolderCanStep(run: Runner, s0: Store, s: System, c: nat)
    requires Inv(run, s0, s) && c in s.tasks
    ensures exists ev :: Enabled(run, s, ev) && GoesOn(ev) && ev.caller == c
  {
    var t := s.tasks[c];
    assert TaskOk(run, Done(run, s0, s.log), t);
    match t.phase
    case Executing(members) =>
      MembersWithinKeys(run, Done(run, s0, s.log), t.group, members);
      ExecutingCanStep(run, s, c);
    case Committing(overlays) =>
      if overlays == [] {
        assert Enabled(run, s, Release(c));
      } else if k :| k in overlays[0] {
        assert Enabled(run, s, FlushKey(c, k));
      } else {
        assert Enabled(run, s, NextOverlay(c));
      }
  }

  lemma MembersWithinKeys(run: Runner, done: Store, group: seq<Transaction>, members: seq<Member>)
    requires MembersOk(run, done, group, members)
    ensures forall i :: 0 <= i < |members| && members[i].Loading? ==> |members[i].loaded| <= |Keys(group[i])|
  {
    forall i | 0 <= i < |members| && members[i].Loading? ensures |members[i].loaded| <= |Keys(group[i])| {
      assert MemberOk(run, done, group[i], members[i]);
    }
  }

  lemma ExecutingCanStep(run: Runner, s: System, c: nat)
    requires IsExecuting(s, c)
    requires forall i :: 0 <= i < |s.tasks[c].group| && s.tasks[c].phase.members[i].Loading? ==>
      |s.tasks[c].phase.members[i].loaded| <= |Keys(s.tasks[c].group[i])|
    ensures exists ev :: Enabled(run, s, ev) && GoesOn(ev) && ev.caller == c
  {
    var members, group := s.tasks[c].phase.members, s.tasks[c].group;
    if m :| m in members && m.Loading? {
      var i :| 0 <= i < |members| && members[i] == m;
      if |m.loaded| < |Keys(group[i])| {
        assert Enabled(run, s, LoadNext(c, i));
      } else {
        assert Enabled(run, s, Execute(c, i));
      }
    } else {
      assert Enabled(run, s, Record(c));
    }
  }
}
