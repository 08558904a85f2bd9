/**
 Any number of callers sharing one BankingStage, as a step system.  Each caller locks a group, loads the
 accounts of its members one key at a time in any order, runs each member on its own overlay, records the group,
 flushes the successful overlays in group order but key by key in any order, and drops its guard.  A caller whose
 record fails, or whose execution panics, drops its guard without flushing anything.  Steps of different callers
 interleave freely.
 */
module Protocol {
  import opened Types
  import opened Serial
  import opened Claims
  import AccountLocks

  datatype Member = Loading(loaded: seq<Account>) | Finished(result: Result<Store, TransactionError>)
  datatype Phase = Executing(members: seq<Member>) | Committing(overlays: seq<Store>)
  datatype Task = Task(group: seq<Transaction>, phase: Phase)

  /** `log` lists the recorded groups in record order, `outcomes` what was reported for them. */
  datatype System = System(
    store: Store,
    locks: AccountLocks.LockState,
    log: seq<seq<Transaction>>,
    outcomes: seq<seq<Option<TransactionError>>>,
    tasks: map<nat, Task>)

  datatype Event =
    | TryLock(caller: nat, group: seq<Transaction>)
    | LoadNext(caller: nat, i: nat)
    | Execute(caller: nat, i: nat)
    | Record(caller: nat)
    | Abort(caller: nat)
    | FlushKey(caller: nat, key: Pubkey)
    | NextOverlay(caller: nat)
    | Release(caller: nat)

  function Init(store: Store): System {
    System(store, AccountLocks.UNLOCKED, [], [], map[])
  }

  ghost predicate Admissible(run: Runner, group: seq<Transaction>) {
    AllFramed(run, group) && NonInterfering(group) && forall tx :: tx in group ==> Covered(tx)
  }

  function Keys(tx: Transaction): seq<Pubkey> {
    tx.message.accountKeys
  }

  predicate IsExecuting(s: System, c: nat) {
    c in s.tasks && s.tasks[c].phase.Executing? && |s.tasks[c].phase.members| == |s.tasks[c].group|
  }

  predicate IsCommitting(s: System, c: nat) {
    c in s.tasks && s.tasks[c].phase.Committing?
  }

  ghost predicate Enabled(run: Runner, s: System, ev: Event) {
    match ev
    case TryLock(c, group) => c !in s.tasks && Admissible(run, group)
    case LoadNext(c, i) =>
      IsExecuting(s, c) && i < |s.tasks[c].group| && var m := s.tasks[c].phase.members[i];
      m.Loading? && |m.loaded| < |Keys(s.tasks[c].group[i])|
    case Execute(c, i) =>
      IsExecuting(s, c) && i < |s.tasks[c].group| && var m := s.tasks[c].phase.members[i];
      m.Loading? && |m.loaded| == |Keys(s.tasks[c].group[i])|
    case Record(c) => IsExecuting(s, c) && forall m :: m in s.tasks[c].phase.members ==> m.Finished?
    case Abort(c) => IsExecuting(s, c)
    case FlushKey(c, k) =>
      IsCommitting(s, c) && s.tasks[c].phase.overlays != [] && k in s.tasks[c].phase.overlays[0]
    case NextOverlay(c) =>
      IsCommitting(s, c) && s.tasks[c].phase.overlays != [] && s.tasks[c].phase.overlays[0] == map[]
    case Release(c) => IsCommitting(s, c) && s.tasks[c].phase.overlays == []
  }

  function WithPhase(s: System, c: nat, phase: Phase): System
    requires c in s.tasks
  {
    s.(tasks := s.tasks[c := s.tasks[c].(phase := phase)])
  }

  /** The guard is dropped and the caller forgets the group. */
  function Released(s: System, c: nat): System
    requires c in s.tasks
  {
    s.(locks := AccountLocks.Release(s.locks, AccountLocks.GuardFor(s.tasks[c].group)), tasks := s.tasks - {c})
  }

  function Results(members: seq<Member>): seq<Result<Store, TransactionError>>
    requires forall m :: m in members ==> m.Finished?
  {
    seq(|members|, i requires 0 <= i < |members| => members[i].result)
  }

  /** The group's record has been sent: its outcomes are decided and its overlays are to be flushed. */
  function Recorded(s: System, c: nat, results: seq<Result<Store, TransactionError>>): System
    requires c in s.tasks
  {
    WithPhase(s, c, Committing(Overlays(results))).(log := s.log + [s.tasks[c].group], outcomes := s.outcomes + [Outcomes(results)])
  }

  function Acquired(s: System, c: nat, group: seq<Transaction>): System {
    s.(locks := AccountLocks.Acquire(s.locks, AccountLocks.GuardFor(group)),
       tasks := s.tasks[c := Task(group, Executing(seq(|group|, _ => Loading([]))))])
  }

  /** One atomic access to shared state.  A denied TryLock leaves everything as it was. */
  ghost function Apply(run: Runner, s: System, ev: Event): System
    requires Enabled(run, s, ev)
  {
    match ev
    case TryLock(c, group) =>
      if AccountLocks.Denied(s.locks, AccountLocks.GuardFor(group)) then s else Acquired(s, c, group)
    case LoadNext(c, i) =>
      var members := s.tasks[c].phase.members;
      var loaded := members[i].loaded;
      var key := Keys(s.tasks[c].group[i])[|loaded|];
      WithPhase(s, c, Executing(members[i := Loading(loaded + [LoadOr(s.store, key)])]))
    case Execute(c, i) =>
      var members := s.tasks[c].phase.members;
      var r := match run(s.tasks[c].group[i], members[i].loaded)
               case Ok(cells) => Ok(Dirty(cells)) case Err(e) => Err(e);
      WithPhase(s, c, Executing(members[i := Finished(r)]))
    case Record(c) => Recorded(s, c, Results(s.tasks[c].phase.members))
    case Abort(c) => Released(s, c)
    case FlushKey(c, k) =>
      var overlays := s.tasks[c].phase.overlays;
      WithPhase(s, c, Committing([overlays[0] - {k}] + overlays[1..])).(store := s.store[k := overlays[0][k]])
    case NextOverlay(c) =>
      WithPhase(s, c, Committing(s.tasks[c].phase.overlays[1..]))
    case Release(c) => Released(s, c)
  }

  /** `evs` is a possible interleaving from `s`, ending in `t`. */
  ghost predicate Interleaving(run: Runner, s: System, evs: seq<Event>, t: System)
    decreases |evs|
  {
    if evs == [] then s == t
    else Enabled(run, s, evs[0]) && Interleaving(run, Apply(run, s, evs[0]), evs[1..], t)
  }

  // ----- the serial reference: recorded groups in record order

  function Flat(log: seq<seq<Transaction>>): seq<Transaction> {
    if log == [] then [] else Flat(log[..|log| - 1]) + log[|log| - 1]
  }

  function Done(run: Runner, s0: Store, log: seq<seq<Transaction>>): Store {
    SerialStore(run, s0, Flat(log))
  }

  // ----- what a task has to write

  function Owed(run: Runner, done: Store, group: seq<Transaction>): Store {
    Merge(Overlays(ParallelResults(run, done, group)))
  }

  function LockedKeys(group: seq<Transaction>): set<Pubkey> {
    AccountLocks.GroupKeys(group, true) + AccountLocks.GroupKeys(group, false)
  }

  function WrittenKeys(group: seq<Transaction>): set<Pubkey> {
    AccountLocks.GroupKeys(group, true)
  }

  lemma {:induction false} GroupCoversMember(group: seq<Transaction>, tx: Transaction)
    requires tx in group
    ensures WriteKeys(tx) <= AccountLocks.GroupKeys(group, true)
    ensures ReadKeys(tx) <= AccountLocks.GroupKeys(group, false)
  {
    var n := |group| - 1;
    if group[n] != tx {
      GroupCoversMember(group[..n], tx);
    }
  }

  ghost predicate AllLegit(done: Store, group: seq<Transaction>, overlays: seq<Store>) {
    forall i :: 0 <= i < |overlays| ==> Legit(done, LockedKeys(group), WrittenKeys(group), overlays[i])
  }

  lemma {:induction false} MergeLegit(done: Store, group: seq<Transaction>, overlays: seq<Store>)
    requires AllLegit(done, group, overlays)
    ensures Legit(done, LockedKeys(group), WrittenKeys(group), Merge(overlays))
  {
    if overlays != [] {
      MergeLegit(done, group, overlays[1..]);
    }
  }

  lemma {:induction false} OverlaysLegit(run: Runner, done: Store, group: seq<Transaction>, txs: seq<Transaction>)
    requires WellKeyed(done) && Admissible(run, group) && forall tx :: tx in txs ==> tx in group
    ensures AllLegit(done, group, Overlays(ParallelResults(run, done, txs)))
    decreases |txs|
  {
    if txs != [] {
      ParallelSplit(run, done, txs);
      OverlaysLegit(run, done, group, txs[1..]);
      assert txs[0] in txs;
      if Process(run, done, txs[0]).Ok? {
        OverlayLegit(run, done, group, txs[0]);
      }
    }
  }

  lemma {:induction false} OverlayLegit(run: Runner, done: Store, group: seq<Transaction>, tx: Transaction)
    requires WellKeyed(done) && Admissible(run, group) && tx in group && Process(run, done, tx).Ok?
    ensures Legit(done, LockedKeys(group), WrittenKeys(group), Process(run, done, tx).value)
  {
    OverlayShape(run, done, tx);
    GroupCoversMember(group, tx);
  }

  // ----- the invariant

  ghost predicate MemberOk(run: Runner, done: Store, tx: Transaction, m: Member) {
    match m
    case Loading(loaded) => |loaded| <= |Keys(tx)| && loaded == LoadAll(done, Keys(tx)[..|loaded|])
    case Finished(r) => r == Process(run, done, tx)
  }

  ghost predicate MembersOk(run: Runner, done: Store, group: seq<Transaction>, members: seq<Member>) {
    |members| == |group| && forall i :: 0 <= i < |members| ==> MemberOk(run, done, group[i], members[i])
  }

  /** A holder's loads and results are the serial ones, and so are the read-locked keys it will write back. */
  ghost predicate TaskOk(run: Runner, done: Store, t: Task) {
    && Admissible(run, t.group)
    && match t.phase
       case Executing(members) => MembersOk(run, done, t.group, members)
       case Committing(overlays) => AllLegit(done, t.group, overlays)
  }

  ghost predicate TasksOk(run: Runner, done: Store, tasks: map<nat, Task>) {
    forall c :: c in tasks ==> TaskOk(run, done, tasks[c])
  }

  ghost function GuardsOf(tasks: map<nat, Task>): AccountLocks.Guards {
    map c | c in tasks :: AccountLocks.GuardFor(tasks[c].group)
  }

  function ClaimOf(t: Task): Claim {
    Claim(LockedKeys(t.group), WrittenKeys(t.group), t.phase.Executing?,
          match t.phase case Executing(_) => map[] case Committing(overlays) => Merge(overlays))
  }

  ghost function ClaimsOf(tasks: map<nat, Task>): map<nat, Claim> {
    map c | c in tasks :: ClaimOf(tasks[c])
  }

  /** The reported outcomes are those of the serial run of the log. */
  ghost predicate OutcomesOk(run: Runner, s0: Store, log: seq<seq<Transaction>>, outcomes: seq<seq<Option<TransactionError>>>) {
    |outcomes| == |log| && forall e :: 0 <= e < |log| ==> outcomes[e] == SerialOutcomes(run, Done(run, s0, log[..e]), log[e])
  }

  ghost predicate Inv(run: Runner, s0: Store, s: System) {
    && WellKeyed(s0)
    && AccountLocks.Represents(s.locks, GuardsOf(s.tasks))
    && TasksOk(run, Done(run, s0, s.log), s.tasks)
    && LedgerOk(s.store, Done(run, s0, s.log), ClaimsOf(s.tasks))
    && OutcomesOk(run, s0, s.log, s.outcomes)
  }
}
