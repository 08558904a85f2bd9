/** The shared read/write account lock table and its RAII guards. */
module AccountLocks {
  import opened Types

  datatype LockGuard = LockGuard(writeKeys: set<Pubkey>, readKeys: set<Pubkey>)
  datatype LockState = LockState(writeLocks: set<Pubkey>, readLocks: map<Pubkey, nat>)
  datatype LockError = InUse

  const UNLOCKED := LockState({}, map[])

  function GroupKeys(group: seq<Transaction>, writable: bool): set<Pubkey> {
    if group == [] then {} else
      var n := |group| - 1;
      GroupKeys(group[..n], writable) + MetaKeys(group[n].message.instructions, writable)
  }

  function GuardFor(group: seq<Transaction>): LockGuard {
    LockGuard(GroupKeys(group, true), GroupKeys(group, false))
  }

  /** Two guards may be held together: neither writes what the other reads or writes. */
  predicate Compatible(a: LockGuard, b: LockGuard) {
    a.writeKeys !! b.writeKeys + b.readKeys && b.writeKeys !! a.readKeys
  }

  // ----- the table as a value

  predicate Denied(st: LockState, g: LockGuard) {
    || (exists k :: k in g.writeKeys && (k in st.writeLocks || k in st.readLocks))
    || (exists k :: k in g.readKeys && k in st.writeLocks)
  }

  function AddReaders(m: map<Pubkey, nat>, ks: set<Pubkey>): map<Pubkey, nat> {
    map k | k in m.Keys + ks :: (if k in m then m[k] else 0) + (if k in ks then 1 else 0)
  }

  function DropReaders(m: map<Pubkey, nat>, ks: set<Pubkey>): map<Pubkey, nat> {
    map k | k in m.Keys && (k !in ks || m[k] > 1) :: if k in ks then m[k] - 1 else m[k]
  }

  function Acquire(st: LockState, g: LockGuard): LockState {
    LockState(st.writeLocks + g.writeKeys, AddReaders(st.readLocks, g.readKeys))
  }

  function Release(st: LockState, g: LockGuard): LockState {
    LockState(st.writeLocks - g.writeKeys, DropReaders(st.readLocks, g.readKeys))
  }

  // ----- the table is exactly the outstanding guards

  type Guards = map<nat, LockGuard>

  ghost function Readers(guards: Guards, k: Pubkey): set<nat> {
    set id | id in guards && k in guards[id].readKeys
  }

  ghost predicate PairwiseCompatible(guards: Guards) {
    forall a, b :: a in guards && b in guards && a != b ==> Compatible(guards[a], guards[b])
  }

  ghost predicate Written(guards: Guards, k: Pubkey) {
    exists id :: id in guards && k in guards[id].writeKeys
  }

  ghost predicate WritesMatch(writeLocks: set<Pubkey>, guards: Guards) {
    forall k :: k in writeLocks <==> Written(guards, k)
  }

  /** Each count is the number of guards reading the key, and is present exactly when positive. */
  ghost predicate ReadsMatch(readLocks: map<Pubkey, nat>, guards: Guards) {
    && (forall k :: k in readLocks <==> Readers(guards, k) != {})
    && (forall k :: k in readLocks ==> readLocks[k] == |Readers(guards, k)|)
  }

  ghost predicate Represents(st: LockState, guards: Guards) {
    PairwiseCompatible(guards) && WritesMatch(st.writeLocks, guards) && ReadsMatch(st.readLocks, guards)
  }

  /** The guards determine the table, so equal guards mean equal tables. */
  lemma RepresentsUnique(a: LockState, b: LockState, guards: Guards)
    requires Represents(a, guards) && Represents(b, guards)
    ensures a == b
  {
    assert a.writeLocks == b.writeLocks;
    assert a.readLocks == b.readLocks;
  }

  lemma DeniedIffIncompatible(st: LockState, guards: Guards, g: LockGuard)
    requires Represents(st, guards)
    ensures Denied(st, g) <==> exists id :: id in guards && !Compatible(guards[id], g)
  {
    if Denied(st, g) {
      var k :| (k in g.writeKeys && (k in st.writeLocks || k in st.readLocks)) || (k in g.readKeys && k in st.writeLocks);
      if k in st.writeLocks {
        var id :| id in guards && k in guards[id].writeKeys;
        assert !Compatible(guards[id], g);
      } else {
        var id :| id in Readers(guards, k);
        assert !Compatible(guards[id], g);
      }
    }
    forall id | id in guards && !Compatible(guards[id], g) ensures Denied(st, g) {
      if !(guards[id].writeKeys !! g.writeKeys + g.readKeys) {
        var k :| k in guards[id].writeKeys && k in g.writeKeys + g.readKeys;
        assert k in st.writeLocks;
      } else {
        var k :| k in g.writeKeys && k in guards[id].readKeys;
        assert id in Readers(guards, k);
      }
    }
  }

  lemma ReadersAdd(guards: Guards, id: nat, g: LockGuard, k: Pubkey)
    requires id !in guards
    ensures Readers(guards[id := g], k) == Readers(guards, k) + if k in g.readKeys then {id} else {}
    ensures id !in Readers(guards, k)
  {
  }

  lemma WritesAdd(writeLocks: set<Pubkey>, guards: Guards, id: nat, g: LockGuard)
    requires WritesMatch(writeLocks, guards) && id !in guards
    ensures WritesMatch(writeLocks + g.writeKeys, guards[id := g])
  {
    forall k ensures k in writeLocks + g.writeKeys <==> Written(guards[id := g], k) {
      if k in g.writeKeys {
        assert k in guards[id := g][id].writeKeys;
      } else if Written(guards, k) {
        var i :| i in guards && k in guards[i].writeKeys;
        assert k in guards[id := g][i].writeKeys;
      }
    }
  }

  lemma AcquireKeeps(st: LockState, guards: Guards, id: nat, g: LockGuard)
    requires Represents(st, guards) && id !in guards && !Denied(st, g)
    ensures Represents(Acquire(st, g), guards[id := g])
  {
    var guards' := guards[id := g];
    assert PairwiseCompatible(guards') by {
      DeniedIffIncompatible(st, guards, g);
    }
    WritesAdd(st.writeLocks, guards, id, g);
    assert ReadsMatch(AddReaders(st.readLocks, g.readKeys), guards') by {
      forall k ensures k in AddReaders(st.readLocks, g.readKeys) <==> Readers(guards', k) != {}
               ensures k in AddReaders(st.readLocks, g.readKeys) ==>
                         AddReaders(st.readLocks, g.readKeys)[k] == |Readers(guards', k)| {
        ReadersAdd(guards, id, g, k);
      }
    }
  }

  lemma ReleaseKeeps(st: LockState, guards: Guards, id: nat)
    requires Represents(st, guards) && id in guards
    ensures Represents(Release(st, guards[id]), guards - {id})
  {
    var g, rest := guards[id], guards - {id};
    assert rest[id := g] == guards;
    forall k ensures k in st.writeLocks - g.writeKeys <==> Written(rest, k) {
      if k in st.writeLocks - g.writeKeys {
        var i :| i in guards && k in guards[i].writeKeys;
        assert i in rest && k in rest[i].writeKeys;
      }
      if Written(rest, k) {
        var i :| i in rest && k in rest[i].writeKeys;
        assert Compatible(guards[i], guards[id]) && k in guards[i].writeKeys;
      }
    }
    assert ReadsMatch(DropReaders(st.readLocks, g.readKeys), rest) by {
      forall k ensures k in DropReaders(st.readLocks, g.readKeys) <==> Readers(rest, k) != {}
               ensures k in DropReaders(st.readLocks, g.readKeys) ==>
                         DropReaders(st.readLocks, g.readKeys)[k] == |Readers(rest, k)| {
        ReadersAdd(rest, id, g, k);
      }
    }
  }

  /** Dropping a guard undoes exactly its acquisition, however many other guards are held. */
  lemma ReleaseUndoesAcquire(st: LockState, guards: Guards, id: nat, g: LockGuard)
    requires Represents(st, guards) && id !in guards && !Denied(st, g)
    ensures Release(Acquire(st, g), g) == st
  {
    AcquireKeeps(st, guards, id, g);
    ReleaseKeeps(Acquire(st, g), guards[id := g], id);
    assert guards[id := g] - {id} == guards;
    RepresentsUnique(Release(Acquire(st, g), g), st, guards);
  }

  // ----- every run of attempts and drops

  datatype LockOp = TryLock(group: seq<Transaction>) | DropGuard(id: nat)
  datatype Table = Table(state: LockState, guards: Guards, nextId: nat)

  function Perform(t: Table, op: LockOp): Table {
    match op
    case TryLock(group) =>
      if Denied(t.state, GuardFor(group)) then t
      else Table(Acquire(t.state, GuardFor(group)), t.guards[t.nextId := GuardFor(group)], t.nextId + 1)
    case DropGuard(id) =>
      if id in t.guards then Table(Release(t.state, t.guards[id]), t.guards - {id}, t.nextId) else t
  }

  function PerformAll(t: Table, ops: seq<LockOp>): Table {
    if ops == [] then t else Perform(PerformAll(t, ops[..|ops| - 1]), ops[|ops| - 1])
  }

  /** After any run, the table is the outstanding guards, which are pairwise compatible; with none left it is empty. */
  lemma {:induction false} EveryRunRepresents(ops: seq<LockOp>)
    ensures var t := PerformAll(Table(UNLOCKED, map[], 0), ops);
            && Represents(t.state, t.guards)
            && (forall id :: id in t.guards ==> id < t.nextId)
            && (t.guards == map[] ==> t.state == UNLOCKED)
  {
    var t := PerformAll(Table(UNLOCKED, map[], 0), ops);
    if ops != [] {
      var init, op := ops[..|ops| - 1], ops[|ops| - 1];
      EveryRunRepresents(init);
      var before := PerformAll(Table(UNLOCKED, map[], 0), init);
      match op {
        case TryLock(group) =>
          if !Denied(before.state, GuardFor(group)) {
            AcquireKeeps(before.state, before.guards, before.nextId, GuardFor(group));
          }
        case DropGuard(id) =>
          if id in before.guards {
            ReleaseKeeps(before.state, before.guards, id);
          }
      }
    }
    if t.guards == map[] {
      RepresentsUnique(t.state, UNLOCKED, map[]);
    }
  }

  // ----- the object

  method CollectGroup(group: seq<Transaction>) returns (g: LockGuard)
    ensures g == GuardFor(group)
  {
    var w, rd := {}, {};
    for i := 0 to |group|
      invariant w == GroupKeys(group[..i], true) && rd == GroupKeys(group[..i], false)
    {
      assert group[..i + 1][..i] == group[..i];
      var readSet, writeSet := CollectKeys(group[i].message.instructions);
      w, rd := w + writeSet, rd + readSet;
    }
    assert group[..|group|] == group;
    g := LockGuard(w, rd);
  }

  class AccountLocks {
    var writeLocks: set<Pubkey>
    var readLocks: map<Pubkey, nat>
    ghost var guards: Guards
    ghost var nextId: nat

    ghost predicate Valid()
      reads this
    {
      Represents(LockState(writeLocks, readLocks), guards) && forall id :: id in guards ==> id < nextId
    }

    constructor ()
      ensures Valid() && guards == map[] && writeLocks == {} && readLocks == map[]
    {
      writeLocks, readLocks, guards, nextId := {}, map[], map[], 0;
    }

    /** Fails exactly when some outstanding guard is incompatible, and then changes nothing. */
    method TryLockAccountsForGroup(group: seq<Transaction>) returns (r: Result<LockGuard, LockError>, ghost id: nat)
      requires Valid()
      modifies this
      ensures Valid()
      ensures r.Err? <==> exists i :: i in old(guards) && !Compatible(old(guards)[i], GuardFor(group))
      ensures old(guards) == map[] ==> r.Ok?
      ensures r.Err? ==> unchanged(this)
      ensures r.Ok? ==> r.value == GuardFor(group) && id !in old(guards) && guards == old(guards)[id := r.value]
    {
      ghost var st := LockState(writeLocks, readLocks);
      id := nextId;
      var g := CollectGroup(group);
      DeniedIffIncompatible(st, guards, g);
      if exists k :: k in g.writeKeys && (k in writeLocks || k in readLocks) {
        return Err(InUse), id;
      }
      if exists k :: k in g.readKeys && k in writeLocks {
        return Err(InUse), id;
      }
      AcquireKeeps(st, guards, id, g);
      AddWrites(g.writeKeys);
      AddReads(g.readKeys);
      guards, nextId := guards[id := g], nextId + 1;
      r := Ok(g);
    }

    method AddWrites(keys: set<Pubkey>)
      modifies this`writeLocks
      ensures writeLocks == old(writeLocks) + keys
    {
      var todo := keys;
      while todo != {}
        invariant todo <= keys && writeLocks == old(writeLocks) + (keys - todo)
      {
        var k :| k in todo;
        writeLocks := writeLocks + {k};
        todo := todo - {k};
      }
    }

    method AddReads(keys: set<Pubkey>)
      modifies this`readLocks
      ensures readLocks == AddReaders(old(readLocks), keys)
    {
      var todo := keys;
      while todo != {}
        invariant todo <= keys && readLocks == AddReaders(old(readLocks), keys - todo)
      {
        var k :| k in todo;
        readLocks := readLocks[k := (if k in readLocks then readLocks[k] else 0) + 1];
        todo := todo - {k};
      }
    }

    method RemoveWrites(keys: set<Pubkey>)
      modifies this`writeLocks
      ensures writeLocks == old(writeLocks) - keys
    {
      var todo := keys;
      while todo != {}
        invariant todo <= keys && writeLocks == old(writeLocks) - (keys - todo)
      {
        var k :| k in todo;
        writeLocks := writeLocks - {k};
        todo := todo - {k};
      }
    }

    method RemoveReads(keys: set<Pubkey>)
      requires forall k :: k in keys ==> k in readLocks && readLocks[k] > 0
      modifies this`readLocks
      ensures readLocks == DropReaders(old(readLocks), keys)
    {
      var todo := keys;
      while todo != {}
        invariant todo <= keys && readLocks == DropReaders(old(readLocks), keys - todo)
      {
        var k :| k in todo;
        if k in readLocks {
          if readLocks[k] - 1 == 0 {
            readLocks := readLocks - {k};
          } else {
            readLocks := readLocks[k := readLocks[k] - 1];
          }
        }
        todo := todo - {k};
      }
    }

    /** `LockGuard::drop`. */
    method DropGuard(guard: LockGuard, ghost id: nat)
      requires Valid() && id in guards && guards[id] == guard
      modifies this
      ensures Valid() && guards == old(guards) - {id}
    {
      ghost var st := LockState(writeLocks, readLocks);
      ReleaseKeeps(st, guards, id);
      if guard.writeKeys != {} || guard.readKeys != {} {
        forall k | k in guard.readKeys ensures k in readLocks && readLocks[k] > 0 {
          assert id in Readers(guards, k);
        }
        RemoveWrites(guard.writeKeys);
        RemoveReads(guard.readKeys);
      }
      assert LockState(writeLocks, readLocks) == Release(st, guard);
      guards := guards - {id};
    }
  }
}
