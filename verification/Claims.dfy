/**
 Lock holders as claims on a shared store: what each may touch, and what it still owes.  The ledger relates the visible
 store to the serial store that all recorded groups together will reach.
 */
module Claims {
  import opened Types
  import opened Serial

  datatype Claim = Claim(locked: set<Pubkey>, written: set<Pubkey>, executing: bool, pending: Store)

  ghost predicate Agree(a: Store, b: Store, k: Pubkey) {
    (k in a <==> k in b) && (k in a ==> a[k] == b[k])
  }

  /** The overlay writes locked keys only, and gives keys that are only read-locked their serial value. */
  ghost predicate Legit(done: Store, locked: set<Pubkey>, written: set<Pubkey>, overlay: Store) {
    forall k :: k in overlay ==> k in locked && (k !in written ==> overlay[k] == LoadOr(done, k))
  }

  /** Until it commits, a holder sees the serial store on every locked key; afterwards still on read-locked ones. */
  ghost predicate SeesDone(store: Store, done: Store, c: Claim) {
    forall k :: k in c.locked && (c.executing || k !in c.written) ==> LoadOr(store, k) == LoadOr(done, k)
  }

  /** What a holder owes lies under its locks and is what the serial store holds. */
  ghost predicate Promised(done: Store, c: Claim) {
    forall k :: k in c.pending ==> k in c.locked && k in done && done[k] == c.pending[k]
  }

  ghost predicate ClaimOk(store: Store, done: Store, c: Claim) {
    SeesDone(store, done, c) && Promised(done, c)
  }

  ghost predicate Unowed(claims: map<nat, Claim>, k: Pubkey) {
    forall c :: c in claims ==> k !in claims[c].pending
  }

  ghost predicate Separate(a: Claim, b: Claim) {
    a.written !! b.locked && b.written !! a.locked
  }

  /** Every claim holds, and a key nobody owes already has its serial value. */
  ghost predicate LedgerOk(store: Store, done: Store, claims: map<nat, Claim>) {
    && (forall c :: c in claims ==> ClaimOk(store, done, claims[c]))
    && (forall k :: Unowed(claims, k) ==> Agree(store, done, k))
  }

  /** On any key a separate newcomer locks, the store already shows the serial value. */
  lemma VisibleValue(store: Store, done: Store, claims: map<nat, Claim>, n: Claim, k: Pubkey)
    requires LedgerOk(store, done, claims) && k in n.locked
    requires forall c :: c in claims ==> Separate(claims[c], n)
    ensures LoadOr(store, k) == LoadOr(done, k)
  {
    if !Unowed(claims, k) {
      var c :| c in claims && k in claims[c].pending;
      assert ClaimOk(store, done, claims[c]) && Separate(claims[c], n);
    }
  }

  lemma StillUnowed(claims: map<nat, Claim>, claims': map<nat, Claim>, id: nat, k: Pubkey)
    requires Unowed(claims', k) && forall c :: c in claims && c != id ==> c in claims' && claims'[c] == claims[c]
    requires id in claims ==> k !in claims[id].pending
    ensures Unowed(claims, k)
  {
    forall c | c in claims ensures k !in claims[c].pending {
      assert c != id ==> claims'[c] == claims[c];
    }
  }

  /** A newcomer separate from every holder joins, owing nothing. */
  lemma AddClaim(store: Store, done: Store, claims: map<nat, Claim>, id: nat, n: Claim)
    requires LedgerOk(store, done, claims) && id !in claims && n.pending == map[]
    requires forall c :: c in claims ==> Separate(claims[c], n)
    ensures LedgerOk(store, done, claims[id := n])
  {
    var claims' := claims[id := n];
    forall c | c in claims' ensures ClaimOk(store, done, claims'[c]) {
      if c == id {
        forall k | k in n.locked ensures LoadOr(store, k) == LoadOr(done, k) {
          VisibleValue(store, done, claims, n, k);
        }
      } else {
        assert ClaimOk(store, done, claims[c]);
      }
    }
    forall k | Unowed(claims', k) ensures Agree(store, done, k) {
      StillUnowed(claims, claims', id, k);
    }
  }

  /** A holder's writes become part of the serial store, and its debt. */
  lemma StartCommit(store: Store, done: Store, claims: map<nat, Claim>, id: nat, owed: Store)
    requires LedgerOk(store, done, claims) && id in claims && claims[id].executing && claims[id].pending == map[]
    requires forall c :: c in claims && c != id ==> Separate(claims[c], claims[id])
    requires Legit(done, claims[id].locked, claims[id].written, owed)
    ensures LedgerOk(store, done + owed, claims[id := claims[id].(executing := false, pending := owed)])
  {
    var claims' := claims[id := claims[id].(executing := false, pending := owed)];
    forall c | c in claims' ensures ClaimOk(store, done + owed, claims'[c]) {
      assert ClaimOk(store, done, claims[c]);
      if c != id {
        assert claims'[c] == claims[c] && Separate(claims[c], claims[id]);
      }
    }
    forall k | Unowed(claims', k) ensures Agree(store, done + owed, k) {
      assert k !in claims'[id].pending;
      StillUnowed(claims, claims', id, k);
    }
  }

  /** Key k leaves the debt, unless the claim still owes k a later value. */
  ghost predicate Paid(before: Store, after: Store, k: Pubkey, v: Account) {
    && k in before
    && (forall x :: x != k ==> Agree(before, after, x))
    && (if k in after then after[k] == before[k] else before[k] == v)
  }

  lemma FlushClaim(store: Store, done: Store, claims: map<nat, Claim>, id: nat, k: Pubkey, v: Account, after: Store)
    requires LedgerOk(store, done, claims) && id in claims && !claims[id].executing
    requires forall c :: c in claims && c != id ==> Separate(claims[c], claims[id])
    requires k !in claims[id].written ==> v == LoadOr(done, k)
    requires Paid(claims[id].pending, after, k, v)
    ensures LedgerOk(store[k := v], done, claims[id := claims[id].(pending := after)])
  {
    var me := claims[id];
    var store', claims' := store[k := v], claims[id := me.(pending := after)];
    assert ClaimOk(store, done, me);
    forall c | c in claims' ensures ClaimOk(store', done, claims'[c]) {
      if c == id {
        forall x | x in after ensures x in me.pending && me.pending[x] == after[x] {
          assert x != k ==> Agree(me.pending, after, x);
        }
      } else {
        assert ClaimOk(store, done, claims[c]) && Separate(claims[c], me);
      }
    }
    forall x | Unowed(claims', x) ensures Agree(store', done, x) {
      assert x !in claims'[id].pending;
      if x != k {
        assert Agree(me.pending, after, x);
        StillUnowed(claims, claims', id, x);
      }
    }
  }

  /** Whoever owes nothing may leave: a group that is committed, and one that gave up before it was recorded. */
  lemma DropClaim(store: Store, done: Store, claims: map<nat, Claim>, id: nat)
    requires LedgerOk(store, done, claims) && id in claims && claims[id].pending == map[]
    ensures LedgerOk(store, done, claims - {id})
  {
    forall k | Unowed(claims - {id}, k) ensures Agree(store, done, k) {
      StillUnowed(claims, claims - {id}, id, k);
    }
  }

  lemma AllSettled(store: Store, done: Store)
    requires LedgerOk(store, done, map[])
    ensures store == done
  {
    forall k ensures (k in store <==> k in done) && (k in store ==> store[k] == done[k]) {
      assert Unowed(map[], k);
      assert Agree(store, done, k);
    }
    assert store.Keys == done.Keys;
  }
}
