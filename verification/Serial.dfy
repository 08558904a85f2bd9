/**
 Executing a group of transactions against one snapshot and flushing their overlays in order,
 compared with running the same transactions one at a time.
 */
module Serial {
  import opened Types
  import Sequences

  /** Preflight and instruction execution of one transaction over its loaded accounts. */
  type Runner = (Transaction, seq<Account>) -> Result<seq<Account>, TransactionError>

  function LoadOr(s: Store, key: Pubkey): Account {
    if key in s then s[key] else FreshAccount(key)
  }

  function LoadAll(s: Store, keys: seq<Pubkey>): seq<Account> {
    seq(|keys|, i requires 0 <= i < |keys| => LoadOr(s, keys[i]))
  }

  /** The overlay after storing the given accounts, each under its own pubkey, in list order. */
  function Dirty(cells: seq<Account>): Store {
    if cells == [] then map[] else
      var last := cells[|cells| - 1];
      Dirty(cells[..|cells| - 1])[last.pubkey := last]
  }

  /** `process_single_transaction`: the overlay to flush, or the error. */
  function Process(run: Runner, s: Store, tx: Transaction): Result<Store, TransactionError> {
    match run(tx, LoadAll(s, tx.message.accountKeys))
    case Ok(cells) => Ok(Dirty(cells))
    case Err(e) => Err(e)
  }

  function Outcome(r: Result<Store, TransactionError>): Option<TransactionError> {
    match r case Ok(_) => None case Err(e) => Some(e)
  }

  function Flush(s: Store, r: Result<Store, TransactionError>): Store {
    match r case Ok(dirty) => s + dirty case Err(_) => s
  }

  // ----- the serial reference

  function SerialStore(run: Runner, s: Store, txs: seq<Transaction>): Store
    decreases |txs|
  {
    if txs == [] then s else SerialStore(run, Flush(s, Process(run, s, txs[0])), txs[1..])
  }

  function SerialOutcomes(run: Runner, s: Store, txs: seq<Transaction>): (r: seq<Option<TransactionError>>)
    ensures |r| == |txs|
    decreases |txs|
  {
    if txs == [] then [] else
      var p := Process(run, s, txs[0]);
      [Outcome(p)] + SerialOutcomes(run, Flush(s, p), txs[1..])
  }

  // ----- the parallel form

  function ParallelResults(run: Runner, snapshot: Store, txs: seq<Transaction>): seq<Result<Store, TransactionError>> {
    seq(|txs|, i requires 0 <= i < |txs| => Process(run, snapshot, txs[i]))
  }

  function Commit(s: Store, results: seq<Result<Store, TransactionError>>): Store
    decreases |results|
  {
    if results == [] then s else Commit(Flush(s, results[0]), results[1..])
  }

  function Outcomes(results: seq<Result<Store, TransactionError>>): seq<Option<TransactionError>> {
    seq(|results|, i requires 0 <= i < |results| => Outcome(results[i]))
  }

  /** The overlays of the members that succeeded, in group order. */
  function Overlays(results: seq<Result<Store, TransactionError>>): seq<Store> {
    if results == [] then []
    else (if results[0].Ok? then [results[0].value] else []) + Overlays(results[1..])
  }

  /** The writes of several overlays, later ones winning. */
  function Merge(overlays: seq<Store>): Store {
    if overlays == [] then map[] else overlays[0] + Merge(overlays[1..])
  }

  // ----- hypotheses

  ghost predicate LoadedFor(tx: Transaction, cells: seq<Account>) {
    |cells| == |tx.message.accountKeys| && forall i :: 0 <= i < |cells| ==> cells[i].pubkey == tx.message.accountKeys[i]
  }

  /** Execution keeps every account's key and changes only accounts some meta marks writable. */
  ghost predicate Framed(run: Runner, tx: Transaction) {
    forall cells: seq<Account> :: LoadedFor(tx, cells) && run(tx, cells).Ok? ==>
      LoadedFor(tx, run(tx, cells).value)
      && forall i :: 0 <= i < |cells| && cells[i].pubkey !in WriteKeys(tx) ==> run(tx, cells).value[i] == cells[i]
  }

  ghost predicate AllFramed(run: Runner, txs: seq<Transaction>) {
    forall tx :: tx in txs ==> Framed(run, tx)
  }

  /** No member loads a key that an earlier member both loads and marks writable. */
  ghost predicate NonInterfering(txs: seq<Transaction>) {
    forall i, j :: 0 <= i < j < |txs| ==> Apart(txs[i], txs[j])
  }

  ghost predicate Apart(earlier: Transaction, later: Transaction) {
    LoadedKeys(earlier) * WriteKeys(earlier) !! LoadedKeys(later)
  }

  // ----- one overlay

  lemma {:induction false} DirtyEntries(cells: seq<Account>)
    ensures WellKeyed(Dirty(cells))
    ensures forall k :: k in Dirty(cells) <==> exists i :: 0 <= i < |cells| && cells[i].pubkey == k
    ensures forall k :: k in Dirty(cells) ==> Dirty(cells)[k] in cells
  {
    if cells != [] {
      var init, last := cells[..|cells| - 1], cells[|cells| - 1];
      DirtyEntries(init);
      forall k ensures k in Dirty(cells) <==> exists i :: 0 <= i < |cells| && cells[i].pubkey == k {
        if k in Dirty(init) {
          var i :| 0 <= i < |init| && init[i].pubkey == k;
          assert cells[i].pubkey == k;
        }
        if i :| 0 <= i < |cells| && cells[i].pubkey == k {
          if i < |init| {
            assert init[i].pubkey == k;
          }
        }
      }
    }
  }

  /** An overlay holds exactly the loaded keys, and writes back unmarked accounts unchanged. */
  lemma OverlayShape(run: Runner, s: Store, tx: Transaction)
    requires WellKeyed(s) && Framed(run, tx) && Process(run, s, tx).Ok?
    ensures var d := Process(run, s, tx).value;
            && WellKeyed(d)
            && d.Keys == LoadedKeys(tx)
            && forall k :: k in d && k !in WriteKeys(tx) ==> d[k] == LoadOr(s, k)
  {
    var keys := tx.message.accountKeys;
    var cells := LoadAll(s, keys);
    assert LoadedFor(tx, cells);
    var out := run(tx, cells).value;
    var d := Process(run, s, tx).value;
    DirtyEntries(out);
    forall k ensures k in d <==> k in LoadedKeys(tx) {
      if k in LoadedKeys(tx) {
        var i :| 0 <= i < |keys| && keys[i] == k;
        assert out[i].pubkey == k;
      }
    }
    forall k | k in d && k !in WriteKeys(tx) ensures d[k] == LoadOr(s, k) {
      var i :| 0 <= i < |out| && out[i] == d[k];
      assert out[i].pubkey == k;
    }
  }

  lemma SameLoads(run: Runner, s: Store, s': Store, tx: Transaction)
    requires forall k :: k in LoadedKeys(tx) ==> LoadOr(s, k) == LoadOr(s', k)
    ensures Process(run, s, tx) == Process(run, s', tx)
  {
    var keys := tx.message.accountKeys;
    assert LoadAll(s, keys) == LoadAll(s', keys) by {
      forall i | 0 <= i < |keys| ensures LoadOr(s, keys[i]) == LoadOr(s', keys[i]) {
        assert keys[i] in LoadedKeys(tx);
      }
    }
  }

  lemma FlushKeyed(run: Runner, s: Store, snapshot: Store, tx: Transaction)
    requires WellKeyed(s)
    ensures WellKeyed(Flush(s, Process(run, snapshot, tx)))
  {
    var r := run(tx, LoadAll(snapshot, tx.message.accountKeys));
    if r.Ok? {
      DirtyEntries(r.value);
    }
  }

  // ----- the group theorem

  ghost predicate SeesSnapshot(snapshot: Store, s: Store, txs: seq<Transaction>) {
    forall i, k :: 0 <= i < |txs| && k in LoadedKeys(txs[i]) ==> LoadOr(snapshot, k) == LoadOr(s, k)
  }

  /** Flushing the first member hides nothing from the others. */
  lemma SeesAfterFlush(run: Runner, snapshot: Store, s: Store, txs: seq<Transaction>)
    requires txs != [] && WellKeyed(snapshot) && Framed(run, txs[0]) && NonInterfering(txs)
    requires SeesSnapshot(snapshot, s, txs)
    ensures SeesSnapshot(snapshot, Flush(s, Process(run, snapshot, txs[0])), txs[1..])
  {
    var p := Process(run, snapshot, txs[0]);
    forall i, k | 0 <= i < |txs[1..]| && k in LoadedKeys(txs[1..][i])
      ensures LoadOr(snapshot, k) == LoadOr(Flush(s, p), k)
    {
      assert k in LoadedKeys(txs[i + 1]) && Apart(txs[0], txs[i + 1]);
      if p.Ok? && k in p.value {
        OverlayShape(run, snapshot, txs[0]);
      }
    }
  }

  lemma ParallelSplit(run: Runner, snapshot: Store, txs: seq<Transaction>)
    requires txs != []
    ensures var results := ParallelResults(run, snapshot, txs);
            && results[0] == Process(run, snapshot, txs[0])
            && results[1..] == ParallelResults(run, snapshot, txs[1..])
            && Outcomes(results) == [Outcome(results[0])] + Outcomes(results[1..])
  {
    var results := ParallelResults(run, snapshot, txs);
    var outs := [Outcome(results[0])] + Outcomes(results[1..]);
    assert forall i :: 0 <= i < |results| ==> outs[i] == Outcome(results[i]);
    assert results[1..] == ParallelResults(run, snapshot, txs[1..]);
  }

  lemma {:induction false} CommitFollowsSerial(run: Runner, snapshot: Store, s: Store, txs: seq<Transaction>)
    requires WellKeyed(snapshot) && WellKeyed(s) && AllFramed(run, txs) && NonInterfering(txs)
    requires SeesSnapshot(snapshot, s, txs)
    ensures Commit(s, ParallelResults(run, snapshot, txs)) == SerialStore(run, s, txs)
    ensures Outcomes(ParallelResults(run, snapshot, txs)) == SerialOutcomes(run, s, txs)
    decreases |txs|
  {
    if txs != [] {
      assert Framed(run, txs[0]) && Process(run, s, txs[0]) == Process(run, snapshot, txs[0]) by {
        assert txs[0] in txs;
        SameLoads(run, snapshot, s, txs[0]);
      }
      var p := Process(run, snapshot, txs[0]);
      FlushKeyed(run, s, snapshot, txs[0]);
      SeesAfterFlush(run, snapshot, s, txs);
      CommitFollowsSerial(run, snapshot, Flush(s, p), txs[1..]);
      ParallelSplit(run, snapshot, txs);
    }
  }

  /** Parallel execution of a group is invisible: same store, same outcomes as running it in order. */
  lemma GroupIsSerial(run: Runner, s: Store, txs: seq<Transaction>)
    requires WellKeyed(s) && AllFramed(run, txs) && NonInterfering(txs)
    ensures Commit(s, ParallelResults(run, s, txs)) == SerialStore(run, s, txs)
    ensures Outcomes(ParallelResults(run, s, txs)) == SerialOutcomes(run, s, txs)
  {
    CommitFollowsSerial(run, s, s, txs);
  }

  lemma {:induction false} SerialKeyed(run: Runner, s: Store, txs: seq<Transaction>)
    requires WellKeyed(s)
    ensures WellKeyed(SerialStore(run, s, txs))
    decreases |txs|
  {
    if txs != [] {
      FlushKeyed(run, s, s, txs[0]);
      SerialKeyed(run, Flush(s, Process(run, s, txs[0])), txs[1..]);
    }
  }

  lemma {:induction false} SerialConcat(run: Runner, s: Store, a: seq<Transaction>, b: seq<Transaction>)
    ensures SerialStore(run, s, a + b) == SerialStore(run, SerialStore(run, s, a), b)
    ensures SerialOutcomes(run, s, a + b)
         == SerialOutcomes(run, s, a) + SerialOutcomes(run, SerialStore(run, s, a), b)
    decreases |a|
  {
    if a == [] {
      assert a + b == b;
    } else {
      assert (a + b)[0] == a[0] && (a + b)[1..] == a[1..] + b;
      SerialConcat(run, Flush(s, Process(run, s, a[0])), a[1..], b);
    }
  }

  lemma {:induction false} CommitIsMerge(s: Store, results: seq<Result<Store, TransactionError>>)
    ensures Commit(s, results) == s + Merge(Overlays(results))
    decreases |results|
  {
    if results != [] {
      CommitIsMerge(Flush(s, results[0]), results[1..]);
      var tail := Overlays(results[1..]);
      if results[0].Ok? {
        assert ([results[0].value] + tail)[1..] == tail;
      } else {
        assert [] + tail == tail;
      }
    }
  }

  lemma OverrideAssoc(a: Store, b: Store, c: Store)
    ensures (a + b) + c == a + (b + c)
  {
  }

  lemma {:induction false} MergeSnoc(overlays: seq<Store>, last: Store)
    ensures Merge(overlays + [last]) == Merge(overlays) + last
    decreases |overlays|
  {
    if overlays == [] {
      assert overlays + [last] == [last];
    } else {
      assert (overlays + [last])[1..] == overlays[1..] + [last];
      MergeSnoc(overlays[1..], last);
    }
  }

  lemma {:induction false} OverlaysSnoc(results: seq<Result<Store, TransactionError>>, last: Result<Store, TransactionError>)
    ensures Overlays(results + [last]) == Overlays(results) + if last.Ok? then [last.value] else []
    decreases |results|
  {
    if results == [] {
      assert results + [last] == [last];
    } else {
      assert (results + [last])[1..] == results[1..] + [last];
      OverlaysSnoc(results[1..], last);
      Sequences.Assoc(if results[0].Ok? then [results[0].value] else [], Overlays(results[1..]), if last.Ok? then [last.value] else []);
    }
  }

  lemma {:induction false} ParallelSnoc(run: Runner, snapshot: Store, txs: seq<Transaction>, p: nat)
    requires p < |txs|
    ensures ParallelResults(run, snapshot, txs[..p + 1])
         == ParallelResults(run, snapshot, txs[..p]) + [Process(run, snapshot, txs[p])]
  {
  }
}
