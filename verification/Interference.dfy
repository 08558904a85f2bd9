/** Non-interference is not only enough for the group theorem: it is exactly what the theorem needs. */
module Interference {
  import opened Types
  import opened Serial

  /** Parallel commit equals serial execution whatever the (framed) programs and the starting store. */
  ghost predicate ParallelInvisible(txs: seq<Transaction>) {
    forall run: Runner, s: Store :: WellKeyed(s) && AllFramed(run, txs) ==>
      Commit(s, ParallelResults(run, s, txs)) == SerialStore(run, s, txs)
  }

  // A program that appends one byte to account k wherever k is writable.

  function BumpCells(k: Pubkey, cells: seq<Account>): seq<Account> {
    seq(|cells|, i requires 0 <= i < |cells| =>
      if cells[i].pubkey == k then cells[i].(data := cells[i].data + [0]) else cells[i])
  }

  function Bump(k: Pubkey): Runner {
    (tx: Transaction, cells: seq<Account>) => if k in WriteKeys(tx) then Ok(BumpCells(k, cells)) else Ok(cells)
  }

  ghost function Len(s: Store, k: Pubkey): nat {
    |LoadOr(s, k).data|
  }

  predicate Touches(tx: Transaction, k: Pubkey) {
    k in LoadedKeys(tx)
  }

  function Bit(tx: Transaction, k: Pubkey): nat {
    if k in WriteKeys(tx) then 1 else 0
  }

  function Writers(txs: seq<Transaction>, k: Pubkey): nat {
    if txs == [] then 0 else (if Touches(txs[0], k) then Bit(txs[0], k) else 0) + Writers(txs[1..], k)
  }

  /** What the last member touching k contributes to it, if any does. */
  function LastBit(txs: seq<Transaction>, k: Pubkey): Option<nat> {
    if txs == [] then None
    else if LastBit(txs[1..], k).Some? then LastBit(txs[1..], k)
    else if Touches(txs[0], k) then Some(Bit(txs[0], k))
    else None
  }

  lemma BumpFramed(k: Pubkey, txs: seq<Transaction>)
    ensures AllFramed(Bump(k), txs)
  {
    forall tx | tx in txs ensures Framed(Bump(k), tx) {
      BumpKeepsFrame(k, tx);
    }
  }

  lemma BumpKeepsFrame(k: Pubkey, tx: Transaction)
    ensures Framed(Bump(k), tx)
  {
  }

  lemma OneBump(s: Store, tx: Transaction, k: Pubkey)
    requires WellKeyed(s)
    ensures var p := Process(Bump(k), s, tx);
            && p.Ok? && WellKeyed(p.value) && p.value.Keys == LoadedKeys(tx)
            && (Touches(tx, k) ==> |p.value[k].data| == Len(s, k) + Bit(tx, k))
  {
    BumpKeepsFrame(k, tx);
    OverlayShape(Bump(k), s, tx);
    if Touches(tx, k) {
      BumpedData(s, tx, k);
    }
  }

  lemma BumpedData(s: Store, tx: Transaction, k: Pubkey)
    requires WellKeyed(s) && Touches(tx, k)
    ensures var p := Process(Bump(k), s, tx);
            p.Ok? && k in p.value && |p.value[k].data| == Len(s, k) + Bit(tx, k)
  {
    var cells := LoadAll(s, tx.message.accountKeys);
    DirtyEntries(Bump(k)(tx, cells).value);
    var i :| 0 <= i < |cells| && tx.message.accountKeys[i] == k;
    assert Bump(k)(tx, cells).value[i].pubkey == k;
  }

  lemma {:induction false} SerialCount(s: Store, txs: seq<Transaction>, k: Pubkey)
    requires WellKeyed(s)
    ensures Len(SerialStore(Bump(k), s, txs), k) == Len(s, k) + Writers(txs, k)
    decreases |txs|
  {
    if txs != [] {
      OneBump(s, txs[0], k);
      SerialCount(Flush(s, Process(Bump(k), s, txs[0])), txs[1..], k);
    }
  }

  lemma {:induction false} ParallelCount(snapshot: Store, s: Store, txs: seq<Transaction>, k: Pubkey)
    requires WellKeyed(snapshot)
    ensures Len(Commit(s, ParallelResults(Bump(k), snapshot, txs)), k)
         == match LastBit(txs, k) case None => Len(s, k) case Some(b) => Len(snapshot, k) + b
    decreases |txs|
  {
    if txs != [] {
      OneBump(snapshot, txs[0], k);
      ParallelCount(snapshot, Flush(s, Process(Bump(k), snapshot, txs[0])), txs[1..], k);
      ParallelSplit(Bump(k), snapshot, txs);
    }
  }

  lemma {:induction false} LastBitBounded(txs: seq<Transaction>, k: Pubkey)
    ensures LastBit(txs, k).Some? ==> LastBit(txs, k).value <= Writers(txs, k)
    ensures (exists j :: 0 <= j < |txs| && Touches(txs[j], k)) ==> LastBit(txs, k).Some?
  {
    if txs != [] {
      LastBitBounded(txs[1..], k);
      forall j | 0 <= j < |txs| && Touches(txs[j], k) ensures LastBit(txs, k).Some? {
        if j > 0 {
          assert Touches(txs[1..][j - 1], k);
        }
      }
    }
  }

  /** A writer followed by another toucher makes serial and parallel disagree on k. */
  lemma {:induction false} LostBump(txs: seq<Transaction>, k: Pubkey, i: nat, j: nat)
    requires i < j < |txs| && Touches(txs[i], k) && k in WriteKeys(txs[i]) && Touches(txs[j], k)
    ensures LastBit(txs, k).Some? && LastBit(txs, k).value < Writers(txs, k)
  {
    assert txs[1..][j - 1] == txs[j];
    LastBitBounded(txs[1..], k);
    if i > 0 {
      LostBump(txs[1..], k, i - 1, j - 1);
    }
  }

  lemma InvisibleIffNonInterfering(txs: seq<Transaction>)
    ensures ParallelInvisible(txs) <==> NonInterfering(txs)
  {
    if NonInterfering(txs) {
      forall run: Runner, s: Store | WellKeyed(s) && AllFramed(run, txs)
        ensures Commit(s, ParallelResults(run, s, txs)) == SerialStore(run, s, txs)
      {
        GroupIsSerial(run, s, txs);
      }
    } else {
      var i, j :| 0 <= i < j < |txs| && !Apart(txs[i], txs[j]);
      var k :| k in LoadedKeys(txs[i]) * WriteKeys(txs[i]) && k in LoadedKeys(txs[j]);
      var s: Store := map[];
      BumpFramed(k, txs);
      SerialCount(s, txs, k);
      ParallelCount(s, s, txs, k);
      LostBump(txs, k, i, j);
      assert Commit(s, ParallelResults(Bump(k), s, txs)) != SerialStore(Bump(k), s, txs);
    }
  }
}
