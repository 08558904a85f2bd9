/** The recent-blockhash queue along a chain of banks, and the preflight check against it. */
module BlockhashQueue {
  import opened Types

  const MAX_BLOCKHASH_QUEUE_DEPTH := 150

  datatype BlockhashInfo = BlockhashInfo(hash: Hash, createdAtSlot: U64)

  /** The part of a bank the blockhash rules read. */
  datatype BankView = BankView(slot: U64, queue: seq<BlockhashInfo>, frozen: bool)

  const GENESIS_ENTRY := BlockhashInfo(Hash(ZERO32), 0)
  const GENESIS := BankView(0, [GENESIS_ENTRY], false)

  /** `Bank::new_from_parent`, where `hash` is the hash the frozen parent reports. */
  function Child(parent: BankView, hash: Hash): BankView
    requires parent.slot < U64_MAX
  {
    var pushed := parent.queue + [BlockhashInfo(hash, parent.slot)];
    BankView(parent.slot + 1, if |pushed| > MAX_BLOCKHASH_QUEUE_DEPTH then pushed[1..] else pushed, false)
  }

  function LastValidSlot(info: BlockhashInfo): U64 {
    SatAdd(info.createdAtSlot, MAX_BLOCKHASH_QUEUE_DEPTH)
  }

  /** The oldest entry with this hash, as `iter().find` returns it. */
  function Find(queue: seq<BlockhashInfo>, hash: Hash): Option<BlockhashInfo> {
    if queue == [] then None
    else if queue[0].hash == hash then Some(queue[0])
    else Find(queue[1..], hash)
  }

  /** `check_preflight_rules`. */
  function CheckPreflight(bank: BankView, tx: Transaction): Result<(), TransactionError> {
    if bank.frozen then Err(Program(InternalError("bank is frozen"))) else
      match Find(bank.queue, tx.message.recentBlockhash)
      case None => Err(BlockhashNotFound)
      case Some(info) => if bank.slot > LastValidSlot(info) then Err(BlockhashExpired) else Ok(())
  }

  /** What `getLatestBlockhash` advertises as the last valid block height. */
  function Advertised(bank: BankView): nat {
    if bank.queue == [] then 0 else bank.queue[|bank.queue| - 1].createdAtSlot + MAX_BLOCKHASH_QUEUE_DEPTH
  }

  lemma {:induction false} FindOldest(queue: seq<BlockhashInfo>, hash: Hash, i: nat)
    requires i < |queue| && queue[i].hash == hash && forall j :: 0 <= j < i ==> queue[j].hash != hash
    ensures Find(queue, hash) == Some(queue[i])
  {
    if i > 0 {
      FindOldest(queue[1..], hash, i - 1);
    }
  }

  lemma {:induction false} FindsNothing(queue: seq<BlockhashInfo>, hash: Hash)
    ensures Find(queue, hash).None? <==> forall i :: 0 <= i < |queue| ==> queue[i].hash != hash
  {
    if queue != [] {
      FindsNothing(queue[1..], hash);
      assert forall i :: 0 < i < |queue| ==> queue[i] == queue[1..][i - 1];
    }
  }

  /**
   Preflight on any bank, of a chain or not: a frozen bank refuses everything; otherwise the oldest entry with the hash decides,
   and it expires when the slot is more than 150 past its own.
   */
  lemma {:induction false} PreflightExact(bank: BankView, tx: Transaction, i: nat)
    ensures bank.frozen <==> CheckPreflight(bank, tx).Err? && CheckPreflight(bank, tx).error.Program?
    ensures !bank.frozen && (forall j :: 0 <= j < |bank.queue| ==> bank.queue[j].hash != tx.message.recentBlockhash) ==>
      CheckPreflight(bank, tx) == Err(BlockhashNotFound)
    ensures
      && !bank.frozen && i < |bank.queue| && bank.queue[i].hash == tx.message.recentBlockhash
      && (forall j :: 0 <= j < i ==> bank.queue[j].hash != tx.message.recentBlockhash) ==>
        CheckPreflight(bank, tx) == if bank.slot > bank.queue[i].createdAtSlot + 150 then Err(BlockhashExpired) else Ok(())
  {
    var hash := tx.message.recentBlockhash;
    FindsNothing(bank.queue, hash);
    if i < |bank.queue| && bank.queue[i].hash == hash && forall j :: 0 <= j < i ==> bank.queue[j].hash != hash {
      FindOldest(bank.queue, hash, i);
    }
  }

  // ----- chains: one hash per frozen ancestor

  type Chain = roots: seq<Hash> | |roots| <= U64_MAX

  function BankAt(roots: Chain): (b: BankView)
    ensures b.slot == |roots|
  {
    if roots == [] then GENESIS else Child(BankAt(roots[..|roots| - 1]), roots[|roots| - 1])
  }

  /** Every entry ever pushed, oldest first. */
  function History(roots: Chain): seq<BlockhashInfo> {
    [GENESIS_ENTRY] + seq(|roots|, i requires 0 <= i < |roots| => BlockhashInfo(roots[i], i))
  }

  /** The queue is the last 150 entries of the history. */
  lemma {:induction false} QueueIsRecentHistory(roots: Chain)
    ensures var q := BankAt(roots).queue; var all := History(roots);
            && |q| == (if |all| < 150 then |all| else 150)
            && q == all[|all| - |q|..]
  {
    if roots != [] {
      var n := |roots| - 1;
      QueueIsRecentHistory(roots[..n]);
      assert History(roots) == History(roots[..n]) + [BlockhashInfo(roots[n], n)];
    }
  }

  /** The queue's i-th entry, counted from the position of its first one in the history. */
  lemma {:induction false} QueueEntry(roots: Chain, i: nat)
    requires i < |BankAt(roots).queue|
    ensures var first := if |roots| < 150 then 0 else |roots| + 1 - 150;
            && |BankAt(roots).queue| == |roots| + 1 - first
            && BankAt(roots).queue[i] == History(roots)[first + i]
  {
    QueueIsRecentHistory(roots);
  }

  /** No entry in a chain's queue is ever past its expiry slot. */
  lemma {:induction false} NeverStale(roots: Chain, info: BlockhashInfo)
    requires info in BankAt(roots).queue
    ensures BankAt(roots).slot <= LastValidSlot(info)
  {
    var i :| 0 <= i < |BankAt(roots).queue| && BankAt(roots).queue[i] == info;
    QueueEntry(roots, i);
  }

  lemma {:induction false} FindFinds(queue: seq<BlockhashInfo>, hash: Hash)
    ensures Find(queue, hash).Some? <==> exists i :: 0 <= i < |queue| && queue[i].hash == hash
    ensures Find(queue, hash).Some? ==> Find(queue, hash).value in queue
  {
    if queue != [] {
      FindFinds(queue[1..], hash);
      if i :| 0 <= i < |queue| && queue[i].hash == hash && i > 0 {
        assert queue[1..][i - 1].hash == hash;
      }
    }
  }

  /** On an unfrozen bank of a chain, preflight is exactly queue membership; BlockhashExpired never happens. */
  lemma {:induction false} PreflightIsMembership(roots: Chain, tx: Transaction)
    ensures var r := CheckPreflight(BankAt(roots), tx);
            && (r.Ok? <==> exists info :: info in BankAt(roots).queue && info.hash == tx.message.recentBlockhash)
            && (r.Err? ==> r.error == BlockhashNotFound)
  {
    var b := BankAt(roots);
    FindFinds(b.queue, tx.message.recentBlockhash);
    var found := Find(b.queue, tx.message.recentBlockhash);
    if found.Some? {
      NeverStale(roots, found.value);
    }
  }

  lemma {:induction false} EntryAt(roots: Chain, c: nat, info: BlockhashInfo)
    requires info != GENESIS_ENTRY && info.createdAtSlot == c && (c < |roots| ==> info.hash == roots[c])
    ensures info in BankAt(roots).queue <==> c < |roots| <= c + 150
  {
    var q := BankAt(roots).queue;
    assert |q| == if |roots| + 1 < 150 then |roots| + 1 else 150 by {
      QueueIsRecentHistory(roots);
    }
    var first := |roots| + 1 - |q|;
    if c < |roots| <= c + 150 {
      QueueEntry(roots, c + 1 - first);
    }
    if i :| 0 <= i < |q| && q[i] == info {
      QueueEntry(roots, i);
    }
  }

  /** A slot's entry is in the queue of exactly the next 150 slots. */
  lemma {:induction false} EntryWindow(roots: Chain, c: nat)
    requires c < |roots| && BlockhashInfo(roots[c], c) != GENESIS_ENTRY
    ensures forall s :: 0 <= s <= |roots| ==>
      (BlockhashInfo(roots[c], c) in BankAt(roots[..s]).queue <==> c < s <= c + 150)
  {
    forall s | 0 <= s <= |roots|
      ensures BlockhashInfo(roots[c], c) in BankAt(roots[..s]).queue <==> c < s <= c + 150
    {
      EntryAt(roots[..s], c, BlockhashInfo(roots[c], c));
    }
  }

  /** Slot c reported this hash, and its entry has not left the queue. */
  ghost predicate ReportedBy(roots: Chain, c: nat, hash: Hash) {
    c < |roots| <= c + 150 && roots[c] == hash
  }

  ghost predicate Recent(roots: Chain, hash: Hash) {
    (exists c :: ReportedBy(roots, c, hash)) || (hash == Hash(ZERO32) && |roots| < 150)
  }

  lemma {:induction false} QueuedFrom(roots: Chain, info: BlockhashInfo)
    requires info in BankAt(roots).queue
    ensures ReportedBy(roots, info.createdAtSlot, info.hash)
         || (info == GENESIS_ENTRY && |roots| < 150)
  {
    var q := BankAt(roots).queue;
    var i :| 0 <= i < |q| && q[i] == info;
    QueueEntry(roots, i);
  }

  lemma {:induction false} ReportedIsQueued(roots: Chain, c: nat, hash: Hash)
    requires ReportedBy(roots, c, hash)
    ensures BlockhashInfo(hash, c) in BankAt(roots).queue
  {
    QueueIsRecentHistory(roots);
    var first := |roots| + 1 - |BankAt(roots).queue|;
    QueueEntry(roots, c + 1 - first);
  }

  lemma {:induction false} GenesisIsQueued(roots: Chain)
    requires |roots| < 150
    ensures GENESIS_ENTRY in BankAt(roots).queue
  {
    QueueIsRecentHistory(roots);
    QueueEntry(roots, 0);
  }

  /** A hash is accepted exactly if one of the last 150 slots reported it, or it is the genesis hash before slot 150. */
  lemma {:induction false} PreflightIff(roots: Chain, tx: Transaction)
    ensures CheckPreflight(BankAt(roots), tx).Ok? <==> Recent(roots, tx.message.recentBlockhash)
  {
    var hash := tx.message.recentBlockhash;
    PreflightIsMembership(roots, tx);
    if info :| info in BankAt(roots).queue && info.hash == hash {
      QueuedFrom(roots, info);
    }
    if c :| ReportedBy(roots, c, hash) {
      ReportedIsQueued(roots, c, hash);
    } else if hash == Hash(ZERO32) && |roots| < 150 {
      GenesisIsQueued(roots);
    }
  }

  /**
   The newest hash of a bank is accepted through its advertised height, and later exactly while a later slot that reported
   the same hash is among the last 150.
   */
  lemma {:induction false} AdvertisedIsExact(roots: Chain, later: seq<Hash>, tx: Transaction)
    requires roots != [] && |roots + later| <= U64_MAX && tx.message.recentBlockhash == roots[|roots| - 1]
    ensures Advertised(BankAt(roots)) == |roots| - 1 + 150
    ensures CheckPreflight(BankAt(roots + later), tx).Ok? <==>
      || |roots + later| <= |roots| - 1 + 150
      || exists c :: c >= |roots| && ReportedBy(roots + later, c, tx.message.recentBlockhash)
  {
    var all: Chain := roots + later;
    var hash := tx.message.recentBlockhash;
    PreflightIff(all, tx);
    QueueEntry(roots, |BankAt(roots).queue| - 1);
    if |all| <= |roots| - 1 + 150 {
      assert ReportedBy(all, |roots| - 1, hash);
    }
  }

  /** The genesis entry leaves one slot early: advertised through slot 150, gone at slot 150. */
  lemma {:induction false} GenesisLeavesEarly(roots: Chain)
    requires roots == [] || roots[0] != Hash(ZERO32)
    ensures GENESIS_ENTRY in BankAt(roots).queue <==> |roots| < 150
    ensures Advertised(BankAt([])) == 150
  {
    QueueIsRecentHistory(roots);
    var q, all := BankAt(roots).queue, History(roots);
    if |roots| < 150 {
      assert q[0] == all[0];
    }
    if GENESIS_ENTRY in q {
      var i :| 0 <= i < |q| && q[i] == GENESIS_ENTRY;
      assert all[|all| - |q| + i] == GENESIS_ENTRY;
    }
  }
}
