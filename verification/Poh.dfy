/** The proof-of-history recorder: a hash chain with ticks and slots, and what its entries prove. */
module Poh {
  import opened Types
  import opened Merkle
  import opened MerkleSoundness

  datatype Entry = Entry(hash: Hash, numHashes: nat, transactionsHash: Hash)

  datatype Recorder = Recorder(
    currentHash: Hash, numHashes: nat, ticksPerSlot: nat, hashesPerTick: nat,
    maxTickHeight: nat, hashesSinceLastTick: nat, tickCount: nat, slot: nat)

  function Input(h: Hash, mixed: Option<Hash>): seq<Byte> {
    match mixed case None => h.bytes case Some(t) => h.bytes + t.bytes
  }

  function Plain(sha: Sha, h: Hash, n: nat): Hash {
    if n == 0 then h else Hash(sha(Plain(sha, h, n - 1).bytes))
  }

  function Mix(sha: Sha, h: Hash, t: Hash): Hash {
    Hash(sha(h.bytes + t.bytes))
  }

  function New(initial: Hash, ticksPerSlot: nat, hashesPerTick: nat): Recorder {
    Recorder(initial, 0, ticksPerSlot, hashesPerTick, ticksPerSlot, 0, 0, 0)
  }

  function HashedOn(sha: Sha, r: Recorder, n: nat): Recorder {
    r.(currentHash := Plain(sha, r.currentHash, n), numHashes := r.numHashes + n, hashesSinceLastTick := r.hashesSinceLastTick + n)
  }

  function Ticked(sha: Sha, r: Recorder): Recorder
    requires r.ticksPerSlot > 0
  {
    var missing := if r.hashesPerTick < r.hashesSinceLastTick then 0 else r.hashesPerTick - r.hashesSinceLastTick;
    var hashed := HashedOn(sha, r, missing).(hashesSinceLastTick := 0, tickCount := r.tickCount + 1);
    if hashed.tickCount % r.ticksPerSlot == 0
    then hashed.(slot := r.slot + 1, maxTickHeight := (r.slot + 2) * r.ticksPerSlot)
    else hashed
  }

  function Recorded(sha: Sha, r: Recorder, t: Hash): Recorder {
    r.(currentHash := Mix(sha, r.currentHash, t), numHashes := r.numHashes + 1, hashesSinceLastTick := r.hashesSinceLastTick + 1)
  }

  /** The error is `MaxHeightReached`. */
  function RecordEntry(sha: Sha, r: Recorder, t: Hash): Option<Entry> {
    if r.tickCount >= r.maxTickHeight then None
    else Some(Entry(Mix(sha, r.currentHash, t), r.numHashes + 1, t))
  }

  class PohRecorder {
    var currentHash: Hash
    var numHashes: nat
    const ticksPerSlot: nat
    const hashesPerTick: nat
    var maxTickHeight: nat
    var hashesSinceLastTick: nat
    var tickCount: nat
    var slot: nat

    ghost function Value(): Recorder
      reads this
    {
      Recorder(currentHash, numHashes, ticksPerSlot, hashesPerTick, maxTickHeight, hashesSinceLastTick, tickCount, slot)
    }

    constructor (initialHash: Hash, ticksPerSlot: nat, hashesPerTick: nat)
      ensures Value() == New(initialHash, ticksPerSlot, hashesPerTick)
    {
      this.currentHash, this.numHashes := initialHash, 0;
      this.ticksPerSlot, this.hashesPerTick := ticksPerSlot, hashesPerTick;
      this.maxTickHeight, this.hashesSinceLastTick := ticksPerSlot, 0;
      this.tickCount, this.slot := 0, 0;
    }

    method ComputeHashes(sha: Sha, n: nat)
      modifies this
      ensures Value() == HashedOn(sha, old(Value()), n)
      ensures n == 1 ==> currentHash == Hash(sha(old(currentHash).bytes))
    {
      for i := 0 to n
        invariant Value() == HashedOn(sha, old(Value()), i)
      {
        currentHash := Hash(sha(currentHash.bytes));
        numHashes := numHashes + 1;
        hashesSinceLastTick := hashesSinceLastTick + 1;
      }
    }

    method Tick(sha: Sha)
      requires ticksPerSlot > 0
      modifies this
      ensures Value() == Ticked(sha, old(Value()))
    {
      var remaining := if hashesPerTick < hashesSinceLastTick then 0 else hashesPerTick - hashesSinceLastTick;
      ComputeHashes(sha, remaining);
      hashesSinceLastTick := 0;
      tickCount := tickCount + 1;
      if tickCount % ticksPerSlot == 0 {
        slot := slot + 1;
        maxTickHeight := (slot + 1) * ticksPerSlot;
      }
    }

    method Record(sha: Sha, transactionsHash: Hash) returns (r: Option<Entry>)
      modifies this
      ensures r == RecordEntry(sha, old(Value()), transactionsHash)
      ensures Value() == if r.Some? then Recorded(sha, old(Value()), transactionsHash) else old(Value())
      ensures r.Some? <==> old(tickCount) < maxTickHeight
      ensures r.Some? ==> r.value == Entry(Hash(sha(old(currentHash).bytes + transactionsHash.bytes)), old(numHashes) + 1, transactionsHash)
      ensures r.Some? ==> r.value.hash == currentHash && r.value.numHashes == numHashes
    {
      if tickCount >= maxTickHeight {
        return None;
      }
      currentHash := Hash(sha(currentHash.bytes + transactionsHash.bytes));
      numHashes := numHashes + 1;
      hashesSinceLastTick := hashesSinceLastTick + 1;
      r := Some(Entry(currentHash, numHashes, transactionsHash));
    }
  }

  // ----- runs

  datatype Event = Hashes(n: nat) | TickDue | Record(transactionsHash: Hash)

  function Step(sha: Sha, r: Recorder, ev: Event): Recorder
    requires r.ticksPerSlot > 0
  {
    match ev
    case Hashes(n) => HashedOn(sha, r, n)
    case TickDue => Ticked(sha, r)
    case Record(t) => if RecordEntry(sha, r, t).Some? then Recorded(sha, r, t) else r
  }

  function Emitted(sha: Sha, r: Recorder, ev: Event): seq<Entry> {
    if ev.Record? && RecordEntry(sha, r, ev.transactionsHash).Some?
    then [RecordEntry(sha, r, ev.transactionsHash).value] else []
  }

  function Run(sha: Sha, r: Recorder, evs: seq<Event>): (end: Recorder)
    requires r.ticksPerSlot > 0
    ensures end.ticksPerSlot == r.ticksPerSlot && end.hashesPerTick == r.hashesPerTick
  {
    if evs == [] then r else Step(sha, Run(sha, r, evs[..|evs| - 1]), evs[|evs| - 1])
  }

  function Entries(sha: Sha, r: Recorder, evs: seq<Event>): seq<Entry>
    requires r.ticksPerSlot > 0
  {
    if evs == [] then [] else
      var init := evs[..|evs| - 1];
      Entries(sha, r, init) + Emitted(sha, Run(sha, r, init), evs[|evs| - 1])
  }

  function Requested(evs: seq<Event>): seq<Hash> {
    if evs == [] then [] else
      var ev := evs[|evs| - 1];
      Requested(evs[..|evs| - 1]) + if ev.Record? then [ev.transactionsHash] else []
  }

  // ----- ticks and slots

  /** The slot is the number of full slots ticked, the height limit lies ahead, and every tick cost its hashes. */
  ghost predicate Clocked(r: Recorder) {
    && r.ticksPerSlot > 0
    && r.slot == r.tickCount / r.ticksPerSlot
    && r.maxTickHeight == (r.slot + 1) * r.ticksPerSlot && r.tickCount < r.maxTickHeight
    && r.numHashes >= r.tickCount * r.hashesPerTick + r.hashesSinceLastTick
  }

  lemma Quotient(n: nat, d: nat, q: nat, r: nat)
    requires d > 0 && n == q * d + r && r < d
    ensures n / d == q && n % d == r
  {
    var k := n / d - q;
    assert k * d == n / d * d - q * d;
    assert k >= 1 ==> k * d >= d;
    assert k <= -1 ==> k * d + d <= 0;
  }

  /** One more tick reaches the next slot exactly at a multiple. */
  lemma NextTick(t: nat, d: nat)
    requires d > 0
    ensures (t + 1) / d == t / d + if (t + 1) % d == 0 then 1 else 0
    ensures t < (t / d + 1) * d
  {
    var q, r := t / d, t % d;
    assert t == q * d + r;
    assert (q + 1) * d == q * d + d;
    if r + 1 < d {
      Quotient(t + 1, d, q, r + 1);
    } else {
      Quotient(t + 1, d, q + 1, 0);
    }
  }

  lemma {:induction false} TickKeepsClock(sha: Sha, r: Recorder)
    requires Clocked(r)
    ensures Clocked(Ticked(sha, r))
  {
    NextTick(r.tickCount, r.ticksPerSlot);
    NextTick(r.tickCount + 1, r.ticksPerSlot);
    TickUnexplained(sha, r);
  }

  lemma {:induction false} EveryRunClocked(sha: Sha, initial: Hash, ticksPerSlot: nat, hashesPerTick: nat, evs: seq<Event>)
    requires ticksPerSlot > 0
    ensures Clocked(Run(sha, New(initial, ticksPerSlot, hashesPerTick), evs))
  {
    if evs != [] {
      var init := evs[..|evs| - 1];
      EveryRunClocked(sha, initial, ticksPerSlot, hashesPerTick, init);
      if evs[|evs| - 1].TickDue? {
        TickKeepsClock(sha, Run(sha, New(initial, ticksPerSlot, hashesPerTick), init));
      }
    }
  }

  /** Hashes computed beyond what a tick needs, over all ticks of a run. */
  function Surplus(sha: Sha, r: Recorder, evs: seq<Event>): nat
    requires r.ticksPerSlot > 0
  {
    if evs == [] then 0 else
      var init := evs[..|evs| - 1];
      var before := Run(sha, r, init);
      Surplus(sha, r, init)
      + if evs[|evs| - 1].TickDue? && before.hashesSinceLastTick > before.hashesPerTick
        then before.hashesSinceLastTick - before.hashesPerTick else 0
  }

  /** The hashes not explained by ticks or by the open tick. */
  function Unexplained(r: Recorder): int {
    r.numHashes - r.tickCount * r.hashesPerTick - r.hashesSinceLastTick
  }

  lemma {:induction false} TickUnexplained(sha: Sha, r: Recorder)
    requires r.ticksPerSlot > 0
    ensures Unexplained(Ticked(sha, r)) == Unexplained(r)
            + if r.hashesSinceLastTick > r.hashesPerTick then r.hashesSinceLastTick - r.hashesPerTick else 0
  {
    assert (r.tickCount + 1) * r.hashesPerTick == r.tickCount * r.hashesPerTick + r.hashesPerTick;
  }

  /** The hash count is exactly what the ticks cost, their surplus, and what the open tick has so far. */
  lemma {:induction false} HashesAccountedFor(sha: Sha, initial: Hash, ticksPerSlot: nat, hashesPerTick: nat, evs: seq<Event>)
    requires ticksPerSlot > 0
    ensures var r0 := New(initial, ticksPerSlot, hashesPerTick);
            Unexplained(Run(sha, r0, evs)) == Surplus(sha, r0, evs)
  {
    if evs != [] {
      HashesAccountedFor(sha, initial, ticksPerSlot, hashesPerTick, evs[..|evs| - 1]);
      if evs[|evs| - 1].TickDue? {
        TickUnexplained(sha, Run(sha, New(initial, ticksPerSlot, hashesPerTick), evs[..|evs| - 1]));
      }
    }
  }

  /** No record request is refused: the entries carry exactly the requested hashes, in order. */
  lemma {:induction false} EveryRecordIsEmitted(sha: Sha, initial: Hash, ticksPerSlot: nat, hashesPerTick: nat, evs: seq<Event>)
    requires ticksPerSlot > 0
    ensures var entries := Entries(sha, New(initial, ticksPerSlot, hashesPerTick), evs);
            && |entries| == |Requested(evs)|
            && forall i :: 0 <= i < |entries| ==> entries[i].transactionsHash == Requested(evs)[i]
  {
    if evs != [] {
      EveryRecordIsEmitted(sha, initial, ticksPerSlot, hashesPerTick, evs[..|evs| - 1]);
      EveryRunClocked(sha, initial, ticksPerSlot, hashesPerTick, evs[..|evs| - 1]);
    }
  }

  // ----- replay

  /** What an observer checks, knowing only where the chain stood and the entries themselves. */
  ghost predicate Verifies(sha: Sha, h: Hash, num: nat, entries: seq<Entry>)
    decreases |entries|
  {
    entries != [] ==>
      && num < entries[0].numHashes
      && entries[0].hash == Mix(sha, Plain(sha, h, entries[0].numHashes - num - 1), entries[0].transactionsHash)
      && Verifies(sha, entries[0].hash, entries[0].numHashes, entries[1..])
  }

  function LastHash(h: Hash, entries: seq<Entry>): Hash {
    if entries == [] then h else entries[|entries| - 1].hash
  }

  function LastNum(num: nat, entries: seq<Entry>): nat {
    if entries == [] then num else entries[|entries| - 1].numHashes
  }

  lemma {:induction false} VerifiesSnoc(sha: Sha, h: Hash, num: nat, entries: seq<Entry>, e: Entry)
    requires Verifies(sha, h, num, entries) && LastNum(num, entries) < e.numHashes
    requires e.hash == Mix(sha, Plain(sha, LastHash(h, entries), e.numHashes - LastNum(num, entries) - 1), e.transactionsHash)
    ensures Verifies(sha, h, num, entries + [e])
    decreases |entries|
  {
    if entries != [] {
      VerifiesSnoc(sha, entries[0].hash, entries[0].numHashes, entries[1..], e);
      assert (entries + [e])[1..] == entries[1..] + [e];
    }
  }

  lemma {:induction false} PlainAdds(sha: Sha, h: Hash, m: nat, n: nat)
    ensures Plain(sha, Plain(sha, h, m), n) == Plain(sha, h, m + n)
  {
    if n > 0 {
      PlainAdds(sha, h, m, n - 1);
    }
  }

  /** Between entries the recorder only hashes: from the last entry to the current hash. */
  ghost predicate Follows(sha: Sha, h: Hash, num: nat, r: Recorder) {
    num <= r.numHashes && r.currentHash == Plain(sha, h, r.numHashes - num)
  }

  lemma {:induction false} HashingFollows(sha: Sha, h: Hash, num: nat, r: Recorder, n: nat)
    requires Follows(sha, h, num, r)
    ensures Follows(sha, h, num, HashedOn(sha, r, n))
  {
    PlainAdds(sha, h, r.numHashes - num, n);
  }

  ghost predicate Replays(sha: Sha, initial: Hash, entries: seq<Entry>, r: Recorder) {
    Verifies(sha, initial, 0, entries) && Follows(sha, LastHash(initial, entries), LastNum(0, entries), r)
  }

  lemma {:induction false} StepReplays(sha: Sha, initial: Hash, entries: seq<Entry>, r: Recorder, ev: Event)
    requires Replays(sha, initial, entries, r) && Clocked(r)
    ensures Replays(sha, initial, entries + Emitted(sha, r, ev), Step(sha, r, ev))
  {
    var h, num := LastHash(initial, entries), LastNum(0, entries);
    match ev {
      case Hashes(n) =>
        assert entries + [] == entries;
        HashingFollows(sha, h, num, r, n);
      case TickDue =>
        assert entries + [] == entries;
        HashingFollows(sha, h, num, r, if r.hashesPerTick < r.hashesSinceLastTick then 0 else r.hashesPerTick - r.hashesSinceLastTick);
      case Record(t) =>
        VerifiesSnoc(sha, initial, 0, entries, RecordEntry(sha, r, t).value);
    }
  }

  /** Every interleaving of hashing, ticking and recording emits entries that replay from the initial hash alone. */
  lemma {:induction false} EveryRunReplays(sha: Sha, initial: Hash, ticksPerSlot: nat, hashesPerTick: nat, evs: seq<Event>)
    requires ticksPerSlot > 0
    ensures var r := New(initial, ticksPerSlot, hashesPerTick); var entries := Entries(sha, r, evs);
            Replays(sha, initial, entries, Run(sha, r, evs))
  {
    if evs != [] {
      var r0, init, ev := New(initial, ticksPerSlot, hashesPerTick), evs[..|evs| - 1], evs[|evs| - 1];
      EveryRunReplays(sha, initial, ticksPerSlot, hashesPerTick, init);
      var r, entries := Run(sha, r0, init), Entries(sha, r0, init);
      EveryRunClocked(sha, initial, ticksPerSlot, hashesPerTick, init);
      StepReplays(sha, initial, entries, r, ev);
    }
  }

  // ----- what the entries prove

  /** One hash per step: plain, or mixing a transactions hash in. */
  function Steps(num: nat, entries: seq<Entry>): seq<Option<Hash>>
    decreases |entries|
  {
    if entries == [] then [] else
      var e := entries[0];
      Nones(e.numHashes - num - 1) + [Some(e.transactionsHash)] + Steps(e.numHashes, entries[1..])
  }

  function Nones(n: int): (r: seq<Option<Hash>>)
    ensures |r| == if n > 0 then n else 0
    ensures forall i :: 0 <= i < |r| ==> r[i] == None
  {
    if n <= 0 then [] else Nones(n - 1) + [None]
  }

  function Chain(sha: Sha, h: Hash, steps: seq<Option<Hash>>): Hash {
    if steps == [] then h else
      var n := |steps| - 1;
      Hash(sha(Input(Chain(sha, h, steps[..n]), steps[n])))
  }

  /** Every byte string hashed along a chain. */
  ghost function ChainInputs(sha: Sha, h: Hash, steps: seq<Option<Hash>>): set<seq<Byte>> {
    if steps == [] then {} else
      var n := |steps| - 1;
      ChainInputs(sha, h, steps[..n]) + {Input(Chain(sha, h, steps[..n]), steps[n])}
  }

  lemma {:induction false} ChainConcat(sha: Sha, h: Hash, s: seq<Option<Hash>>, t: seq<Option<Hash>>)
    ensures Chain(sha, h, s + t) == Chain(sha, Chain(sha, h, s), t)
  {
    if t == [] {
      assert s + t == s;
    } else {
      var n := |t| - 1;
      assert (s + t)[..|s| + n] == s + t[..n];
      ChainConcat(sha, h, s, t[..n]);
    }
  }

  lemma {:induction false} ChainOfNones(sha: Sha, h: Hash, n: nat)
    ensures Chain(sha, h, Nones(n)) == Plain(sha, h, n)
  {
    if n > 0 {
      assert Nones(n)[..n - 1] == Nones(n - 1);
      ChainOfNones(sha, h, n - 1);
    }
  }

  /** A verified entry list is one chain of as many steps as it claims. */
  lemma {:induction false} VerifiedChain(sha: Sha, h: Hash, num: nat, entries: seq<Entry>)
    requires Verifies(sha, h, num, entries)
    ensures num <= LastNum(num, entries) && |Steps(num, entries)| == LastNum(num, entries) - num
    ensures Chain(sha, h, Steps(num, entries)) == LastHash(h, entries)
    decreases |entries|
  {
    if entries != [] {
      var e := entries[0];
      var gap := Nones(e.numHashes - num - 1);
      VerifiedChain(sha, e.hash, e.numHashes, entries[1..]);
      ChainOfNones(sha, h, e.numHashes - num - 1);
      ChainConcat(sha, h, gap + [Some(e.transactionsHash)], Steps(e.numHashes, entries[1..]));
      assert (gap + [Some(e.transactionsHash)])[..|gap|] == gap;
    }
  }

  /** The next recorded step fixes the count and the transactions hash of the first entry. */
  lemma {:induction false} FirstMix(a: nat, x: Hash, s: seq<Option<Hash>>, b: nat, y: Hash, t: seq<Option<Hash>>)
    requires Nones(a) + [Some(x)] + s == Nones(b) + [Some(y)] + t
    ensures a == b && x == y && s == t
  {
    var l := Nones(a) + [Some(x)] + s;
    MixPosition(l, a, x, s);
    MixPosition(l, b, y, t);
  }

  lemma {:induction false} MixPosition(l: seq<Option<Hash>>, a: nat, x: Hash, s: seq<Option<Hash>>)
    requires l == Nones(a) + [Some(x)] + s
    ensures a < |l| && l[a] == Some(x) && l[a + 1..] == s && forall i :: 0 <= i < a ==> l[i] == None
  {
  }

  lemma {:induction false} StepsDetermine(sha: Sha, h: Hash, num: nat, a: seq<Entry>, b: seq<Entry>)
    requires Verifies(sha, h, num, a) && Verifies(sha, h, num, b) && Steps(num, a) == Steps(num, b)
    ensures a == b
    decreases |a|
  {
    if a != [] && b != [] {
      var x, y := a[0], b[0];
      FirstMix(x.numHashes - num - 1, x.transactionsHash, Steps(x.numHashes, a[1..]),
               y.numHashes - num - 1, y.transactionsHash, Steps(y.numHashes, b[1..]));
      StepsDetermine(sha, x.hash, x.numHashes, a[1..], b[1..]);
      assert a == [x] + a[1..] && b == [y] + b[1..];
    }
  }

  lemma SameInput(h: Hash, x: Option<Hash>, k: Hash, y: Option<Hash>)
    requires Input(h, x) == Input(k, y)
    ensures h == k && x == y
  {
    assert h.bytes == Input(h, x)[..32] && k.bytes == Input(k, y)[..32];
    if x.Some? && y.Some? {
      assert x.value.bytes == Input(h, x)[32..] && y.value.bytes == Input(k, y)[32..];
    }
  }

  /** Two chains of equal length with one end are the same chain, or two of their inputs collide. */
  lemma {:induction false} ChainBinds(sha: Sha, h: Hash, s: seq<Option<Hash>>, t: seq<Option<Hash>>) returns (c: Option<Clash>)
    requires |s| == |t| && Chain(sha, h, s) == Chain(sha, h, t)
    ensures match c
            case None => s == t
            case Some(clash) => Collides(sha, clash, ChainInputs(sha, h, s) + ChainInputs(sha, h, t))
  {
    if s == [] {
      c := None;
    } else {
      var n := |s| - 1;
      var x, y := Input(Chain(sha, h, s[..n]), s[n]), Input(Chain(sha, h, t[..n]), t[n]);
      if x == y {
        SameInput(Chain(sha, h, s[..n]), s[n], Chain(sha, h, t[..n]), t[n]);
        c := ChainBinds(sha, h, s[..n], t[..n]);
        assert s == s[..n] + [s[n]] && t == t[..n] + [t[n]];
      } else {
        c := Some(Clash(x, y));
      }
    }
  }

  /**
   The last hash and count pin down the whole history: every entry, its position and its transactions, unless two
   different inputs hashed on the way have one digest.
   */
  lemma {:induction false} EntriesAreBinding(sha: Sha, h: Hash, a: seq<Entry>, b: seq<Entry>) returns (c: Option<Clash>)
    requires Verifies(sha, h, 0, a) && Verifies(sha, h, 0, b)
    requires LastHash(h, a) == LastHash(h, b) && LastNum(0, a) == LastNum(0, b)
    ensures match c
            case None => a == b
            case Some(clash) => Collides(sha, clash, ChainInputs(sha, h, Steps(0, a)) + ChainInputs(sha, h, Steps(0, b)))
  {
    VerifiedChain(sha, h, 0, a);
    VerifiedChain(sha, h, 0, b);
    c := ChainBinds(sha, h, Steps(0, a), Steps(0, b));
    if c.None? {
      StepsDetermine(sha, h, 0, a, b);
    }
  }
}
