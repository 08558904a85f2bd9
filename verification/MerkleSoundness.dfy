/**
 What an equal root says about two account lists.  No injectivity of the digest is assumed: either the
 accounts are the same, or two different byte strings that were hashed on the way have one digest.
 */
module MerkleSoundness {
  import opened Types
  import opened Merkle

  datatype Clash = Clash(x: seq<Byte>, y: seq<Byte>)

  ghost predicate Collides(sha: Sha, c: Clash, hashed: set<seq<Byte>>) {
    c.x != c.y && sha(c.x) == sha(c.y) && c.x in hashed && c.y in hashed
  }

  function PairInput(level: seq<Digest>, i: nat): seq<Byte>
    requires 2 * i < |level|
  {
    level[2 * i] + Partner(level, i)
  }

  /** Everything hashed while folding a level list down to its root. */
  ghost function LevelInputs(sha: Sha, level: seq<Digest>): set<seq<Byte>>
    decreases |level|
  {
    if |level| <= 1 then {} else
      (set i | 0 <= i < (|level| + 1) / 2 :: PairInput(level, i)) + LevelInputs(sha, NextLevel(sha, level))
  }

  /** Everything hashed while computing the root of an account list. */
  ghost function Hashed(sha: Sha, accounts: seq<Account>): set<seq<Byte>> {
    LeafInputs(accounts) + LevelInputs(sha, Sort(Leaves(sha, accounts)))
  }

  // ----- one level

  lemma PairIsHashed(sha: Sha, p: seq<Digest>, i: nat)
    requires |p| > 1 && 2 * i < |p|
    ensures PairInput(p, i) in LevelInputs(sha, p)
  {
  }

  lemma SamePair(p: seq<Digest>, i: nat, q: seq<Digest>, j: nat)
    requires 2 * i < |p| && 2 * j < |q| && PairInput(p, i) == PairInput(q, j)
    ensures p[2 * i] == q[2 * j] && Partner(p, i) == Partner(q, j)
  {
    assert PairInput(p, i)[..32] == p[2 * i] && PairInput(q, j)[..32] == q[2 * j];
    assert PairInput(p, i)[32..] == Partner(p, i) && PairInput(q, j)[32..] == Partner(q, j);
  }

  /** Equal next levels: every pair of inputs agrees, or one of them is a collision. */
  lemma SameParents(sha: Sha, p: seq<Digest>, q: seq<Digest>) returns (c: Option<Clash>)
    requires |p| > 1 && |q| > 1 && NextLevel(sha, p) == NextLevel(sha, q)
    ensures c.None? ==> forall i :: 0 <= i < (|p| + 1) / 2 ==> p[2 * i] == q[2 * i] && Partner(p, i) == Partner(q, i)
    ensures c.Some? ==> Collides(sha, c.value, LevelInputs(sha, p) + LevelInputs(sha, q))
  {
    assert |NextLevel(sha, p)| == |NextLevel(sha, q)|;
    if i :| 0 <= i < (|p| + 1) / 2 && PairInput(p, i) != PairInput(q, i) {
      assert NextLevel(sha, p)[i] == Parent(sha, p, i) && NextLevel(sha, q)[i] == Parent(sha, q, i);
      c := Some(Clash(PairInput(p, i), PairInput(q, i)));
    } else {
      c := None;
      forall i | 0 <= i < (|p| + 1) / 2 ensures p[2 * i] == q[2 * i] && Partner(p, i) == Partner(q, i) {
        SamePair(p, i, q, i);
      }
    }
  }

  lemma PairsMakeLevel(p: seq<Digest>, q: seq<Digest>)
    requires |p| == |q|
    requires forall i :: 0 <= i < (|p| + 1) / 2 ==> p[2 * i] == q[2 * i] && Partner(p, i) == Partner(q, i)
    ensures p == q
  {
    forall k | 0 <= k < |p| ensures p[k] == q[k] {
      assert k == 2 * (k / 2) || k == 2 * (k / 2) + 1;
      assert p[2 * (k / 2)] == q[2 * (k / 2)] && Partner(p, k / 2) == Partner(q, k / 2);
    }
  }

  // ----- equally long lists

  lemma {:induction false} SameLengthFold(sha: Sha, p: seq<Digest>, q: seq<Digest>) returns (c: Option<Clash>)
    requires |p| == |q| > 0 && Fold(sha, p) == Fold(sha, q)
    ensures c.None? ==> p == q
    ensures c.Some? ==> Collides(sha, c.value, LevelInputs(sha, p) + LevelInputs(sha, q))
    decreases |p|
  {
    if |p| == 1 {
      c := None;
    } else {
      c := SameLengthFold(sha, NextLevel(sha, p), NextLevel(sha, q));
      if c.None? {
        c := SameParents(sha, p, q);
        if c.None? {
          PairsMakeLevel(p, q);
        }
      }
    }
  }

  // ----- padding: the fold repeats an odd last position on every level

  function Height(n: nat): nat {
    if n <= 1 then 0 else 1 + Height((n + 1) / 2)
  }

  function Width(n: nat): (w: nat)
    ensures w > 0
  {
    if n <= 1 then 1 else 2 * Width((n + 1) / 2)
  }

  /** Which of n digests stands at position k of the perfect tree. */
  function Source(n: nat, k: nat): (i: nat)
    requires n > 0
    ensures i < n
    decreases n
  {
    if n == 1 then 0 else
      var i := Source((n + 1) / 2, k / 2);
      if k % 2 == 1 && 2 * i + 1 < n then 2 * i + 1 else 2 * i
  }

  /** The leaves of the perfect tree that the fold computes. */
  function Full(p: seq<Digest>): (full: seq<Digest>)
    requires p != []
    ensures |full| == Width(|p|)
  {
    seq(Width(|p|), k requires 0 <= k < Width(|p|) => p[Source(|p|, k)])
  }

  /** Padding only appends. */
  lemma {:induction false} SourceInside(n: nat, k: nat)
    requires k < n
    ensures Source(n, k) == k
    decreases n
  {
    if n > 1 {
      SourceInside((n + 1) / 2, k / 2);
    }
  }

  lemma {:induction false} WidthCovers(n: nat)
    ensures n <= Width(n)
  {
    if n > 1 {
      WidthCovers((n + 1) / 2);
    }
  }

  /** The width is determined by the height. */
  lemma {:induction false} WidthOfHeight(m: nat, n: nat)
    requires Height(m) == Height(n)
    ensures Width(m) == Width(n)
  {
    if m > 1 {
      WidthOfHeight((m + 1) / 2, (n + 1) / 2);
    }
  }

  lemma FullStarts(p: seq<Digest>)
    requires p != []
    ensures |p| <= |Full(p)| && Full(p)[..|p|] == p
  {
    WidthCovers(|p|);
    forall k | 0 <= k < |p| ensures Full(p)[k] == p[k] {
      SourceInside(|p|, k);
    }
  }

  lemma FullPair(p: seq<Digest>, i: nat)
    requires |p| > 1 && i < Width((|p| + 1) / 2)
    ensures 2 * i + 1 < |Full(p)| && 2 * Source((|p| + 1) / 2, i) < |p|
    ensures PairInput(Full(p), i) == PairInput(p, Source((|p| + 1) / 2, i))
  {
    var s := Source((|p| + 1) / 2, i);
    assert Source(|p|, 2 * i) == 2 * s;
    assert Source(|p|, 2 * i + 1) == if 2 * s + 1 < |p| then 2 * s + 1 else 2 * s;
  }

  /** Padding commutes with the fold's step. */
  lemma FullNext(sha: Sha, p: seq<Digest>)
    requires |p| > 1
    ensures NextLevel(sha, Full(p)) == Full(NextLevel(sha, p))
  {
    forall i | 0 <= i < Width((|p| + 1) / 2) ensures NextLevel(sha, Full(p))[i] == Full(NextLevel(sha, p))[i] {
      FullPair(p, i);
    }
  }

  /** So padding changes neither the root nor what is hashed. */
  lemma {:induction false} FoldFull(sha: Sha, p: seq<Digest>)
    requires p != []
    ensures Fold(sha, Full(p)) == Fold(sha, p)
    ensures LevelInputs(sha, Full(p)) <= LevelInputs(sha, p)
    decreases |p|
  {
    if |p| > 1 {
      FullNext(sha, p);
      FoldFull(sha, NextLevel(sha, p));
      WidthCovers(|p|);
      FullInputs(sha, p);
    }
  }

  function Doubled(h: nat): (n: nat)
    ensures n > 0
  {
    if h == 0 then 1 else 2 * Doubled(h - 1)
  }

  /** The textbook tree: a node is the digest of its left half's node, followed by its right half's. */
  function Tree(sha: Sha, h: nat, leaves: seq<Digest>): Digest
    requires |leaves| == Doubled(h)
  {
    if h == 0 then leaves[0] else
      var half := |leaves| / 2;
      sha(Tree(sha, h - 1, leaves[..half]) + Tree(sha, h - 1, leaves[half..]))
  }

  lemma {:induction false} TreeJoin(sha: Sha, h: nat, a: seq<Digest>, b: seq<Digest>)
    requires |a| == |b| == Doubled(h)
    ensures Tree(sha, h + 1, a + b) == sha(Tree(sha, h, a) + Tree(sha, h, b))
  {
    assert (a + b)[..|a|] == a && (a + b)[|a|..] == b;
  }

  lemma NextJoin(sha: Sha, a: seq<Digest>, b: seq<Digest>)
    requires |a| % 2 == 0
    ensures NextLevel(sha, a + b) == NextLevel(sha, a) + NextLevel(sha, b)
  {
    var n := |a| / 2;
    forall i | 0 <= i < (|b| + 1) / 2 ensures Parent(sha, a + b, n + i) == Parent(sha, b, i) {
      assert (a + b)[2 * (n + i)] == b[2 * i];
      assert Partner(a + b, n + i) == Partner(b, i);
    }
  }

  /** A level above two halves is the halves' levels above. */
  lemma {:induction false} StepJoin(sha: Sha, h: nat, a: seq<Digest>, b: seq<Digest>)
    requires |a| == |b| == Doubled(h + 1)
    requires Tree(sha, h, NextLevel(sha, a)) == Tree(sha, h + 1, a) && Tree(sha, h, NextLevel(sha, b)) == Tree(sha, h + 1, b)
    ensures Tree(sha, h + 1, NextLevel(sha, a + b)) == Tree(sha, h + 2, a + b)
  {
    NextJoin(sha, a, b);
    TreeJoin(sha, h + 1, a, b);
    TreeJoin(sha, h, NextLevel(sha, a), NextLevel(sha, b));
  }

  lemma {:induction false} TreeNext(sha: Sha, h: nat, p: seq<Digest>)
    requires |p| == Doubled(h + 1)
    ensures Tree(sha, h, NextLevel(sha, p)) == Tree(sha, h + 1, p)
  {
    if h == 0 {
      assert p[..1] == [p[0]] && p[1..] == [p[1]];
    } else {
      var half := |p| / 2;
      var a, b := p[..half], p[half..];
      TreeNext(sha, h - 1, a);
      TreeNext(sha, h - 1, b);
      StepJoin(sha, h - 1, a, b);
      assert p == a + b;
    }
  }

  lemma {:induction false} FoldIsTree(sha: Sha, h: nat, p: seq<Digest>)
    requires |p| == Doubled(h)
    ensures Fold(sha, p) == Tree(sha, h, p)
  {
    if h > 0 {
      FoldIsTree(sha, h - 1, NextLevel(sha, p));
      TreeNext(sha, h - 1, p);
    }
  }

  lemma {:induction false} WidthDoubled(n: nat)
    ensures Width(n) == Doubled(Height(n))
  {
    if n > 1 {
      WidthDoubled((n + 1) / 2);
    }
  }

  /** The level-by-level fold computes the perfect tree over the sorted and padded leaf digests. */
  lemma {:induction false} RootIsTree(sha: Sha, accounts: seq<Account>)
    requires accounts != []
    ensures var sorted := Sort(Leaves(sha, accounts));
            && Sorted(sorted) && multiset(sorted) == multiset(Leaves(sha, accounts))
            && |sorted| <= |Full(sorted)| == Doubled(Height(|accounts|)) && Full(sorted)[..|sorted|] == sorted
            && Root(sha, accounts) == Tree(sha, Height(|accounts|), Full(sorted))
  {
    var sorted := Sort(Leaves(sha, accounts));
    SortSorts(Leaves(sha, accounts));
    FullStarts(sorted);
    FoldFull(sha, sorted);
    WidthDoubled(|accounts|);
    FoldIsTree(sha, Height(|accounts|), Full(sorted));
  }

  lemma FullInputs(sha: Sha, p: seq<Digest>)
    requires |p| > 1 && |Full(p)| > 1 && LevelInputs(sha, NextLevel(sha, Full(p))) <= LevelInputs(sha, NextLevel(sha, p))
    ensures LevelInputs(sha, Full(p)) <= LevelInputs(sha, p)
  {
    forall i | 0 <= i < (|Full(p)| + 1) / 2 ensures PairInput(Full(p), i) in LevelInputs(sha, p) {
      FullPair(p, i);
      PairIsHashed(sha, p, Source((|p| + 1) / 2, i));
    }
  }

  /** Two levels of one height with one root have the same padded leaves, or two hashed pairs collide. */
  lemma SameHeightFold(sha: Sha, p: seq<Digest>, q: seq<Digest>) returns (c: Option<Clash>)
    requires p != [] && q != [] && Height(|p|) == Height(|q|) && Fold(sha, p) == Fold(sha, q)
    ensures c.None? ==> Full(p) == Full(q)
    ensures c.Some? ==> Collides(sha, c.value, LevelInputs(sha, p) + LevelInputs(sha, q))
  {
    FoldFull(sha, p);
    FoldFull(sha, q);
    WidthOfHeight(|p|, |q|);
    c := SameLengthFold(sha, Full(p), Full(q));
  }

  ghost predicate Repeats(p: seq<Digest>, i: nat, j: nat) {
    i < j < |p| && p[i] == p[j]
  }

  /** A longer list with the same padded leaves repeats a digest. */
  lemma PaddingRepeats(p: seq<Digest>, q: seq<Digest>) returns (i: nat, j: nat)
    requires p != [] && |p| < |q| && Full(p) == Full(q)
    ensures Repeats(q, i, j)
  {
    FullStarts(p);
    FullStarts(q);
    i, j := Source(|p|, |p|), |p|;
    assert q[j] == Full(p)[j] == p[i] && q[i] == Full(q)[i] == Full(p)[i] == p[i];
  }

  // ----- trees of different heights: the leftmost spine runs from a leaf into an inner node

  function LevelAt(sha: Sha, p: seq<Digest>, d: nat): (level: seq<Digest>)
    requires p != []
    ensures level != []
    decreases d
  {
    if d == 0 then p else LevelAt(sha, NextLevel(sha, p), d - 1)
  }

  lemma {:induction false} LevelStep(sha: Sha, p: seq<Digest>, d: nat)
    requires p != [] && 0 < d <= Height(|p|)
    ensures var below := LevelAt(sha, p, d - 1);
            |below| > 1 && LevelAt(sha, p, d) == NextLevel(sha, below) && PairInput(below, 0) in LevelInputs(sha, p)
    decreases d
  {
    if d > 1 {
      LevelStep(sha, NextLevel(sha, p), d - 1);
    } else {
      PairIsHashed(sha, p, 0);
    }
  }

  lemma {:induction false} FoldIsTop(sha: Sha, p: seq<Digest>)
    requires p != []
    ensures Fold(sha, p) == LevelAt(sha, p, Height(|p|))[0]
    decreases |p|
  {
    if |p| > 1 {
      FoldIsTop(sha, NextLevel(sha, p));
    }
  }

  /** One level down the leftmost spine of two trees. */
  lemma {:induction false} SpineStep(sha: Sha, p: seq<Digest>, q: seq<Digest>, d: nat, e: nat) returns (c: Option<Clash>)
    requires p != [] && q != [] && 0 < d <= Height(|p|) && d + e <= Height(|q|)
    requires LevelAt(sha, p, d)[0] == LevelAt(sha, q, d + e)[0]
    ensures c.None? ==> LevelAt(sha, p, d - 1)[0] == LevelAt(sha, q, d + e - 1)[0]
    ensures c.Some? ==> Collides(sha, c.value, LevelInputs(sha, p) + LevelInputs(sha, q))
  {
    LevelStep(sha, p, d);
    LevelStep(sha, q, d + e);
    c := SameHeads(sha, LevelAt(sha, p, d - 1), LevelAt(sha, q, d + e - 1));
  }

  /** Levels whose parents begin alike begin alike, or their first pairs collide. */
  lemma {:induction false} SameHeads(sha: Sha, a: seq<Digest>, b: seq<Digest>) returns (c: Option<Clash>)
    requires |a| > 1 && |b| > 1 && NextLevel(sha, a)[0] == NextLevel(sha, b)[0]
    ensures c.None? ==> a[0] == b[0]
    ensures c.Some? ==> Collides(sha, c.value, {PairInput(a, 0), PairInput(b, 0)})
  {
    assert NextLevel(sha, a)[0] == Parent(sha, a, 0) && NextLevel(sha, b)[0] == Parent(sha, b, 0);
    if PairInput(a, 0) == PairInput(b, 0) {
      SamePair(a, 0, b, 0);
      c := None;
    } else {
      c := Some(Clash(PairInput(a, 0), PairInput(b, 0)));
    }
  }

  lemma {:induction false} Spine(sha: Sha, p: seq<Digest>, q: seq<Digest>, d: nat, e: nat) returns (c: Option<Clash>)
    requires p != [] && q != [] && d <= Height(|p|) && d + e <= Height(|q|)
    requires LevelAt(sha, p, d)[0] == LevelAt(sha, q, d + e)[0]
    ensures c.None? ==> p[0] == LevelAt(sha, q, e)[0]
    ensures c.Some? ==> Collides(sha, c.value, LevelInputs(sha, p) + LevelInputs(sha, q))
  {
    c := None;
    if d > 0 {
      c := SpineStep(sha, p, q, d, e);
      if c.None? {
        c := Spine(sha, p, q, d - 1, e);
      }
    }
  }

  /** A leaf digest that is also an inner digest: leaf inputs are longer than 64 bytes, so this is a collision. */
  lemma LeafMeetsNode(sha: Sha, p: seq<Digest>, q: seq<Digest>, a: Account) returns (c: Clash)
    requires p != [] && q != [] && Height(|p|) < Height(|q|) && Fold(sha, p) == Fold(sha, q)
    requires p[0] == Leaf(sha, a)
    ensures Collides(sha, c, {LeafBytes(a)} + LevelInputs(sha, p) + LevelInputs(sha, q))
  {
    var e := Height(|q|) - Height(|p|);
    FoldIsTop(sha, p);
    FoldIsTop(sha, q);
    var s := Spine(sha, p, q, Height(|p|), e);
    if s.Some? {
      return s.value;
    }
    LevelStep(sha, q, e);
    var below := LevelAt(sha, q, e - 1);
    assert NextLevel(sha, below)[0] == Parent(sha, below, 0);
    assert |PairInput(below, 0)| == 64;
    c := Clash(LeafBytes(a), PairInput(below, 0));
  }

  // ----- from digests back to accounts

  ghost function LeafInputs(a: seq<Account>): set<seq<Byte>> {
    set x | x in a :: LeafBytes(x)
  }

  /** The first account of one list is found in the other, or its leaf collides there. */
  lemma FindLeaf(sha: Sha, a: seq<Account>, b: seq<Account>) returns (j: nat, c: Option<Clash>)
    requires a != [] && (forall x :: x in a || x in b ==> Sized(x))
    requires multiset(Leaves(sha, a)) == multiset(Leaves(sha, b))
    ensures j < |b| && Leaf(sha, b[j]) == Leaf(sha, a[0])
    ensures c.None? ==> a[0] == b[j]
    ensures c.Some? ==> Collides(sha, c.value, LeafInputs(a + b))
  {
    assert Leaves(sha, a)[0] in multiset(Leaves(sha, b));
    j :| 0 <= j < |b| && Leaves(sha, b)[j] == Leaf(sha, a[0]);
    assert a[0] in a + b && b[j] in a + b;
    if LeafBytes(a[0]) == LeafBytes(b[j]) {
      LeafBytesInjective(a[0], b[j]);
      c := None;
    } else {
      c := Some(Clash(LeafBytes(a[0]), LeafBytes(b[j])));
    }
  }

  lemma SameAfterRemoval<T>(a: multiset<T>, b: multiset<T>, a': multiset<T>, b': multiset<T>, x: T)
    requires a == b && a == a' + multiset{x} && b == b' + multiset{x}
    ensures a' == b'
  {
    assert a' == a - multiset{x} && b' == b - multiset{x};
  }

  lemma SameAfterReturn<T>(a: multiset<T>, b: multiset<T>, x: T)
    requires x in a && x in b && a - multiset{x} == b - multiset{x}
    ensures a == b
  {
    assert a == a - multiset{x} + multiset{x} && b == b - multiset{x} + multiset{x};
  }

  lemma RemoveLeaf(sha: Sha, a: seq<Account>, b: seq<Account>, j: nat)
    requires a != [] && j < |b| && a[0] == b[j] && multiset(Leaves(sha, a)) == multiset(Leaves(sha, b))
    ensures multiset(Leaves(sha, Without(a, 0))) == multiset(Leaves(sha, Without(b, j)))
    ensures multiset(Without(a, 0)) == multiset(Without(b, j)) ==> multiset(a) == multiset(b)
    ensures LeafInputs(Without(a, 0) + Without(b, j)) <= LeafInputs(a + b)
  {
    LeavesWithout(sha, a, 0);
    LeavesWithout(sha, b, j);
    SameAfterRemoval(multiset(Leaves(sha, a)), multiset(Leaves(sha, b)), multiset(Leaves(sha, Without(a, 0))),
                     multiset(Leaves(sha, Without(b, j))), Leaf(sha, a[0]));
    RemoveAt(a, 0);
    RemoveAt(b, j);
    assert a[0] in multiset(a) && b[j] in multiset(b);
    if multiset(Without(a, 0)) == multiset(Without(b, j)) {
      SameAfterReturn(multiset(a), multiset(b), a[0]);
    }
  }

  lemma {:induction false} SameLeaves(sha: Sha, a: seq<Account>, b: seq<Account>) returns (c: Option<Clash>)
    requires forall x :: x in a || x in b ==> Sized(x)
    requires multiset(Leaves(sha, a)) == multiset(Leaves(sha, b))
    ensures c.None? ==> multiset(a) == multiset(b)
    ensures c.Some? ==> Collides(sha, c.value, LeafInputs(a + b))
    decreases |a|
  {
    if a == [] {
      assert |multiset(Leaves(sha, b))| == |b|;
      return None;
    }
    var j, found := FindLeaf(sha, a, b);
    if found.Some? {
      return found;
    }
    RemoveLeaf(sha, a, b, j);
    c := SameLeaves(sha, Without(a, 0), Without(b, j));
  }

  ghost predicate DistinctKeys(a: seq<Account>) {
    forall i, j :: 0 <= i < j < |a| ==> a[i].pubkey != a[j].pubkey
  }

  lemma {:induction false} TwoIndices(s: seq<Digest>, d: Digest) returns (i: nat, j: nat)
    requires multiset(s)[d] >= 2
    ensures i < j < |s| && s[i] == s[j] == d
  {
    assert d in multiset(s);
    i :| 0 <= i < |s| && s[i] == d;
    RemoveAt(s, i);
    assert d in multiset(Without(s, i));
    var k :| 0 <= k < |Without(s, i)| && Without(s, i)[k] == d;
    j := if k < i then k else k + 1;
    if j < i {
      i, j := j, i;
    }
  }

  /** Two equal leaf digests of one store come from two different accounts, hence from different bytes. */
  lemma RepeatedLeaf(sha: Sha, a: seq<Account>, i: nat, j: nat) returns (c: Clash)
    requires DistinctKeys(a) && (forall x :: x in a ==> Sized(x)) && Repeats(Sort(Leaves(sha, a)), i, j)
    ensures Collides(sha, c, LeafInputs(a))
  {
    var sorted := Sort(Leaves(sha, a));
    SortSorts(Leaves(sha, a));
    assert sorted == sorted[..i] + [sorted[i]] + sorted[i + 1..j] + [sorted[j]] + sorted[j + 1..];
    assert multiset(sorted)[sorted[i]] >= 2;
    var m, n := TwoIndices(Leaves(sha, a), sorted[i]);
    assert a[m] in a && a[n] in a;
    if LeafBytes(a[m]) == LeafBytes(a[n]) {
      LeafBytesInjective(a[m], a[n]);
    }
    c := Clash(LeafBytes(a[m]), LeafBytes(a[n]));
  }

  ghost predicate Explained(sha: Sha, a: seq<Account>, b: seq<Account>, c: Option<Clash>) {
    match c
    case None => multiset(a) == multiset(b)
    case Some(clash) => Collides(sha, clash, Hashed(sha, a) + Hashed(sha, b))
  }

  /** The padded leaves of an account list. */
  function Padded(sha: Sha, accounts: seq<Account>): seq<Digest>
    requires accounts != []
  {
    Full(Sort(Leaves(sha, accounts)))
  }

  /** Lists with the same padded leaves have one root, whatever the digest. */
  lemma SamePaddedSameRoot(sha: Sha, a: seq<Account>, b: seq<Account>)
    requires a != [] && b != [] && Padded(sha, a) == Padded(sha, b)
    ensures Root(sha, a) == Root(sha, b)
  {
    FoldFull(sha, Sort(Leaves(sha, a)));
    FoldFull(sha, Sort(Leaves(sha, b)));
  }

  /** Exactly those share a root, unless two different inputs hashed for the two roots collide. */
  lemma EqualRootsIff(sha: Sha, a: seq<Account>, b: seq<Account>) returns (c: Option<Clash>)
    requires a != [] && b != []
    ensures c.None? ==> (Root(sha, a) == Root(sha, b) <==> Padded(sha, a) == Padded(sha, b))
    ensures c.Some? ==> Root(sha, a) == Root(sha, b) && Collides(sha, c.value, Hashed(sha, a) + Hashed(sha, b))
  {
    var p, q := Sort(Leaves(sha, a)), Sort(Leaves(sha, b));
    if Padded(sha, a) == Padded(sha, b) {
      SamePaddedSameRoot(sha, a, b);
      return None;
    } else if Root(sha, a) != Root(sha, b) {
      return None;
    }
    var i := FirstLeaf(sha, a);
    var j := FirstLeaf(sha, b);
    if Height(|p|) < Height(|q|) {
      var clash := LeafMeetsNode(sha, p, q, a[i]);
      c := Some(clash);
    } else if Height(|q|) < Height(|p|) {
      var clash := LeafMeetsNode(sha, q, p, b[j]);
      c := Some(clash);
    } else {
      c := SameHeightFold(sha, p, q);
    }
  }

  lemma LeavesAgree(sha: Sha, a: seq<Account>, b: seq<Account>) returns (c: Option<Clash>)
    requires (forall x :: x in a || x in b ==> Sized(x)) && Sort(Leaves(sha, a)) == Sort(Leaves(sha, b))
    ensures Explained(sha, a, b, c)
  {
    SortSorts(Leaves(sha, a));
    SortSorts(Leaves(sha, b));
    c := SameLeaves(sha, a, b);
  }

  /** Equally many accounts, repeated ones allowed. */
  lemma EqualRootsEqualCount(sha: Sha, a: seq<Account>, b: seq<Account>) returns (c: Option<Clash>)
    requires |a| == |b| > 0 && (forall x :: x in a || x in b ==> Sized(x)) && Root(sha, a) == Root(sha, b)
    ensures Explained(sha, a, b, c)
  {
    c := EqualRootsIff(sha, a, b);
    if c.None? {
      FullStarts(Sort(Leaves(sha, a)));
      FullStarts(Sort(Leaves(sha, b)));
      c := LeavesAgree(sha, a, b);
    }
  }

  /** Stores of any sizes: accounts with distinct keys are pinned down by the root alone. */
  lemma EqualRootsDistinctKeys(sha: Sha, a: seq<Account>, b: seq<Account>) returns (c: Option<Clash>)
    requires a != [] && b != [] && (forall x :: x in a || x in b ==> Sized(x))
    requires DistinctKeys(a) && DistinctKeys(b) && Root(sha, a) == Root(sha, b)
    ensures Explained(sha, a, b, c)
  {
    if |a| == |b| {
      c := EqualRootsEqualCount(sha, a, b);
      return;
    }
    c := EqualRootsIff(sha, a, b);
    if c.None? {
      var clash;
      if |a| < |b| {
        clash := UnequalCounts(sha, a, b);
      } else {
        clash := UnequalCounts(sha, b, a);
      }
      c := Some(clash);
    }
  }

  lemma UnequalCounts(sha: Sha, a: seq<Account>, b: seq<Account>) returns (c: Clash)
    requires a != [] && |a| < |b| && DistinctKeys(b) && (forall x :: x in b ==> Sized(x)) && Padded(sha, a) == Padded(sha, b)
    ensures Collides(sha, c, Hashed(sha, b))
  {
    var i, j := PaddingRepeats(Sort(Leaves(sha, a)), Sort(Leaves(sha, b)));
    c := RepeatedLeaf(sha, b, i, j);
  }

  lemma FirstLeaf(sha: Sha, a: seq<Account>) returns (i: nat)
    requires a != []
    ensures i < |a| && a[i] in a && Sort(Leaves(sha, a)) != [] && Sort(Leaves(sha, a))[0] == Leaf(sha, a[i])
  {
    var leaves := Leaves(sha, a);
    SortSorts(leaves);
    assert Sort(leaves)[0] in multiset(Sort(leaves));
    i :| 0 <= i < |leaves| && leaves[i] == Sort(leaves)[0];
  }

  /** Without distinct keys or an equal count the root is ambiguous, for every digest function. */
  lemma RepeatedAccountIsAmbiguous(sha: Sha, a: Account)
    ensures Padded(sha, [a, a, a]) == Padded(sha, [a, a, a, a]) && Root(sha, [a, a, a]) == Root(sha, [a, a, a, a])
  {
    var h := Leaf(sha, a);
    BytesLeqTotal(h, h);
    assert Sort([h, h, h]) == [h, h, h] && Sort([h, h, h, h]) == [h, h, h, h] by {
      assert Sort([h]) == [h];
      assert Sort([h, h]) == [h, h];
    }
    assert Leaves(sha, [a, a, a]) == [h, h, h] && Leaves(sha, [a, a, a, a]) == [h, h, h, h];
    WidthOfHeight(3, 4);
    assert Full([h, h, h]) == Full([h, h, h, h]);
    SamePaddedSameRoot(sha, [a, a, a], [a, a, a, a]);
  }
}
