/** `hash_accounts`: sorted leaf digests folded pairwise, an odd last digest being paired with itself. */
module Merkle {
  import opened Types
  import opened Bytes

  type Digest = Bytes32
  /** SHA-256 as an uninterpreted function. */
  type Sha = seq<Byte> -> Digest

  function AccountBytes(a: Account): seq<Byte> {
    a.pubkey.bytes + (LittleEndian(a.lamports, 8) + (LittleEndian(|a.data|, 8)
      + (a.data + (a.owner.bytes + ([Flag(a.executable)] + LittleEndian(a.rentEpoch, 8))))))
  }

  /** `(account.pubkey, account)` in fixed-width bincode. */
  function LeafBytes(a: Account): (bytes: seq<Byte>)
    ensures |bytes| == 121 + |a.data|
  {
    a.pubkey.bytes + AccountBytes(a)
  }

  predicate Sized(a: Account) {
    |a.data| <= U64_MAX
  }

  lemma LeafBytesInjective(a: Account, b: Account)
    requires Sized(a) && Sized(b) && LeafBytes(a) == LeafBytes(b)
    ensures a == b
  {
    var f, g := LittleEndian(a.rentEpoch, 8), LittleEndian(b.rentEpoch, 8);
    var e, e' := [Flag(a.executable)] + f, [Flag(b.executable)] + g;
    var o, o' := a.owner.bytes + e, b.owner.bytes + e';
    var d, d' := a.data + o, b.data + o';
    var l, l' := LittleEndian(|a.data|, 8) + d, LittleEndian(|b.data|, 8) + d';
    var m, m' := LittleEndian(a.lamports, 8) + l, LittleEndian(b.lamports, 8) + l';
    Peel(a.pubkey.bytes, AccountBytes(a), b.pubkey.bytes, AccountBytes(b));
    Peel(a.pubkey.bytes, m, b.pubkey.bytes, m');
    U64Peel(a.lamports, l, b.lamports, l');
    U64Peel(|a.data|, d, |b.data|, d');
    Peel(a.data, o, b.data, o');
    Peel(a.owner.bytes, e, b.owner.bytes, e');
    Peel([Flag(a.executable)], f, [Flag(b.executable)], g);
    U64Injective(a.rentEpoch, b.rentEpoch);
  }

  /**
   What is hashed for an account: its key twice, then lamports, data length and data, owner, the executable flag as one byte,
   and the rent epoch; numbers are eight little-endian bytes.
   */
  lemma {:induction false} LeafLayout(a: Account)
    ensures var b, n := LeafBytes(a), 80 + |a.data|;
            && |b| == n + 41 && b[..32] == a.pubkey.bytes && b[32..64] == a.pubkey.bytes
            && b[64..72] == LittleEndian(a.lamports, 8) && b[72..80] == LittleEndian(|a.data|, 8)
            && b[80..n] == a.data && b[n..n + 32] == a.owner.bytes && (b[n + 32] == if a.executable then 1 else 0)
            && b[n + 33..] == LittleEndian(a.rentEpoch, 8)
  {
    var b, n := LeafBytes(a), |a.data|;
    var e := [Flag(a.executable)] + LittleEndian(a.rentEpoch, 8);
    var o := a.owner.bytes + e;
    var d := a.data + o;
    var l := LittleEndian(n, 8) + d;
    Field(b, 0, a.pubkey.bytes, AccountBytes(a));
    Field(b, 32, a.pubkey.bytes, LittleEndian(a.lamports, 8) + l);
    Field(b, 64, LittleEndian(a.lamports, 8), l);
    Field(b, 72, LittleEndian(n, 8), d);
    Field(b, 80, a.data, o);
    Field(b, 80 + n, a.owner.bytes, e);
    Field(b, 112 + n, [Flag(a.executable)], LittleEndian(a.rentEpoch, 8));
  }

  lemma {:induction false} Field(b: seq<Byte>, at: nat, field: seq<Byte>, rest: seq<Byte>)
    requires at <= |b| && b[at..] == field + rest
    ensures at + |field| <= |b| && b[at..at + |field|] == field && b[at + |field|..] == rest
  {
    assert b[at..][..|field|] == field && b[at..][|field|..] == rest;
  }

  // ----- sorting digests

  predicate BytesLeq(a: seq<Byte>, b: seq<Byte>) {
    a == [] || (b != [] && if a[0] == b[0] then BytesLeq(a[1..], b[1..]) else a[0] < b[0])
  }

  /** Digests are ordered by the first byte in which they differ. */
  lemma {:induction false} DigestOrder(a: seq<Byte>, b: seq<Byte>, i: nat)
    requires i < |a| == |b| && a[..i] == b[..i] && a[i] != b[i]
    ensures BytesLeq(a, b) <==> a[i] < b[i]
  {
    if i > 0 {
      assert a[0] == a[..i][0] && b[0] == b[..i][0];
      assert a[1..][..i - 1] == a[..i][1..] && b[1..][..i - 1] == b[..i][1..];
      DigestOrder(a[1..], b[1..], i - 1);
    }
  }

  lemma {:induction false} BytesLeqTotal(a: seq<Byte>, b: seq<Byte>)
    ensures BytesLeq(a, b) || BytesLeq(b, a)
    ensures BytesLeq(a, b) && BytesLeq(b, a) ==> a == b
  {
    if a != [] && b != [] && a[0] == b[0] {
      BytesLeqTotal(a[1..], b[1..]);
      assert a == [a[0]] + a[1..] && b == [b[0]] + b[1..];
    }
  }

  lemma {:induction false} BytesLeqTransitive(a: seq<Byte>, b: seq<Byte>, c: seq<Byte>)
    requires BytesLeq(a, b) && BytesLeq(b, c)
    ensures BytesLeq(a, c)
  {
    if a != [] && a[0] == b[0] == c[0] {
      BytesLeqTransitive(a[1..], b[1..], c[1..]);
    }
  }

  ghost predicate Sorted(s: seq<Digest>) {
    forall i, j :: 0 <= i < j < |s| ==> BytesLeq(s[i], s[j])
  }

  function Insert(d: Digest, s: seq<Digest>): (r: seq<Digest>)
    ensures |r| == |s| + 1
  {
    if s == [] || BytesLeq(d, s[0]) then [d] + s else [s[0]] + Insert(d, s[1..])
  }

  /** `par_sort_unstable`: digests have no identity beyond their bytes, so any sort gives this list. */
  function Sort(s: seq<Digest>): (r: seq<Digest>)
    ensures |r| == |s|
  {
    if s == [] then [] else Insert(s[0], Sort(s[1..]))
  }

  lemma {:induction false} InsertSorts(d: Digest, s: seq<Digest>)
    requires Sorted(s)
    ensures Sorted(Insert(d, s)) && multiset(Insert(d, s)) == multiset(s) + multiset{d}
  {
    if s == [] {
    } else if BytesLeq(d, s[0]) {
      forall j | 0 <= j < |s| ensures BytesLeq(d, s[j]) {
        if j > 0 { BytesLeqTransitive(d, s[0], s[j]); }
      }
    } else {
      InsertSorts(d, s[1..]);
      BytesLeqTotal(d, s[0]);
      assert s == [s[0]] + s[1..];
      HeadStays(s, d, Insert(d, s[1..]));
    }
  }

  lemma HeadStays(s: seq<Digest>, d: Digest, t: seq<Digest>)
    requires s != [] && Sorted(s) && BytesLeq(s[0], d) && Sorted(t) && multiset(t) == multiset(s[1..]) + multiset{d}
    ensures Sorted([s[0]] + t)
  {
    forall j | 0 <= j < |t| ensures BytesLeq(s[0], t[j]) {
      assert t[j] in multiset(t);
      if t[j] != d {
        assert t[j] in s[1..];
      }
    }
  }

  lemma {:induction false} SortSorts(s: seq<Digest>)
    ensures Sorted(Sort(s)) && multiset(Sort(s)) == multiset(s)
  {
    if s != [] {
      SortSorts(s[1..]);
      InsertSorts(s[0], Sort(s[1..]));
      assert s == [s[0]] + s[1..];
    }
  }

  lemma HeadIsLeast(s: seq<Digest>, d: Digest)
    requires Sorted(s) && d in multiset(s)
    ensures s != [] && BytesLeq(s[0], d)
  {
    var i :| 0 <= i < |s| && s[i] == d;
    BytesLeqTotal(d, d);
  }

  lemma {:induction false} SortedUnique(s: seq<Digest>, t: seq<Digest>)
    requires Sorted(s) && Sorted(t) && multiset(s) == multiset(t)
    ensures s == t
  {
    if s == [] {
      assert |multiset(t)| == 0;
    } else {
      assert s[0] in multiset(s) && |multiset(t)| == |s|;
      assert t[0] in multiset(t);
      HeadIsLeast(t, s[0]);
      HeadIsLeast(s, t[0]);
      BytesLeqTotal(s[0], t[0]);
      assert s == [s[0]] + s[1..] && t == [t[0]] + t[1..];
      assert multiset(s[1..]) == multiset(s) - multiset{s[0]};
      assert multiset(t[1..]) == multiset(t) - multiset{t[0]};
      SortedUnique(s[1..], t[1..]);
    }
  }

  // ----- the fold

  function Partner(level: seq<Digest>, i: nat): Digest
    requires 2 * i < |level|
  {
    if 2 * i + 1 < |level| then level[2 * i + 1] else level[2 * i]
  }

  function Parent(sha: Sha, level: seq<Digest>, i: nat): Digest
    requires 2 * i < |level|
  {
    sha(level[2 * i] + Partner(level, i))
  }

  function NextLevel(sha: Sha, level: seq<Digest>): (next: seq<Digest>)
    ensures |next| == (|level| + 1) / 2
  {
    seq((|level| + 1) / 2, i requires 0 <= i < (|level| + 1) / 2 => Parent(sha, level, i))
  }

  function Fold(sha: Sha, level: seq<Digest>): Digest
    requires level != []
    decreases |level|
  {
    if |level| == 1 then level[0] else Fold(sha, NextLevel(sha, level))
  }

  function Leaf(sha: Sha, a: Account): Digest {
    sha(LeafBytes(a))
  }

  function Leaves(sha: Sha, accounts: seq<Account>): seq<Digest> {
    seq(|accounts|, i requires 0 <= i < |accounts| => Leaf(sha, accounts[i]))
  }

  function Root(sha: Sha, accounts: seq<Account>): Digest
    requires accounts != []
  {
    Fold(sha, Sort(Leaves(sha, accounts)))
  }

  /** The level loop; `Err` is the "empty level" error. */
  method HashAccounts(sha: Sha, accounts: seq<Account>) returns (r: Result<Hash, string>)
    ensures r.Ok? <==> accounts != []
    ensures r.Ok? ==> r.value == Hash(Root(sha, accounts))
  {
    var level := Sort(Leaves(sha, accounts));
    ghost var sorted := level;
    while |level| > 1
      invariant level != [] <==> accounts != []
      invariant accounts != [] ==> Fold(sha, level) == Fold(sha, sorted)
      decreases |level|
    {
      var next: seq<Digest> := [];
      for i := 0 to (|level| + 1) / 2
        invariant |next| == i && forall j :: 0 <= j < i ==> next[j] == Parent(sha, level, j)
      {
        var right := if 2 * i + 1 < |level| then level[2 * i + 1] else level[2 * i];
        var pair: seq<Byte> := level[2 * i];
        next := next + [sha(pair + right)];
      }
      assert next == NextLevel(sha, level);
      level := next;
    }
    if level == [] {
      return Err("empty level");
    }
    r := Ok(Hash(level[0]));
  }

  /** The root depends on the accounts, not on the order in which a store lists them. */
  lemma RootIgnoresOrder(sha: Sha, a: seq<Account>, b: seq<Account>)
    requires a != [] && multiset(a) == multiset(b)
    ensures b != [] && Root(sha, a) == Root(sha, b)
  {
    assert |multiset(b)| == |a|;
    LeavesMultiset(sha, a, b);
    SortSorts(Leaves(sha, a));
    SortSorts(Leaves(sha, b));
    SortedUnique(Sort(Leaves(sha, a)), Sort(Leaves(sha, b)));
  }

  lemma RemoveAt<T>(s: seq<T>, j: nat)
    requires j < |s|
    ensures multiset(Without(s, j)) == multiset(s) - multiset{s[j]}
  {
    assert s == s[..j] + [s[j]] + s[j + 1..];
  }

  function Without<T>(s: seq<T>, j: nat): seq<T>
    requires j < |s|
  {
    s[..j] + s[j + 1..]
  }

  lemma LeavesWithout(sha: Sha, s: seq<Account>, j: nat)
    requires j < |s|
    ensures multiset(Leaves(sha, s)) == multiset(Leaves(sha, Without(s, j))) + multiset{Leaf(sha, s[j])}
  {
    RemoveAt(Leaves(sha, s), j);
    assert Without(Leaves(sha, s), j) == Leaves(sha, Without(s, j));
  }

  lemma {:induction false} LeavesMultiset(sha: Sha, a: seq<Account>, b: seq<Account>)
    requires multiset(a) == multiset(b)
    ensures multiset(Leaves(sha, a)) == multiset(Leaves(sha, b))
    decreases |a|
  {
    assert |multiset(b)| == |a|;
    if a != [] {
      assert a[0] in multiset(b);
      var j :| 0 <= j < |b| && b[j] == a[0];
      RemoveAt(a, 0);
      RemoveAt(b, j);
      LeavesMultiset(sha, Without(a, 0), Without(b, j));
      LeavesWithout(sha, a, 0);
      LeavesWithout(sha, b, j);
    }
  }
}
