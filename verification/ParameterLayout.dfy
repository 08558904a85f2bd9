/** The parameter buffer as a program reads it: what stands at which offset. */
module ParameterLayout {
  import opened Types
  import opened Bytes
  import opened Banks
  import opened Parameters

  /** An earlier info names the same key. */
  ghost predicate Repeated(infos: seq<AccountInfo>, i: nat)
    requires i < |infos|
  {
    exists j :: 0 <= j < i && infos[j].pubkey == infos[i].pubkey
  }

  /** Zero bytes up to the next multiple of eight. */
  function Fill(n: nat): nat {
    if n % 8 == 0 then 0 else 8 - n % 8
  }

  /** Where the i-th account begins: a count of eight bytes, then one byte for each repeated info and 83, the data and its fill for others. */
  ghost function Offset(infos: seq<AccountInfo>, cells: seq<Account>, i: nat): nat
    requires i <= |infos| && InCells(infos, |cells|)
  {
    if i == 0 then 8 else
      var n := |cells[infos[i - 1].cell].data|;
      Offset(infos, cells, i - 1) + if Repeated(infos, i - 1) then 1 else 83 + n + Fill(n)
  }

  /** An account that no earlier info names. */
  ghost predicate LaidOut(buf: seq<Byte>, s: nat, info: AccountInfo, a: Account) {
    var n := |a.data|;
    && s + 83 + n + Fill(n) <= |buf|
    && buf[s] == 255 && buf[s + 1] == (if info.isSigner then 1 else 0) && buf[s + 2] == (if info.isWritable then 1 else 0)
    && buf[s + 3..s + 35] == info.pubkey.bytes && buf[s + 35..s + 67] == a.owner.bytes
    && Digits8(buf, s + 67) == a.lamports && Digits8(buf, s + 75) == n
    && buf[s + 83..s + 83 + n] == a.data && forall j :: s + 83 + n <= j < s + 83 + n + Fill(n) ==> buf[j] == 0
  }

  /** A repeated account: the low byte of the position of the first info with its key. */
  ghost predicate RefersBack(buf: seq<Byte>, s: nat, infos: seq<AccountInfo>, i: nat)
    requires i < |infos|
  {
    s < |buf| && forall f :: 0 <= f < i && infos[f].pubkey == infos[i].pubkey && !Repeated(infos, f) ==> buf[s] == f % 256
  }

  lemma {:induction false} FirstIffRepeated(infos: seq<AccountInfo>, i: nat)
    requires i < |infos|
    ensures FirstOf(infos, infos[i].pubkey, i).Some? <==> Repeated(infos, i)
    ensures forall f :: 0 <= f < i && infos[f].pubkey == infos[i].pubkey && !Repeated(infos, f) ==> FirstOf(infos, infos[i].pubkey, i) == Some(f)
  {
    FirstOfMeans(infos, infos[i].pubkey, i);
  }

  lemma {:induction false} RecordSize(infos: seq<AccountInfo>, cells: seq<Account>, i: nat)
    requires i < |infos| && InCells(infos, |cells|)
    ensures var n := |cells[infos[i].cell].data|;
            SizeOfMark(MarkOf(infos, cells, i)) == if Repeated(infos, i) then 1 else 83 + n + Fill(n)
  {
    FirstIffRepeated(infos, i);
  }

  lemma {:induction false} OffsetIsStart(infos: seq<AccountInfo>, cells: seq<Account>, i: nat)
    requires i <= |infos| && InCells(infos, |cells|)
    ensures Offset(infos, cells, i) == Start(infos, cells, i)
  {
    for j := 0 to i
      invariant Offset(infos, cells, j) == Start(infos, cells, j)
    {
      RecordSize(infos, cells, j);
      RecordsSize(infos, cells, j);
    }
  }

  lemma {:induction false} ZerosAre(n: nat)
    ensures forall j :: 0 <= j < n ==> Zeros(n)[j] == 0
  {
    if n > 0 {
      ZerosAre(n - 1);
    }
  }

  lemma {:induction false} FieldsLaidOut(before: seq<Byte>, info: AccountInfo, a: Account, after: seq<Byte>, buf: seq<Byte>)
    requires buf == before + (Header(info) + Body(a)) + after && |a.data| <= U64_MAX
    ensures LaidOut(buf, |before|, info, a)
  {
    var s, n := |before|, |a.data|;
    Lengths(info, a);
    HeaderLaidOut(before, info, Body(a) + after, buf);
    assert buf == (before + Header(info)) + Body(a) + after;
    BodyFields(before + Header(info), a, after, buf);
    U64Digits(buf, s + 67);
    U64Digits(buf, s + 75);
    FillLaidOut(before + Header(info), a, after, buf);
  }

  lemma {:induction false} HeaderLaidOut(before: seq<Byte>, info: AccountInfo, after: seq<Byte>, buf: seq<Byte>)
    requires buf == before + Header(info) + after
    ensures var s := |before|;
            && s + 35 <= |buf| && buf[s] == 255 && buf[s + 1] == (if info.isSigner then 1 else 0)
            && buf[s + 2] == (if info.isWritable then 1 else 0) && buf[s + 3..s + 35] == info.pubkey.bytes
  {
    var s, h := |before|, Header(info);
    SliceIs(before, h, after, buf);
    assert h[3..35] == info.pubkey.bytes;
    assert buf[s + 3..s + 35] == buf[s..s + 35][3..35];
    assert buf[s] == h[0] && buf[s + 1] == h[1] && buf[s + 2] == h[2];
  }

  lemma {:induction false} FillLaidOut(before: seq<Byte>, a: Account, after: seq<Byte>, buf: seq<Byte>)
    requires buf == before + Body(a) + after
    ensures var e := |before| + 48 + |a.data|;
            e + Fill(|a.data|) <= |buf| && forall j :: e <= j < e + Fill(|a.data|) ==> buf[j] == 0
  {
    var z := Zeros(Padding(|a.data|));
    var front := a.owner.bytes + (LittleEndian(a.lamports, 8) + (LittleEndian(|a.data|, 8) + a.data));
    assert Body(a) == front + z && |front| == 48 + |a.data|;
    assert buf == (before + front) + z + after;
    SliceIs(before + front, z, after, buf);
    ZerosAre(Padding(|a.data|));
    var e := |before| + 48 + |a.data|;
    forall j | e <= j < e + Fill(|a.data|) ensures buf[j] == 0 {
      assert buf[j] == buf[e..e + |z|][j - e];
    }
  }

  ghost predicate AccountAt(buf: seq<Byte>, infos: seq<AccountInfo>, cells: seq<Account>, i: nat)
    requires i < |infos| && InCells(infos, |cells|)
  {
    if Repeated(infos, i) then RefersBack(buf, Offset(infos, cells, i), infos, i)
    else LaidOut(buf, Offset(infos, cells, i), infos[i], cells[infos[i].cell])
  }

  lemma {:induction false} AccountLaidOut(infos: seq<AccountInfo>, cells: seq<Account>, data: seq<Byte>, i: nat)
    requires i < |infos| && InCells(infos, |cells|) && |cells[infos[i].cell].data| <= U64_MAX
    ensures AccountAt(Serialized(infos, cells, data), infos, cells, i)
  {
    var before, after := RecordAt(infos, cells, data, i);
    OffsetIsStart(infos, cells, i);
    FirstIffRepeated(infos, i);
    if Repeated(infos, i) {
      assert Serialized(infos, cells, data)[|before|] == Record(infos, cells, i)[0];
    } else {
      FieldsLaidOut(before, infos[i], cells[infos[i].cell], after, Serialized(infos, cells, data));
    }
  }

  /** The whole buffer: the count, every account at its offset, the length of the instruction data, and that data. */
  lemma {:induction false} BufferLayout(infos: seq<AccountInfo>, cells: seq<Account>, data: seq<Byte>)
    requires InCells(infos, |cells|) && |infos| <= U64_MAX && |data| <= U64_MAX && forall c :: 0 <= c < |cells| ==> |cells[c].data| <= U64_MAX
    ensures var buf := Serialized(infos, cells, data); var e := Offset(infos, cells, |infos|);
            && |buf| == e + 8 + |data| && Digits8(buf, 0) == |infos|
            && (forall i :: 0 <= i < |infos| ==> AccountAt(buf, infos, cells, i))
            && Digits8(buf, e) == |data| && buf[e + 8..] == data
  {
    var buf := Serialized(infos, cells, data);
    OffsetIsStart(infos, cells, |infos|);
    forall i | 0 <= i < |infos| ensures AccountAt(buf, infos, cells, i) {
      AccountLaidOut(infos, cells, data, i);
    }
    EndsLaidOut(LittleEndian(|infos|, 8), Records(infos, cells, |infos|), LittleEndian(|data|, 8), data, buf);
    U64AtEncoded([], |infos|, Records(infos, cells, |infos|) + (LittleEndian(|data|, 8) + data), buf);
    U64Digits(buf, 0);
    var front := LittleEndian(|infos|, 8) + Records(infos, cells, |infos|);
    U64AtEncoded(front, |data|, data, buf);
    U64Digits(buf, |front|);
  }

  lemma EndsLaidOut(count: seq<Byte>, records: seq<Byte>, length: seq<Byte>, data: seq<Byte>, buf: seq<Byte>)
    requires buf == count + records + (length + data)
    ensures buf == [] + count + (records + (length + data)) && buf == (count + records) + length + data
    ensures buf[|count| + |records| + |length|..] == data
  {
  }

  // ----- reading any buffer, whatever a program left in it

  /** What the record at `s` says, where it is an original and its fixed fields are inside the buffer. */
  ghost predicate Original(input: seq<Byte>, s: nat) {
    s + 83 <= |input| && input[s] == 255
  }

  /** Exactly when a record is skipped, refused or read beyond its end before its length is known. */
  lemma {:induction false} ReadStarts(input: seq<Byte>, s: nat)
    ensures var r := ReadRecord(input, s);
            && (r.Skip? <==> s < |input| && input[s] != 255) && (r.Skip? ==> r.next == s + 1)
            && (r.Overwrite? || r.Keep? ==> Original(input, s))
            && (s < |input| <= s + 2 && input[s] == 255 ==> r.Panic?)
            && (s >= |input| || (s + 2 < |input| < s + 83 && input[s] == 255) ==> r.Invalid?)
  {
  }

  /** Exactly when an account is overwritten or kept, and with which bytes. */
  lemma {:induction false} ReadExactly(input: seq<Byte>, s: nat)
    requires |input| <= U64_MAX && Original(input, s)
    ensures var r := ReadRecord(input, s); var n := Digits8(input, s + 75); var end := s + 83 + n + Fill(n);
            && (r.Overwrite? <==> input[s + 2] != 0 && end <= |input|)
            && (r.Keep? <==> input[s + 2] == 0 && end <= |input|)
            && (r.Keep? || r.Overwrite? ==> r.next == end)
            && (r.Overwrite? ==> r.owner.bytes == input[s + 35..s + 67] && r.lamports == Digits8(input, s + 67) && r.data == input[s + 83..s + 83 + n])
            && (r.Panic? <==> if input[s + 2] == 0 then end > U64_MAX else s + 83 + n > U64_MAX)
  {
    U64Digits(input, s + 67);
    U64Digits(input, s + 75);
  }
}
