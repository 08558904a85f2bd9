/** The buffer through which accounts are handed to a virtual machine and read back. */
module Parameters {
  import opened Types
  import opened Bytes
  import opened Banks
  import Sequences

  const NON_DUP_MARKER: Byte := 255

  function Padding(n: nat): nat {
    (8 - n % 8) % 8
  }

  function Zeros(n: nat): (z: seq<Byte>)
    ensures |z| == n
  {
    if n == 0 then [] else Zeros(n - 1) + [0]
  }

  /** The first of the first `n` infos naming `k`. */
  function FirstOf(infos: seq<AccountInfo>, k: Pubkey, n: nat): (r: Option<nat>)
    requires n <= |infos|
    ensures r.Some? ==> r.value < n
  {
    if n == 0 then None else
      match FirstOf(infos, k, n - 1)
      case Some(f) => Some(f)
      case None => if infos[n - 1].pubkey == k then Some(n - 1) else None
  }

  lemma {:induction false} FirstOfMeans(infos: seq<AccountInfo>, k: Pubkey, n: nat)
    requires n <= |infos|
    ensures match FirstOf(infos, k, n)
            case None => forall i :: 0 <= i < n ==> infos[i].pubkey != k
            case Some(f) => infos[f].pubkey == k && forall i :: 0 <= i < f ==> infos[i].pubkey != k
  {
    if n > 0 {
      FirstOfMeans(infos, k, n - 1);
    }
  }

  ghost predicate InCells(infos: seq<AccountInfo>, cells: nat) {
    forall i :: 0 <= i < |infos| ==> infos[i].cell < cells
  }

  // ----- writing

  function Header(info: AccountInfo): seq<Byte> {
    [NON_DUP_MARKER, Flag(info.isSigner), Flag(info.isWritable)] + info.pubkey.bytes
  }

  function Body(a: Account): seq<Byte> {
    a.owner.bytes + (LittleEndian(a.lamports, 8) + (LittleEndian(|a.data|, 8) + (a.data + Zeros(Padding(|a.data|)))))
  }

  function Record(infos: seq<AccountInfo>, cells: seq<Account>, i: nat): seq<Byte>
    requires i < |infos| && InCells(infos, |cells|)
  {
    match FirstOf(infos, infos[i].pubkey, i)
    case Some(f) => [f % 256]
    case None => Header(infos[i]) + Body(cells[infos[i].cell])
  }

  function Records(infos: seq<AccountInfo>, cells: seq<Account>, n: nat): seq<Byte>
    requires n <= |infos| && InCells(infos, |cells|)
  {
    if n == 0 then [] else Records(infos, cells, n - 1) + Record(infos, cells, n - 1)
  }

  function Serialized(infos: seq<AccountInfo>, cells: seq<Account>, data: seq<Byte>): seq<Byte>
    requires InCells(infos, |cells|)
  {
    LittleEndian(|infos|, 8) + Records(infos, cells, |infos|) + (LittleEndian(|data|, 8) + data)
  }

  lemma Lengths(info: AccountInfo, a: Account)
    ensures |Header(info)| == 35 && |Body(a)| == 48 + |a.data| + Padding(|a.data|)
  {
  }

  ghost predicate FirstsOf(firstIndices: map<Pubkey, nat>, infos: seq<AccountInfo>, n: nat)
    requires n <= |infos|
  {
    forall k :: (if k in firstIndices then Some(firstIndices[k]) else None) == FirstOf(infos, k, n)
  }

  datatype SerializeAccount = Original(account: Account) | Duplicate(index: Byte)

  /** The two passes of `serialize_parameters`: find duplicates and the size, then write; the size is exact. */
  method SerializeParameters(infos: seq<AccountInfo>, cells: seq<Account>, data: seq<Byte>) returns (buf: seq<Byte>, size: nat)
    requires InCells(infos, |cells|)
    ensures buf == Serialized(infos, cells, data)
    ensures size == |buf|
  {
    var marked := MarkDuplicates(infos, cells);
    size := MeasureRecords(infos, cells, marked, |data|);
    buf := LittleEndian(|infos|, 8);
    for i := 0 to |infos|
      invariant buf == LittleEndian(|infos|, 8) + Records(infos, cells, i)
    {
      buf := WriteRecord(buf, infos[i], marked[i]);
      RecordOfMark(infos, cells, i);
      Sequences.Assoc(LittleEndian(|infos|, 8), Records(infos, cells, i), Record(infos, cells, i));
    }
    buf := buf + LittleEndian(|data|, 8);
    buf := buf + data;
    Sequences.Assoc(LittleEndian(|infos|, 8) + Records(infos, cells, |infos|), LittleEndian(|data|, 8), data);
  }

  function MarkedRecord(info: AccountInfo, mark: SerializeAccount): seq<Byte> {
    match mark case Original(a) => Header(info) + Body(a) case Duplicate(f) => [f]
  }

  lemma RecordOfMark(infos: seq<AccountInfo>, cells: seq<Account>, i: nat)
    requires i < |infos| && InCells(infos, |cells|)
    ensures Record(infos, cells, i) == MarkedRecord(infos[i], MarkOf(infos, cells, i))
  {
  }

  method MeasureRecords(infos: seq<AccountInfo>, cells: seq<Account>, marked: seq<SerializeAccount>, dataLen: nat) returns (size: nat)
    requires InCells(infos, |cells|) && Marks(infos, cells, marked, |infos|)
    ensures size == 16 + dataLen + |Records(infos, cells, |infos|)|
  {
    size := 8 + dataLen + 8;
    for i := 0 to |infos|
      invariant size == 16 + dataLen + |Records(infos, cells, i)|
    {
      MeasureStep(infos, cells, marked, i);
      size := MeasureRecord(size, marked[i]);
    }
  }

  function SizeOfMark(mark: SerializeAccount): nat {
    match mark case Duplicate(_) => 1 case Original(a) => 83 + |a.data| + Padding(|a.data|)
  }

  method MeasureRecord(size: nat, mark: SerializeAccount) returns (out: nat)
    ensures out == size + SizeOfMark(mark)
  {
    out := size + 1;
    if mark.Original? {
      var n := |mark.account.data|;
      out := out + (1 + 1 + 32 + 32 + 8 + 8);
      out := out + n;
      out := out + (8 - n % 8) % 8;
    }
  }

  lemma RecordsSize(infos: seq<AccountInfo>, cells: seq<Account>, i: nat)
    requires i < |infos| && InCells(infos, |cells|)
    ensures |Records(infos, cells, i + 1)| == |Records(infos, cells, i)| + SizeOfMark(MarkOf(infos, cells, i))
  {
    RecordOfMark(infos, cells, i);
    var mark := MarkOf(infos, cells, i);
    if mark.Original? {
      Lengths(infos[i], mark.account);
    }
  }

  lemma MeasureStep(infos: seq<AccountInfo>, cells: seq<Account>, marked: seq<SerializeAccount>, i: nat)
    requires i < |infos| && InCells(infos, |cells|) && Marks(infos, cells, marked, |infos|)
    ensures |Records(infos, cells, i + 1)| == |Records(infos, cells, i)| + SizeOfMark(marked[i])
  {
    RecordsSize(infos, cells, i);
  }

  method WriteRecord(buf: seq<Byte>, info: AccountInfo, mark: SerializeAccount) returns (out: seq<Byte>)
    ensures out == buf + MarkedRecord(info, mark)
  {
    match mark {
      case Original(a) =>
        out := buf + [NON_DUP_MARKER];
        out := out + [Flag(info.isSigner)];
        out := out + [Flag(info.isWritable)];
        out := out + info.pubkey.bytes;
        out := out + a.owner.bytes;
        out := out + LittleEndian(a.lamports, 8);
        out := out + LittleEndian(|a.data|, 8);
        out := out + a.data;
        out := out + Zeros((8 - |a.data| % 8) % 8);
      case Duplicate(f) =>
        out := buf + [f];
    }
  }

  method MarkDuplicates(infos: seq<AccountInfo>, cells: seq<Account>) returns (marked: seq<SerializeAccount>)
    requires InCells(infos, |cells|)
    ensures Marks(infos, cells, marked, |infos|)
  {
    var firstIndices: map<Pubkey, nat> := map[];
    marked := [];
    for i := 0 to |infos|
      invariant FirstsOf(firstIndices, infos, i) && Marks(infos, cells, marked, i)
    {
      var k := infos[i].pubkey;
      FirstsGrow(firstIndices, infos, i);
      MarksGrow(infos, cells, marked, i);
      if k in firstIndices {
        marked := marked + [Duplicate(firstIndices[k] % 256)];
      } else {
        firstIndices := firstIndices[k := i];
        marked := marked + [Original(cells[infos[i].cell])];
      }
    }
  }

  lemma FirstsGrow(firstIndices: map<Pubkey, nat>, infos: seq<AccountInfo>, n: nat)
    requires n < |infos| && FirstsOf(firstIndices, infos, n)
    ensures var k := infos[n].pubkey;
            && (if k in firstIndices then Some(firstIndices[k]) else None) == FirstOf(infos, k, n)
            && FirstsOf(if k in firstIndices then firstIndices else firstIndices[k := n], infos, n + 1)
  {
  }

  ghost predicate Marks(infos: seq<AccountInfo>, cells: seq<Account>, marked: seq<SerializeAccount>, n: nat)
    requires n <= |infos| && InCells(infos, |cells|)
  {
    |marked| == n && forall i :: 0 <= i < n ==> marked[i] == MarkOf(infos, cells, i)
  }

  lemma MarksGrow(infos: seq<AccountInfo>, cells: seq<Account>, marked: seq<SerializeAccount>, n: nat)
    requires n < |infos| && InCells(infos, |cells|) && Marks(infos, cells, marked, n)
    ensures Marks(infos, cells, marked + [MarkOf(infos, cells, n)], n + 1)
  {
  }

  function MarkOf(infos: seq<AccountInfo>, cells: seq<Account>, i: nat): SerializeAccount
    requires i < |infos| && InCells(infos, |cells|)
  {
    match FirstOf(infos, infos[i].pubkey, i)
    case Some(f) => Duplicate(f % 256)
    case None => Original(cells[infos[i].cell])
  }

  // ----- reading

  /** One record as read: an error, an out-of-range index or overflow, a skipped or kept account, or new contents. */
  datatype Parsed =
    | Invalid
    | Panic
    | Skip(next: nat)
    | Keep(next: nat)
    | Overwrite(owner: Pubkey, lamports: U64, data: seq<Byte>, next: nat)

  function ReadRecord(input: seq<Byte>, offset: nat): Parsed {
    if offset >= |input| then Invalid
    else if input[offset] != NON_DUP_MARKER then Skip(offset + 1)
    else if offset + 2 >= |input| then Panic
    else
      var p := offset + 35;
      if p + 48 > |input| then Invalid else
        var n := U64At(input, p + 40);
        var end := p + 48 + n;
        var next := end + Padding(n);
        if input[offset + 2] == 0 then
          if next > U64_MAX then Panic else if next > |input| then Invalid else Keep(next)
        else
          if end > U64_MAX then Panic
          else if next > |input| then Invalid
          else Overwrite(Pubkey(input[p..p + 32]), U64At(input, p + 32), input[p + 48..end], next)
  }

  /** Reading ends with the cells and the final offset, with `InvalidAccountData`, or by stopping the program. */
  datatype Outcome = Finished(cells: seq<Account>, offset: nat) | Rejected | Panicked

  /** What reading the first `n` records does. */
  function Parsing(infos: seq<AccountInfo>, cells: seq<Account>, input: seq<Byte>, n: nat): (r: Outcome)
    requires n <= |infos| && InCells(infos, |cells|)
    ensures r.Finished? ==> |r.cells| == |cells|
  {
    if n == 0 then Finished(cells, 8) else
      match Parsing(infos, cells, input, n - 1)
      case Finished(cells', offset) => Absorb(cells', infos[n - 1].cell, ReadRecord(input, offset))
      case failed => failed
  }

  /** What one parsed record does to its account cell. */
  function Absorb(cells: seq<Account>, c: nat, parsed: Parsed): (r: Outcome)
    requires c < |cells|
    ensures r.Finished? ==> |r.cells| == |cells|
  {
    match parsed
    case Invalid => Rejected
    case Panic => Panicked
    case Skip(next) => Finished(cells, next)
    case Keep(next) => Finished(cells, next)
    case Overwrite(owner, lamports, data, next) =>
      Finished(cells[c := cells[c].(owner := owner, lamports := lamports, data := data)], next)
  }

  lemma {:induction false} FailureStays(infos: seq<AccountInfo>, cells: seq<Account>, input: seq<Byte>, m: nat, n: nat)
    requires m <= n <= |infos| && InCells(infos, |cells|) && !Parsing(infos, cells, input, m).Finished?
    ensures Parsing(infos, cells, input, n) == Parsing(infos, cells, input, m)
  {
    if m < n {
      FailureStays(infos, cells, input, m, n - 1);
    }
  }

  method DeserializeParameters(infos: seq<AccountInfo>, cells: seq<Account>, input: seq<Byte>) returns (r: Outcome)
    requires InCells(infos, |cells|)
    ensures r == Parsing(infos, cells, input, |infos|)
  {
    var offset := 8;
    var out := cells;
    for i := 0 to |infos|
      invariant |out| == |cells| && Parsing(infos, cells, input, i) == Finished(out, offset)
    {
      ParsingStep(infos, cells, input, i + 1, out, offset);
      var step := DeserializeOne(out, infos[i].cell, input, offset);
      if !step.Finished? {
        FailureStays(infos, cells, input, i + 1, |infos|);
        return step;
      }
      out, offset := step.cells, step.offset;
    }
    r := Finished(out, offset);
  }

  /** One turn of the loop: read a record and overwrite its account's cell. */
  method DeserializeOne(cells: seq<Account>, c: nat, input: seq<Byte>, offset: nat) returns (r: Outcome)
    requires c < |cells|
    ensures r == Absorb(cells, c, ReadRecord(input, offset))
  {
    var parsed := ParseRecord(input, offset);
    match parsed {
      case Invalid => r := Rejected;
      case Panic => r := Panicked;
      case Skip(next) => r := Finished(cells, next);
      case Keep(next) => r := Finished(cells, next);
      case Overwrite(owner, lamports, data, next) =>
        var out := cells[c := cells[c].(owner := owner)];
        out := out[c := out[c].(lamports := lamports)];
        out := out[c := out[c].(data := data)];
        r := Finished(out, next);
    }
  }

  /** One record, with its checks in order. */
  method ParseRecord(input: seq<Byte>, start: nat) returns (r: Parsed)
    ensures r == ReadRecord(input, start)
  {
    var offset := start;
    if offset >= |input| {
      return Invalid;
    }
    var isDuplicate := input[offset] != NON_DUP_MARKER;
    offset := offset + 1;
    if isDuplicate {
      return Skip(offset);
    }
    if offset + 1 >= |input| {
      return Panic;
    }
    var isWritable := input[offset + 1] != 0;
    offset := offset + 34;
    if isWritable {
      r := ParseWritable(input, offset);
    } else {
      var lengthAt := offset + 32 + 8;
      if lengthAt + 8 > |input| {
        return Invalid;
      }
      var n: nat := U64At(input, lengthAt);
      var padding := (8 - n % 8) % 8;
      offset := offset + (32 + 8 + 8 + n + padding);
      r := if offset > U64_MAX then Panic else if offset > |input| then Invalid else Keep(offset);
    }
  }

  method ParseWritable(input: seq<Byte>, start: nat) returns (r: Parsed)
    requires 35 <= start && start - 35 < |input| && input[start - 35] == NON_DUP_MARKER
    requires start - 33 < |input| && input[start - 33] != 0
    ensures r == ReadRecord(input, start - 35)
  {
    var offset := start;
    if offset + 32 > |input| {
      return Invalid;
    }
    var owner := Pubkey(input[offset..offset + 32]);
    offset := offset + 32;
    if offset + 8 > |input| {
      return Invalid;
    }
    var lamports := U64At(input, offset);
    offset := offset + 8;
    if offset + 8 > |input| {
      return Invalid;
    }
    var n: nat := U64At(input, offset);
    offset := offset + 8;
    if offset + n > U64_MAX {
      return Panic;
    }
    if offset + n > |input| {
      return Invalid;
    }
    var data := input[offset..offset + n];
    var padding := (8 - n % 8) % 8;
    if offset + n + padding > |input| {
      return Invalid;
    }
    r := Overwrite(owner, lamports, data, offset + n + padding);
  }

  // ----- reading back what was written

  /** A duplicate whose first position has low byte 255 would be read as an original. */
  ghost predicate MarkerClash(infos: seq<AccountInfo>, i: nat)
    requires i < |infos|
  {
    FirstOf(infos, infos[i].pubkey, i).Some? && FirstOf(infos, infos[i].pubkey, i).value % 256 == 255
  }

  ghost predicate NoClash(infos: seq<AccountInfo>) {
    forall i :: 0 <= i < |infos| ==> !MarkerClash(infos, i)
  }

  /** Up to 256 accounts are safe. */
  lemma NoClashUpTo256(infos: seq<AccountInfo>)
    requires |infos| <= 256
    ensures NoClash(infos)
  {
  }

  ghost function Expected(info: AccountInfo, a: Account, next: nat): Parsed {
    if info.isWritable then Overwrite(a.owner, a.lamports, a.data, next) else Keep(next)
  }

  lemma {:induction false} ReadOriginal(before: seq<Byte>, info: AccountInfo, a: Account, after: seq<Byte>, input: seq<Byte>)
    requires input == before + (Header(info) + Body(a)) + after && |input| <= U64_MAX
    ensures ReadRecord(input, |before|) == Expected(info, a, |before| + |Header(info) + Body(a)|)
  {
    Lengths(info, a);
    HeaderBytes(before, info, Body(a) + after, input);
    BodyFields(before + Header(info), a, after, input);
  }

  lemma {:induction false} HeaderBytes(before: seq<Byte>, info: AccountInfo, after: seq<Byte>, input: seq<Byte>)
    requires input == before + Header(info) + after
    ensures |input| >= |before| + 35 && input[|before|] == NON_DUP_MARKER && (input[|before| + 2] != 0 <==> info.isWritable)
  {
  }

  /** The fields of an account behind its header. */
  lemma {:induction false} BodyFields(before: seq<Byte>, a: Account, after: seq<Byte>, input: seq<Byte>)
    requires input == before + Body(a) + after && |a.data| <= U64_MAX
    ensures var p, n := |before|, |a.data|;
            && |input| >= p + 48 + n + Padding(n)
            && input[p..p + 32] == a.owner.bytes
            && U64At(input, p + 32) == a.lamports && U64At(input, p + 40) == n
            && input[p + 48..p + 48 + n] == a.data
  {
    var l, n, z := LittleEndian(a.lamports, 8), LittleEndian(|a.data|, 8), Zeros(Padding(|a.data|));
    var p := |before|;
    assert input[p..] == Body(a) + after;
    Take(input, p, a.owner.bytes, l + (n + (a.data + z)), after);
    Take(input, p + 32, l, n + (a.data + z), after);
    Take(input, p + 40, n, a.data + z, after);
    Take(input, p + 48, a.data, z, after);
    U64RoundTrip(a.lamports);
    U64RoundTrip(|a.data|);
  }

  lemma Take<T>(s: seq<T>, p: nat, part: seq<T>, rest: seq<T>, after: seq<T>)
    requires p <= |s| && s[p..] == part + rest + after
    ensures p + |part| <= |s| && s[p..p + |part|] == part && s[p + |part|..] == rest + after
  {
    assert s[p..p + |part|] == s[p..][..|part|];
    assert s[p + |part|..] == s[p..][|part|..];
  }

  function Start(infos: seq<AccountInfo>, cells: seq<Account>, i: nat): nat
    requires i <= |infos| && InCells(infos, |cells|)
  {
    8 + |Records(infos, cells, i)|
  }

  lemma {:induction false} RecordsPrefix(infos: seq<AccountInfo>, cells: seq<Account>, i: nat, n: nat) returns (rest: seq<Byte>)
    requires i <= n <= |infos| && InCells(infos, |cells|)
    ensures Records(infos, cells, n) == Records(infos, cells, i) + rest
  {
    if i == n {
      rest := [];
    } else {
      var init := RecordsPrefix(infos, cells, i, n - 1);
      var last := Record(infos, cells, n - 1);
      rest := init + last;
      Sequences.Extend(Records(infos, cells, n), Records(infos, cells, n - 1), Records(infos, cells, i), init, last);
    }
  }

  /** The buffer around one record. */
  lemma {:induction false} RecordAt(infos: seq<AccountInfo>, cells: seq<Account>, data: seq<Byte>, i: nat)
    returns (before: seq<Byte>, after: seq<Byte>)
    requires i < |infos| && InCells(infos, |cells|)
    ensures Serialized(infos, cells, data) == before + Record(infos, cells, i) + after
    ensures |before| == Start(infos, cells, i) && Start(infos, cells, i + 1) == |before| + |Record(infos, cells, i)|
  {
    var rest := RecordsPrefix(infos, cells, i + 1, |infos|);
    before, after := LittleEndian(|infos|, 8) + Records(infos, cells, i), rest + (LittleEndian(|data|, 8) + data);
    Surround(LittleEndian(|infos|, 8), Records(infos, cells, i), Record(infos, cells, i), rest, LittleEndian(|data|, 8) + data);
  }

  lemma Surround<T>(a: seq<T>, b: seq<T>, c: seq<T>, d: seq<T>, e: seq<T>)
    ensures a + (b + c + d) + e == (a + b) + c + (d + e)
  {
    assert a + (b + c + d) == (a + b) + c + d;
  }

  lemma {:induction false} ReadWritten(infos: seq<AccountInfo>, cells: seq<Account>, data: seq<Byte>, i: nat)
    requires i < |infos| && InCells(infos, |cells|) && |Serialized(infos, cells, data)| <= U64_MAX && !MarkerClash(infos, i)
    ensures var next := Start(infos, cells, i + 1);
            ReadRecord(Serialized(infos, cells, data), Start(infos, cells, i))
            == if FirstOf(infos, infos[i].pubkey, i).Some? then Skip(next) else Expected(infos[i], cells[infos[i].cell], next)
  {
    var before, after := RecordAt(infos, cells, data, i);
    var input := Serialized(infos, cells, data);
    if FirstOf(infos, infos[i].pubkey, i).Some? {
      assert input[|before|] == Record(infos, cells, i)[0];
    } else {
      ReadOriginal(before, infos[i], cells[infos[i].cell], after, input);
    }
  }

  /** Reading finds each record where it was written and moves on to where the next one was. */
  ghost predicate Tracks(infos: seq<AccountInfo>, cells: seq<Account>, data: seq<Byte>)
    requires InCells(infos, |cells|)
  {
    forall i :: 0 <= i < |infos| ==> TracksAt(infos, cells, data, i)
  }

  ghost predicate TracksAt(infos: seq<AccountInfo>, cells: seq<Account>, data: seq<Byte>, i: nat)
    requires i < |infos| && InCells(infos, |cells|)
  {
    var parsed := ReadRecord(Serialized(infos, cells, data), Start(infos, cells, i));
    (parsed.Skip? || parsed.Keep? || parsed.Overwrite?) && parsed.next == Start(infos, cells, i + 1)
  }

  /** Reading stays on the written records exactly when no truncated duplicate index looks like the original marker. */
  lemma {:induction false} TracksIff(infos: seq<AccountInfo>, cells: seq<Account>, data: seq<Byte>)
    requires InCells(infos, |cells|) && |Serialized(infos, cells, data)| <= U64_MAX
    ensures Tracks(infos, cells, data) <==> NoClash(infos)
  {
    forall i | 0 <= i < |infos| ensures TracksAt(infos, cells, data, i) <==> !MarkerClash(infos, i) {
      if MarkerClash(infos, i) {
        var before, after := RecordAt(infos, cells, data, i);
        assert Serialized(infos, cells, data)[|before|] == Record(infos, cells, i)[0];
      } else {
        ReadWritten(infos, cells, data, i);
      }
    }
  }

  // ----- the round trip

  ghost predicate SameKeys(a: seq<AccountInfo>, b: seq<AccountInfo>) {
    |a| == |b| && forall i :: 0 <= i < |a| ==> a[i].pubkey == b[i].pubkey
  }

  /** `to` with what the program may have changed in `from`. */
  function Taken(to: Account, from: Account): Account {
    to.(owner := from.owner, lamports := from.lamports, data := from.data)
  }

  ghost predicate Copies(infos: seq<AccountInfo>, i: nat)
    requires i < |infos|
  {
    infos[i].isWritable && FirstOf(infos, infos[i].pubkey, i).None?
  }

  ghost function Copied(a: seq<AccountInfo>, cellsA: seq<Account>, b: seq<AccountInfo>, cellsB: seq<Account>, n: nat): (r: seq<Account>)
    requires SameKeys(a, b) && InCells(a, |cellsA|) && InCells(b, |cellsB|) && n <= |a|
    ensures |r| == |cellsA|
  {
    if n == 0 then cellsA else
      var prev := Copied(a, cellsA, b, cellsB, n - 1);
      var c := a[n - 1].cell;
      if Copies(b, n - 1) then prev[c := Taken(prev[c], cellsB[b[n - 1].cell])] else prev
  }

  lemma {:induction false} AbsorbWritten(b: seq<AccountInfo>, cellsB: seq<Account>, i: nat, prev: seq<Account>, c: nat,
                                         parsed: Parsed, next: nat)
    requires i < |b| && b[i].cell < |cellsB| && c < |prev|
    requires parsed == if FirstOf(b, b[i].pubkey, i).Some? then Skip(next) else Expected(b[i], cellsB[b[i].cell], next)
    ensures Absorb(prev, c, parsed) == Finished(if Copies(b, i) then prev[c := Taken(prev[c], cellsB[b[i].cell])] else prev, next)
  {
  }

  lemma ParsingStep(infos: seq<AccountInfo>, cells: seq<Account>, input: seq<Byte>, n: nat, prev: seq<Account>, offset: nat)
    requires 0 < n <= |infos| && InCells(infos, |cells|) && |prev| == |cells|
    requires Parsing(infos, cells, input, n - 1) == Finished(prev, offset)
    ensures Parsing(infos, cells, input, n) == Absorb(prev, infos[n - 1].cell, ReadRecord(input, offset))
  {
  }

  ghost predicate ReadUpTo(a: seq<AccountInfo>, cellsA: seq<Account>, b: seq<AccountInfo>, cellsB: seq<Account>, data: seq<Byte>, n: nat)
    requires SameKeys(a, b) && InCells(a, |cellsA|) && InCells(b, |cellsB|) && n <= |a|
  {
    Parsing(a, cellsA, Serialized(b, cellsB, data), n) == Finished(Copied(a, cellsA, b, cellsB, n), Start(b, cellsB, n))
  }

  lemma {:induction false} ReadNext(a: seq<AccountInfo>, cellsA: seq<Account>, b: seq<AccountInfo>, cellsB: seq<Account>,
                                    data: seq<Byte>, i: nat)
    requires SameKeys(a, b) && InCells(a, |cellsA|) && InCells(b, |cellsB|) && i < |a|
    requires !MarkerClash(b, i) && |Serialized(b, cellsB, data)| <= U64_MAX
    requires ReadUpTo(a, cellsA, b, cellsB, data, i)
    ensures ReadUpTo(a, cellsA, b, cellsB, data, i + 1)
  {
    var input, at, prev := Serialized(b, cellsB, data), Start(b, cellsB, i), Copied(a, cellsA, b, cellsB, i);
    ReadWritten(b, cellsB, data, i);
    ParsingStep(a, cellsA, input, i + 1, prev, at);
    AbsorbWritten(b, cellsB, i, prev, a[i].cell, ReadRecord(input, at), Start(b, cellsB, i + 1));
  }

  lemma {:induction false} ReadBack(a: seq<AccountInfo>, cellsA: seq<Account>, b: seq<AccountInfo>, cellsB: seq<Account>,
                                    data: seq<Byte>, n: nat)
    requires SameKeys(a, b) && InCells(a, |cellsA|) && InCells(b, |cellsB|) && n <= |a|
    requires NoClash(b) && |Serialized(b, cellsB, data)| <= U64_MAX
    ensures ReadUpTo(a, cellsA, b, cellsB, data, n)
  {
    if n > 0 {
      ReadBack(a, cellsA, b, cellsB, data, n - 1);
      ReadNext(a, cellsA, b, cellsB, data, n - 1);
    }
  }

  /** The cells of infos are overwritten once, by their key's first occurrence, and only if that is writable. */
  /** Cells of no copied account stay. */
  lemma {:induction false} UncopiedCell(a: seq<AccountInfo>, cellsA: seq<Account>, b: seq<AccountInfo>, cellsB: seq<Account>, n: nat, c: nat)
    requires SameKeys(a, b) && InCells(a, |cellsA|) && InCells(b, |cellsB|) && n <= |a| && c < |cellsA|
    requires forall i :: 0 <= i < n && Copies(b, i) ==> a[i].cell != c
    ensures Copied(a, cellsA, b, cellsB, n)[c] == cellsA[c]
  {
    if n > 0 {
      UncopiedCell(a, cellsA, b, cellsB, n - 1, c);
    }
  }

  lemma {:induction false} CopiedCell(a: seq<AccountInfo>, cellsA: seq<Account>, b: seq<AccountInfo>, cellsB: seq<Account>, n: nat, i: nat)
    requires SameKeys(a, b) && SharedCells(a, |cellsA|) && InCells(b, |cellsB|) && i < n <= |a| && Copies(b, i)
    ensures Copied(a, cellsA, b, cellsB, n)[a[i].cell] == Taken(cellsA[a[i].cell], cellsB[b[i].cell])
  {
    if i == n - 1 {
      OwnCell(a, cellsA, b, i);
      UncopiedCell(a, cellsA, b, cellsB, i, a[i].cell);
    } else {
      CopiedCell(a, cellsA, b, cellsB, n - 1, i);
      if Copies(b, n - 1) {
        OwnCell(a, cellsA, b, n - 1);
      }
    }
  }

  lemma {:induction false} CopiedCells(a: seq<AccountInfo>, cellsA: seq<Account>, b: seq<AccountInfo>, cellsB: seq<Account>, n: nat)
    requires SameKeys(a, b) && SharedCells(a, |cellsA|) && InCells(b, |cellsB|) && n <= |a|
    ensures var out := Copied(a, cellsA, b, cellsB, n);
            && (forall i :: 0 <= i < n && Copies(b, i) ==> out[a[i].cell] == Taken(cellsA[a[i].cell], cellsB[b[i].cell]))
            && (forall c :: 0 <= c < |cellsA| && (forall i :: 0 <= i < n && Copies(b, i) ==> a[i].cell != c) ==> out[c] == cellsA[c])
  {
    var out := Copied(a, cellsA, b, cellsB, n);
    forall i | 0 <= i < n && Copies(b, i) ensures out[a[i].cell] == Taken(cellsA[a[i].cell], cellsB[b[i].cell]) {
      CopiedCell(a, cellsA, b, cellsB, n, i);
    }
    forall c | 0 <= c < |cellsA| && (forall i :: 0 <= i < n && Copies(b, i) ==> a[i].cell != c) ensures out[c] == cellsA[c] {
      UncopiedCell(a, cellsA, b, cellsB, n, c);
    }
  }

  lemma OwnCell(a: seq<AccountInfo>, cellsA: seq<Account>, b: seq<AccountInfo>, n: nat)
    requires SameKeys(a, b) && SharedCells(a, |cellsA|) && n < |a| && Copies(b, n)
    ensures forall i :: 0 <= i < n && Copies(b, i) ==> a[i].cell != a[n].cell
  {
    forall i | 0 <= i < n && Copies(b, i) ensures a[i].cell != a[n].cell {
      SameFirst(b, i, n);
    }
  }

  /** What an account cell holds after the buffer written from `b` is read into `a`. */
  ghost predicate CopiedBack(a: seq<AccountInfo>, cellsA: seq<Account>, b: seq<AccountInfo>, cellsB: seq<Account>, out: seq<Account>)
    requires SameKeys(a, b) && InCells(a, |cellsA|) && InCells(b, |cellsB|)
  {
    && |out| == |cellsA|
    && (forall i :: 0 <= i < |a| && FirstOf(b, b[i].pubkey, i).None? ==>
          var was, written := cellsA[a[i].cell], cellsB[b[i].cell];
          out[a[i].cell] == if b[i].isWritable
                            then Account(was.pubkey, written.lamports, written.data, written.owner, was.executable, was.rentEpoch)
                            else was)
    && (forall c :: 0 <= c < |cellsA| && (forall i :: 0 <= i < |a| ==> a[i].cell != c) ==> out[c] == cellsA[c])
  }

  /**
   Reading what was written from `b` into the same-keyed `a` copies owner, lamports and data of the writable first
   occurrences, changes nothing else, and stops at the instruction data's length.
   */
  lemma {:induction false} RoundTrip(a: seq<AccountInfo>, cellsA: seq<Account>, b: seq<AccountInfo>, cellsB: seq<Account>, data: seq<Byte>)
    requires SameKeys(a, b) && SharedCells(a, |cellsA|) && InCells(b, |cellsB|)
    requires NoClash(b) && |Serialized(b, cellsB, data)| <= U64_MAX
    ensures var buf := Serialized(b, cellsB, data);
            var r := Parsing(a, cellsA, buf, |a|);
            && r.Finished? && CopiedBack(a, cellsA, b, cellsB, r.cells)
            && r.offset <= |buf| && buf[r.offset..] == LittleEndian(|data|, 8) + data
  {
    ReadBack(a, cellsA, b, cellsB, data, |a|);
    CopiedCells(a, cellsA, b, cellsB, |a|);
    var out := Copied(a, cellsA, b, cellsB, |a|);
    forall i | 0 <= i < |a| && FirstOf(b, b[i].pubkey, i).None? && !b[i].isWritable ensures out[a[i].cell] == cellsA[a[i].cell] {
      forall j | 0 <= j < |a| && Copies(b, j) ensures a[j].cell != a[i].cell {
        SameFirst(b, i, j);
      }
    }
  }

  lemma SameFirst(infos: seq<AccountInfo>, i: nat, j: nat)
    requires i < |infos| && j < |infos| && FirstOf(infos, infos[i].pubkey, i).None? && FirstOf(infos, infos[j].pubkey, j).None?
    ensures infos[i].pubkey == infos[j].pubkey ==> i == j
  {
    FirstOfMeans(infos, infos[i].pubkey, i);
    FirstOfMeans(infos, infos[j].pubkey, j);
  }

  /** Reading one's own buffer changes nothing. */
  lemma {:induction false} ReadingOwnBuffer(infos: seq<AccountInfo>, cells: seq<Account>, data: seq<Byte>)
    requires SharedCells(infos, |cells|) && NoClash(infos) && |Serialized(infos, cells, data)| <= U64_MAX
    ensures var r := Parsing(infos, cells, Serialized(infos, cells, data), |infos|);
            r.Finished? && r.cells == cells
  {
    RoundTrip(infos, cells, infos, cells, data);
    CopiedCells(infos, cells, infos, cells, |infos|);
    ReadBack(infos, cells, infos, cells, data, |infos|);
    var out := Copied(infos, cells, infos, cells, |infos|);
    forall c | 0 <= c < |cells| ensures out[c] == cells[c] {
      if i :| 0 <= i < |infos| && Copies(infos, i) && infos[i].cell == c {
        assert out[infos[i].cell] == Taken(cells[c], cells[c]);
      }
    }
  }
}
