/** Program buffers of the upgradeable loader: who may write them, and what a run of writes leaves in them. */
module Loader {
  import opened Types
  import opened Bytes
  import opened Banks
  import Sequences

  type U32 = n: int | 0 <= n < 0x1_0000_0000

  datatype LoaderState =
    | Uninitialized
    | Buffer(authority: Option<Pubkey>)
    | DeployedProgram(programdata: Pubkey)
    | ProgramData(slot: U64, authority: Option<Pubkey>)

  /** The size of a buffer's state when it has an authority. */
  const BUFFER_METADATA := 37

  /** The size of deployed code's state when it has an authority. */
  const PROGRAMDATA_METADATA := 45

  function EncodeKey(key: Option<Pubkey>): seq<Byte> {
    match key case None => [0] case Some(k) => [1] + k.bytes
  }

  function EncodeState(state: LoaderState): seq<Byte> {
    match state
    case Uninitialized => LittleEndian(0, 4)
    case Buffer(authority) => LittleEndian(1, 4) + EncodeKey(authority)
    case DeployedProgram(programdata) => LittleEndian(2, 4) + programdata.bytes
    case ProgramData(slot, authority) => LittleEndian(3, 4) + LittleEndian(slot, 8) + EncodeKey(authority)
  }

  function DecodeKey(data: seq<Byte>, at: nat): Option<Option<Pubkey>> {
    if at >= |data| then None
    else if data[at] == 0 then Some(None)
    else if data[at] == 1 && at + 33 <= |data| then Some(Some(Pubkey(data[at + 1..at + 33])))
    else None
  }

  /** Plain bincode: bytes behind the state are ignored. */
  function DecodeState(data: seq<Byte>): Option<LoaderState> {
    if |data| < 4 then None else
      var tag := FromLittleEndian(data[..4]);
      if tag == 0 then Some(Uninitialized)
      else if tag == 1 then
        match DecodeKey(data, 4) case None => None case Some(key) => Some(Buffer(key))
      else if tag == 2 && |data| >= 36 then Some(DeployedProgram(Pubkey(data[4..36])))
      else if tag == 3 && |data| >= 12 then
        match DecodeKey(data, 12) case None => None case Some(key) => Some(ProgramData(U64At(data, 4), key))
      else None
  }

  lemma {:induction false} KeyRoundTrip(before: seq<Byte>, key: Option<Pubkey>, after: seq<Byte>, data: seq<Byte>)
    requires data == before + EncodeKey(key) + after
    ensures DecodeKey(data, |before|) == Some(key)
  {
    assert data[|before|] == EncodeKey(key)[0];
    if key.Some? {
      assert data == before + [1] + key.value.bytes + after;
      SliceIs(before + [1], key.value.bytes, after, data);
    }
  }

  lemma {:induction false} KeyCanonical(data: seq<Byte>, at: nat)
    requires DecodeKey(data, at).Some?
    ensures var k := EncodeKey(DecodeKey(data, at).value); at + |k| <= |data| && data[at..at + |k|] == k
  {
  }

  /** A state is read back from whatever account it was packed into. */
  lemma {:induction false} StateRoundTrip(state: LoaderState, rest: seq<Byte>)
    ensures DecodeState(EncodeState(state) + rest) == Some(state)
  {
    var data := EncodeState(state) + rest;
    match state {
      case Uninitialized =>
        TagAt(0, rest);
      case Buffer(authority) =>
        Sequences.Assoc(LittleEndian(1, 4), EncodeKey(authority), rest);
        TagAt(1, EncodeKey(authority) + rest);
        KeyRoundTrip(LittleEndian(1, 4), authority, rest, data);
      case DeployedProgram(programdata) =>
        Sequences.Assoc(LittleEndian(2, 4), programdata.bytes, rest);
        TagAt(2, programdata.bytes + rest);
        SliceIs(LittleEndian(2, 4), programdata.bytes, rest, data);
      case ProgramData(slot, authority) =>
        Sequences.Assoc(LittleEndian(3, 4), LittleEndian(slot, 8), EncodeKey(authority) + rest);
        Sequences.Assoc(LittleEndian(3, 4) + LittleEndian(slot, 8), EncodeKey(authority), rest);
        TagAt(3, LittleEndian(slot, 8) + (EncodeKey(authority) + rest));
        U64AtEncoded(LittleEndian(3, 4), slot, EncodeKey(authority) + rest, data);
        KeyRoundTrip(LittleEndian(3, 4) + LittleEndian(slot, 8), authority, rest, data);
    }
  }

  lemma {:induction false} TaggedCanonical(data: seq<Byte>, tag: nat, rest: seq<Byte>)
    requires |data| >= 4 + |rest| && FromLittleEndian(data[..4]) == tag && data[4..4 + |rest|] == rest
    ensures data[..4 + |rest|] == LittleEndian(tag, 4) + rest
  {
    EncodeDecoded(data[..4]);
    assert data[..4 + |rest|] == data[..4] + data[4..4 + |rest|];
  }

  lemma {:induction false} SlotCanonical(data: seq<Byte>)
    requires |data| >= 12 && DecodeKey(data, 12).Some?
    ensures var rest := LittleEndian(U64At(data, 4), 8) + EncodeKey(DecodeKey(data, 12).value);
            4 + |rest| <= |data| && data[4..4 + |rest|] == rest
  {
    var key := EncodeKey(DecodeKey(data, 12).value);
    EncodeDecoded(data[4..12]);
    KeyCanonical(data, 12);
    assert data[4..12 + |key|] == data[4..12] + data[12..12 + |key|];
  }

  /** Only the canonical bytes decode, so packing a state just read rewrites the same bytes. */
  lemma {:induction false} StateCanonical(data: seq<Byte>)
    requires DecodeState(data).Some?
    ensures var e := EncodeState(DecodeState(data).value); |e| <= |data| && data[..|e|] == e
  {
    match DecodeState(data).value {
      case Uninitialized =>
        TaggedCanonical(data, 0, []);
      case Buffer(authority) =>
        KeyCanonical(data, 4);
        TaggedCanonical(data, 1, EncodeKey(authority));
      case DeployedProgram(programdata) =>
        TaggedCanonical(data, 2, programdata.bytes);
      case ProgramData(slot, authority) =>
        SlotCanonical(data);
        TaggedCanonical(data, 3, LittleEndian(slot, 8) + EncodeKey(authority));
        Sequences.Assoc(LittleEndian(3, 4), LittleEndian(slot, 8), EncodeKey(authority));
    }
  }

  /**
   What any bytes mean as a state: a four-byte index; an optional key is one byte 0, or one byte 1 and the key; deployed code has
   its slot as a little-endian number in between.
   */
  lemma {:induction false} StateBytes(data: seq<Byte>, key: Pubkey, slot: U64)
    ensures DecodeState(data) == Some(Uninitialized) <==> |data| >= 4 && data[..4] == [0, 0, 0, 0]
    ensures DecodeState(data) == Some(Buffer(None)) <==> |data| >= 5 && data[..5] == [1, 0, 0, 0, 0]
    ensures DecodeState(data) == Some(Buffer(Some(key))) <==>
      |data| >= 37 && data[..5] == [1, 0, 0, 0, 1] && data[5..37] == key.bytes
    ensures DecodeState(data) == Some(DeployedProgram(key)) <==>
      |data| >= 36 && data[..4] == [2, 0, 0, 0] && data[4..36] == key.bytes
    ensures DecodeState(data) == Some(ProgramData(slot, None)) <==>
      |data| >= 13 && data[..4] == [3, 0, 0, 0] && Digits8(data, 4) == slot && data[12] == 0
    ensures DecodeState(data) == Some(ProgramData(slot, Some(key))) <==>
      |data| >= 45 && data[..4] == [3, 0, 0, 0] && Digits8(data, 4) == slot && data[12] == 1 && data[13..45] == key.bytes
  {
    if |data| >= 4 {
      TagDigits(data, 0);
      TagDigits(data, 1);
      TagDigits(data, 2);
      TagDigits(data, 3);
      assert data[..4] == [data[0], data[1], data[2], data[3]];
    }
    if |data| >= 5 {
      assert data[..5] == [data[0], data[1], data[2], data[3], data[4]];
    }
    if |data| >= 12 {
      U64Digits(data, 4);
    }
  }

  // ----- the three instructions on one account's data

  const IMMUTABLE_BUFFER := Custom(4)
  const INCORRECT_AUTHORITY := Custom(5)
  const INVALID_BUFFER_ACCOUNT := Custom(2)
  const ALREADY_INITIALIZED := Custom(7)
  const DATA_TOO_SMALL := Custom(8)
  const INVALID_ARGUMENT := Custom(11)

  function Pack(data: seq<Byte>, state: LoaderState): Result<seq<Byte>, ProgramError> {
    var e := EncodeState(state);
    if |data| < |e| then Err(DATA_TOO_SMALL) else Ok(e + data[|e|..])
  }

  function InitializeBuffer(data: seq<Byte>, authority: Option<Pubkey>): Result<seq<Byte>, ProgramError> {
    if DecodeState(data).Some? && DecodeState(data).value != Uninitialized then Err(ALREADY_INITIALIZED)
    else Pack(data, Buffer(authority))
  }

  function Splice(data: seq<Byte>, at: nat, bytes: seq<Byte>): seq<Byte>
    requires at + |bytes| <= |data|
  {
    data[..at] + bytes + data[at + |bytes|..]
  }

  function Write(data: seq<Byte>, key: Pubkey, isSigner: bool, offset: U32, bytes: seq<Byte>): Result<seq<Byte>, ProgramError> {
    match DecodeState(data)
    case None => Err(InvalidAccountData)
    case Some(Buffer(authority)) =>
      if authority.None? then Err(IMMUTABLE_BUFFER)
      else if authority.value != key then Err(INCORRECT_AUTHORITY)
      else if !isSigner then Err(MissingRequiredSignature)
      else if BUFFER_METADATA + offset + |bytes| > |data| then Err(DATA_TOO_SMALL)
      else Pack(Splice(data, BUFFER_METADATA + offset, bytes), Buffer(authority))
    case Some(_) => Err(INVALID_BUFFER_ACCOUNT)
  }

  function SetAuthority(data: seq<Byte>, key: Pubkey, isSigner: bool, newAuthority: Option<Pubkey>): Result<seq<Byte>, ProgramError> {
    if !isSigner then Err(MissingRequiredSignature) else
      match DecodeState(data)
      case None => Err(InvalidAccountData)
      case Some(Buffer(authority)) =>
        if authority != Some(key) then Err(INCORRECT_AUTHORITY) else Pack(data, Buffer(newAuthority))
      case Some(ProgramData(slot, authority)) =>
        if authority != Some(key) then Err(INCORRECT_AUTHORITY) else Pack(data, ProgramData(slot, newAuthority))
      case Some(_) => Err(INVALID_ARGUMENT)
  }

  // ----- the same in place, on an account's byte buffer

  method CopyInto(data: array<Byte>, at: nat, bytes: seq<Byte>)
    requires at + |bytes| <= data.Length
    modifies data
    ensures data[..] == Splice(old(data[..]), at, bytes)
  {
    for i := 0 to |bytes|
      invariant forall j :: 0 <= j < data.Length ==> data[j] == if at <= j < at + i then bytes[j - at] else old(data[..])[j]
    {
      data[at + i] := bytes[i];
    }
    assert data[..] == Splice(old(data[..]), at, bytes);
  }

  method PackIntoAccount(data: array<Byte>, state: LoaderState) returns (r: Result<(), ProgramError>)
    modifies data
    ensures match Pack(old(data[..]), state)
            case Err(e) => r == Err(e) && data[..] == old(data[..])
            case Ok(packed) => r.Ok? && data[..] == packed
  {
    var e := EncodeState(state);
    if data.Length < |e| {
      return Err(DATA_TOO_SMALL);
    }
    CopyInto(data, 0, e);
    r := Ok(());
  }

  method WriteInPlace(data: array<Byte>, key: Pubkey, isSigner: bool, offset: U32, bytes: seq<Byte>) returns (r: Result<(), ProgramError>)
    modifies data
    ensures match Write(old(data[..]), key, isSigner, offset, bytes)
            case Err(e) => r == Err(e) && data[..] == old(data[..])
            case Ok(written) => r.Ok? && data[..] == written
  {
    var decoded := DecodeState(data[..]);
    if decoded.None? {
      return Err(InvalidAccountData);
    }
    if !decoded.value.Buffer? {
      return Err(INVALID_BUFFER_ACCOUNT);
    }
    var authority := decoded.value.authority;
    if authority.None? {
      return Err(IMMUTABLE_BUFFER);
    }
    if authority.value != key {
      return Err(INCORRECT_AUTHORITY);
    }
    if !isSigner {
      return Err(MissingRequiredSignature);
    }
    var start := BUFFER_METADATA + offset;
    if start + |bytes| > data.Length {
      return Err(DATA_TOO_SMALL);
    }
    CopyInto(data, start, bytes);
    r := PackIntoAccount(data, decoded.value);
  }

  // ----- runs over any accounts

  datatype LoaderInstruction =
    | DoInitialize
    | DoWrite(offset: U32, bytes: seq<Byte>)
    | DoSetAuthority(newAuthority: Option<Pubkey>)

  datatype Request = Request(ins: LoaderInstruction, infos: seq<AccountInfo>)

  /** The new data of the first account, or the error. */
  function FirstData(req: Request, data: seq<Byte>): Result<seq<Byte>, ProgramError> {
    var infos := req.infos;
    match req.ins
    case DoInitialize =>
      if |infos| < 1 then Err(NotEnoughAccountKeys)
      else InitializeBuffer(data, if |infos| >= 2 then Some(infos[1].pubkey) else None)
    case DoWrite(offset, bytes) =>
      if |infos| < 2 then Err(NotEnoughAccountKeys)
      else Write(data, infos[1].pubkey, infos[1].isSigner, offset, bytes)
    case DoSetAuthority(newAuthority) =>
      if |infos| < 2 then Err(NotEnoughAccountKeys)
      else SetAuthority(data, infos[1].pubkey, infos[1].isSigner, newAuthority)
  }

  predicate Targets(req: Request, c: nat) {
    |req.infos| > 0 && req.infos[0].cell == c
  }

  /** A failed request changes nothing, and a request changes only its first account. */
  function Serve(cells: seq<seq<Byte>>, req: Request): (out: seq<seq<Byte>>)
    ensures |out| == |cells|
  {
    if |req.infos| == 0 || req.infos[0].cell >= |cells| then cells else
      var c := req.infos[0].cell;
      match FirstData(req, cells[c])
      case Err(_) => cells
      case Ok(data) => cells[c := data]
  }

  function ServeAll(cells: seq<seq<Byte>>, reqs: seq<Request>): (out: seq<seq<Byte>>)
    ensures |out| == |cells|
  {
    if reqs == [] then cells else Serve(ServeAll(cells, reqs[..|reqs| - 1]), reqs[|reqs| - 1])
  }

  // ----- the buffer as it is meant

  /** A buffer, without bytes of state: an authority and a payload. */
  datatype Upload = Upload(authority: Option<Pubkey>, payload: seq<Byte>)

  /** The bytes behind the metadata. */
  function Payload(data: seq<Byte>): seq<Byte> {
    if |data| < BUFFER_METADATA then [] else data[BUFFER_METADATA..]
  }

  predicate Represents(data: seq<Byte>, u: Upload) {
    |data| >= BUFFER_METADATA && DecodeState(data) == Some(Buffer(u.authority)) && u.payload == Payload(data)
  }

  predicate SignedBy(req: Request, key: Pubkey) {
    |req.infos| >= 2 && req.infos[1].isSigner && req.infos[1].pubkey == key
  }

  predicate Signed(req: Request, u: Upload) {
    u.authority.Some? && SignedBy(req, u.authority.value)
  }

  function Advance(u: Upload, req: Request): Upload {
    match req.ins
    case DoInitialize => u
    case DoWrite(offset, bytes) =>
      if Signed(req, u) && offset + |bytes| <= |u.payload|
      then u.(payload := Splice(u.payload, offset, bytes)) else u
    case DoSetAuthority(newAuthority) => if Signed(req, u) then u.(authority := newAuthority) else u
  }

  function AdvanceAll(u: Upload, c: nat, reqs: seq<Request>): Upload {
    if reqs == [] then u else
      var prev, last := AdvanceAll(u, c, reqs[..|reqs| - 1]), reqs[|reqs| - 1];
      if Targets(last, c) then Advance(prev, last) else prev
  }

  lemma SpliceBehind(data: seq<Byte>, offset: nat, bytes: seq<Byte>)
    requires |data| >= BUFFER_METADATA && BUFFER_METADATA + offset + |bytes| <= |data|
    ensures var out := Splice(data, BUFFER_METADATA + offset, bytes);
            && |out| == |data| && out[..BUFFER_METADATA] == data[..BUFFER_METADATA]
            && out[BUFFER_METADATA..] == Splice(data[BUFFER_METADATA..], offset, bytes)
  {
  }

  lemma {:induction false} RepackSame(data: seq<Byte>, state: LoaderState)
    requires DecodeState(data) == Some(state)
    ensures Pack(data, state) == Ok(data)
  {
    StateCanonical(data);
    assert data == data[..|EncodeState(state)|] + data[|EncodeState(state)|..];
  }

  /** The state lies in the first 37 bytes. */
  lemma {:induction false} SameHeader(data: seq<Byte>, other: seq<Byte>, key: Pubkey)
    requires |data| >= BUFFER_METADATA && DecodeState(data) == Some(Buffer(Some(key)))
    requires |other| == |data| && other[..BUFFER_METADATA] == data[..BUFFER_METADATA]
    ensures DecodeState(other) == Some(Buffer(Some(key)))
  {
    var e := EncodeState(Buffer(Some(key)));
    StateCanonical(data);
    StateRoundTrip(Buffer(Some(key)), other[BUFFER_METADATA..]);
    assert other == e + other[BUFFER_METADATA..];
  }

  lemma {:induction false} PackAuthority(data: seq<Byte>, authority: Option<Pubkey>)
    requires |data| >= BUFFER_METADATA
    ensures Pack(data, Buffer(authority)).Ok?
    ensures var out := Pack(data, Buffer(authority)).value;
            |out| == |data| && Represents(out, Upload(authority, data[BUFFER_METADATA..]))
  {
    var e := EncodeState(Buffer(authority));
    StateRoundTrip(Buffer(authority), data[|e|..]);
    var out := e + data[|e|..];
    assert out[BUFFER_METADATA..] == data[BUFFER_METADATA..];
  }

  /** A write leaves every header byte alone. */
  lemma {:induction false} WriteBehindHeader(data: seq<Byte>, u: Upload, key: Pubkey, offset: U32, bytes: seq<Byte>)
    requires Represents(data, u) && u.authority == Some(key) && offset + |bytes| <= |u.payload|
    ensures Write(data, key, true, offset, bytes) == Ok(data[..BUFFER_METADATA] + Splice(u.payload, offset, bytes))
    ensures Represents(data[..BUFFER_METADATA] + Splice(u.payload, offset, bytes), u.(payload := Splice(u.payload, offset, bytes)))
  {
    var out := Splice(data, BUFFER_METADATA + offset, bytes);
    SpliceBehind(data, offset, bytes);
    SameHeader(data, out, key);
    RepackSame(out, Buffer(Some(key)));
    assert out == data[..BUFFER_METADATA] + Splice(u.payload, offset, bytes);
  }

  /** One request: the bytes follow the buffer as it is meant, and keep their length. */
  lemma {:induction false} ServeRefines(data: seq<Byte>, u: Upload, req: Request)
    requires Represents(data, u) && |req.infos| > 0
    ensures match FirstData(req, data)
            case Err(_) => Advance(u, req) == u
            case Ok(data') => |data'| == |data| && Represents(data', Advance(u, req))
  {
    match req.ins {
      case DoInitialize =>
      case DoWrite(offset, bytes) =>
        if Signed(req, u) && offset + |bytes| <= |u.payload| {
          WriteBehindHeader(data, u, req.infos[1].pubkey, offset, bytes);
        }
      case DoSetAuthority(newAuthority) =>
        PackAuthority(data, newAuthority);
    }
  }

  /** Over every run, on any accounts, an initialized buffer is its authority and the in-order fold of accepted writes. */
  lemma {:induction false} EveryRunRefines(cells: seq<seq<Byte>>, c: nat, u: Upload, reqs: seq<Request>)
    requires c < |cells| && Represents(cells[c], u)
    ensures Represents(ServeAll(cells, reqs)[c], AdvanceAll(u, c, reqs)) && |ServeAll(cells, reqs)[c]| == |cells[c]|
  {
    if reqs != [] {
      var init := reqs[..|reqs| - 1];
      EveryRunRefines(cells, c, u, init);
      if Targets(reqs[|reqs| - 1], c) {
        ServeRefines(ServeAll(cells, init)[c], AdvanceAll(u, c, init), reqs[|reqs| - 1]);
      }
    }
  }

  /**
   Initialization succeeds exactly on data that holds no state yet and has room for the new one; only the bytes of the state
   change, so a buffer with room for an authority starts with the payload bytes that were there.
   */
  lemma {:induction false} InitializeExact(data: seq<Byte>, authority: Option<Pubkey>)
    ensures var r := InitializeBuffer(data, authority); var n := if authority.Some? then BUFFER_METADATA else 5;
            && (r.Ok? <==> (DecodeState(data) == None || DecodeState(data) == Some(Uninitialized)) && |data| >= n)
            && (r.Ok? ==> |r.value| == |data| && DecodeState(r.value) == Some(Buffer(authority)) && r.value[n..] == data[n..])
            && (r.Ok? && |data| >= BUFFER_METADATA ==> Represents(r.value, Upload(authority, data[BUFFER_METADATA..])))
  {
    if InitializeBuffer(data, authority).Ok? {
      StateRoundTrip(Buffer(authority), data[|EncodeState(Buffer(authority))|..]);
      if |data| >= BUFFER_METADATA {
        PackAuthority(data, authority);
      }
    }
  }

  /** The data hold no state yet: they are no state at all, or start with four zeros. */
  predicate Blank(data: seq<Byte>) {
    DecodeState(data) in {None, Some(Uninitialized)}
  }

  /**
   The start of a run: initialization turns a blank account with room into a buffer whose authority is the second account, or
   nobody when there is no second account; it keeps every byte behind the new state, and refuses every other account.
   */
  lemma {:induction false} InitializeStarts(cells: seq<seq<Byte>>, c: nat, req: Request)
    requires c < |cells| && Targets(req, c) && req.ins == DoInitialize
    ensures var data, out := cells[c], Serve(cells, req)[c];
            var n, authority := if |req.infos| >= 2 then 37 else 5, if |req.infos| >= 2 then Some(req.infos[1].pubkey) else None;
            && (!Blank(data) ==> out == data && FirstData(req, data) == Err(Custom(7)))
            && (Blank(data) && |data| < n ==> out == data && FirstData(req, data) == Err(Custom(8)))
            && (Blank(data) && |data| >= n ==> |out| == |data| && DecodeState(out) == Some(Buffer(authority)) && out[n..] == data[n..])
            && (Blank(data) && |data| >= 37 ==> Represents(out, Upload(authority, data[37..])))
  {
    InitializeExact(cells[c], if |req.infos| >= 2 then Some(req.infos[1].pubkey) else None);
  }

  /** Each refusal of a write, in the order in which the conditions are looked at. */
  lemma {:induction false} WriteRefused(req: Request, data: seq<Byte>)
    requires req.ins.DoWrite?
    ensures var r, end := FirstData(req, data), 37 + req.ins.offset + |req.ins.bytes|;
            if |req.infos| < 2 then r == Err(NotEnoughAccountKeys) else
              match DecodeState(data)
              case None => r == Err(InvalidAccountData)
              case Some(Buffer(None)) => r == Err(Custom(4))
              case Some(Buffer(Some(key))) =>
                && (r == Err(Custom(5)) <==> req.infos[1].pubkey != key)
                && (r == Err(MissingRequiredSignature) <==> req.infos[1].pubkey == key && !req.infos[1].isSigner)
                && (r == Err(Custom(8)) <==> SignedBy(req, key) && end > |data|)
                && (r.Ok? <==> SignedBy(req, key) && end <= |data|)
              case Some(_) => r == Err(Custom(2))
  {
    match DecodeState(data) {
      case Some(Buffer(Some(key))) =>
        if SignedBy(req, key) && 37 + req.ins.offset + |req.ins.bytes| <= |data| {
          WriteBehindHeader(data, Upload(Some(key), Payload(data)), key, req.ins.offset, req.ins.bytes);
        }
      case _ =>
    }
  }

  /** Whoever may pass the authority on. */
  function Owner(data: seq<Byte>): Option<Pubkey> {
    match DecodeState(data)
    case Some(Buffer(authority)) => authority
    case Some(ProgramData(_, authority)) => authority
    case _ => None
  }

  /** Exactly the signing authority passes it on, of a buffer or of deployed code; the refusals come in this order. */
  lemma {:induction false} AuthorityExact(req: Request, data: seq<Byte>)
    requires req.ins.DoSetAuthority?
    ensures var r := FirstData(req, data);
            && (|req.infos| < 2 ==> r == Err(NotEnoughAccountKeys))
            && (|req.infos| >= 2 ==> var key := req.infos[1].pubkey;
                 && (r.Ok? <==> SignedBy(req, key) && Owner(data) == Some(key))
                 && (r.Err? ==> r.error == if !req.infos[1].isSigner then MissingRequiredSignature
                                           else if DecodeState(data) == None then InvalidAccountData
                                           else if DecodeState(data).value.Buffer? || DecodeState(data).value.ProgramData? then Custom(5)
                                           else Custom(11))
                 && (r.Ok? && DecodeState(data).value.Buffer? ==>
                      Represents(r.value, Upload(req.ins.newAuthority, data[37..])) && |r.value| == |data|)
                 && (r.Ok? && DecodeState(data).value.ProgramData? ==> (
                      && |data| >= 45 && |r.value| == |data| && r.value[45..] == data[45..]
                      && DecodeState(r.value) == Some(ProgramData(DecodeState(data).value.slot, req.ins.newAuthority)))))
  {
    if |req.infos| >= 2 && req.infos[1].isSigner && Owner(data) == Some(req.infos[1].pubkey) {
      StateCanonical(data);
      match DecodeState(data) {
        case Some(Buffer(_)) =>
          PackAuthority(data, req.ins.newAuthority);
        case Some(ProgramData(slot, authority)) =>
          ProgramDataAuthority(data, slot, authority, req.infos[1].pubkey, true, req.ins.newAuthority);
      }
    }
  }

  // ----- consequences

  /** Nobody may change the account any more. */
  predicate Frozen(data: seq<Byte>) {
    match DecodeState(data)
    case Some(Buffer(authority)) => authority.None?
    case Some(ProgramData(_, authority)) => authority.None?
    case Some(DeployedProgram(_)) => true
    case _ => false
  }

  /** An account without authority never changes by a byte again, whoever signs. */
  lemma {:induction false} FrozenForever(cells: seq<seq<Byte>>, c: nat, reqs: seq<Request>)
    requires c < |cells| && Frozen(cells[c])
    ensures ServeAll(cells, reqs)[c] == cells[c]
  {
    if reqs != [] {
      FrozenForever(cells, c, reqs[..|reqs| - 1]);
    }
  }

  /** On deployed code, only its authority can pass the authority on, and code and slot stay. */
  lemma {:induction false} ProgramDataAuthority(data: seq<Byte>, slot: U64, authority: Option<Pubkey>, key: Pubkey,
                                                isSigner: bool, newAuthority: Option<Pubkey>)
    requires DecodeState(data) == Some(ProgramData(slot, authority)) && |data| >= PROGRAMDATA_METADATA
    ensures var r := SetAuthority(data, key, isSigner, newAuthority);
            && (r.Ok? <==> isSigner && authority == Some(key))
            && (r.Ok? ==> (
                 && |r.value| == |data| && DecodeState(r.value) == Some(ProgramData(slot, newAuthority))
                 && r.value[PROGRAMDATA_METADATA..] == data[PROGRAMDATA_METADATA..]))
  {
    var e := EncodeState(ProgramData(slot, newAuthority));
    StateRoundTrip(ProgramData(slot, newAuthority), data[|e|..]);
  }

  datatype Chunk = Chunk(offset: U32, bytes: seq<Byte>)

  /** The chunk is the part of the program at its offset. */
  predicate PartOf(chunk: Chunk, program: seq<Byte>) {
    chunk.offset + |chunk.bytes| <= |program| && chunk.bytes == program[chunk.offset..chunk.offset + |chunk.bytes|]
  }

  predicate Covers(chunk: Chunk, i: nat) {
    chunk.offset <= i < chunk.offset + |chunk.bytes|
  }

  /** What the holder of a key writes to the account in the course of a run, in order, whatever anybody else requests. */
  function WritesBy(reqs: seq<Request>, c: nat, key: Pubkey): seq<Chunk> {
    if reqs == [] then [] else
      var before, last := WritesBy(reqs[..|reqs| - 1], c, key), reqs[|reqs| - 1];
      if Targets(last, c) && SignedBy(last, key) && last.ins.DoWrite? then before + [Chunk(last.ins.offset, last.ins.bytes)]
      else before
  }

  /** The holder of the key never passes the authority on. */
  ghost predicate Keeps(reqs: seq<Request>, c: nat, key: Pubkey) {
    forall i :: 0 <= i < |reqs| && Targets(reqs[i], c) && SignedBy(reqs[i], key) ==> !reqs[i].ins.DoSetAuthority?
  }

  ghost predicate Reached(chunks: seq<Chunk>, i: nat) {
    exists j :: 0 <= j < |chunks| && Covers(chunks[j], i)
  }

  ghost predicate PartsOf(chunks: seq<Chunk>, program: seq<Byte>) {
    forall j :: 0 <= j < |chunks| ==> PartOf(chunks[j], program)
  }

  lemma {:induction false} UploadedBytes(u: Upload, c: nat, key: Pubkey, reqs: seq<Request>, program: seq<Byte>)
    requires u.authority == Some(key) && |u.payload| == |program|
    requires Keeps(reqs, c, key) && PartsOf(WritesBy(reqs, c, key), program)
    ensures var out, chunks := AdvanceAll(u, c, reqs), WritesBy(reqs, c, key);
            && out.authority == u.authority && |out.payload| == |program|
            && forall i :: 0 <= i < |program| ==> out.payload[i] == if Reached(chunks, i) then program[i] else u.payload[i]
  {
    if reqs != [] {
      var n, chunks := |reqs| - 1, WritesBy(reqs, c, key);
      var before := WritesBy(reqs[..n], c, key);
      assert PartsOf(before, program) by {
        assert forall j :: 0 <= j < |before| ==> before[j] == chunks[j];
      }
      UploadedBytes(u, c, key, reqs[..n], program);
      if before == chunks {
        assert AdvanceAll(u, c, reqs) == AdvanceAll(u, c, reqs[..n]);
      } else {
        assert PartOf(chunks[|before|], program);
        forall i ensures Reached(chunks, i) <==> Covers(chunks[|before|], i) || Reached(before, i) {
          ReachedSnoc(chunks, i);
        }
      }
    }
  }

  lemma {:induction false} ReachedSnoc(chunks: seq<Chunk>, i: nat)
    requires chunks != []
    ensures var n := |chunks| - 1; Reached(chunks, i) <==> Covers(chunks[n], i) || Reached(chunks[..n], i)
  {
    var n := |chunks| - 1;
    if j :| 0 <= j < |chunks| && Covers(chunks[j], i) && j < n {
      assert Covers(chunks[..n][j], i);
    }
    if j :| 0 <= j < n && Covers(chunks[..n][j], i) {
      assert Covers(chunks[j], i);
    }
  }

  /**
   Once the authority has written parts of a program, in any order and however overlapping, and whatever others requested in
   between, the buffer holds exactly the program exactly when every byte that was not already right is covered.
   */
  lemma {:induction false} UploadRebuildsIff(cells: seq<seq<Byte>>, c: nat, u: Upload, key: Pubkey, reqs: seq<Request>, program: seq<Byte>)
    requires c < |cells| && Represents(cells[c], u) && u.authority == Some(key) && |u.payload| == |program|
    requires Keeps(reqs, c, key) && PartsOf(WritesBy(reqs, c, key), program)
    ensures var out := ServeAll(cells, reqs)[c];
            && DecodeState(out) == Some(Buffer(Some(key)))
            && (Payload(out) == program <==>
                 forall i :: 0 <= i < |program| ==> u.payload[i] == program[i] || Reached(WritesBy(reqs, c, key), i))
  {
    EveryRunRefines(cells, c, u, reqs);
    UploadedBytes(u, c, key, reqs, program);
    var out := AdvanceAll(u, c, reqs).payload;
    if forall i :: 0 <= i < |program| ==> u.payload[i] == program[i] || Reached(WritesBy(reqs, c, key), i) {
      assert out == program;
    }
  }

  lemma {:induction false} ServeAllConcat(cells: seq<seq<Byte>>, a: seq<Request>, b: seq<Request>)
    ensures ServeAll(cells, a + b) == ServeAll(ServeAll(cells, a), b)
  {
    if b == [] {
      assert a + b == a;
    } else {
      ServeAllConcat(cells, a, b[..|b| - 1]);
      assert (a + b)[..|a + b| - 1] == a + b[..|b| - 1];
    }
  }

  /** A blank account stays as it is until somebody initializes it. */
  lemma {:induction false} BlankStays(cells: seq<seq<Byte>>, c: nat, reqs: seq<Request>)
    requires c < |cells| && Blank(cells[c])
    requires forall i :: 0 <= i < |reqs| && Targets(reqs[i], c) ==> !reqs[i].ins.DoInitialize?
    ensures ServeAll(cells, reqs)[c] == cells[c]
  {
    if reqs != [] {
      BlankStays(cells, c, reqs[..|reqs| - 1]);
    }
  }

  lemma {:induction false} FirstInitialization(cells: seq<seq<Byte>>, c: nat, before: seq<Request>, init: Request)
    requires c < |cells| && Blank(cells[c]) && |cells[c]| >= 37
    requires forall i :: 0 <= i < |before| && Targets(before[i], c) ==> !before[i].ins.DoInitialize?
    requires Targets(init, c) && init.ins == DoInitialize && |init.infos| >= 2
    ensures Represents(ServeAll(cells, before + [init])[c], Upload(Some(init.infos[1].pubkey), cells[c][37..]))
  {
    var mid := ServeAll(cells, before);
    BlankStays(cells, c, before);
    assert ServeAll(cells, before + [init]) == Serve(mid, init) by {
      assert (before + [init])[..|before|] == before;
    }
    InitializeStarts(mid, c, init);
  }

  /**
   A whole upload, from a blank account: whoever is the second account of the first initialization rebuilds the program in it
   by writing its parts, exactly when they cover every byte that was not already there, whatever everybody else requests.
   */
  lemma {:induction false} UploadFromBlankIff(cells: seq<seq<Byte>>, c: nat, before: seq<Request>, init: Request, reqs: seq<Request>,
                                              program: seq<Byte>)
    requires c < |cells| && Blank(cells[c]) && |cells[c]| == 37 + |program|
    requires forall i :: 0 <= i < |before| && Targets(before[i], c) ==> !before[i].ins.DoInitialize?
    requires Targets(init, c) && init.ins == DoInitialize && |init.infos| >= 2
    requires Keeps(reqs, c, init.infos[1].pubkey) && PartsOf(WritesBy(reqs, c, init.infos[1].pubkey), program)
    ensures var key, out := init.infos[1].pubkey, ServeAll(cells, before + [init] + reqs)[c];
            && DecodeState(out) == Some(Buffer(Some(key)))
            && (Payload(out) == program <==>
                 forall i :: 0 <= i < |program| ==> cells[c][37 + i] == program[i] || Reached(WritesBy(reqs, c, key), i))
  {
    var key, start := init.infos[1].pubkey, ServeAll(cells, before + [init]);
    var u := Upload(Some(key), cells[c][37..]);
    FirstInitialization(cells, c, before, init);
    ServeAllConcat(cells, before + [init], reqs);
    UploadRebuildsIff(start, c, u, key, reqs, program);
    assert forall i :: 0 <= i < |program| ==> u.payload[i] == cells[c][37 + i];
  }
}
