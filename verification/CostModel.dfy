/** Transaction costs and the block cost ledger. */
module CostModel {
  import opened Types
  import opened Collections

  const COMPUTE_UNIT_TO_US_RATIO := 30
  const SIGNATURE_COST := COMPUTE_UNIT_TO_US_RATIO * 24
  const WRITE_LOCK_UNITS := COMPUTE_UNIT_TO_US_RATIO * 10
  const INSTRUCTION_DATA_BYTES_COST := 140 / COMPUTE_UNIT_TO_US_RATIO
  const BUILTIN_PROGRAM_COST := COMPUTE_UNIT_TO_US_RATIO * 10
  const BPF_PROGRAM_COST := 200_000
  const MAX_BLOCK_UNITS: U64 := 60_000_000
  const MAX_WRITABLE_ACCOUNT_UNITS: U64 := 24_000_000

  /** The parts are counted without a bound; `Sum` saturates as the code does. */
  datatype TransactionCost = TransactionCost(
    signatureCost: nat, writeLockCost: nat, dataCost: nat, executionCost: nat, writable: set<Pubkey>)
  {
    function Sum(): U64 {
      Cap(Cap(Cap(signatureCost + writeLockCost) + dataCost) + executionCost)
    }
  }

  function Cap(n: nat): U64 {
    if n > U64_MAX then U64_MAX else n
  }

  predicate IsBuiltin(program: Pubkey) {
    program == SYSTEM_PROGRAM_ID || program == TOKEN_PROGRAM_ID
  }

  function DataLength(instructions: seq<Instruction>): nat {
    if instructions == [] then 0 else
      var n := |instructions| - 1;
      DataLength(instructions[..n]) + |instructions[n].data|
  }

  function ExecutionCost(instructions: seq<Instruction>): nat {
    if instructions == [] then 0 else
      var n := |instructions| - 1;
      ExecutionCost(instructions[..n]) + if IsBuiltin(instructions[n].programId) then BUILTIN_PROGRAM_COST else BPF_PROGRAM_COST
  }

  function CostOf(tx: Transaction): TransactionCost {
    var instructions := tx.message.instructions;
    Priced(|tx.signatures|, WriteKeys(tx), DataLength(instructions), ExecutionCost(instructions))
  }

  function Priced(signatures: nat, writable: set<Pubkey>, dataLength: nat, execution: nat): TransactionCost {
    TransactionCost(signatures * SIGNATURE_COST, |writable| * WRITE_LOCK_UNITS,
                    dataLength * INSTRUCTION_DATA_BYTES_COST, execution, writable)
  }

  // ----- the price, in literals and counts

  ghost function WrittenBy(instructions: seq<Instruction>): set<Pubkey> {
    set ins, meta | ins in instructions && meta in ins.accounts && meta.isWritable :: meta.pubkey
  }

  /** One pair for each byte of instruction data. */
  ghost function DataBytes(instructions: seq<Instruction>): set<(int, int)> {
    set i, j | 0 <= i < |instructions| && 0 <= j < |instructions[i].data| :: (i, j)
  }

  ghost predicate CallsBuiltin(ins: Instruction) {
    ins.programId == SYSTEM_PROGRAM_ID || ins.programId == TOKEN_PROGRAM_ID
  }

  /** The positions of calls to the system or the token program (`true`), or of all other calls (`false`). */
  ghost function Calls(instructions: seq<Instruction>, builtin: bool): set<nat> {
    set i | 0 <= i < |instructions| && CallsBuiltin(instructions[i]) == builtin
  }

  /** 720 for a signature, 300 for a written key, 4 for a data byte, 300 for a builtin and 200_000 for any other call. */
  ghost function Price(tx: Transaction): U64 {
    var instructions := tx.message.instructions;
    var exact := 720 * |tx.signatures| + 300 * |WrittenBy(instructions)| + 4 * |DataBytes(instructions)|
                 + 300 * |Calls(instructions, true)| + 200_000 * |Calls(instructions, false)|;
    if exact > 0xFFFF_FFFF_FFFF_FFFF then 0xFFFF_FFFF_FFFF_FFFF else exact
  }

  lemma {:induction false} RowSize(i: nat, n: nat)
    ensures |set j | 0 <= j < n :: (i, j)| == n
  {
    if n > 0 {
      RowSize(i, n - 1);
      assert (set j | 0 <= j < n :: (i, j)) == (set j | 0 <= j < n - 1 :: (i, j)) + {(i, n - 1)};
    } else {
      assert (set j | 0 <= j < n :: (i, j)) == {};
    }
  }

  lemma {:induction false} DataCounted(instructions: seq<Instruction>)
    ensures DataLength(instructions) == |DataBytes(instructions)|
  {
    if instructions == [] {
      assert DataBytes(instructions) == {};
    } else {
      var n := |instructions| - 1;
      var row := set j | 0 <= j < |instructions[n].data| :: (n, j);
      DataCounted(instructions[..n]);
      RowSize(n, |instructions[n].data|);
      assert DataBytes(instructions) == DataBytes(instructions[..n]) + row;
      assert DataBytes(instructions[..n]) !! row;
    }
  }

  lemma {:induction false} CallsGrow(init: seq<Instruction>, last: Instruction, builtin: bool)
    ensures |Calls(init + [last], builtin)| == |Calls(init, builtin)| + if CallsBuiltin(last) == builtin then 1 else 0
  {
    var now, before := Calls(init + [last], builtin), Calls(init, builtin);
    forall i ensures i in now <==> i in before || (i == |init| && CallsBuiltin(last) == builtin) {
      assert 0 <= i < |init| ==> (init + [last])[i] == init[i];
    }
    if CallsBuiltin(last) == builtin {
      assert now == before + {|init|} && |init| !in before;
    } else {
      assert now == before;
    }
  }

  lemma {:induction false} CallsCounted(instructions: seq<Instruction>)
    ensures ExecutionCost(instructions) == 300 * |Calls(instructions, true)| + 200_000 * |Calls(instructions, false)|
  {
    if instructions == [] {
      assert Calls(instructions, true) == {} && Calls(instructions, false) == {};
    } else {
      var n := |instructions| - 1;
      CallsCounted(instructions[..n]);
      CallsGrow(instructions[..n], instructions[n], true);
      CallsGrow(instructions[..n], instructions[n], false);
      assert instructions == instructions[..n] + [instructions[n]];
    }
  }

  lemma {:induction false} WritesCounted(instructions: seq<Instruction>)
    ensures MetaKeys(instructions, true) == WrittenBy(instructions)
  {
    if instructions != [] {
      var n := |instructions| - 1;
      WritesCounted(instructions[..n]);
      assert instructions == instructions[..n] + [instructions[n]];
    }
  }

  lemma PricedSum(signatures: nat, writable: set<Pubkey>, dataLength: nat, execution: nat)
    ensures var exact := 720 * signatures + 300 * |writable| + 4 * dataLength + execution;
            Priced(signatures, writable, dataLength, execution).Sum() == if exact > U64_MAX then U64_MAX else exact
  {
  }

  /** What the cost model charges is the price, and the accounts it charges are those marked writable in some meta. */
  lemma {:induction false} CostIsPrice(tx: Transaction)
    ensures CostOf(tx).Sum() == Price(tx) && CostOf(tx).writable == WrittenBy(tx.message.instructions)
  {
    var instructions := tx.message.instructions;
    DataCounted(instructions);
    CallsCounted(instructions);
    WritesCounted(instructions);
    PricedSum(|tx.signatures|, WriteKeys(tx), DataLength(instructions), ExecutionCost(instructions));
  }

  // ----- the loops

  method SumInstructions(instructions: seq<Instruction>) returns (dataLength: nat, execution: nat)
    ensures dataLength == DataLength(instructions) && execution == ExecutionCost(instructions)
  {
    dataLength, execution := 0, 0;
    for i := 0 to |instructions|
      invariant dataLength == DataLength(instructions[..i]) && execution == ExecutionCost(instructions[..i])
    {
      assert instructions[..i + 1][..i] == instructions[..i];
      dataLength := dataLength + |instructions[i].data|;
      execution := execution + if IsBuiltin(instructions[i].programId) then BUILTIN_PROGRAM_COST else BPF_PROGRAM_COST;
    }
    assert instructions[..|instructions|] == instructions;
  }

  method CalculateCost(tx: Transaction) returns (cost: TransactionCost)
    ensures cost == CostOf(tx)
    ensures cost.Sum() == Price(tx) && cost.writable == WrittenBy(tx.message.instructions)
  {
    CostIsPrice(tx);
    var _, writeSet := CollectKeys(tx.message.instructions);
    var dataLength, execution := SumInstructions(tx.message.instructions);
    cost := Priced(|tx.signatures|, writeSet, dataLength, execution);
  }

  // ----- the ledger as a value, with wrapping machine arithmetic

  const WRAP := 0x1_0000_0000_0000_0000

  datatype CostModelError = WouldExceedBlockMaxLimit | WouldExceedAccountMaxLimit
  datatype Limits = Limits(block: U64, account: U64)
  datatype Ledger = Ledger(blockCost: U64, byAccount: map<Pubkey, U64>)

  const EMPTY := Ledger(0, map[])

  function WouldFit(lim: Limits, l: Ledger, c: TransactionCost): Result<(), CostModelError> {
    if SatAdd(l.blockCost, c.Sum()) > lim.block then Err(WouldExceedBlockMaxLimit)
    else if exists k :: k in c.writable && k in l.byAccount && SatAdd(l.byAccount[k], c.Sum()) > lim.account
    then Err(WouldExceedAccountMaxLimit)
    else Ok(())
  }

  function ChargeAccounts(m: map<Pubkey, U64>, ks: set<Pubkey>, cost: U64): map<Pubkey, U64> {
    map k | k in m.Keys + ks :: if k in ks then ((if k in m then m[k] else 0) + cost) % WRAP else m[k]
  }

  function RefundAccounts(m: map<Pubkey, U64>, ks: set<Pubkey>, cost: U64): map<Pubkey, U64> {
    map k | k in m :: if k in ks then (m[k] - cost) % WRAP else m[k]
  }

  function Charge(l: Ledger, c: TransactionCost): Ledger {
    Ledger((l.blockCost + c.Sum()) % WRAP, ChargeAccounts(l.byAccount, c.writable, c.Sum()))
  }

  function Refund(l: Ledger, c: TransactionCost): Ledger {
    Ledger((l.blockCost - c.Sum()) % WRAP, RefundAccounts(l.byAccount, c.writable, c.Sum()))
  }

  // ----- the ledger agrees with the outstanding charges

  type Charges = multiset<TransactionCost>

  ghost function CostFn(): TransactionCost -> nat {
    (c: TransactionCost) => c.Sum()
  }

  ghost function CostOnFn(k: Pubkey): TransactionCost -> nat {
    (c: TransactionCost) => if k in c.writable then c.Sum() else 0
  }

  ghost function CountOnFn(k: Pubkey): TransactionCost -> nat {
    (c: TransactionCost) => if k in c.writable then 1 else 0
  }

  ghost function Total(out: Charges): nat {
    BagSum(out, CostFn())
  }

  ghost function TotalOn(out: Charges, k: Pubkey): nat {
    BagSum(out, CostOnFn(k))
  }

  /** How many outstanding charges write k. */
  ghost function CountOn(out: Charges, k: Pubkey): nat {
    BagSum(out, CountOnFn(k))
  }

  ghost function Recorded(l: Ledger, k: Pubkey): nat {
    if k in l.byAccount then l.byAccount[k] else 0
  }

  ghost predicate KeyBalanced(lim: Limits, l: Ledger, out: Charges, k: Pubkey) {
    && Recorded(l, k) == TotalOn(out, k)
    && (k !in l.byAccount ==> CountOn(out, k) == 0)
    && (Recorded(l, k) > lim.account ==> CountOn(out, k) == 1)
  }

  /** Exact sums, the block limit respected, and only a lone charge may put an account above its limit. */
  ghost predicate Balanced(lim: Limits, l: Ledger, out: Charges) {
    l.blockCost == Total(out) <= lim.block && forall k :: KeyBalanced(lim, l, out, k)
  }

  lemma {:induction false} EmptyBalanced(lim: Limits)
    ensures Balanced(lim, EMPTY, multiset{})
  {
  }

  lemma {:induction false} TotalOnBounded(out: Charges, k: Pubkey)
    ensures TotalOn(out, k) <= Total(out)
    decreases |out|
  {
    if out != multiset{} {
      var c := PickElem(out);
      TotalOnBounded(out - multiset{c}, k);
    }
  }

  lemma {:induction false} AddCharge(out: Charges, c: TransactionCost, k: Pubkey)
    ensures Total(out + multiset{c}) == Total(out) + c.Sum()
    ensures TotalOn(out + multiset{c}, k) == TotalOn(out, k) + if k in c.writable then c.Sum() else 0
    ensures CountOn(out + multiset{c}, k) == CountOn(out, k) + if k in c.writable then 1 else 0
  {
    BagSumAdd(out, CostFn(), c);
    BagSumAdd(out, CostOnFn(k), c);
    BagSumAdd(out, CountOnFn(k), c);
  }

  /** An account no outstanding charge writes has nothing outstanding. */
  lemma {:induction false} ZeroCount(out: Charges, k: Pubkey)
    requires CountOn(out, k) == 0
    ensures TotalOn(out, k) == 0
    decreases |out|
  {
    if out != multiset{} {
      var c := PickElem(out);
      ZeroCount(out - multiset{c}, k);
    }
  }

  lemma RecordedAfterCharge(l: Ledger, c: TransactionCost, k: Pubkey)
    requires Recorded(l, k) + c.Sum() < WRAP
    ensures Recorded(Charge(l, c), k) == Recorded(l, k) + if k in c.writable then c.Sum() else 0
    ensures k in Charge(l, c).byAccount <==> k in c.writable || k in l.byAccount
  {
  }

  /** An admitted charge neither wraps nor passes the limit of an account already charged. */
  lemma AdmittedRoom(lim: Limits, l: Ledger, out: Charges, c: TransactionCost, k: Pubkey)
    requires lim.block < U64_MAX && l.blockCost == Total(out) && Recorded(l, k) == TotalOn(out, k) && WouldFit(lim, l, c).Ok?
    ensures Recorded(l, k) + c.Sum() < WRAP
    ensures k in c.writable && k in l.byAccount && lim.account < U64_MAX ==> Recorded(l, k) + c.Sum() <= lim.account
    ensures lim.account == U64_MAX ==> Recorded(l, k) + c.Sum() <= lim.account
  {
    TotalOnBounded(out, k);
  }

  lemma {:induction false} ChargeKey(lim: Limits, l: Ledger, out: Charges, c: TransactionCost, k: Pubkey)
    requires lim.block < U64_MAX && l.blockCost == Total(out) && KeyBalanced(lim, l, out, k) && WouldFit(lim, l, c).Ok?
    ensures KeyBalanced(lim, Charge(l, c), out + multiset{c}, k)
    ensures k in c.writable ==> Recorded(Charge(l, c), k) == Recorded(l, k) + c.Sum()
  {
    AdmittedRoom(lim, l, out, c, k);
    AddCharge(out, c, k);
    RecordedAfterCharge(l, c, k);
  }

  /** An admitted charge keeps the ledger balanced, and none of its additions wraps. */
  lemma {:induction false} ChargeBalances(lim: Limits, l: Ledger, out: Charges, c: TransactionCost)
    requires lim.block < U64_MAX && Balanced(lim, l, out) && WouldFit(lim, l, c).Ok?
    ensures Balanced(lim, Charge(l, c), out + multiset{c})
    ensures forall k :: k in c.writable ==> Recorded(Charge(l, c), k) == Recorded(l, k) + c.Sum()
  {
    forall k ensures KeyBalanced(lim, Charge(l, c), out + multiset{c}, k)
             ensures k in c.writable ==> Recorded(Charge(l, c), k) == Recorded(l, k) + c.Sum() {
      assert KeyBalanced(lim, l, out, k);
      ChargeKey(lim, l, out, c, k);
    }
    AddCharge(out, c, SYSTEM_PROGRAM_ID);
  }

  lemma {:induction false} RefundKey(lim: Limits, l: Ledger, out: Charges, c: TransactionCost, k: Pubkey)
    requires KeyBalanced(lim, l, out + multiset{c}, k)
    ensures KeyBalanced(lim, Refund(l, c), out, k)
    ensures k in c.writable ==> k in l.byAccount && c.Sum() <= l.byAccount[k]
  {
    AddCharge(out, c, k);
    if CountOn(out, k) == 0 {
      ZeroCount(out, k);
    }
  }

  /** Refunding an outstanding charge keeps the ledger balanced, and none of its subtractions wraps. */
  lemma {:induction false} RefundBalances(lim: Limits, l: Ledger, out: Charges, c: TransactionCost)
    requires Balanced(lim, l, out) && c in out
    ensures Balanced(lim, Refund(l, c), out - multiset{c})
    ensures c.Sum() <= l.blockCost && forall k :: k in c.writable ==> k in l.byAccount && c.Sum() <= l.byAccount[k]
  {
    var rest := out - multiset{c};
    assert rest + multiset{c} == out;
    forall k ensures KeyBalanced(lim, Refund(l, c), rest, k)
             ensures k in c.writable ==> k in l.byAccount && c.Sum() <= l.byAccount[k] {
      assert KeyBalanced(lim, l, out, k);
      RefundKey(lim, l, rest, c, k);
    }
    AddCharge(rest, c, SYSTEM_PROGRAM_ID);
  }

  /** Admission is decided by exact sums of outstanding charges; an account never charged is not checked. */
  lemma {:induction false} FitsIff(lim: Limits, l: Ledger, out: Charges, c: TransactionCost)
    requires lim.block < U64_MAX && lim.account < U64_MAX && Balanced(lim, l, out)
    ensures WouldFit(lim, l, c).Ok? <==>
      && Total(out) + c.Sum() <= lim.block
      && forall k :: k in c.writable && k in l.byAccount ==> TotalOn(out, k) + c.Sum() <= lim.account
    ensures WouldFit(lim, l, c) == Err(WouldExceedBlockMaxLimit) <==> Total(out) + c.Sum() > lim.block
  {
    forall k | k in l.byAccount ensures l.byAccount[k] == TotalOn(out, k) {
      assert KeyBalanced(lim, l, out, k);
    }
  }

  // ----- every run

  datatype CostOp = TryCharge(cost: TransactionCost) | RefundCharge(cost: TransactionCost) | Reset
  datatype Books = Books(ledger: Ledger, out: Charges)

  /** A charge is made only if it fits, and only outstanding charges are refunded. */
  function Charged(b: Books, c: TransactionCost): Books {
    Books(Charge(b.ledger, c), b.out + multiset{c})
  }

  function TakenBack(b: Books, c: TransactionCost): Books {
    Books(Refund(b.ledger, c), b.out - multiset{c})
  }

  function Perform(lim: Limits, b: Books, op: CostOp): Books {
    match op
    case TryCharge(c) =>
      if WouldFit(lim, b.ledger, c).Ok? then Charged(b, c) else b
    case RefundCharge(c) =>
      if c in b.out then TakenBack(b, c) else b
    case Reset => Books(EMPTY, multiset{})
  }

  function PerformAll(lim: Limits, ops: seq<CostOp>): Books {
    if ops == [] then Books(EMPTY, multiset{}) else Perform(lim, PerformAll(lim, ops[..|ops| - 1]), ops[|ops| - 1])
  }

  lemma {:induction false} EveryRunBalanced(lim: Limits, ops: seq<CostOp>)
    requires lim.block < U64_MAX
    ensures var b := PerformAll(lim, ops); Balanced(lim, b.ledger, b.out)
  {
    EmptyBalanced(lim);
    if ops != [] {
      EveryRunBalanced(lim, ops[..|ops| - 1]);
      var b := PerformAll(lim, ops[..|ops| - 1]);
      match ops[|ops| - 1] {
        case TryCharge(c) => if WouldFit(lim, b.ledger, c).Ok? { ChargeBalances(lim, b.ledger, b.out, c); }
        case RefundCharge(c) => if c in b.out { RefundBalances(lim, b.ledger, b.out, c); }
        case Reset =>
      }
    }
  }

  // ----- the exact limit

  ghost predicate IsReal(op: CostOp) {
    op.Reset? || exists tx :: op.cost == CostOf(tx)
  }

  /** Every run over the costs of transactions keeps the ledger exact. */
  ghost predicate AlwaysBalances(lim: Limits) {
    forall ops: seq<CostOp> :: (forall op :: op in ops ==> IsReal(op)) ==>
      Balanced(lim, PerformAll(lim, ops).ledger, PerformAll(lim, ops).out)
  }

  /** A transaction with one signature and no instruction. */
  const PLAIN := Transaction([ZERO32 + ZERO32], Message([], Hash(ZERO32), []))

  lemma PlainCost()
    ensures CostOf(PLAIN).Sum() == SIGNATURE_COST && CostOf(PLAIN).writable == {}
  {
  }

  function Repeated(n: nat): (ops: seq<CostOp>)
    ensures |ops| == n && forall op :: op in ops ==> op == TryCharge(CostOf(PLAIN))
  {
    if n == 0 then [] else Repeated(n - 1) + [TryCharge(CostOf(PLAIN))]
  }

  /** At the largest limit the saturating check refuses nothing. */
  lemma PlainFits(lim: Limits, l: Ledger)
    requires lim.block == U64_MAX
    ensures WouldFit(lim, l, CostOf(PLAIN)).Ok?
  {
    PlainCost();
  }

  lemma {:induction false} OneMore(lim: Limits, b: Books)
    requires lim.block == U64_MAX
    ensures Total(Perform(lim, b, TryCharge(CostOf(PLAIN))).out) == Total(b.out) + SIGNATURE_COST
  {
    PlainCost();
    PlainFits(lim, b.ledger);
    AddCharge(b.out, CostOf(PLAIN), SYSTEM_PROGRAM_ID);
  }

  lemma RepeatedOnce(lim: Limits, n: nat)
    requires n > 0
    ensures PerformAll(lim, Repeated(n)) == Perform(lim, PerformAll(lim, Repeated(n - 1)), TryCharge(CostOf(PLAIN)))
  {
    assert Repeated(n)[..n - 1] == Repeated(n - 1);
  }

  lemma {:induction false} AllAdmitted(lim: Limits, n: nat)
    requires lim.block == U64_MAX
    ensures Total(PerformAll(lim, Repeated(n)).out) >= n
  {
    if n > 0 {
      var before := PerformAll(lim, Repeated(n - 1));
      assert Total(before.out) >= n - 1 by {
        AllAdmitted(lim, n - 1);
      }
      OneMore(lim, before);
      RepeatedOnce(lim, n);
    }
  }

  /** Admission keeps the ledger exact on all runs exactly below the largest block limit. */
  lemma {:induction false} BalancesIff(lim: Limits)
    ensures AlwaysBalances(lim) <==> lim.block < U64_MAX
  {
    if lim.block < U64_MAX {
      forall ops: seq<CostOp> ensures Balanced(lim, PerformAll(lim, ops).ledger, PerformAll(lim, ops).out) {
        EveryRunBalanced(lim, ops);
      }
    } else {
      var ops := Repeated(U64_MAX + 1);
      AllAdmitted(lim, U64_MAX + 1);
      assert forall op :: op in ops ==> IsReal(op);
      assert Total(PerformAll(lim, ops).out) > lim.block;
    }
  }

  // ----- the object

  method ChargeEach(m: map<Pubkey, U64>, keys: set<Pubkey>, cost: U64) returns (r: map<Pubkey, U64>)
    ensures r == ChargeAccounts(m, keys, cost)
  {
    r := m;
    var todo := keys;
    while todo != {}
      invariant todo <= keys && r == ChargeAccounts(m, keys - todo, cost)
    {
      var k :| k in todo;
      r := r[k := ((if k in r then r[k] else 0) + cost) % WRAP];
      todo := todo - {k};
    }
  }

  method RefundEach(m: map<Pubkey, U64>, keys: set<Pubkey>, cost: U64) returns (r: map<Pubkey, U64>)
    ensures r == RefundAccounts(m, keys, cost)
  {
    r := m;
    var todo := keys;
    while todo != {}
      invariant todo <= keys && r == RefundAccounts(m, keys - todo, cost)
    {
      var k :| k in todo;
      if k in r {
        r := r[k := (r[k] - cost) % WRAP];
      }
      todo := todo - {k};
    }
  }

  class CostTracker {
    const limits: Limits
    var blockCost: U64
    var byAccount: map<Pubkey, U64>
    ghost var outstanding: Charges

    ghost predicate Valid()
      reads this
    {
      limits.block < U64_MAX && Balanced(limits, State(), outstanding)
    }

    ghost function State(): Ledger
      reads this
    {
      Ledger(blockCost, byAccount)
    }

    constructor (limits: Limits)
      ensures outstanding == multiset{} && State() == EMPTY && this.limits == limits
      ensures limits.block < U64_MAX ==> Valid()
    {
      this.limits := limits;
      blockCost, byAccount, outstanding := 0, map[], multiset{};
      EmptyBalanced(limits);
    }

    method Fits(c: TransactionCost) returns (r: Result<(), CostModelError>)
      ensures r == WouldFit(limits, State(), c)
    {
      if SatAdd(blockCost, c.Sum()) > limits.block {
        return Err(WouldExceedBlockMaxLimit);
      }
      var todo := c.writable;
      while todo != {}
        invariant todo <= c.writable
        invariant forall k :: k in c.writable - todo && k in byAccount ==> SatAdd(byAccount[k], c.Sum()) <= limits.account
      {
        var k :| k in todo;
        if k in byAccount && SatAdd(byAccount[k], c.Sum()) > limits.account {
          return Err(WouldExceedAccountMaxLimit);
        }
        todo := todo - {k};
      }
      r := Ok(());
    }

    /** Any charge may be added; one that fits keeps the ledger exact. */
    method AddCost(c: TransactionCost)
      modifies this
      ensures outstanding == old(outstanding) + multiset{c} && State() == Charge(old(State()), c)
      ensures old(Valid()) && WouldFit(limits, old(State()), c).Ok? ==> Valid()
    {
      ghost var charged := Charge(State(), c);
      if Valid() && WouldFit(limits, State(), c).Ok? {
        ChargeBalances(limits, State(), outstanding, c);
      }
      byAccount := ChargeEach(byAccount, c.writable, c.Sum());
      blockCost := (blockCost + c.Sum()) % WRAP;
      outstanding := outstanding + multiset{c};
      assert State() == charged;
    }

    /** Any charge may be subtracted; an outstanding one keeps the ledger exact. */
    method SubtractCost(c: TransactionCost)
      modifies this
      ensures outstanding == old(outstanding) - multiset{c} && State() == Refund(old(State()), c)
      ensures old(Valid()) && c in old(outstanding) ==> Valid()
    {
      ghost var refunded := Refund(State(), c);
      if Valid() && c in outstanding {
        RefundBalances(limits, State(), outstanding, c);
      }
      byAccount := RefundEach(byAccount, c.writable, c.Sum());
      blockCost := (blockCost - c.Sum()) % WRAP;
      outstanding := outstanding - multiset{c};
      assert State() == refunded;
    }

    method ResetAll()
      modifies this
      ensures outstanding == multiset{} && State() == EMPTY
      ensures limits.block < U64_MAX ==> Valid()
    {
      blockCost, byAccount, outstanding := 0, map[], multiset{};
      EmptyBalanced(limits);
    }
  }
}
