/** Cycle accounting for the `setp` loop of the fast PCG routine
    (setpcg.c:70-87), in standard Z80 T-states. */
module Z80Timing {

  /** The instruction forms the `setp` loop executes. */
  datatype Instr =
    | Outi        // outi
    | LdRegReg    // ld b, d / ld b, e
    | LdRegImm    // ld b, 0x16 / ld a, 0x0b
    | ExAfAf      // ex af, af'
    | DecReg      // dec a
    | IncReg      // inc c
    | JpCond      // jp nz, label (10 T-states whether or not it jumps)

  /** Z80 T-states of each instruction form. */
  function TStates(op: Instr): nat {
    match op
    case Outi => 16
    case LdRegReg => 4
    case LdRegImm => 7
    case ExAfAf => 4
    case DecReg => 4
    case IncReg => 4
    case JpCond => 10
  }

  /** T-states of a straight-line run of instructions. */
  function Cost(ops: seq<Instr>): nat
    decreases |ops|
  {
    if ops == [] then 0 else TStates(ops[0]) + Cost(ops[1..])
  }

  /** `ops` executed `n` times in a row. */
  function Repeat(ops: seq<Instr>, n: nat): seq<Instr>
    decreases n
  {
    if n == 0 then [] else ops + Repeat(ops, n - 1)
  }

  /** The value `ld a, 0x0b` loads into the delay counter. */
  const DELAY_COUNT: nat := 0x0b

  /** From `setp:` to `ld b, 0x16`: the three OUTIs and their port set-up. */
  const SEND_LINE: seq<Instr> := [Outi, LdRegReg, Outi, LdRegReg, Outi, LdRegImm]

  /** One round of `dly: dec a / jp nz, dly`. */
  const DLY_BODY: seq<Instr> := [DecReg, JpCond]

  /** From `ex af, af` to `ex af, af`: the software delay, its loop unrolled
      (it starts at 11 and stops when `dec a` reaches 0, after 11 rounds). */
  function DelayRun(): seq<Instr> {
    [ExAfAf, LdRegImm] + Repeat(DLY_BODY, DELAY_COUNT) + [ExAfAf]
  }

  /** `inc c / dec a / jp nz, setp`. */
  const LOOP_TAIL: seq<Instr> := [IncReg, DecReg, JpCond]

  /** The instructions one pass of `setp` executes. */
  function SetpIteration(): seq<Instr> {
    SEND_LINE + DelayRun() + LOOP_TAIL
  }

  lemma {:induction false} CostConcat(a: seq<Instr>, b: seq<Instr>)
    ensures Cost(a + b) == Cost(a) + Cost(b)
    decreases |a|
  {
    if a != [] {
      assert (a + b)[1..] == a[1..] + b;
      CostConcat(a[1..], b);
    } else {
      assert a + b == b;
    }
  }

  lemma {:induction false} CostRepeat(ops: seq<Instr>, n: nat)
    ensures Cost(Repeat(ops, n)) == n * Cost(ops)
    decreases n
  {
    if n > 0 {
      CostConcat(ops, Repeat(ops, n - 1));
      assert n * Cost(ops) == Cost(ops) + (n - 1) * Cost(ops);
      CostRepeat(ops, n - 1);
    }
  }

  /** The cost of each straight-line piece of `setp`. */
  lemma PieceCosts()
    ensures Cost(SEND_LINE) == 63 && Cost(DLY_BODY) == 14 && Cost(LOOP_TAIL) == 18
  {
  }

  /** The delay takes 169 T-states: two swaps, the load and 11 rounds. */
  lemma DelayCost()
    ensures Cost(DelayRun()) == 169
  {
    CostConcat([ExAfAf, LdRegImm] + Repeat(DLY_BODY, DELAY_COUNT), [ExAfAf]);
    CostConcat([ExAfAf, LdRegImm], Repeat(DLY_BODY, DELAY_COUNT));
    CostRepeat(DLY_BODY, DELAY_COUNT);
    PieceCosts();
  }

  /** One pass of `setp` takes 250 clocks, as the comment at setpcg.c:87 says. */
  lemma SetpIterationCost()
    ensures Cost(SetpIteration()) == 250
  {
    CostConcat(SEND_LINE + DelayRun(), LOOP_TAIL);
    CostConcat(SEND_LINE, DelayRun());
    DelayCost();
    PieceCosts();
  }
}
