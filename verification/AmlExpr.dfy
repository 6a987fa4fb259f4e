/** The integer-expression fragment of the AML interpreter: a loop over a stack of
    in-flight operations that runs prefix-encoded code without recursion. */
module AmlExpr {
  import opened Common

  const U64 := 0x1_0000_0000_0000_0000
  const ALL_ONES := 0xffff_ffff_ffff_ffff

  newtype u8 = x: int | 0 <= x < 0x100
  type u64 = x: int | 0 <= x < U64

  datatype MathOp = Add | Subtract | Multiply | ShiftLeft | ShiftRight | Mod | Nand | And | Or | Nor | Xor

  datatype LogicOp = LAnd | LOr | LNotEqual | LLessEqual | LGreaterEqual | LEqual | LGreater | LLess

  /** Operations that wait on the stack for their arguments. */
  datatype Opcode = Math(m: MathOp) | Logic(l: LogicOp) | Return

  // ---------------------------------------------------------------- operators

  /** Combines `x` and `y` bit by bit. */
  function Bitwise(f: (bool, bool) -> bool, x: nat, y: nat): nat
    requires !f(false, false)
    decreases x + y
  {
    if x == 0 && y == 0 then 0
    else 2 * Bitwise(f, x / 2, y / 2) + (if f(x % 2 == 1, y % 2 == 1) then 1 else 0)
  }

  function Bit(x: nat, i: nat): bool {
    if i == 0 then x % 2 == 1 else Bit(x / 2, i - 1)
  }

  lemma {:induction false} ZeroBits(i: nat)
    ensures !Bit(0, i)
  {
    if i > 0 {
      ZeroBits(i - 1);
    }
  }

  lemma {:induction false} BitwiseBits(f: (bool, bool) -> bool, x: nat, y: nat, i: nat)
    requires !f(false, false)
    ensures Bit(Bitwise(f, x, y), i) == f(Bit(x, i), Bit(y, i))
    decreases i
  {
    if x == 0 && y == 0 {
      ZeroBits(i);
    } else if i > 0 {
      BitwiseBits(f, x / 2, y / 2, i - 1);
    }
  }

  lemma {:induction false} BitwiseBound(f: (bool, bool) -> bool, x: nat, y: nat, n: nat)
    requires !f(false, false) && x < Pow2(n) && y < Pow2(n)
    ensures Bitwise(f, x, y) < Pow2(n)
    decreases n
  {
    if n > 0 && (x > 0 || y > 0) {
      BitwiseBound(f, x / 2, y / 2, n - 1);
    }
  }

  /** The complement over `n` bits flips each of them. */
  lemma {:induction false} ComplementBits(x: nat, n: nat, i: nat)
    requires x < Pow2(n) && i < n
    ensures Pow2(n) - 1 - x >= 0 && Bit(Pow2(n) - 1 - x, i) == !Bit(x, i)
    decreases n
  {
    Halved(Pow2(n - 1), x);
    if i > 0 {
      ComplementBits(x / 2, n - 1, i - 1);
    }
  }

  lemma Halved(p: nat, x: nat)
    requires x < 2 * p
    ensures x / 2 < p && (2 * p - 1 - x) / 2 == p - 1 - x / 2
    ensures (2 * p - 1 - x) % 2 == 1 <==> x % 2 != 1
  {
  }

  lemma Pow2Byte(n: nat)
    ensures Pow2(n + 8) == 0x100 * Pow2(n)
  {
    assert Pow2(n + 2) == 4 * Pow2(n);
    assert Pow2(n + 4) == 4 * Pow2(n + 2);
    assert Pow2(n + 6) == 4 * Pow2(n + 4);
  }

  lemma Pow64()
    ensures Pow2(64) == U64
  {
    Pow2Byte(0);
    Pow2Byte(8);
    Pow2Byte(16);
    Pow2Byte(24);
    Pow2Byte(32);
    Pow2Byte(40);
    Pow2Byte(48);
    Pow2Byte(56);
  }

  function Bitwise64(f: (bool, bool) -> bool, x: u64, y: u64): u64
    requires !f(false, false)
  {
    Pow64();
    BitwiseBound(f, x, y, 64);
    Bitwise(f, x, y)
  }

  function Not64(x: u64): u64 { U64 - 1 - x }

  function Wrap(x: int): u64 { x % U64 }

  function Times(x: nat, y: nat): nat
    decreases y
  {
    if y == 0 then 0 else x + Times(x, y - 1)
  }

  function Shl(x: nat, n: nat): nat
    decreases n
  {
    if n == 0 then x else Shl(2 * x, n - 1)
  }

  function Shr(x: nat, n: nat): (r: nat)
    ensures r <= x
    decreases n
  {
    if n == 0 then x else Shr(x / 2, n - 1)
  }

  function Rem(x: nat, y: nat): (r: nat)
    requires y > 0
    ensures r <= x
  {
    if x < y then x else Rem(x - y, y)
  }

  lemma {:induction false} TimesMeaning(x: nat, y: nat)
    ensures Times(x, y) == x * y
    decreases y
  {
    if y > 0 {
      TimesMeaning(x, y - 1);
      assert x * y == x * (y - 1) + x;
    }
  }

  lemma {:induction false} ShlMeaning(x: nat, n: nat)
    ensures Shl(x, n) == x * Pow2(n)
    decreases n
  {
    if n > 0 {
      ShlMeaning(2 * x, n - 1);
      var p := Pow2(n - 1);
      assert (2 * x) * p == x * (2 * p);
    }
  }

  lemma {:induction false} ShrMeaning(x: nat, n: nat)
    ensures Shr(x, n) == x / Pow2(n)
    decreases n
  {
    if n > 0 {
      ShrMeaning(x / 2, n - 1);
      DivTwice(x, Pow2(n - 1));
    }
  }

  lemma DivTwice(x: nat, p: nat)
    requires p > 0
    ensures (x / 2) / p == x / (2 * p)
  {
    var h := x / 2;
    QuotientTwice(x, h, p, h / p, h % p);
    DivModUnique(x, 2 * p, h / p, 2 * (h % p) + x % 2);
  }

  lemma QuotientTwice(x: nat, h: nat, p: nat, q: nat, r: nat)
    requires h == q * p + r && x == 2 * h + x % 2
    ensures x == q * (2 * p) + (2 * r + x % 2)
  {
    assert q * (2 * p) == 2 * (q * p);
  }

  lemma {:induction false} RemMeaning(x: nat, y: nat)
    requires y > 0
    ensures Rem(x, y) == x % y
    decreases x
  {
    if x < y {
      DivModUnique(x, y, 0, x);
    } else {
      RemMeaning(x - y, y);
      var q, r := (x - y) / y, (x - y) % y;
      assert x == (q + 1) * y + r;
      DivModUnique(x, y, q + 1, r);
    }
  }

  /** do_binary_maths on two integers; a zero divisor is the caller's business. */
  function MathResult(m: MathOp, l: u64, r: u64): u64
    requires m == Mod ==> r != 0
  {
    match m
    case Add => Wrap(l + r)
    case Subtract => Wrap(l - r)
    case Multiply => Wrap(Times(l, r))
    case ShiftLeft => Wrap(Shl(l, r % 64))
    case ShiftRight => Shr(l, r % 64)
    case Mod => Rem(l, r)
    case Nand => Not64(Bitwise64((a, b) => a && b, l, r))
    case And => Bitwise64((a, b) => a && b, l, r)
    case Or => Bitwise64((a, b) => a || b, l, r)
    case Nor => Not64(Bitwise64((a, b) => a || b, l, r))
    case Xor => Bitwise64((a, b) => a != b, l, r)
  }

  /** What each operation means: arithmetic modulo 2 to the 64, or bit by bit. */
  lemma MathMeaning(m: MathOp, l: u64, r: u64, i: nat)
    requires (m == Mod ==> r != 0) && i < 64
    ensures var z := MathResult(m, l, r);
            match m
            case Add => z == (l + r) % U64
            case Subtract => z == (l - r) % U64
            case Multiply => z == (l * r) % U64
            case ShiftLeft => z == (l * Pow2(r % 64)) % U64
            case ShiftRight => z == l / Pow2(r % 64)
            case Mod => z == l % r
            case Nand => Bit(z, i) == !(Bit(l, i) && Bit(r, i))
            case And => Bit(z, i) == (Bit(l, i) && Bit(r, i))
            case Or => Bit(z, i) == (Bit(l, i) || Bit(r, i))
            case Nor => Bit(z, i) == !(Bit(l, i) || Bit(r, i))
            case Xor => Bit(z, i) == (Bit(l, i) != Bit(r, i))
  {
    match m
    case Add =>
    case Subtract =>
    case Multiply => TimesMeaning(l, r);
    case ShiftLeft => ShlMeaning(l, r % 64);
    case ShiftRight => ShrMeaning(l, r % 64);
    case Mod => RemMeaning(l, r);
    case And => BitwiseBits((a, b) => a && b, l, r, i);
    case Or => BitwiseBits((a, b) => a || b, l, r, i);
    case Xor => BitwiseBits((a, b) => a != b, l, r, i);
    case Nand =>
      BitwiseBits((a, b) => a && b, l, r, i);
      NotBits(Bitwise64((a, b) => a && b, l, r), i);
    case Nor =>
      BitwiseBits((a, b) => a || b, l, r, i);
      NotBits(Bitwise64((a, b) => a || b, l, r), i);
  }

  lemma NotBits(x: u64, i: nat)
    requires i < 64
    ensures Bit(Not64(x), i) == !Bit(x, i)
  {
    Pow64();
    ComplementBits(x, 64, i);
  }

  function LogicResult(op: LogicOp, l: u64, r: u64): u64 {
    var b := match op
      case LAnd => l > 0 && r > 0
      case LOr => l > 0 || r > 0
      case LNotEqual => l != r
      case LLessEqual => l <= r
      case LGreaterEqual => l >= r
      case LEqual => l == r
      case LGreater => l > r
      case LLess => l < r;
    if b then ALL_ONES else 0
  }

  /** What the comparisons mean: zero or all ones; less-than by a positive difference, the
      others from it, from equality and from which operands are zero. */
  lemma LogicMeaning(x: u64, y: u64, d: u64)
    ensures forall op :: LogicResult(op, x, y) == 0 || LogicResult(op, x, y) == ALL_ONES
    ensures d > 0 && x + d < U64 ==> LogicResult(LLess, x, x + d) == ALL_ONES && LogicResult(LLess, x + d, x) == 0
    ensures LogicResult(LLess, x, x) == 0
    ensures LogicResult(LEqual, x, y) == ALL_ONES <==> x == y
    ensures LogicResult(LGreater, x, y) == LogicResult(LLess, y, x)
    ensures LogicResult(LLessEqual, x, y) == Not64(LogicResult(LGreater, x, y))
    ensures LogicResult(LGreaterEqual, x, y) == Not64(LogicResult(LLess, x, y))
    ensures LogicResult(LNotEqual, x, y) == Not64(LogicResult(LEqual, x, y))
    ensures LogicResult(LAnd, x, y) == 0 <==> x == 0 || y == 0
    ensures LogicResult(LOr, x, y) == 0 <==> x == 0 && y == 0
  {
  }

  // ---------------------------------------------------------------- the stack machine

  /** Some predicates below stay closed until a proof names the number of what it needs:
      the loop's definition, what the predicates about runs stand for, or the encoding and
      the meaning of an expression. */
  const LOOP := 0
  const RUN := 1
  const TEXT := 2

  datatype InFlight = InFlight(op: Opcode, expected: nat, args: seq<u64>)

  datatype Outcome =
    | Returned(value: u64, pc: nat)
    | Uninitialized
    | NoCurrentOp
    | RunOutOfStream
    | Panic
    | OutsideFragment

  predicate Full(op: InFlight) { |op.args| == op.expected }

  predicate Lacks(op: InFlight) { |op.args| < op.expected }

  function Push(stack: seq<InFlight>, v: u64): seq<InFlight>
    requires stack != []
  {
    var top := stack[|stack| - 1];
    stack[..|stack| - 1] + [top.(args := top.args + [v])]
  }

  /** An operation's result goes to the one below it, if that one still wants it. */
  function Contribute(stack: seq<InFlight>, v: u64): seq<InFlight> {
    if stack != [] && Lacks(stack[|stack| - 1]) then Push(stack, v) else stack
  }

  datatype Retired = Running(stack: seq<InFlight>) | Done(value: u64) | Crashed

  /** What completing one full operation leads to. */
  function Complete(rest: seq<InFlight>, top: InFlight): Retired {
    match top.op
    case Math(m) =>
      if |top.args| < 2 || (m == Mod && top.args[1] == 0) then Crashed
      else Running(Contribute(rest, MathResult(m, top.args[0], top.args[1])))
    case Logic(l) =>
      if |top.args| != 2 then Crashed else Running(Contribute(rest, LogicResult(l, top.args[0], top.args[1])))
    case Return =>
      if |top.args| != 1 then Crashed else Done(top.args[0])
  }

  /** Completes operations from the top until one still lacks an argument. */
  function Retire(stack: seq<InFlight>): (r: Retired)
    ensures r.Running? && (forall i :: 0 <= i < |stack| - 1 ==> Lacks(stack[i])) &&
            (stack != [] ==> |stack[|stack| - 1].args| <= stack[|stack| - 1].expected) ==>
              forall i :: 0 <= i < |r.stack| ==> Lacks(r.stack[i])
    decreases |stack|
  {
    if stack == [] || !Full(stack[|stack| - 1]) then Running(stack)
    else
      var c := Complete(stack[..|stack| - 1], stack[|stack| - 1]);
      if c.Running? then Retire(c.stack) else c
  }

  datatype Fetched =
    | Op(op: Opcode, pc: nat)
    | Const(value: u64, pc: nat)
    | EndOfStream
    | Truncated
    | Unmodelled

  /** The little-endian number in `b`. */
  function FromLe(b: seq<u8>): (r: nat)
    decreases |b|
  {
    if b == [] then 0 else b[0] as nat + 0x100 * FromLe(b[1..])
  }

  /** Byte `i` of a number, the lowest one first. */
  function ByteOf(v: nat, i: nat): u8
    decreases i
  {
    if i == 0 then (v % 0x100) as u8 else ByteOf(v / 0x100, i - 1)
  }

  function ToLe(v: nat, n: nat): (r: seq<u8>)
    ensures |r| == n
  {
    seq(n, i requires 0 <= i => ByteOf(v, i))
  }

  lemma {:induction false} LeBound(b: seq<u8>)
    requires |b| <= 8
    ensures FromLe(b) < Pow2(8 * |b|) <= U64
    decreases |b|
  {
    if b != [] {
      LeBound(b[1..]);
      Pow2Byte(8 * |b| - 8);
    }
    Pow2Mono(8 * |b|, 64);
    Pow64();
  }

  lemma {:induction false} Pow2Mono(m: nat, n: nat)
    requires m <= n
    ensures Pow2(m) <= Pow2(n)
    decreases n
  {
    if m < n {
      Pow2Mono(m, n - 1);
    }
  }

  lemma ToLeStep(v: nat, n: nat)
    requires n > 0
    ensures ToLe(v, n)[0] as nat == v % 0x100 && ToLe(v, n)[1..] == ToLe(v / 0x100, n - 1)
  {
    var a, b := ToLe(v, n)[1..], ToLe(v / 0x100, n - 1);
    forall i | 0 <= i < n - 1
      ensures a[i] == b[i]
    {
      assert ByteOf(v, i + 1) == ByteOf(v / 0x100, i);
    }
  }

  lemma {:induction false} LeRoundTrip(v: nat, n: nat)
    requires v < Pow2(8 * n)
    ensures FromLe(ToLe(v, n)) == v
    decreases n
  {
    if n > 0 {
      Pow2Byte(8 * n - 8);
      LeRoundTrip(v / 0x100, n - 1);
      ToLeStep(v, n);
    }
  }

  /** A constant of `n` bytes starting at `pc`. */
  function FetchConst(code: seq<u8>, pc: nat, n: nat): Fetched
    requires n <= 8
  {
    if pc + n > |code| then Truncated
    else
      LeBound(code[pc..pc + n]);
      Const(FromLe(code[pc..pc + n]), pc + n)
  }

  /** Reads one opcode and, for a constant, its value. */
  function Fetch(code: seq<u8>, pc: nat): (r: Fetched)
    ensures r.Op? || r.Const? ==> pc < r.pc <= |code|
  {
    if pc >= |code| then EndOfStream
    else
      match code[pc]
      case 0x00 => Const(0, pc + 1)
      case 0x01 => Const(1, pc + 1)
      case 0xff => Const(ALL_ONES, pc + 1)
      case 0x0a => FetchConst(code, pc + 1, 1)
      case 0x0b => FetchConst(code, pc + 1, 2)
      case 0x0c => FetchConst(code, pc + 1, 4)
      case 0x0e => FetchConst(code, pc + 1, 8)
      case 0x72 => Op(Math(Add), pc + 1)
      case 0x74 => Op(Math(Subtract), pc + 1)
      case 0x77 => Op(Math(Multiply), pc + 1)
      case 0x79 => Op(Math(ShiftLeft), pc + 1)
      case 0x7a => Op(Math(ShiftRight), pc + 1)
      case 0x7b => Op(Math(And), pc + 1)
      case 0x7c => Op(Math(Nand), pc + 1)
      case 0x7d => Op(Math(Or), pc + 1)
      case 0x7e => Op(Math(Nor), pc + 1)
      case 0x7f => Op(Math(Xor), pc + 1)
      case 0x85 => Op(Math(Mod), pc + 1)
      case 0x90 => Op(Logic(LAnd), pc + 1)
      case 0x91 => Op(Logic(LOr), pc + 1)
      case 0x92 =>
        if pc + 1 >= |code| then Unmodelled
        else if code[pc + 1] == 0x93 then Op(Logic(LNotEqual), pc + 2)
        else if code[pc + 1] == 0x94 then Op(Logic(LLessEqual), pc + 2)
        else if code[pc + 1] == 0x95 then Op(Logic(LGreaterEqual), pc + 2)
        else Unmodelled
      case 0x93 => Op(Logic(LEqual), pc + 1)
      case 0x94 => Op(Logic(LGreater), pc + 1)
      case 0x95 => Op(Logic(LLess), pc + 1)
      case 0xa4 => Op(Return, pc + 1)
      case _ => Unmodelled
  }

  /** How many arguments the loop waits for when it starts an operation. */
  function Expected(op: Opcode): nat {
    match op
    case Math(_) => 3
    case Logic(_) => 2
    case Return => 1
  }

  /** What one round of the interpreter loop comes to. */
  datatype Turn = Stop(out: Outcome) | Go(pc: nat, stack: seq<InFlight>)

  /** What fetching at `pc` leads to once full operations are retired. */
  function FetchTurn(code: seq<u8>, pc: nat, s: seq<InFlight>): (r: Turn)
    ensures r.Go? ==> pc < r.pc <= |code|
  {
    match Fetch(code, pc)
    case EndOfStream => Stop(Uninitialized)
    case Truncated => Stop(RunOutOfStream)
    case Unmodelled => Stop(OutsideFragment)
    case Const(v, next) => if s == [] then Stop(NoCurrentOp) else Go(next, Push(s, v))
    case Op(op, next) => Go(next, s + [InFlight(op, Expected(op), [])])
  }

  /** One round: retire full operations, then fetch. */
  function TurnOf(code: seq<u8>, pc: nat, stack: seq<InFlight>): (r: Turn)
    ensures r.Go? ==> pc < r.pc <= |code|
  {
    match Retire(stack)
    case Done(v) => Stop(Returned(v, pc))
    case Crashed => Stop(Panic)
    case Running(s) => FetchTurn(code, pc, s)
  }

  /** The interpreter loop from a given program counter and stack. */
  function Exec(code: seq<u8>, pc: nat, stack: seq<InFlight>): Outcome
    decreases |code| - pc
  {
    match TurnOf(code, pc, stack)
    case Stop(out) => out
    case Go(pc', stack') => Exec(code, pc', stack')
  }

  /** Every operation on the stack wants at least one more argument. */
  ghost predicate AllLack(stack: seq<InFlight>) {
    stack == [] || (Lacks(stack[|stack| - 1]) && AllLack(stack[..|stack| - 1]))
  }

  lemma {:induction false} EachLacks(stack: seq<InFlight>)
    requires forall i :: 0 <= i < |stack| ==> Lacks(stack[i])
    ensures AllLack(stack)
  {
    if stack != [] {
      EachLacks(stack[..|stack| - 1]);
    }
  }

  /** The stack with which a round fetches, if it does. */
  function Fetching(stack: seq<InFlight>): seq<seq<InFlight>> {
    match Retire(stack)
    case Running(s) => [s]
    case _ => []
  }

  /** The stacks with which the loop fetches, in order, after those in `trace`. */
  function Stacks(code: seq<u8>, pc: nat, stack: seq<InFlight>, trace: seq<seq<InFlight>>): seq<seq<InFlight>>
    decreases |code| - pc
  {
    var trace' := trace + Fetching(stack);
    match TurnOf(code, pc, stack)
    case Stop(_) => trace'
    case Go(pc', stack') => Stacks(code, pc', stack', trace')
  }

  /** All operations wait for arguments, except that the top one may just have its last. */
  ghost predicate Waiting(stack: seq<InFlight>) {
    && (forall i :: 0 <= i < |stack| - 1 ==> Lacks(stack[i]))
    && (stack != [] ==> |stack[|stack| - 1].args| <= stack[|stack| - 1].expected)
  }

  lemma FetchingLacks(stack: seq<InFlight>)
    requires Waiting(stack) && Retire(stack).Running?
    ensures AllLack(Retire(stack).stack) && forall i :: 0 <= i < |Retire(stack).stack| ==> Lacks(Retire(stack).stack[i])
  {
    EachLacks(Retire(stack).stack);
  }

  lemma PushWaits(s: seq<InFlight>, v: u64)
    requires s != [] && forall i :: 0 <= i < |s| ==> Lacks(s[i])
    ensures Waiting(Push(s, v))
  {
  }

  lemma StartWaits(s: seq<InFlight>, op: Opcode)
    requires forall i :: 0 <= i < |s| ==> Lacks(s[i])
    ensures Waiting(s + [InFlight(op, Expected(op), [])])
  {
  }

  lemma FetchTurnWaits(code: seq<u8>, pc: nat, s: seq<InFlight>)
    requires forall i :: 0 <= i < |s| ==> Lacks(s[i])
    ensures FetchTurn(code, pc, s).Go? ==> Waiting(FetchTurn(code, pc, s).stack)
  {
    match Fetch(code, pc)
    case Const(v, _) =>
      if s != [] {
        PushWaits(s, v);
      }
    case Op(op, _) => StartWaits(s, op);
    case _ =>
  }

  lemma TurnWaits(code: seq<u8>, pc: nat, stack: seq<InFlight>, next: Turn)
    requires Waiting(stack) && next == TurnOf(code, pc, stack) && next.Go?
    ensures Waiting(next.stack)
  {
    FetchingLacks(stack);
    FetchTurnWaits(code, pc, Retire(stack).stack);
  }

  ghost predicate EachLack(trace: seq<seq<InFlight>>) {
    forall k {:trigger At(k)} :: At(k) && 0 <= k < |trace| ==> AllLack(trace[k])
  }

  lemma TraceLacks(stack: seq<InFlight>, trace: seq<seq<InFlight>>)
    requires Waiting(stack) && EachLack(trace)
    ensures EachLack(trace + Fetching(stack))
  {
    if Retire(stack).Running? {
      FetchingLacks(stack);
    }
  }

  lemma StacksAre(code: seq<u8>, pc: nat, stack: seq<InFlight>, trace: seq<seq<InFlight>>, next: Turn,
                  trace': seq<seq<InFlight>>)
    requires next == TurnOf(code, pc, stack) && trace' == trace + Fetching(stack)
    ensures Stacks(code, pc, stack, trace) == if next.Go? then Stacks(code, next.pc, next.stack, trace') else trace'
  {
  }

  /** Whenever the loop fetches, whatever the code, every operation on the stack wants at
      least one more argument. */
  lemma {:induction false} StacksLack(code: seq<u8>, pc: nat, stack: seq<InFlight>, trace: seq<seq<InFlight>>)
    requires Waiting(stack) && EachLack(trace)
    ensures EachLack(Stacks(code, pc, stack, trace))
    decreases |code| - pc
  {
    var next, trace' := TurnOf(code, pc, stack), trace + Fetching(stack);
    StacksAre(code, pc, stack, trace, next, trace');
    TraceLacks(stack, trace);
    if next.Go? {
      TurnWaits(code, pc, stack, next);
      StacksLack(code, next.pc, next.stack, trace');
    }
  }

  /** The inner loop: completes the operations that have all their arguments. */
  method RetireFull(stack: seq<InFlight>) returns (r: Retired)
    ensures r == Retire(stack)
  {
    var inFlight := stack;
    while inFlight != [] && Full(inFlight[|inFlight| - 1])
      invariant Retire(inFlight) == Retire(stack)
      decreases |inFlight|
    {
      var op := inFlight[|inFlight| - 1];
      inFlight := inFlight[..|inFlight| - 1];
      match Complete(inFlight, op) {
        case Running(stack) => inFlight := stack;
        case Done(v) => return Done(v);
        case Crashed => return Crashed;
      }
    }
    r := Running(inFlight);
  }

  /** `trace` are the stacks with which the loop fetched. */
  method Execute(code: seq<u8>) returns (out: Outcome, ghost trace: seq<seq<InFlight>>)
    ensures out == Exec(code, 0, []) && trace == Stacks(code, 0, [], [])
    ensures forall k :: 0 <= k < |trace| ==> AllLack(trace[k])
  {
    out, trace := Interpret(code);
    StacksLack(code, 0, [], []);
    forall k | 0 <= k < |trace|
      ensures AllLack(trace[k])
    {
      assert At(k);
    }
  }

  /** The loop comes from the start to `pc` with `stack`, having fetched with `trace`. */
  ghost predicate Reached(code: seq<u8>, pc: nat, stack: seq<InFlight>, trace: seq<seq<InFlight>>) {
    forall i {:trigger At(i)} :: At(i) && i == LOOP ==>
      && Exec(code, 0, []) == Exec(code, pc, stack)
      && Stacks(code, 0, [], []) == Stacks(code, pc, stack, trace)
  }

  /** The loop has ended with `out`, having fetched with `trace`. */
  ghost predicate Ended(code: seq<u8>, out: Outcome, trace: seq<seq<InFlight>>) {
    forall i {:trigger At(i)} :: At(i) && i == LOOP ==> out == Exec(code, 0, []) && trace == Stacks(code, 0, [], [])
  }

  lemma ReachedStart(code: seq<u8>)
    ensures Reached(code, 0, [], [])
  {
  }

  lemma EndedIs(code: seq<u8>, out: Outcome, trace: seq<seq<InFlight>>)
    requires Ended(code, out, trace)
    ensures out == Exec(code, 0, []) && trace == Stacks(code, 0, [], [])
  {
    assert At(LOOP);
  }

  lemma ReachedOn(code: seq<u8>, pc: nat, stack: seq<InFlight>, trace: seq<seq<InFlight>>, next: Turn,
                  trace': seq<seq<InFlight>>)
    requires Reached(code, pc, stack, trace) && next == TurnOf(code, pc, stack) && trace' == trace + Fetching(stack)
    ensures next.Go? ==> Reached(code, next.pc, next.stack, trace')
    ensures next.Stop? ==> Ended(code, next.out, trace')
  {
    assert At(LOOP);
    StacksAre(code, pc, stack, trace, next, trace');
  }

  /** One round of the interpreter loop. */
  method Round(code: seq<u8>, pc: nat, stack: seq<InFlight>, ghost trace: seq<seq<InFlight>>)
    returns (next: Turn, ghost trace': seq<seq<InFlight>>)
    requires Reached(code, pc, stack, trace)
    ensures next.Go? ==> pc < next.pc <= |code| && Reached(code, next.pc, next.stack, trace')
    ensures next.Stop? ==> Ended(code, next.out, trace')
  {
    var retired := RetireFull(stack);
    match retired {
      case Done(v) => next := Stop(Returned(v, pc));
      case Crashed => next := Stop(Panic);
      case Running(inFlight) =>
        match Fetch(code, pc) {
          case EndOfStream => next := Stop(Uninitialized);
          case Truncated => next := Stop(RunOutOfStream);
          case Unmodelled => next := Stop(OutsideFragment);
          case Const(v, pc') => next := if inFlight == [] then Stop(NoCurrentOp) else Go(pc', Push(inFlight, v));
          case Op(op, pc') => next := Go(pc', inFlight + [InFlight(op, Expected(op), [])]);
        }
    }
    trace' := trace + Fetching(stack);
    ReachedOn(code, pc, stack, trace, next, trace');
  }

  /** The interpreter loop. */
  method Interpret(code: seq<u8>) returns (out: Outcome, ghost trace: seq<seq<InFlight>>)
    ensures out == Exec(code, 0, []) && trace == Stacks(code, 0, [], [])
  {
    var pc, inFlight := 0, [];
    trace := [];
    ReachedStart(code);
    while true
      invariant pc <= |code| && Reached(code, pc, inFlight, trace)
      decreases |code| - pc
    {
      var next;
      next, trace := Round(code, pc, inFlight, trace);
      match next {
        case Stop(end) =>
          EndedIs(code, end, trace);
          return end, trace;
        case Go(pc', stack) => pc, inFlight := pc', stack;
      }
    }
  }

  // ---------------------------------------------------------------- expressions

  datatype Expr =
    | Zero | One | Ones
    | Bytes(v: u64, n: nat)
    | Binary(m: MathOp, left: Expr, right: Expr)
    | Compare(l: LogicOp, left: Expr, right: Expr)

  /** The values of constants of one, two, four or eight bytes lie below this; there are no
      other widths. */
  function Limit(n: nat): nat {
    if n == 1 then 0x100
    else if n == 2 then 0x1_0000
    else if n == 4 then 0x1_0000_0000
    else if n == 8 then U64
    else 0
  }

  lemma LimitIs(n: nat)
    requires Limit(n) > 0
    ensures Limit(n) == Pow2(8 * n) && (n == 1 || n == 2 || n == 4 || n == 8)
  {
    Pow64();
    Pow2Byte(0);
    Pow2Byte(8);
    Pow2Byte(16);
    Pow2Byte(24);
  }

  /** Constants fit their widths. */
  predicate WellFormed(e: Expr) {
    match e
    case Bytes(v, n) => v < Limit(n)
    case Binary(_, l, r) => WellFormed(l) && WellFormed(r)
    case Compare(_, l, r) => WellFormed(l) && WellFormed(r)
    case _ => true
  }

  function MathByte(m: MathOp): u8 {
    match m
    case Add => 0x72 case Subtract => 0x74 case Multiply => 0x77
    case ShiftLeft => 0x79 case ShiftRight => 0x7a
    case And => 0x7b case Nand => 0x7c case Or => 0x7d case Nor => 0x7e case Xor => 0x7f
    case Mod => 0x85
  }

  function LogicBytes(l: LogicOp): (b: seq<u8>)
    ensures |b| == 1 || |b| == 2
  {
    match l
    case LAnd => [0x90] case LOr => [0x91]
    case LNotEqual => [0x92, 0x93] case LLessEqual => [0x92, 0x94] case LGreaterEqual => [0x92, 0x95]
    case LEqual => [0x93] case LGreater => [0x94] case LLess => [0x95]
  }

  /** The prefix encoding; a Binary's result goes to the null target. */
  function Encode(e: Expr): seq<u8> {
    match e
    case Zero => [0x00]
    case One => [0x01]
    case Ones => [0xff]
    case Bytes(v, n) => [if n == 1 then 0x0a else if n == 2 then 0x0b else if n == 4 then 0x0c else 0x0e] + ToLe(v, n)
    case Binary(m, l, r) => [MathByte(m)] + (Encode(l) + (Encode(r) + [0x00]))
    case Compare(l, left, right) => LogicBytes(l) + (Encode(left) + Encode(right))
  }

  function BinaryValue(m: MathOp, x: Option<u64>, y: Option<u64>): Option<u64> {
    if x.None? || y.None? || (m == Mod && y.value == 0) then None else Some(MathResult(m, x.value, y.value))
  }

  function CompareValue(l: LogicOp, x: Option<u64>, y: Option<u64>): Option<u64> {
    if x.None? || y.None? then None else Some(LogicResult(l, x.value, y.value))
  }

  /** The meaning of an expression, by recursion on its shape; None where it divides by zero. */
  function Eval(e: Expr): Option<u64> {
    match e
    case Zero => Some(0)
    case One => Some(1)
    case Ones => Some(ALL_ONES)
    case Bytes(v, _) => Some(v)
    case Binary(m, l, r) => BinaryValue(m, Eval(l), Eval(r))
    case Compare(l, left, right) => CompareValue(l, Eval(left), Eval(right))
  }

  /** The encoding of `e` stands in `code` at `pc`. */
  predicate EncodedAt(code: seq<u8>, pc: nat, e: Expr) {
    pc <= |code| && Encode(e) <= code[pc..]
  }

  /** The loop, started at `pc` with `s`, comes to `pc'` with `s'`. */
  ghost predicate Leads(code: seq<u8>, pc: nat, s: seq<InFlight>, pc': nat, s': seq<InFlight>) {
    forall i {:trigger At(i)} :: At(i) && i == LOOP ==> Exec(code, pc, s) == Exec(code, pc', s')
  }

  /** The loop, started at `pc` with `s`, divides by zero. */
  ghost predicate Crashes(code: seq<u8>, pc: nat, s: seq<InFlight>) {
    forall i {:trigger At(i)} :: At(i) && i == LOOP ==> Exec(code, pc, s) == Panic
  }

  lemma LeadsOn(code: seq<u8>, p: nat, s: seq<InFlight>, p': nat, s': seq<InFlight>, p'': nat, s'': seq<InFlight>)
    requires Leads(code, p, s, p', s')
    ensures Leads(code, p', s', p'', s'') ==> Leads(code, p, s, p'', s'')
    ensures Crashes(code, p', s') ==> Crashes(code, p, s)
  {
  }

  /** Started at `pc` with `s`, the loop hands `v` to the operation on top of the stack and
      comes to `q`; without a value it divides by zero. */
  ghost predicate Runs(code: seq<u8>, pc: nat, s: seq<InFlight>, q: nat, v: Option<u64>)
    requires s != []
  {
    forall i {:trigger At(i)} :: At(i) && i == RUN ==>
      if v.None? then Crashes(code, pc, s) else Leads(code, pc, s, q, Push(s, v.value))
  }

  /** The encoding of the well-formed `e` stands in `code` from `pc` to `q`, and `e` means `v`. */
  ghost predicate Here(code: seq<u8>, pc: nat, e: Expr, q: nat, v: Option<u64>) {
    forall i {:trigger At(i)} :: At(i) && i == TEXT ==>
      WellFormed(e) && EncodedAt(code, pc, e) && q == pc + |Encode(e)| && v == Eval(e)
  }

  /** The stack with `op` on top, having gathered `args`. */
  function Started(stack: seq<InFlight>, op: Opcode, args: seq<u64>): seq<InFlight> {
    stack + [InFlight(op, Expected(op), args)]
  }

  lemma StepOp(code: seq<u8>, pc: nat, stack: seq<InFlight>, op: Opcode, next: nat)
    requires AllLack(stack) && Fetch(code, pc) == Op(op, next)
    ensures Leads(code, pc, stack, next, Started(stack, op, []))
  {
  }

  lemma StepConst(code: seq<u8>, pc: nat, stack: seq<InFlight>, v: u64, next: nat)
    requires AllLack(stack) && stack != [] && Fetch(code, pc) == Const(v, next)
    ensures Leads(code, pc, stack, next, Push(stack, v))
  {
  }

  lemma FetchBytes(code: seq<u8>, pc: nat, v: u64, n: nat)
    requires EncodedAt(code, pc, Bytes(v, n)) && WellFormed(Bytes(v, n))
    ensures Fetch(code, pc) == Const(v, pc + 1 + n)
  {
    LimitIs(n);
    var enc := Encode(Bytes(v, n));
    assert code[pc] == code[pc..][0] == enc[0];
    assert code[pc + 1..pc + 1 + n] == code[pc..][1..1 + n] == enc[1..] == ToLe(v, n);
    LeRoundTrip(v, n);
  }

  lemma PushTop(stack: seq<InFlight>, op: Opcode, args: seq<u64>, v: u64)
    ensures Push(Started(stack, op, args), v) == Started(stack, op, args + [v])
  {
    var s := Started(stack, op, args);
    assert s[..|s| - 1] == stack;
  }

  /** What follows a piece `a` of the code. */
  lemma After(code: seq<u8>, pc: nat, a: seq<u8>, b: seq<u8>)
    requires pc <= |code| && a + b <= code[pc..]
    ensures a <= code[pc..] && pc + |a| <= |code| && b <= code[pc + |a|..]
    ensures a != [] ==> pc < |code| && code[pc] == a[0]
    ensures |a| > 1 ==> pc + 1 < |code| && code[pc + 1] == a[1]
  {
    var rest := code[pc..];
    assert a == (a + b)[..|a|] && b == (a + b)[|a|..];
    assert code[pc + |a|..] == rest[|a|..];
    assert a != [] ==> rest[0] == a[0];
    assert |a| > 1 ==> rest[1] == a[1];
  }

  /** Running the encoding of `e` hands its value to the operation on top of the stack
      and consumes exactly the encoding; a division by zero inside stops the interpreter. */
  lemma {:induction false} ExprRuns(code: seq<u8>, pc: nat, stack: seq<InFlight>, e: Expr, q: nat, v: Option<u64>)
    requires Here(code, pc, e, q, v) && stack != [] && AllLack(stack)
    ensures Runs(code, pc, stack, q, v)
    decreases e, 1
  {
    match e
    case Binary(_, _, _) => BinaryRuns(code, pc, stack, e, q, v);
    case Compare(_, _, _) => CompareRuns(code, pc, stack, e, q, v);
    case _ => ConstRuns(code, pc, stack, e, q, v);
  }

  lemma ConstRuns(code: seq<u8>, pc: nat, stack: seq<InFlight>, e: Expr, q: nat, v: Option<u64>)
    requires Here(code, pc, e, q, v) && stack != [] && AllLack(stack) && !e.Binary? && !e.Compare?
    ensures Runs(code, pc, stack, q, v)
  {
    assert At(TEXT);
    match e {
      case Zero => assert code[pc..][0] == 0x00;
      case One => assert code[pc..][0] == 0x01;
      case Ones => assert code[pc..][0] == 0xff;
      case Bytes(w, k) => FetchBytes(code, pc, w, k);
    }
    StepConst(code, pc, stack, v.value, q);
  }

  lemma {:induction false} BinaryRuns(code: seq<u8>, pc: nat, stack: seq<InFlight>, e: Expr, q: nat, v: Option<u64>)
    requires e.Binary? && Here(code, pc, e, q, v) && stack != [] && AllLack(stack)
    ensures Runs(code, pc, stack, q, v)
    decreases e, 0
  {
    var mid, t, x, y := BinaryLayout(code, pc, stack, e, q, v);
    StartedLacks(stack, Math(e.m), x);
    ExprRuns(code, pc + 1, Started(stack, Math(e.m), []), e.left, mid, x);
    if x.Some? {
      ExprRuns(code, mid, Started(stack, Math(e.m), [x.value]), e.right, t, y);
      BinaryBoth(code, pc, mid, t, stack, e.m, x, y, q, v);
    } else {
      BinaryNone(code, pc, mid, t, stack, e.m, x, y, q, v);
    }
  }

  lemma StartedLacks(stack: seq<InFlight>, op: Opcode, x: Option<u64>)
    requires AllLack(stack) && Expected(op) >= 2
    ensures AllLack(Started(stack, op, [])) && (x.Some? ==> AllLack(Started(stack, op, [x.value])))
  {
    PushLacks(stack, op, []);
    if x.Some? {
      PushLacks(stack, op, [x.value]);
    }
  }

  lemma PushLacks(stack: seq<InFlight>, op: Opcode, args: seq<u64>)
    requires AllLack(stack) && |args| < Expected(op)
    ensures AllLack(Started(stack, op, args))
  {
    var s := Started(stack, op, args);
    assert s[..|s| - 1] == stack;
  }

  /** An operation just started comes to `q` with its two arguments, if there are such. */
  ghost predicate Gathered(code: seq<u8>, pc: nat, stack: seq<InFlight>, op: Opcode, q: nat, x: Option<u64>,
                           y: Option<u64>)
  {
    forall i {:trigger At(i)} :: At(i) && i == RUN ==>
      if x.None? || y.None? then Crashes(code, pc, Started(stack, op, []))
      else Leads(code, pc, Started(stack, op, []), q, Started(stack, op, [x.value, y.value]))
  }

  lemma BothOperands(code: seq<u8>, pc: nat, mid: nat, q: nat, stack: seq<InFlight>, op: Opcode, x: Option<u64>,
                     y: Option<u64>)
    requires x.Some? && Runs(code, pc, Started(stack, op, []), mid, x)
             && Runs(code, mid, Started(stack, op, [x.value]), q, y)
    ensures Gathered(code, pc, stack, op, q, x, y)
  {
    assert At(RUN);
    var s0, s1 := Started(stack, op, []), Started(stack, op, [x.value]);
    PushTop(stack, op, [], x.value);
    assert [] + [x.value] == [x.value];
    if y.Some? {
      PushTop(stack, op, [x.value], y.value);
      assert [x.value] + [y.value] == [x.value, y.value];
      LeadsOn(code, pc, s0, mid, s1, q, Push(s1, y.value));
    } else {
      LeadsOn(code, pc, s0, mid, s1, mid, []);
    }
  }

  lemma NoOperand(code: seq<u8>, pc: nat, mid: nat, q: nat, stack: seq<InFlight>, op: Opcode, x: Option<u64>,
                  y: Option<u64>)
    requires x.None? && Runs(code, pc, Started(stack, op, []), mid, x)
    ensures Gathered(code, pc, stack, op, q, x, y)
  {
    assert At(RUN);
  }

  ghost predicate IsBinaryValue(v: Option<u64>, m: MathOp, x: Option<u64>, y: Option<u64>) {
    forall i {:trigger At(i)} :: At(i) && i == RUN ==> v == BinaryValue(m, x, y)
  }

  /** From the operands of a Binary to its result. */
  lemma FinishBinary(code: seq<u8>, pc: nat, stack: seq<InFlight>, m: MathOp, x: Option<u64>, y: Option<u64>,
                     q: nat, end: nat, v: Option<u64>)
    requires stack != [] && AllLack(stack) && q < |code| && code[q] == 0x00 && end == q + 1 && IsBinaryValue(v, m, x, y)
    requires Leads(code, pc, stack, pc + 1, Started(stack, Math(m), []))
    requires Gathered(code, pc + 1, stack, Math(m), q, x, y)
    ensures Runs(code, pc, stack, end, v)
  {
    assert At(RUN);
    var s0 := Started(stack, Math(m), []);
    if x.None? || y.None? {
      LeadsOn(code, pc, stack, pc + 1, s0, q, []);
    } else {
      var s2 := Started(stack, Math(m), [x.value, y.value]);
      MathLeads(code, q, stack, m, x.value, y.value);
      LeadsOn(code, pc, stack, pc + 1, s0, q, s2);
      if m == Mod && y.value == 0 {
        LeadsOn(code, pc, stack, q, s2, q, []);
      } else {
        LeadsOn(code, pc, stack, q, s2, q + 1, Push(stack, MathResult(m, x.value, y.value)));
      }
    }
  }

  lemma BinaryBoth(code: seq<u8>, pc: nat, mid: nat, q: nat, stack: seq<InFlight>, m: MathOp, x: Option<u64>,
                   y: Option<u64>, end: nat, v: Option<u64>)
    requires stack != [] && AllLack(stack) && q < |code| && code[q] == 0x00 && end == q + 1 && IsBinaryValue(v, m, x, y)
    requires Leads(code, pc, stack, pc + 1, Started(stack, Math(m), []))
    requires x.Some? && Runs(code, pc + 1, Started(stack, Math(m), []), mid, x)
    requires Runs(code, mid, Started(stack, Math(m), [x.value]), q, y)
    ensures Runs(code, pc, stack, end, v)
  {
    BothOperands(code, pc + 1, mid, q, stack, Math(m), x, y);
    FinishBinary(code, pc, stack, m, x, y, q, end, v);
  }

  lemma BinaryNone(code: seq<u8>, pc: nat, mid: nat, q: nat, stack: seq<InFlight>, m: MathOp, x: Option<u64>,
                   y: Option<u64>, end: nat, v: Option<u64>)
    requires stack != [] && AllLack(stack) && q < |code| && code[q] == 0x00 && end == q + 1 && IsBinaryValue(v, m, x, y)
    requires Leads(code, pc, stack, pc + 1, Started(stack, Math(m), []))
    requires x.None? && Runs(code, pc + 1, Started(stack, Math(m), []), mid, x)
    ensures Runs(code, pc, stack, end, v)
  {
    NoOperand(code, pc + 1, mid, q, stack, Math(m), x, y);
    FinishBinary(code, pc, stack, m, x, y, q, end, v);
  }

  /** Where the parts of an encoded Binary stand, before its null target. */
  lemma BinaryLayout(code: seq<u8>, pc: nat, stack: seq<InFlight>, e: Expr, q: nat, v: Option<u64>)
    returns (mid: nat, t: nat, x: Option<u64>, y: Option<u64>)
    requires e.Binary? && Here(code, pc, e, q, v) && AllLack(stack)
    ensures Leads(code, pc, stack, pc + 1, Started(stack, Math(e.m), []))
    ensures Here(code, pc + 1, e.left, mid, x) && Here(code, mid, e.right, t, y)
    ensures t < |code| && code[t] == 0x00 && q == t + 1
    ensures IsBinaryValue(v, e.m, x, y)
  {
    assert At(TEXT);
    x, y := Eval(e.left), Eval(e.right);
    SplitBinary(code, pc, e.m, Encode(e.left), Encode(e.right));
    mid := pc + 1 + |Encode(e.left)|;
    t := mid + |Encode(e.right)|;
    StartMath(code, pc, stack, e.m);
  }

  lemma SplitBinary(code: seq<u8>, pc: nat, m: MathOp, l: seq<u8>, r: seq<u8>)
    requires pc <= |code| && [MathByte(m)] + (l + (r + [0x00])) <= code[pc..]
    ensures pc < |code| && code[pc] == MathByte(m) && l <= code[pc + 1..]
    ensures pc + 1 + |l| <= |code| && r <= code[pc + 1 + |l|..]
    ensures pc + 1 + |l| + |r| < |code| && code[pc + 1 + |l| + |r|] == 0x00
  {
    After(code, pc, [MathByte(m)], l + (r + [0x00]));
    After(code, pc + 1, l, r + [0x00]);
    After(code, pc + 1 + |l|, r, [0x00]);
    assert code[pc + 1 + |l| + |r|] == code[pc + 1 + |l| + |r|..][0];
  }

  lemma StartMath(code: seq<u8>, pc: nat, stack: seq<InFlight>, m: MathOp)
    requires pc < |code| && code[pc] == MathByte(m) && AllLack(stack)
    ensures Leads(code, pc, stack, pc + 1, Started(stack, Math(m), []))
  {
    assert Fetch(code, pc) == Op(Math(m), pc + 1);
    StepOp(code, pc, stack, Math(m), pc + 1);
  }

  /** The loop goes on from what the completed operations leave. */
  lemma LeadsRetired(code: seq<u8>, pc: nat, s: seq<InFlight>, s': seq<InFlight>)
    ensures Retire(s) == Retire(s') ==> Leads(code, pc, s, pc, s')
    ensures Retire(s) == Crashed ==> Crashes(code, pc, s)
  {
  }

  lemma MathLeads(code: seq<u8>, q: nat, stack: seq<InFlight>, m: MathOp, x: u64, y: u64)
    requires q < |code| && code[q] == 0x00 && stack != [] && AllLack(stack)
    ensures var s := Started(stack, Math(m), [x, y]);
            if m == Mod && y == 0 then Crashes(code, q, s)
            else Leads(code, q, s, q + 1, Push(stack, MathResult(m, x, y)))
  {
    var args := [x, y] + [0];
    PushLacks(stack, Math(m), [x, y]);
    PushTop(stack, Math(m), [x, y], 0);
    RetireMath(stack, m, x, y, args);
    var s, s' := Started(stack, Math(m), [x, y]), Started(stack, Math(m), args);
    StepConst(code, q, s, 0, q + 1);
    if m == Mod && y == 0 {
      LeadsRetired(code, q + 1, s', []);
      LeadsOn(code, q, s, q + 1, s', q, []);
    } else {
      var s'' := Push(stack, MathResult(m, x, y));
      LeadsRetired(code, q + 1, s', s'');
      LeadsOn(code, q, s, q + 1, s', q + 1, s'');
    }
  }

  lemma RetireMath(stack: seq<InFlight>, m: MathOp, x: u64, y: u64, args: seq<u64>)
    requires stack != [] && AllLack(stack) && args == [x, y, 0]
    ensures var s := Started(stack, Math(m), args);
            Retire(s) == if m == Mod && y == 0 then Crashed else Retire(Push(stack, MathResult(m, x, y)))
  {
    var s := Started(stack, Math(m), args);
    assert s[..|s| - 1] == stack;
  }

  lemma {:induction false} CompareRuns(code: seq<u8>, pc: nat, stack: seq<InFlight>, e: Expr, q: nat, v: Option<u64>)
    requires e.Compare? && Here(code, pc, e, q, v) && stack != [] && AllLack(stack)
    ensures Runs(code, pc, stack, q, v)
    decreases e, 0
  {
    var p, mid, x, y := CompareLayout(code, pc, stack, e, q, v);
    StartedLacks(stack, Logic(e.l), x);
    ExprRuns(code, p, Started(stack, Logic(e.l), []), e.left, mid, x);
    if x.Some? {
      ExprRuns(code, mid, Started(stack, Logic(e.l), [x.value]), e.right, q, y);
      CompareBoth(code, pc, p, mid, q, stack, e.l, x, y, v);
    } else {
      CompareNone(code, pc, p, mid, q, stack, e.l, x, y, v);
    }
  }

  ghost predicate IsCompareValue(v: Option<u64>, l: LogicOp, x: Option<u64>, y: Option<u64>) {
    forall i {:trigger At(i)} :: At(i) && i == RUN ==> v == CompareValue(l, x, y)
  }

  /** From the operands of a Compare to its result. */
  lemma FinishCompare(code: seq<u8>, pc: nat, p: nat, stack: seq<InFlight>, l: LogicOp,
                      x: Option<u64>, y: Option<u64>, q: nat, v: Option<u64>)
    requires stack != [] && AllLack(stack) && IsCompareValue(v, l, x, y)
    requires Leads(code, pc, stack, p, Started(stack, Logic(l), []))
    requires Gathered(code, p, stack, Logic(l), q, x, y)
    ensures Runs(code, pc, stack, q, v)
  {
    assert At(RUN);
    var s0 := Started(stack, Logic(l), []);
    if x.None? || y.None? {
      LeadsOn(code, pc, stack, p, s0, q, []);
    } else {
      var s2 := Started(stack, Logic(l), [x.value, y.value]);
      LogicLeads(code, q, stack, l, x.value, y.value);
      LeadsOn(code, pc, stack, p, s0, q, s2);
      LeadsOn(code, pc, stack, q, s2, q, Push(stack, LogicResult(l, x.value, y.value)));
    }
  }

  lemma CompareBoth(code: seq<u8>, pc: nat, p: nat, mid: nat, q: nat, stack: seq<InFlight>, l: LogicOp,
                    x: Option<u64>, y: Option<u64>, v: Option<u64>)
    requires stack != [] && AllLack(stack) && IsCompareValue(v, l, x, y)
    requires Leads(code, pc, stack, p, Started(stack, Logic(l), []))
    requires x.Some? && Runs(code, p, Started(stack, Logic(l), []), mid, x)
    requires Runs(code, mid, Started(stack, Logic(l), [x.value]), q, y)
    ensures Runs(code, pc, stack, q, v)
  {
    BothOperands(code, p, mid, q, stack, Logic(l), x, y);
    FinishCompare(code, pc, p, stack, l, x, y, q, v);
  }

  lemma CompareNone(code: seq<u8>, pc: nat, p: nat, mid: nat, q: nat, stack: seq<InFlight>, l: LogicOp,
                    x: Option<u64>, y: Option<u64>, v: Option<u64>)
    requires stack != [] && AllLack(stack) && IsCompareValue(v, l, x, y)
    requires Leads(code, pc, stack, p, Started(stack, Logic(l), []))
    requires x.None? && Runs(code, p, Started(stack, Logic(l), []), mid, x)
    ensures Runs(code, pc, stack, q, v)
  {
    NoOperand(code, p, mid, q, stack, Logic(l), x, y);
    FinishCompare(code, pc, p, stack, l, x, y, q, v);
  }

  lemma CompareLayout(code: seq<u8>, pc: nat, stack: seq<InFlight>, e: Expr, q: nat, v: Option<u64>)
    returns (p: nat, mid: nat, x: Option<u64>, y: Option<u64>)
    requires e.Compare? && Here(code, pc, e, q, v) && AllLack(stack)
    ensures Leads(code, pc, stack, p, Started(stack, Logic(e.l), []))
    ensures Here(code, p, e.left, mid, x) && Here(code, mid, e.right, q, y)
    ensures IsCompareValue(v, e.l, x, y)
  {
    assert At(TEXT);
    p := pc + |LogicBytes(e.l)|;
    mid, x, y := p + |Encode(e.left)|, Eval(e.left), Eval(e.right);
    SplitCompare(code, pc, LogicBytes(e.l), Encode(e.left), Encode(e.right));
    StartLogic(code, pc, stack, e.l);
  }

  lemma SplitCompare(code: seq<u8>, pc: nat, o: seq<u8>, l: seq<u8>, r: seq<u8>)
    requires pc <= |code| && o + (l + r) <= code[pc..]
    ensures pc + |o| <= |code| && o <= code[pc..] && l <= code[pc + |o|..]
    ensures pc + |o| + |l| <= |code| && r <= code[pc + |o| + |l|..]
  {
    After(code, pc, o, l + r);
    After(code, pc + |o|, l, r);
  }

  lemma StartLogic(code: seq<u8>, pc: nat, stack: seq<InFlight>, l: LogicOp)
    requires pc <= |code| && LogicBytes(l) <= code[pc..] && AllLack(stack)
    ensures Leads(code, pc, stack, pc + |LogicBytes(l)|, Started(stack, Logic(l), []))
  {
    After(code, pc, LogicBytes(l), []);
    assert Fetch(code, pc) == Op(Logic(l), pc + |LogicBytes(l)|);
    StepOp(code, pc, stack, Logic(l), pc + |LogicBytes(l)|);
  }

  lemma LogicLeads(code: seq<u8>, q: nat, stack: seq<InFlight>, l: LogicOp, x: u64, y: u64)
    requires stack != [] && AllLack(stack)
    ensures Leads(code, q, Started(stack, Logic(l), [x, y]), q, Push(stack, LogicResult(l, x, y)))
  {
    var s, v := Started(stack, Logic(l), [x, y]), LogicResult(l, x, y);
    RetireLogic(stack, l, x, y, v);
    LeadsRetired(code, q, s, Push(stack, v));
  }

  lemma RetireLogic(stack: seq<InFlight>, l: LogicOp, x: u64, y: u64, v: u64)
    requires stack != [] && AllLack(stack) && v == LogicResult(l, x, y)
    ensures Retire(Started(stack, Logic(l), [x, y])) == Retire(Push(stack, v))
  {
    var s := Started(stack, Logic(l), [x, y]);
    assert s[..|s| - 1] == stack;
  }

  /** Running the encoding of `e`, on any stack of operations that wait for arguments, hands
      its value to the operation on top and goes on right behind the encoding; a division by
      zero inside stops the interpreter. */
  lemma ExecExpr(code: seq<u8>, pc: nat, stack: seq<InFlight>, e: Expr, q: nat, v: Option<u64>)
    requires WellFormed(e) && EncodedAt(code, pc, e) && q == pc + |Encode(e)| && v == Eval(e)
    requires stack != [] && AllLack(stack)
    ensures Exec(code, pc, stack) == if v.None? then Panic else Exec(code, q, Push(stack, v.value))
  {
    HereRuns(code, pc, stack, e, q, v);
  }

  lemma HereRuns(code: seq<u8>, pc: nat, stack: seq<InFlight>, e: Expr, q: nat, v: Option<u64>)
    requires Here(code, pc, e, q, v) && stack != [] && AllLack(stack)
    ensures Exec(code, pc, stack) == if v.None? then Panic else Exec(code, q, Push(stack, v.value))
  {
    ExprRuns(code, pc, stack, e, q, v);
    RunsIs(code, pc, stack, q, v);
  }

  lemma RunsIs(code: seq<u8>, pc: nat, s: seq<InFlight>, q: nat, v: Option<u64>)
    requires s != [] && Runs(code, pc, s, q, v)
    ensures Exec(code, pc, s) == if v.None? then Panic else Exec(code, q, Push(s, v.value))
  {
    assert At(RUN) && At(LOOP);
  }

  /** A binary operation that has both operands takes the null target, contributes its result
      to the operation below and is gone; a zero divisor stops the interpreter. */
  lemma ExecMath(code: seq<u8>, q: nat, stack: seq<InFlight>, m: MathOp, x: u64, y: u64)
    requires q < |code| && code[q] == 0x00 && stack != [] && AllLack(stack)
    ensures Exec(code, q, Started(stack, Math(m), [x, y])) ==
            if m == Mod && y == 0 then Panic else Exec(code, q + 1, Push(stack, MathResult(m, x, y)))
  {
    MathLeads(code, q, stack, m, x, y);
    assert At(LOOP);
  }

  /** A logical operation that has both operands contributes its result and is gone. */
  lemma ExecLogic(code: seq<u8>, q: nat, stack: seq<InFlight>, l: LogicOp, x: u64, y: u64)
    requires stack != [] && AllLack(stack)
    ensures Exec(code, q, Started(stack, Logic(l), [x, y])) == Exec(code, q, Push(stack, LogicResult(l, x, y)))
  {
    LogicLeads(code, q, stack, l, x, y);
    assert At(LOOP);
  }

  /** For every expression and whatever code follows it, executing `Return e` yields what
      the recursive evaluator yields, with the program counter right behind the encoding. */
  lemma ReturnCorrect(e: Expr, rest: seq<u8>)
    requires WellFormed(e)
    ensures Exec([0xa4] + Encode(e) + rest, 0, []) ==
            if Eval(e).None? then Panic else Returned(Eval(e).value, 1 + |Encode(e)|)
  {
    var code := [0xa4] + Encode(e) + rest;
    assert code[1..] == Encode(e) + rest;
    ReturnRuns(code, e, 1 + |Encode(e)|, Eval(e));
  }

  lemma ReturnRuns(code: seq<u8>, e: Expr, q: nat, v: Option<u64>)
    requires code != [] && code[0] == 0xa4 && Here(code, 1, e, q, v)
    ensures Exec(code, 0, []) == if v.None? then Panic else Returned(v.value, q)
  {
    StartReturn(code);
    ExprRuns(code, 1, Started([], Return, []), e, q, v);
    Returns(code, q, v);
  }

  lemma StartReturn(code: seq<u8>)
    requires code != [] && code[0] == 0xa4
    ensures Leads(code, 0, [], 1, Started([], Return, [])) && AllLack(Started([], Return, []))
  {
    StepOp(code, 0, [], Return, 1);
    PushLacks([], Return, []);
  }

  lemma Returns(code: seq<u8>, q: nat, v: Option<u64>)
    requires Leads(code, 0, [], 1, Started([], Return, [])) && Runs(code, 1, Started([], Return, []), q, v)
    ensures Exec(code, 0, []) == if v.None? then Panic else Returned(v.value, q)
  {
    assert At(RUN);
    if v.Some? {
      PushTop([], Return, [], v.value);
      CompleteReturn(code, q, v.value);
    }
    assert At(LOOP);
  }

  lemma CompleteReturn(code: seq<u8>, q: nat, v: u64)
    ensures Exec(code, q, Started([], Return, [] + [v])) == Returned(v, q)
  {
  }

  /** How a run ends that cannot go on: the code is over, a constant is cut off, or there is
      no operation for a constant. */
  lemma ExecEnds(code: seq<u8>, pc: nat, stack: seq<InFlight>)
    requires AllLack(stack)
    ensures pc >= |code| ==> Exec(code, pc, stack) == Uninitialized
    ensures pc < |code| && code[pc] == 0x0a && |code| - pc < 2 ==> Exec(code, pc, stack) == RunOutOfStream
    ensures pc < |code| && code[pc] == 0x0b && |code| - pc < 3 ==> Exec(code, pc, stack) == RunOutOfStream
    ensures pc < |code| && code[pc] == 0x0c && |code| - pc < 5 ==> Exec(code, pc, stack) == RunOutOfStream
    ensures pc < |code| && code[pc] == 0x0e && |code| - pc < 9 ==> Exec(code, pc, stack) == RunOutOfStream
    ensures pc < |code| && code[pc] in {0x00, 0x01, 0xff} && stack == [] ==> Exec(code, pc, stack) == NoCurrentOp
  {
  }

  // ---------------------------------------------------------------- from bytes to values

  /** The code `Return op left right`, with what follows the operands. */
  function ReturnOf(op: seq<u8>, left: Expr, right: Expr, tail: seq<u8>): seq<u8> {
    [0xa4] + (op + (Encode(left) + (Encode(right) + tail)))
  }

  lemma BinaryReturns(m: MathOp, b: u8, left: Expr, right: Expr, x: u64, y: u64, rest: seq<u8>)
    requires WellFormed(left) && WellFormed(right) && Eval(left) == Some(x) && Eval(right) == Some(y)
    requires b == MathByte(m)
    ensures Exec(ReturnOf([b], left, right, [0x00] + rest), 0, []) ==
            if m == Mod && y == 0 then Panic
            else Returned(MathResult(m, x, y), 3 + |Encode(left)| + |Encode(right)|)
  {
    var e := Binary(m, left, right);
    Regroup([0xa4], [b], Encode(left), Encode(right), [0x00], rest);
    assert ReturnOf([b], left, right, [0x00] + rest) == [0xa4] + Encode(e) + rest;
    ReturnCorrect(e, rest);
  }

  lemma CompareReturns(l: LogicOp, b: seq<u8>, left: Expr, right: Expr, x: u64, y: u64, rest: seq<u8>)
    requires WellFormed(left) && WellFormed(right) && Eval(left) == Some(x) && Eval(right) == Some(y)
    requires b == LogicBytes(l)
    ensures Exec(ReturnOf(b, left, right, rest), 0, []) ==
            Returned(LogicResult(l, x, y), 1 + |b| + |Encode(left)| + |Encode(right)|)
  {
    var e := Compare(l, left, right);
    ReturnCorrect(e, rest);
    Regroup([0xa4], b, Encode(left), Encode(right), [], rest);
    assert Encode(right) + [] == Encode(right) && [] + rest == rest;
  }

  lemma Regroup(a: seq<u8>, b: seq<u8>, c: seq<u8>, d: seq<u8>, e: seq<u8>, f: seq<u8>)
    ensures a + (b + (c + (d + e))) + f == a + (b + (c + (d + (e + f))))
  {
    var g := d + e;
    assert g + f == d + (e + f);
    var h := c + g;
    assert h + f == c + (g + f);
    var k := b + h;
    assert k + f == b + (h + f);
    assert a + k + f == a + (k + f);
  }

  /** The run ended at `q` with the value `v`. */
  predicate Gives(out: Outcome, v: int, q: nat) { out.Returned? && out.value == v && out.pc == q }

  /** The run ended at `q` with a value whose bit `i` is `b`. */
  predicate GivesBit(out: Outcome, i: nat, b: bool, q: nat) { out.Returned? && Bit(out.value, i) == b && out.pc == q }

  /** What each arithmetic operator byte makes of two expressions of any shape. */
  lemma ArithmeticOpcodes(b: u8, left: Expr, right: Expr, x: u64, y: u64, rest: seq<u8>, out: Outcome, q: nat)
    requires WellFormed(left) && WellFormed(right) && Eval(left) == Some(x) && Eval(right) == Some(y)
    requires out == Exec(ReturnOf([b], left, right, [0x00] + rest), 0, []) && q == 3 + |Encode(left)| + |Encode(right)|
    ensures b == 0x72 ==> Gives(out, (x + y) % U64, q)
    ensures b == 0x74 ==> Gives(out, (x - y) % U64, q)
    ensures b == 0x77 ==> Gives(out, (x * y) % U64, q)
    ensures b == 0x79 ==> Gives(out, (x * Pow2(y % 64)) % U64, q)
    ensures b == 0x7a ==> Gives(out, x / Pow2(y % 64), q)
    ensures b == 0x85 ==> if y == 0 then out == Panic else Gives(out, x % y, q)
  {
    match b
    case 0x72 => MathReturns(Add, b, left, right, x, y, rest, 0);
    case 0x74 => MathReturns(Subtract, b, left, right, x, y, rest, 0);
    case 0x77 => MathReturns(Multiply, b, left, right, x, y, rest, 0);
    case 0x79 => MathReturns(ShiftLeft, b, left, right, x, y, rest, 0);
    case 0x7a => MathReturns(ShiftRight, b, left, right, x, y, rest, 0);
    case 0x85 => MathReturns(Mod, b, left, right, x, y, rest, 0);
    case _ =>
  }

  /** What each bitwise operator byte makes of two expressions of any shape. */
  lemma BitwiseOpcodes(b: u8, left: Expr, right: Expr, x: u64, y: u64, rest: seq<u8>, i: nat, out: Outcome, q: nat)
    requires WellFormed(left) && WellFormed(right) && Eval(left) == Some(x) && Eval(right) == Some(y) && i < 64
    requires out == Exec(ReturnOf([b], left, right, [0x00] + rest), 0, []) && q == 3 + |Encode(left)| + |Encode(right)|
    ensures b == 0x7b ==> GivesBit(out, i, Bit(x, i) && Bit(y, i), q)
    ensures b == 0x7c ==> GivesBit(out, i, !(Bit(x, i) && Bit(y, i)), q)
    ensures b == 0x7d ==> GivesBit(out, i, Bit(x, i) || Bit(y, i), q)
    ensures b == 0x7e ==> GivesBit(out, i, !(Bit(x, i) || Bit(y, i)), q)
    ensures b == 0x7f ==> GivesBit(out, i, Bit(x, i) != Bit(y, i), q)
  {
    match b
    case 0x7b => MathReturns(And, b, left, right, x, y, rest, i);
    case 0x7c => MathReturns(Nand, b, left, right, x, y, rest, i);
    case 0x7d => MathReturns(Or, b, left, right, x, y, rest, i);
    case 0x7e => MathReturns(Nor, b, left, right, x, y, rest, i);
    case 0x7f => MathReturns(Xor, b, left, right, x, y, rest, i);
    case _ =>
  }

  lemma MathReturns(m: MathOp, b: u8, left: Expr, right: Expr, x: u64, y: u64, rest: seq<u8>, i: nat)
    requires WellFormed(left) && WellFormed(right) && Eval(left) == Some(x) && Eval(right) == Some(y) && i < 64
    requires b == MathByte(m)
    ensures var out, q := Exec(ReturnOf([b], left, right, [0x00] + rest), 0, []), 3 + |Encode(left)| + |Encode(right)|;
            if m == Mod && y == 0 then out == Panic else Means(m, x, y, i, out, q)
  {
    BinaryReturns(m, b, left, right, x, y, rest);
    if m != Mod || y > 0 {
      MathMeaning(m, x, y, i);
    }
  }

  /** The outcome is what the operator means. */
  ghost predicate Means(m: MathOp, x: u64, y: u64, i: nat, out: Outcome, q: nat)
    requires m == Mod ==> y != 0
  {
    match m
    case Add => Gives(out, (x + y) % U64, q)
    case Subtract => Gives(out, (x - y) % U64, q)
    case Multiply => Gives(out, (x * y) % U64, q)
    case ShiftLeft => Gives(out, (x * Pow2(y % 64)) % U64, q)
    case ShiftRight => Gives(out, x / Pow2(y % 64), q)
    case Mod => Gives(out, x % y, q)
    case Nand => GivesBit(out, i, !(Bit(x, i) && Bit(y, i)), q)
    case And => GivesBit(out, i, Bit(x, i) && Bit(y, i), q)
    case Or => GivesBit(out, i, Bit(x, i) || Bit(y, i), q)
    case Nor => GivesBit(out, i, !(Bit(x, i) || Bit(y, i)), q)
    case Xor => GivesBit(out, i, Bit(x, i) != Bit(y, i), q)
  }

  /** The same for the comparison bytes. */
  lemma LogicOpcodes(b: u8, left: Expr, right: Expr, x: u64, y: u64, rest: seq<u8>, out: Outcome, q: nat)
    requires WellFormed(left) && WellFormed(right) && Eval(left) == Some(x) && Eval(right) == Some(y)
    requires out == Exec(ReturnOf([b], left, right, rest), 0, []) && q == 2 + |Encode(left)| + |Encode(right)|
    ensures b == 0x90 ==> Gives(out, if x == 0 || y == 0 then 0 else ALL_ONES, q)
    ensures b == 0x91 ==> Gives(out, if x == 0 && y == 0 then 0 else ALL_ONES, q)
    ensures b == 0x93 ==> Gives(out, if x == y then ALL_ONES else 0, q)
    ensures b == 0x94 ==> Gives(out, if x <= y then 0 else ALL_ONES, q)
    ensures b == 0x95 ==> Gives(out, if y <= x then 0 else ALL_ONES, q)
  {
    match b
    case 0x90 => LogicReturns(LAnd, [b], left, right, x, y, rest);
    case 0x91 => LogicReturns(LOr, [b], left, right, x, y, rest);
    case 0x93 => LogicReturns(LEqual, [b], left, right, x, y, rest);
    case 0x94 => LogicReturns(LGreater, [b], left, right, x, y, rest);
    case 0x95 => LogicReturns(LLess, [b], left, right, x, y, rest);
    case _ =>
  }

  /** And for those that follow the byte of LNot, which are the complements. */
  lemma NegatedOpcodes(b: u8, left: Expr, right: Expr, x: u64, y: u64, rest: seq<u8>, out: Outcome, q: nat)
    requires WellFormed(left) && WellFormed(right) && Eval(left) == Some(x) && Eval(right) == Some(y)
    requires out == Exec(ReturnOf([0x92, b], left, right, rest), 0, []) && q == 3 + |Encode(left)| + |Encode(right)|
    ensures b == 0x93 ==> Gives(out, if x == y then 0 else ALL_ONES, q)
    ensures b == 0x94 ==> Gives(out, if x <= y then ALL_ONES else 0, q)
    ensures b == 0x95 ==> Gives(out, if y <= x then ALL_ONES else 0, q)
  {
    match b
    case 0x93 => LogicReturns(LNotEqual, [0x92, b], left, right, x, y, rest);
    case 0x94 => LogicReturns(LLessEqual, [0x92, b], left, right, x, y, rest);
    case 0x95 => LogicReturns(LGreaterEqual, [0x92, b], left, right, x, y, rest);
    case _ =>
  }

  lemma LogicReturns(l: LogicOp, b: seq<u8>, left: Expr, right: Expr, x: u64, y: u64, rest: seq<u8>)
    requires WellFormed(left) && WellFormed(right) && Eval(left) == Some(x) && Eval(right) == Some(y)
    requires b == LogicBytes(l)
    ensures var out, q := Exec(ReturnOf(b, left, right, rest), 0, []), 1 + |b| + |Encode(left)| + |Encode(right)|;
            LogicMeans(l, x, y, out, q)
  {
    CompareReturns(l, b, left, right, x, y, rest);
  }

  /** The outcome is what the comparison means. */
  ghost predicate LogicMeans(l: LogicOp, x: u64, y: u64, out: Outcome, q: nat) {
    match l
    case LAnd => Gives(out, if x == 0 || y == 0 then 0 else ALL_ONES, q)
    case LOr => Gives(out, if x == 0 && y == 0 then 0 else ALL_ONES, q)
    case LEqual => Gives(out, if x == y then ALL_ONES else 0, q)
    case LNotEqual => Gives(out, if x == y then 0 else ALL_ONES, q)
    case LGreater => Gives(out, if x <= y then 0 else ALL_ONES, q)
    case LLessEqual => Gives(out, if x <= y then ALL_ONES else 0, q)
    case LLess => Gives(out, if y <= x then 0 else ALL_ONES, q)
    case LGreaterEqual => Gives(out, if y <= x then ALL_ONES else 0, q)
  }

  lemma ConstReturns(code: seq<u8>, v: u64, q: nat)
    requires code != [] && code[0] == 0xa4 && Fetch(code, 1) == Const(v, q)
    ensures Exec(code, 0, []) == Returned(v, q)
  {
    StartReturn(code);
    StepConst(code, 1, Started([], Return, []), v, q);
    PushTop([], Return, [], v);
    CompleteReturn(code, q, v);
    assert At(LOOP);
  }

  /** What the constant bytes stand for; those of more than one byte are little-endian. */
  lemma ConstOpcodes(b: seq<u8>, rest: seq<u8>)
    ensures Exec([0xa4, 0x00] + rest, 0, []) == Returned(0, 2)
    ensures Exec([0xa4, 0x01] + rest, 0, []) == Returned(1, 2)
    ensures Exec([0xa4, 0xff] + rest, 0, []) == Returned(ALL_ONES, 2)
    ensures |b| == 1 ==> Exec([0xa4, 0x0a] + b + rest, 0, []) == Returned(b[0] as nat, 3)
    ensures |b| == 2 ==> Exec([0xa4, 0x0b] + b + rest, 0, []) == Returned(b[0] as nat + 0x100 * b[1] as nat, 4)
    ensures |b| == 4 ==> Exec([0xa4, 0x0c] + b + rest, 0, []) == Returned(Quad(b, 0), 6)
    ensures |b| == 8 ==> Exec([0xa4, 0x0e] + b + rest, 0, []) == Returned(Quad(b, 0) + 0x1_0000_0000 * Quad(b, 4), 10)
  {
    ConstReturns([0xa4, 0x00] + rest, 0, 2);
    ConstReturns([0xa4, 0x01] + rest, 1, 2);
    ConstReturns([0xa4, 0xff] + rest, ALL_ONES, 2);
    if |b| == 1 {
      WideReturns(0x0a, b, rest);
    } else if |b| == 2 {
      WideReturns(0x0b, b, rest);
      assert FromLe(b[1..]) == b[1] as nat;
    } else if |b| == 4 {
      WideReturns(0x0c, b, rest);
      LeFour(b);
      assert b[4..] == [];
    } else if |b| == 8 {
      WideReturns(0x0e, b, rest);
      LeFour(b);
      LeFour(b[4..]);
      assert b[4..][4..] == [];
    }
  }

  function Quad(b: seq<u8>, i: nat): u64
    requires i + 4 <= |b|
  {
    b[i] as nat + 0x100 * b[i + 1] as nat + 0x1_0000 * b[i + 2] as nat + 0x100_0000 * b[i + 3] as nat
  }

  lemma LeFour(b: seq<u8>)
    requires |b| >= 4
    ensures FromLe(b) == Quad(b, 0) + 0x1_0000_0000 * FromLe(b[4..])
  {
    assert b[1..][1..] == b[2..] && b[2..][1..] == b[3..] && b[3..][1..] == b[4..];
    assert FromLe(b[3..]) == b[3] as nat + 0x100 * FromLe(b[4..]);
    assert FromLe(b[2..]) == b[2] as nat + 0x100 * FromLe(b[3..]);
  }

  lemma WideReturns(op: u8, b: seq<u8>, rest: seq<u8>)
    requires (op == 0x0a && |b| == 1) || (op == 0x0b && |b| == 2)
             || (op == 0x0c && |b| == 4) || (op == 0x0e && |b| == 8)
    ensures FromLe(b) < U64 && Exec([0xa4, op] + b + rest, 0, []) == Returned(FromLe(b), 2 + |b|)
  {
    var code := [0xa4, op] + b + rest;
    assert code[2..2 + |b|] == b;
    LeBound(b);
    ConstReturns(code, FromLe(b), 2 + |b|);
  }
}
