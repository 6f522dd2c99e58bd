/** The toy intermediate representation of `nari-ir/examples/fib.rs`: a hash-consing cache
    of values, a function body kept as a doubly linked list of cached instructions, and the
    register-machine interpreter that runs the counting loop built in the example. */
module FibIr {
  import opened Wrappers

  /** `i64`. */
  type I64 = x: int | -0x8000_0000_0000_0000 <= x < 0x8000_0000_0000_0000

  /** `Type::I64`, the only register type. */
  datatype Type = I64Type

  // ---------------------------------------------------------------------------------------
  // Hash-consing cache

  /** `Cache<T> { map, storage }`: each distinct value is stored once, and `index` gives its
      index in `storage`. */
  class Cache<T(==)> {
    var index: map<T, nat>
    var storage: seq<T>

    /** `index` (the `map` field) and `storage` are inverse to each other. */
    ghost predicate Valid()
      reads this
    {
      (forall v :: v in index ==> index[v] < |storage| && storage[index[v]] == v)
      && (forall i :: 0 <= i < |storage| ==> storage[i] in index && index[storage[i]] == i)
    }

    /** `Cache::default`. */
    constructor()
      ensures Valid() && index == map[] && storage == []
    {
      index := map[];
      storage := [];
    }

    /** `get(idx)`: the value stored at `idx` (an index past the end panics). */
    function Get(idx: nat): T
      reads this
      requires idx < |storage|
    {
      storage[idx]
    }

    /** `insert(val)`: the index of `val`, appending it to `storage` only when it is new. */
    method Insert(val: T) returns (idx: nat)
      requires Valid()
      modifies this
      ensures Valid()
      ensures idx < |storage| && Get(idx) == val
      ensures val in old(index) ==> idx == old(index)[val] && index == old(index) && storage == old(storage)
      ensures val !in old(index) ==>
        idx == |old(storage)| && storage == old(storage) + [val] && index == old(index)[val := idx]
    {
      if val in index {
        return index[val];
      }
      idx := |storage|;
      storage := storage + [val];
      index := index[val := idx];
    }

    /** Every indexed value is stored. */
    lemma IndexedStored()
      requires Valid()
      ensures forall v :: v in index ==> v in storage
    {
      forall v | v in index
        ensures v in storage
      {
        assert storage[index[v]] == v;
      }
    }

    /** No value is stored twice. */
    lemma NoDuplicates()
      requires Valid()
      ensures forall i, j :: 0 <= i < j < |storage| ==> storage[i] != storage[j]
    {
      forall i, j | 0 <= i < j < |storage|
        ensures storage[i] != storage[j]
      {
        assert index[storage[i]] == i && index[storage[j]] == j;
      }
    }
  }

  // ---------------------------------------------------------------------------------------
  // Instructions and function bodies

  /** `Operand`: an `i64` immediate or a register number (`u32`). */
  datatype Operand = ImmI64(i: I64) | Reg(r: nat)

  /** `Instruction`; a `Label` is the index of an entry of the label table. */
  datatype Instruction =
    | MOV(dst: Operand, src: Operand)
    | ADD(dst: Operand, srcLhs: Operand, srcRhs: Operand)
    | BGE(jump: nat, lhs: Operand, rhs: Operand)
    | BLT(jump: nat, lhs: Operand, rhs: Operand)
    | JUMP(target: nat)
    | RET(ret: Operand)

  /** `InstructionList { idx, next, prev }`: a cached instruction and its neighbours. */
  datatype InstructionList = InstructionList(idx: nat, next: Option<nat>, prev: Option<nat>)

  /** `Register { ty, name }`, both cache indices. */
  datatype Register = Register(ty: nat, name: nat)

  /** Entry `i` links back to `i - 1` and forward to `i + 1`, the ends to nothing: the list is
      the chain `0 -> 1 -> ... -> n-1`. */
  predicate Chain(l: seq<InstructionList>)
  {
    forall i :: 0 <= i < |l| ==>
      l[i].next == (if i + 1 < |l| then Some(i + 1) else None)
      && l[i].prev == (if i == 0 then None else Some(i - 1))
  }

  /** `Func { identifier, registers, instructions }`. */
  class Func {
    const identifier: nat
    const registers: seq<Register>
    var instructions: seq<InstructionList>

    constructor(identifier: nat, registers: seq<Register>)
      ensures this.identifier == identifier && this.registers == registers && instructions == []
    {
      this.identifier := identifier;
      this.registers := registers;
      instructions := [];
    }

    /** `append(insn)`: adds `insn` at the end of the list, linking the old last entry to it,
        and returns its position. */
    method Append(insn: nat) returns (id: nat)
      modifies this
      ensures id == |old(instructions)| && |instructions| == id + 1
      ensures instructions[id] == InstructionList(insn, None, if id == 0 then None else Some(id - 1))
      ensures id > 0 ==> instructions[id - 1] == old(instructions[id - 1]).(next := Some(id))
      ensures forall i :: 0 <= i < id - 1 ==> instructions[i] == old(instructions[i])
      ensures Chain(old(instructions)) ==> Chain(instructions)
    {
      if |instructions| == 0 {
        instructions := instructions + [InstructionList(insn, None, None)];
        return 0;
      }
      id := |instructions|;
      var last := id - 1;
      instructions := instructions[last := instructions[last].(next := Some(|instructions|))];
      instructions := instructions + [InstructionList(insn, None, Some(last))];
    }
  }

  // ---------------------------------------------------------------------------------------
  // Interpreter

  /** Why the interpreter panics: a program counter past the list, an instruction index past
      the cache, a register past the stack, an immediate destination, a label past the label
      table, or an `i64` addition that overflows (the checked arithmetic of a debug build). */
  datatype Fault = PcOutOfRange | BadInstruction | BadRegister | ImmediateDst | BadLabel | Overflow

  /** Where the interpreter ends: `RET` with a value, a panic, or still running at `pc` with
      `stack` once the step bound is used up. */
  datatype Outcome = Returned(value: I64) | Panicked(fault: Fault) | Running(pc: nat, stack: seq<I64>)

  /** Operand evaluation: the immediate itself or the register's value. */
  function Eval(op: Operand, stack: seq<I64>): (v: Option<I64>)
    ensures v.None? <==> op.Reg? && op.r >= |stack|
    ensures v.Some? && op.Reg? ==> v.value == stack[op.r]
    ensures v.Some? && op.ImmI64? ==> v.value == op.i
  {
    match op
    case ImmI64(i) => Some(i)
    case Reg(r) => if r < |stack| then Some(stack[r]) else None
  }

  /** The instruction at `pc`: `func.instructions[pc]`, then `instructions.get(idx)`. */
  function Fetch(list: seq<InstructionList>, storage: seq<Instruction>, pc: nat): Option<Instruction>
  {
    if pc < |list| && list[pc].idx < |storage| then Some(storage[list[pc].idx]) else None
  }

  /** The register an instruction writes, if any. */
  predicate Writes(insn: Instruction, k: nat)
  {
    (insn.MOV? || insn.ADD?) && insn.dst == Reg(k)
  }

  /** A jump through label `jump`. */
  function Jump(labels: seq<nat>, jump: nat, stack: seq<I64>): Outcome
  {
    if jump < |labels| then Running(labels[jump], stack) else Panicked(BadLabel)
  }

  /** Stores `v` into the destination operand. */
  function Store(dst: Operand, v: I64, pc: nat, stack: seq<I64>): Outcome
  {
    match dst
    case Reg(r) => if r < |stack| then Running(pc + 1, stack[r := v]) else Panicked(BadRegister)
    case ImmI64(_) => Panicked(ImmediateDst)
  }

  /** One turn of the interpreter loop, as the `match insn` of the example does it. */
  function Step(list: seq<InstructionList>, storage: seq<Instruction>, labels: seq<nat>, pc: nat, stack: seq<I64>): (o: Outcome)
    ensures o.Running? ==> |o.stack| == |stack|
    ensures o.Running? ==> o.pc == pc + 1 || o.pc in labels
    ensures o.Running? ==>
      (Fetch(list, storage, pc).Some?
       && forall k :: 0 <= k < |stack| && !Writes(Fetch(list, storage, pc).value, k) ==> o.stack[k] == stack[k])
    ensures o.Returned? ==> Fetch(list, storage, pc).Some? && Fetch(list, storage, pc).value.RET?
  {
    if pc >= |list| then Panicked(PcOutOfRange)
    else if list[pc].idx >= |storage| then Panicked(BadInstruction)
    else
      match storage[list[pc].idx]
      case MOV(dst, src) =>
        var v := Eval(src, stack);
        if v.None? then Panicked(BadRegister) else Store(dst, v.value, pc, stack)
      case ADD(dst, lhs, rhs) =>
        var a := Eval(lhs, stack);
        var b := Eval(rhs, stack);
        if a.None? || b.None? then Panicked(BadRegister)
        else if !(-0x8000_0000_0000_0000 <= a.value + b.value < 0x8000_0000_0000_0000) then Panicked(Overflow)
        else Store(dst, a.value + b.value, pc, stack)
      case BGE(jump, lhs, rhs) =>
        var a := Eval(lhs, stack);
        var b := Eval(rhs, stack);
        if a.None? || b.None? then Panicked(BadRegister)
        else if a.value >= b.value then Jump(labels, jump, stack)
        else Running(pc + 1, stack)
      case BLT(jump, lhs, rhs) =>
        var a := Eval(lhs, stack);
        var b := Eval(rhs, stack);
        if a.None? || b.None? then Panicked(BadRegister)
        else if a.value < b.value then Jump(labels, jump, stack)
        else Running(pc + 1, stack)
      case JUMP(jump) => Jump(labels, jump, stack)
      case RET(ret) =>
        var v := Eval(ret, stack);
        if v.None? then Panicked(BadRegister) else Returned(v.value)
  }

  /** At most `fuel` turns of the interpreter loop from `pc` and `stack`. */
  function Exec(list: seq<InstructionList>, storage: seq<Instruction>, labels: seq<nat>, pc: nat, stack: seq<I64>, fuel: nat): Outcome
    decreases fuel
  {
    if fuel == 0 then Running(pc, stack)
    else
      match Step(list, storage, labels, pc, stack)
      case Running(pc', stack') => Exec(list, storage, labels, pc', stack', fuel - 1)
      case o => o
  }

  /** The interpreter `loop`, bounded by `fuel` turns: it updates `pc` and the register
      `stack` in place until `RET` or a panic. */
  method Interpret(list: seq<InstructionList>, storage: seq<Instruction>, labels: seq<nat>, stack0: seq<I64>, fuel: nat)
    returns (r: Outcome)
    ensures r == Exec(list, storage, labels, 0, stack0, fuel)
  {
    var pc: nat := 0;
    var stack := stack0;
    var f := fuel;
    while f > 0
      invariant Exec(list, storage, labels, pc, stack, f) == Exec(list, storage, labels, 0, stack0, fuel)
      decreases f
    {
      ghost var step := Step(list, storage, labels, pc, stack);
      if pc >= |list| {
        return Panicked(PcOutOfRange);
      }
      var idx := list[pc].idx;
      if idx >= |storage| {
        return Panicked(BadInstruction);
      }
      match storage[idx] {
        case MOV(dst, src) =>
          var v := Eval(src, stack);
          if v.None? {
            return Panicked(BadRegister);
          }
          if dst.ImmI64? {
            return Panicked(ImmediateDst);
          }
          if dst.r >= |stack| {
            return Panicked(BadRegister);
          }
          stack := stack[dst.r := v.value];
          pc := pc + 1;
        case ADD(dst, lhs, rhs) =>
          var a := Eval(lhs, stack);
          var b := Eval(rhs, stack);
          if a.None? || b.None? {
            return Panicked(BadRegister);
          }
          var sum := (a.value as int) + (b.value as int);
          if !(-0x8000_0000_0000_0000 <= sum < 0x8000_0000_0000_0000) {
            return Panicked(Overflow);
          }
          if dst.ImmI64? {
            return Panicked(ImmediateDst);
          }
          if dst.r >= |stack| {
            return Panicked(BadRegister);
          }
          stack := stack[dst.r := sum];
          pc := pc + 1;
        case BGE(jump, lhs, rhs) =>
          var a := Eval(lhs, stack);
          var b := Eval(rhs, stack);
          if a.None? || b.None? {
            return Panicked(BadRegister);
          }
          if a.value >= b.value {
            if jump >= |labels| {
              return Panicked(BadLabel);
            }
            pc := labels[jump];
          } else {
            pc := pc + 1;
          }
        case BLT(jump, lhs, rhs) =>
          var a := Eval(lhs, stack);
          var b := Eval(rhs, stack);
          if a.None? || b.None? {
            return Panicked(BadRegister);
          }
          if a.value < b.value {
            if jump >= |labels| {
              return Panicked(BadLabel);
            }
            pc := labels[jump];
          } else {
            pc := pc + 1;
          }
        case JUMP(jump) =>
          if jump >= |labels| {
            return Panicked(BadLabel);
          }
          pc := labels[jump];
        case RET(ret) =>
          var v := Eval(ret, stack);
          if v.None? {
            return Panicked(BadRegister);
          }
          return Returned(v.value);
      }
      assert step == Running(pc, stack);
      f := f - 1;
    }
    r := Running(pc, stack);
  }

  // ---------------------------------------------------------------------------------------
  // The counting loop of `main`

  /** Register 0 is `num`, register 1 is `count`; label 0 is `end`, label 1 is `cond`. */
  const Num: nat := 0
  const Count: nat := 1
  const End: nat := 0
  const Cond: nat := 1

  /** The instructions of `main` in the order they are first inserted into the cache:
      `count = 0; while count < num { count += 1 }; return count`. */
  const LoopInstructions: seq<Instruction> := [
    MOV(Reg(Count), ImmI64(0)),
    BGE(End, Reg(Count), Reg(Num)),
    ADD(Reg(Count), Reg(Count), ImmI64(1)),
    JUMP(Cond),
    RET(Reg(Count))
  ]

  /** The function body: entry `i` holds cached instruction `i`, chained in order. */
  const LoopList: seq<InstructionList> := [
    InstructionList(0, Some(1), None),
    InstructionList(1, Some(2), Some(0)),
    InstructionList(2, Some(3), Some(1)),
    InstructionList(3, Some(4), Some(2)),
    InstructionList(4, None, Some(3))
  ]

  /** `labels = [addr_end, addr_cond]`. */
  const LoopLabels: seq<nat> := [4, 1]

  function Max(a: int, b: int): int { if a >= b then a else b }

  /** From the loop test with `count` between 0 and the final count, the loop returns
      `max(num, 0)` within three turns per remaining iteration and two for the exit. */
  lemma {:induction false} LoopFromCond(num: I64, count: I64, fuel: nat)
    requires 0 <= count <= Max(num, 0)
    requires fuel >= 3 * (Max(num, 0) - count) + 2
    ensures Exec(LoopList, LoopInstructions, LoopLabels, 1, [num, count], fuel) == Returned(Max(num, 0))
    decreases Max(num, 0) - count
  {
    var st := [num, count];
    if count >= num {
      assert Step(LoopList, LoopInstructions, LoopLabels, 1, st) == Running(4, st);
      assert Step(LoopList, LoopInstructions, LoopLabels, 4, st) == Returned(count);
      assert Exec(LoopList, LoopInstructions, LoopLabels, 4, st, fuel - 1) == Returned(count);
    } else {
      var st' := [num, count + 1];
      assert Step(LoopList, LoopInstructions, LoopLabels, 1, st) == Running(2, st);
      assert Step(LoopList, LoopInstructions, LoopLabels, 2, st) == Running(3, st');
      assert Step(LoopList, LoopInstructions, LoopLabels, 3, st') == Running(1, st');
      LoopFromCond(num, count + 1, fuel - 3);
      assert Exec(LoopList, LoopInstructions, LoopLabels, 3, st', fuel - 2)
          == Exec(LoopList, LoopInstructions, LoopLabels, 1, st', fuel - 3);
      assert Exec(LoopList, LoopInstructions, LoopLabels, 2, st, fuel - 1)
          == Exec(LoopList, LoopInstructions, LoopLabels, 3, st', fuel - 2);
    }
  }

  /** Started with `num` in register 0 and 0 in register 1, the program returns `count ==
      num` for every non-negative `num` (and 0 for a negative one), after `3 * num + 3` turns. */
  lemma LoopReturnsNum(num: I64, fuel: nat)
    requires fuel >= 3 * Max(num, 0) + 3
    ensures Exec(LoopList, LoopInstructions, LoopLabels, 0, [num, 0], fuel) == Returned(Max(num, 0))
  {
    assert Step(LoopList, LoopInstructions, LoopLabels, 0, [num, 0]) == Running(1, [num, 0]);
    LoopFromCond(num, 0, fuel - 1);
  }

  /** Fewer turns than `3 * num + 3` leave a non-negative `num`'s loop still running. */
  lemma {:induction false} LoopNeedsTurns(num: I64, count: I64, fuel: nat)
    requires 0 <= count <= num
    requires fuel < 3 * (num - count) + 2
    ensures Exec(LoopList, LoopInstructions, LoopLabels, 1, [num, count], fuel).Running?
    decreases fuel
  {
    var st := [num, count];
    if fuel > 0 {
      if count == num {
        assert Step(LoopList, LoopInstructions, LoopLabels, 1, st) == Running(4, st);
        assert Exec(LoopList, LoopInstructions, LoopLabels, 4, st, fuel - 1) == Running(4, st);
      } else {
        var st' := [num, count + 1];
        assert Step(LoopList, LoopInstructions, LoopLabels, 1, st) == Running(2, st);
        if fuel > 1 {
          assert Step(LoopList, LoopInstructions, LoopLabels, 2, st) == Running(3, st');
          if fuel > 2 {
            assert Step(LoopList, LoopInstructions, LoopLabels, 3, st') == Running(1, st');
            LoopNeedsTurns(num, count + 1, fuel - 3);
            assert Exec(LoopList, LoopInstructions, LoopLabels, 3, st', fuel - 2)
                == Exec(LoopList, LoopInstructions, LoopLabels, 1, st', fuel - 3);
          }
          assert Exec(LoopList, LoopInstructions, LoopLabels, 2, st, fuel - 1)
              == Exec(LoopList, LoopInstructions, LoopLabels, 3, st', fuel - 2);
        }
      }
    }
  }

  /** A chain of five entries whose entry `i` holds instruction `i` is the loop's body. */
  lemma ChainOfIndices(l: seq<InstructionList>)
    requires Chain(l) && |l| == 5
    requires forall i :: 0 <= i < |l| ==> l[i].idx == i
    ensures l == LoopList
  {
    assert forall i :: 0 <= i < 5 ==> l[i] == LoopList[i];
  }

  /** `func.append(instructions.insert(insn))` for an instruction not cached yet, while the
      body's entry `i` holds cached instruction `i`. */
  method Emit(func: Func, instructions: Cache<Instruction>, insn: Instruction) returns (addr: nat)
    requires instructions.Valid() && insn !in instructions.storage
    requires Chain(func.instructions) && |func.instructions| == |instructions.storage|
    requires forall i :: 0 <= i < |func.instructions| ==> func.instructions[i].idx == i
    modifies func, instructions
    ensures instructions.Valid() && instructions.storage == old(instructions.storage) + [insn]
    ensures addr == |old(func.instructions)|
    ensures Chain(func.instructions) && |func.instructions| == |instructions.storage|
    ensures forall i :: 0 <= i < |func.instructions| ==> func.instructions[i].idx == i
  {
    instructions.IndexedStored();
    var idx := instructions.Insert(insn);
    addr := func.Append(idx);
  }

  /** The start of `main`: the type and string caches and the empty function `loop` with
      its registers `num` and `count`. */
  method DeclareLoop() returns (func: Func, strings: Cache<string>, types: Cache<Type>)
    ensures fresh(func) && fresh(strings) && fresh(types)
    ensures strings.storage == ["loop", "num", "count"] && types.storage == [I64Type]
    ensures func.identifier == 0 && func.registers == [Register(0, 1), Register(0, 2)]
    ensures func.instructions == []
  {
    strings := new Cache<string>();
    types := new Cache<Type>();
    var tyI64 := types.Insert(I64Type);
    var identifier := strings.Insert("loop");
    assert strings.storage == ["loop"];
    strings.IndexedStored();
    assert "num" != "loop";
    assert "num" !in strings.index;
    var numName := strings.Insert("num");
    assert strings.storage == ["loop", "num"];
    strings.IndexedStored();
    assert "count" != "loop" && "count" != "num";
    assert "count" !in strings.index;
    var countName := strings.Insert("count");
    func := new Func(identifier, [Register(tyI64, numName), Register(tyI64, countName)]);
  }

  /** The instructions `main` appends to `func`, each inserted into the instruction cache,
      and the label table it fills afterwards. */
  method BuildBody(func: Func) returns (instructions: Cache<Instruction>, labels: seq<nat>)
    requires func.instructions == []
    modifies func
    ensures fresh(instructions)
    ensures instructions.Valid() && instructions.storage == LoopInstructions
    ensures func.instructions == LoopList
    ensures labels == LoopLabels
  {
    instructions := new Cache<Instruction>();
    var insn := Emit(func, instructions, LoopInstructions[0]);
    assert instructions.storage == LoopInstructions[..1];
    var addrCond := Emit(func, instructions, LoopInstructions[1]);
    assert instructions.storage == LoopInstructions[..2];
    insn := Emit(func, instructions, LoopInstructions[2]);
    assert instructions.storage == LoopInstructions[..3];
    insn := Emit(func, instructions, LoopInstructions[3]);
    assert instructions.storage == LoopInstructions[..4];
    var addrEnd := Emit(func, instructions, LoopInstructions[4]);
    assert instructions.storage == LoopInstructions;
    ChainOfIndices(func.instructions);
    labels := [addrEnd, addrCond];
  }

  /** `main`: builds the loop and runs it with `num = 5`; it returns `count == 5`. */
  method RunLoop() returns (r: Outcome)
    ensures r == Returned(5)
  {
    var func, strings, types := DeclareLoop();
    var instructions, labels := BuildBody(func);
    var stack: seq<I64> := seq(|func.registers|, _ => 0);
    stack := stack[Num := 5];
    r := Interpret(func.instructions, instructions.storage, labels, stack, 3 * 5 + 3);
    assert stack == [5, 0];
    LoopReturnsNum(5, 18);
  }
}
