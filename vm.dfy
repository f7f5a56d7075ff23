/**
 * The bytecode virtual machine (src/vm.rs): a bounded operand stack, a
 * bounded stack of call frames, a table of globals, and the handlers that
 * `Task::run` dispatches each opcode to. A handler reads its operands from
 * the current frame's instruction stream and updates that state in place;
 * what it does is stated as a predicate over the state before and after.
 *
 * Objects are values here: the VM only needs to know whether a value is a
 * string, a function, a closure over a function or a native function. Panics
 * of the Rust code (an index out of bounds, a `usize` subtraction below zero)
 * are returned as the error `Panicked`; after one the process aborts, so the
 * contracts promise nothing more about the state on that path.
 */
module Vm {
  import opened Results
  import Opcodes
  import Objects

  type byte = Opcodes.byte

  /** An unsigned 16-bit integer, the operand of the jump instructions. */
  newtype u16 = x: int | 0 <= x < 65536

  /** `VM_STACK_SIZE`: the most values the operand stack holds. */
  const StackSize: nat := 256

  /** `VM_FRAMES_MAX`: the most call frames that can be live. */
  const FramesMax: nat := 64

  /** The errors of value.rs that the VM passes on. */
  datatype ValueError =
    | InvalidUse(reason: string)
    /** The failure of `Value::as_object`. */
    | NotObject

  /** `RuntimeError`, plus `Panicked` for the paths on which the Rust code panics. */
  datatype RuntimeError =
    | InvalidOpcode(b: byte)
    | ValueErr(valueError: ValueError)
    | ObjectErr(objectError: Objects.ObjectError)
    | StackOverflow
    | StackExhausted
    | UndefinedVariable(name: string)
    | BadArgumentsCount(arity: byte, argc: byte)
    | Panicked

  /** A runtime value; numbers are left abstract. */
  datatype Value = Nil | Bool(b: bool) | Number(n: real) | Object(obj: Obj)

  /** The heap objects the VM looks into. */
  datatype Obj =
    | StringObj(chars: string)
    | FunObj(fun: Fun)
    /** A closure holds the object it was made from, which is a function if the bytecode is well formed. */
    | ClosureObj(callee: Obj)
    | NativeFunObj(arity: byte)

  /** A function: its arity and its chunk of instructions and constants. */
  datatype Fun = Fun(name: Option<string>, arity: byte, instructions: seq<byte>, constants: seq<Value>)

  /** Lox truthiness: `nil` and `false` are falsey, every other value is truthy. */
  predicate IsFalsey(v: Value) {
    v.Nil? || v == Bool(false)
  }

  predicate IsTruthy(v: Value) {
    !IsFalsey(v)
  }

  /** `JumpDirection`. */
  datatype JumpDirection = Forward | Backward

  /** The operators of value.rs, which are not part of this model. */
  datatype ValueOps = ValueOps(
    gt: (Value, Value) -> Result<Value, ValueError>,
    ge: (Value, Value) -> Result<Value, ValueError>,
    lt: (Value, Value) -> Result<Value, ValueError>,
    le: (Value, Value) -> Result<Value, ValueError>,
    add: (Value, Value) -> Result<Value, ValueError>,
    sub: (Value, Value) -> Result<Value, ValueError>,
    mul: (Value, Value) -> Result<Value, ValueError>,
    div: (Value, Value) -> Result<Value, ValueError>,
    not: Value -> Value,
    neg: Value -> Result<Value, ValueError>)

  /**
   * A call frame: the function being run (the fun of the frame's closure),
   * the index of its next instruction and the stack index of its slot 0.
   */
  datatype CallFrame = CallFrame(fun: Fun, ip: nat, slot: nat) {

    /** `CallFrame::read_byte`: the byte at `ip`, and the frame with `ip` advanced by one. */
    function ReadByte(): (r: Result<(byte, CallFrame), RuntimeError>)
      ensures r.Ok? <==> ip < |fun.instructions|
      ensures r.Ok? ==> r.value.0 == fun.instructions[ip] && r.value.1 == this.(ip := ip + 1)
      ensures r.Err? ==> r.error == Panicked
    {
      if ip < |fun.instructions| then Ok((fun.instructions[ip], this.(ip := ip + 1))) else Err(Panicked)
    }

    /**
     * `CallFrame::read_short`: the big-endian 16-bit number in the two bytes
     * at `ip`, and the frame with `ip` advanced by two.
     */
    function ReadShort(): (r: Result<(u16, CallFrame), RuntimeError>)
      ensures r.Ok? <==> ip + 1 < |fun.instructions|
      ensures r.Ok? ==>
        && r.value.0 as int == fun.instructions[ip] as int * 256 + fun.instructions[ip + 1] as int
        && r.value.1 == this.(ip := ip + 2)
      ensures r.Err? ==> r.error == Panicked
    {
      if ip + 1 < |fun.instructions| then
        var hi := fun.instructions[ip] as int;
        var lo := fun.instructions[ip + 1] as int;
        Ok(((hi * 256 + lo) as u16, this.(ip := ip + 2)))
      else
        Err(Panicked)
    }

    /**
     * `CallFrame::read_constant`: reads a byte and returns the constant it
     * indexes; a byte past the constant table panics after `ip` has moved.
     */
    function ReadConstant(): (r: Result<(Value, CallFrame), RuntimeError>)
      ensures r.Ok? <==> ip < |fun.instructions| && (fun.instructions[ip] as int) < |fun.constants|
      ensures r.Ok? ==> r.value == (fun.constants[fun.instructions[ip]], this.(ip := ip + 1))
      ensures r.Err? ==> r.error == Panicked
    {
      var read :- ReadByte();
      if (read.0 as int) < |fun.constants| then Ok((fun.constants[read.0], read.1)) else Err(Panicked)
    }
  }

  /** Reading a short is reading two bytes, high byte first. */
  lemma ReadShortIsTwoReads(f: CallFrame)
    ensures f.ReadShort().Ok? <==> f.ReadByte().Ok? && f.ReadByte().value.1.ReadByte().Ok?
    ensures f.ReadShort().Ok? ==>
      var (hi, f1) := f.ReadByte().value;
      var (lo, f2) := f1.ReadByte().value;
      f.ReadShort().value.0 as int == hi as int * 256 + lo as int && f.ReadShort().value.1 == f2
  {
  }

  /** The name a global instruction's constant stands for: it must be a string object. */
  function GlobalName(c: Value): (r: Result<string, RuntimeError>)
    ensures r.Ok? <==> c.Object? && c.obj.StringObj?
    ensures r.Ok? ==> r.value == c.obj.chars
    ensures !c.Object? ==> r == Err(ValueErr(NotObject))
    ensures c.Object? && !c.obj.StringObj? ==> r == Err(ObjectErr(Objects.InvalidCast))
  {
    if !c.Object? then Err(ValueErr(NotObject))
    else if !c.obj.StringObj? then Err(ObjectErr(Objects.InvalidCast))
    else Ok(c.obj.chars)
  }

  /**
   * The result `add` computes: two strings are concatenated into a new string,
   * two other objects are an error, anything else is value.rs's addition.
   */
  function AddValues(lhs: Value, rhs: Value, add: (Value, Value) -> Result<Value, ValueError>): (r: Result<Value, RuntimeError>)
    ensures lhs.Object? && rhs.Object? && lhs.obj.StringObj? && rhs.obj.StringObj? ==>
      r == Ok(Object(StringObj(lhs.obj.chars + rhs.obj.chars)))
    ensures lhs.Object? && rhs.Object? && !(lhs.obj.StringObj? && rhs.obj.StringObj?) ==>
      r == Err(ValueErr(InvalidUse("Operands must be two numbers or two strings.")))
    ensures !(lhs.Object? && rhs.Object?) ==>
      r == (if add(lhs, rhs).Ok? then Ok(add(lhs, rhs).value) else Err(ValueErr(add(lhs, rhs).error)))
  {
    if lhs.Object? && rhs.Object? then
      if lhs.obj.StringObj? && rhs.obj.StringObj? then Ok(Object(StringObj(lhs.obj.chars + rhs.obj.chars)))
      else Err(ValueErr(InvalidUse("Operands must be two numbers or two strings.")))
    else
      match add(lhs, rhs)
      case Ok(v) => Ok(v)
      case Err(e) => Err(ValueErr(e))
  }

  /** What `call_closure` does to the frames, given the stack and frames it starts from. */
  ghost predicate CalledClosure(fun: Fun, argc: byte, stack0: seq<Value>,
                                frames0: seq<CallFrame>, frames1: seq<CallFrame>, r: Result<(), RuntimeError>)
  {
    if argc != fun.arity then r == Err(BadArgumentsCount(fun.arity, argc)) && frames1 == frames0
    else if argc as int + 1 > |stack0| then r == Err(Panicked)
    else if |frames0| == FramesMax then r == Err(StackOverflow) && frames1 == frames0
    else r == Ok(()) && frames1 == frames0 + [CallFrame(fun, 0, |stack0| - argc as int - 1)]
  }

  /**
   * What `call_native` does to the stack: the callee and its arguments are
   * replaced by what the native function returns for the arguments.
   */
  ghost predicate CalledNative(arity: byte, argc: byte, native: seq<Value> -> Value,
                               stack0: seq<Value>, stack1: seq<Value>, r: Result<(), RuntimeError>)
  {
    if argc != arity then r == Err(BadArgumentsCount(arity, argc)) && stack1 == stack0
    else if argc as int + 1 > |stack0| then r == Err(Panicked)
    else
      && r == Ok(())
      && stack1 == stack0[..|stack0| - argc as int - 1] + [native(stack0[|stack0| - argc as int..])]
  }

  /** What calling `callee` does, for each kind of callee. */
  ghost predicate Called(callee: Value, argc: byte, native: seq<Value> -> Value,
                         stack0: seq<Value>, frames0: seq<CallFrame>,
                         stack1: seq<Value>, frames1: seq<CallFrame>, r: Result<(), RuntimeError>)
  {
    if callee.Object? && callee.obj.ClosureObj? then
      stack1 == stack0 &&
      if callee.obj.callee.FunObj? then CalledClosure(callee.obj.callee.fun, argc, stack0, frames0, frames1, r)
      else r == Err(ObjectErr(Objects.InvalidCast)) && frames1 == frames0
    else if callee.Object? && callee.obj.NativeFunObj? then
      frames1 == frames0 && CalledNative(callee.obj.arity, argc, native, stack0, stack1, r)
    else
      && r == Err(ValueErr(InvalidUse("Can only call functions and classes.")))
      && stack1 == stack0 && frames1 == frames0
  }

  /** The NE operator: `!=` on values. */
  function NotEqual(lhs: Value, rhs: Value): Result<Value, ValueError> {
    Ok(Bool(lhs != rhs))
  }

  /** The EQ operator: `==` on values. */
  function Equal(lhs: Value, rhs: Value): Result<Value, ValueError> {
    Ok(Bool(lhs == rhs))
  }

  /** The NOT operator, which cannot fail. */
  function NotOp(ops: ValueOps): Value -> Result<Value, ValueError> {
    v => Ok(ops.not(v))
  }

  /** A handler's outcome as `Step` reports it: `Ok(())` becomes "not finished yet". */
  function Discard(r: Result<bool, RuntimeError>): Result<(), RuntimeError> {
    if r.Ok? then Ok(()) else Err(r.error)
  }

  // ---------------------------------------------------------------------
  // The state of the machine and what each instruction does to it.

  /** The fields of a `VirtualMachine`, as a value. */
  datatype State = State(stack: seq<Value>, frames: seq<CallFrame>, globals: map<string, Value>) {

    /** What `read_byte` would read from the current frame, and the frame after it. */
    function NextByte(): Result<(byte, CallFrame), RuntimeError> {
      if frames == [] then Err(StackExhausted) else frames[|frames| - 1].ReadByte()
    }

    function NextShort(): Result<(u16, CallFrame), RuntimeError> {
      if frames == [] then Err(StackExhausted) else frames[|frames| - 1].ReadShort()
    }

    function NextConstant(): Result<(Value, CallFrame), RuntimeError> {
      if frames == [] then Err(StackExhausted) else frames[|frames| - 1].ReadConstant()
    }

    /** The state with the current frame replaced by `f`. */
    function WithTop(f: CallFrame): State
      requires frames != []
    {
      this.(frames := frames[|frames| - 1 := f])
    }
  }

  /** A failed operand read changes nothing. */
  ghost predicate ReadFailed(e: RuntimeError, s: State, t: State, r: Result<(), RuntimeError>) {
    r == Err(e) && t == s
  }

  /** `stack_push` of `v` as an instruction: nothing but the stack changes. */
  ghost predicate PushSpec(v: Value, s: State, t: State, r: Result<(), RuntimeError>) {
    && t.frames == s.frames && t.globals == s.globals
    && if |s.stack| == StackSize then r == Err(StackOverflow) && t.stack == s.stack
       else r == Ok(()) && t.stack == s.stack + [v]
  }

  /** `stack_pop` as an instruction (`Pop`, `Print`): nothing but the stack changes. */
  ghost predicate PopSpec(s: State, t: State, r: Result<(), RuntimeError>) {
    && t.frames == s.frames && t.globals == s.globals
    && if s.stack == [] then r == Err(StackExhausted) && t.stack == []
       else r == Ok(()) && t.stack == s.stack[..|s.stack| - 1]
  }

  /** `constant`. */
  ghost predicate ConstantSpec(s: State, t: State, r: Result<(), RuntimeError>) {
    match s.NextConstant()
    case Err(e) => ReadFailed(e, s, t, r)
    case Ok((c, f)) => PushSpec(c, s.WithTop(f), t, r)
  }

  /** `get_local`: a copy of stack slot `frame.slot + operand` is pushed. */
  ghost predicate GetLocalSpec(s: State, t: State, r: Result<(), RuntimeError>) {
    match s.NextByte()
    case Err(e) => ReadFailed(e, s, t, r)
    case Ok((slot, f)) =>
      var i := f.slot + slot as int;
      if i >= |s.stack| then r == Err(Panicked)
      else PushSpec(s.stack[i], s.WithTop(f), t, r)
  }

  /** `set_local`: the top is copied into slot `frame.slot + operand` and stays on the stack. */
  ghost predicate SetLocalSpec(s: State, t: State, r: Result<(), RuntimeError>) {
    match s.NextByte()
    case Err(e) => ReadFailed(e, s, t, r)
    case Ok((slot, f)) =>
      var i := f.slot + slot as int;
      && t.frames == s.WithTop(f).frames && t.globals == s.globals
      && if s.stack == [] then r == Err(StackExhausted) && t.stack == []
         else if i >= |s.stack| then r == Err(Panicked)
         else r == Ok(()) && t.stack == s.stack[i := s.stack[|s.stack| - 1]]
  }

  /** `get_global`: the value of the defined global the operand names is pushed. */
  ghost predicate GetGlobalSpec(s: State, t: State, r: Result<(), RuntimeError>) {
    match s.NextConstant()
    case Err(e) => ReadFailed(e, s, t, r)
    case Ok((c, f)) =>
      match GlobalName(c)
      case Err(e) => r == Err(e) && t == s.WithTop(f)
      case Ok(name) =>
        if name !in s.globals then r == Err(UndefinedVariable(name)) && t == s.WithTop(f)
        else PushSpec(s.globals[name], s.WithTop(f), t, r)
  }

  /** `set_global`: a defined global takes the top's value, which stays on the stack. */
  ghost predicate SetGlobalSpec(s: State, t: State, r: Result<(), RuntimeError>) {
    match s.NextConstant()
    case Err(e) => ReadFailed(e, s, t, r)
    case Ok((c, f)) =>
      && t.stack == s.stack && t.frames == s.WithTop(f).frames
      && match GlobalName(c)
         case Err(e) => r == Err(e) && t.globals == s.globals
         case Ok(name) =>
           if s.stack == [] then r == Err(StackExhausted) && t.globals == s.globals
           else if name !in s.globals then r == Err(UndefinedVariable(name)) && t.globals == s.globals
           else r == Ok(()) && t.globals == s.globals[name := s.stack[|s.stack| - 1]]
  }

  /** `defined_global`: the top is popped into the named global, defined before or not. */
  ghost predicate DefineGlobalSpec(s: State, t: State, r: Result<(), RuntimeError>) {
    match s.NextConstant()
    case Err(e) => ReadFailed(e, s, t, r)
    case Ok((c, f)) =>
      && t.frames == s.WithTop(f).frames
      && match GlobalName(c)
         case Err(e) => r == Err(e) && t.stack == s.stack && t.globals == s.globals
         case Ok(name) =>
           if s.stack == [] then r == Err(StackExhausted) && t.stack == [] && t.globals == s.globals
           else
             && r == Ok(())
             && t.stack == s.stack[..|s.stack| - 1]
             && t.globals == s.globals[name := s.stack[|s.stack| - 1]]
  }

  /** A binary operator other than `add`: the right operand is popped and the left one replaced by the result. */
  ghost predicate BinarySpec(op: (Value, Value) -> Result<Value, ValueError>, s: State, t: State, r: Result<(), RuntimeError>) {
    && t.frames == s.frames && t.globals == s.globals
    && var n := |s.stack|;
       if n < 2 then r == Err(StackExhausted) && t.stack == []
       else
         var res := op(s.stack[n - 2], s.stack[n - 1]);
         if res.Err? then r == Err(ValueErr(res.error)) && t.stack == s.stack[..n - 1]
         else r == Ok(()) && t.stack == s.stack[..n - 2] + [res.value]
  }

  /** `add`: the two operands are replaced by their sum; on an error both stay. */
  ghost predicate AddSpec(add: (Value, Value) -> Result<Value, ValueError>, s: State, t: State, r: Result<(), RuntimeError>) {
    && t.frames == s.frames && t.globals == s.globals
    && var n := |s.stack|;
       if n == 0 then r == Err(StackExhausted) && t.stack == []
       else if n == 1 then r == Err(Panicked)
       else
         var res := AddValues(s.stack[n - 2], s.stack[n - 1], add);
         if res.Err? then r == Err(res.error) && t.stack == s.stack
         else r == Ok(()) && t.stack == s.stack[..n - 2] + [res.value]
  }

  /** A unary operator: the top is replaced by the result. */
  ghost predicate UnarySpec(op: Value -> Result<Value, ValueError>, s: State, t: State, r: Result<(), RuntimeError>) {
    && t.frames == s.frames && t.globals == s.globals
    && var n := |s.stack|;
       if n == 0 then r == Err(StackExhausted) && t.stack == []
       else
         var res := op(s.stack[n - 1]);
         if res.Err? then r == Err(ValueErr(res.error)) && t.stack == s.stack
         else r == Ok(()) && t.stack == s.stack[n - 1 := res.value]
  }

  /** `jump`: after the offset is read, `ip` moves forward or back by it. */
  ghost predicate JumpSpec(direction: JumpDirection, s: State, t: State, r: Result<(), RuntimeError>) {
    match s.NextShort()
    case Err(e) => ReadFailed(e, s, t, r)
    case Ok((offset, f)) =>
      if direction == Forward then r == Ok(()) && t == s.WithTop(f.(ip := f.ip + offset as int))
      else if offset as int > f.ip then r == Err(Panicked)
      else r == Ok(()) && t == s.WithTop(f.(ip := f.ip - offset as int))
  }

  /**
   * `jump_if_true` (`onTruthy`) and `jump_if_false` (`!onTruthy`): after the
   * offset is read, `ip` moves forward by it exactly when the top's
   * truthiness is `onTruthy`; the top stays on the stack.
   */
  ghost predicate JumpIfSpec(onTruthy: bool, s: State, t: State, r: Result<(), RuntimeError>) {
    match s.NextShort()
    case Err(e) => ReadFailed(e, s, t, r)
    case Ok((offset, f)) =>
      if s.stack == [] then r == Err(StackExhausted) && t == s.WithTop(f)
      else
        && r == Ok(())
        && t == s.WithTop(if IsTruthy(s.stack[|s.stack| - 1]) == onTruthy then f.(ip := f.ip + offset as int) else f)
  }

  /** `call`: the value `argc` places below the top is called with the `argc` values above it. */
  ghost predicate CallSpec(native: seq<Value> -> Value, s: State, t: State, r: Result<(), RuntimeError>) {
    match s.NextByte()
    case Err(e) => ReadFailed(e, s, t, r)
    case Ok((argc, f)) =>
      && t.globals == s.globals
      && if s.stack == [] then r == Err(StackExhausted) && t == s.WithTop(f)
         else if argc as int >= |s.stack| then r == Err(Panicked)
         else Called(s.stack[|s.stack| - argc as int - 1], argc, native,
                     s.stack, s.WithTop(f).frames, t.stack, t.frames, r)
  }

  /** `closure`: a closure over the constant's object is pushed. */
  ghost predicate ClosureSpec(s: State, t: State, r: Result<(), RuntimeError>) {
    match s.NextConstant()
    case Err(e) => ReadFailed(e, s, t, r)
    case Ok((c, f)) =>
      if !c.Object? then r == Err(ValueErr(NotObject)) && t == s.WithTop(f)
      else PushSpec(Object(ClosureObj(c.obj)), s.WithTop(f), t, r)
  }

  /**
   * `ret`: the result and the current frame are popped. After the last frame
   * the script's closure is popped too and the program is done (`true`);
   * otherwise the stack is cut back to the frame's `slot` and the result
   * pushed in the callee's place (`false`).
   */
  ghost predicate RetSpec(s: State, t: State, r: Result<bool, RuntimeError>) {
    var n := |s.stack|;
    && t.globals == s.globals
    && if n == 0 then r == Err(StackExhausted) && t == s
       else if s.frames == [] then r == Err(StackExhausted) && t.frames == [] && t.stack == s.stack[..n - 1]
       else if |s.frames| == 1 then
         && t.frames == []
         && if n == 1 then r == Err(StackExhausted) && t.stack == []
            else r == Ok(true) && t.stack == s.stack[..n - 2]
       else
         && t.frames == s.frames[..|s.frames| - 1]
         && var slot := s.frames[|s.frames| - 1].slot;
            if slot > n - 1 then r == Err(Panicked)
            else r == Ok(false) && t.stack == s.stack[..slot] + [s.stack[n - 1]]
  }

  /**
   * The handler `run` dispatches opcode `op` to, for every opcode but `Ret`
   * (which `OpcodeSpec` covers). Opcodes `run` has no arm for reach
   * `unreachable!` and panic.
   */
  ghost predicate HandlerSpec(op: Opcodes.Opcode, ops: ValueOps, native: seq<Value> -> Value,
                              s: State, t: State, r: Result<(), RuntimeError>)
  {
    match op
    case Const => ConstantSpec(s, t, r)
    case Nil => PushSpec(Nil, s, t, r)
    case True => PushSpec(Bool(true), s, t, r)
    case False => PushSpec(Bool(false), s, t, r)
    case Pop => PopSpec(s, t, r)
    case GetLocal => GetLocalSpec(s, t, r)
    case SetLocal => SetLocalSpec(s, t, r)
    case GetGlobal => GetGlobalSpec(s, t, r)
    case SetGlobal => SetGlobalSpec(s, t, r)
    case DefineGlobal => DefineGlobalSpec(s, t, r)
    case Print => PopSpec(s, t, r)
    case NE => BinarySpec(NotEqual, s, t, r)
    case EQ => BinarySpec(Equal, s, t, r)
    case GT => BinarySpec(ops.gt, s, t, r)
    case GE => BinarySpec(ops.ge, s, t, r)
    case LT => BinarySpec(ops.lt, s, t, r)
    case LE => BinarySpec(ops.le, s, t, r)
    case Add => AddSpec(ops.add, s, t, r)
    case Sub => BinarySpec(ops.sub, s, t, r)
    case Mul => BinarySpec(ops.mul, s, t, r)
    case Div => BinarySpec(ops.div, s, t, r)
    case Not => UnarySpec(NotOp(ops), s, t, r)
    case Neg => UnarySpec(ops.neg, s, t, r)
    case Jump => JumpSpec(Forward, s, t, r)
    case JumpIfTrue => JumpIfSpec(true, s, t, r)
    case JumpIfFalse => JumpIfSpec(false, s, t, r)
    case Loop => JumpSpec(Backward, s, t, r)
    case Call => CallSpec(native, s, t, r)
    case Closure => ClosureSpec(s, t, r)
    case _ => r == Err(Panicked)
  }

  /** What running the handler of a decoded opcode does; only `Ret` can finish the program. */
  ghost predicate OpcodeSpec(op: Opcodes.Opcode, ops: ValueOps, native: seq<Value> -> Value,
                             s: State, t: State, r: Result<bool, RuntimeError>)
  {
    if op == Opcodes.Ret then RetSpec(s, t, r)
    else r != Ok(true) && HandlerSpec(op, ops, native, s, t, Discard(r))
  }

  /** One turn of `Task::run`'s loop: fetch the next byte, decode it and run its handler. */
  ghost predicate StepSpec(ops: ValueOps, native: seq<Value> -> Value, s: State, t: State, r: Result<bool, RuntimeError>) {
    match s.NextByte()
    case Err(e) => r == Err(e) && t == s
    case Ok((b, f)) =>
      match Opcodes.FromByte(b)
      case Err(_) => r == Err(InvalidOpcode(b)) && t == s.WithTop(f)
      case Ok(op) => OpcodeSpec(op, ops, native, s.WithTop(f), t, r)
  }

  /**
   * A step finishes the program only by returning from the last frame, and a
   * step without any frame is `StackExhausted` and changes nothing.
   */
  lemma {:induction false} StepSpecOutcomes(ops: ValueOps, native: seq<Value> -> Value, s: State, t: State, r: Result<bool, RuntimeError>)
    requires StepSpec(ops, native, s, t, r)
    ensures r == Ok(true) ==> t.frames == []
    ensures s.frames == [] ==> r == Err(StackExhausted) && t == s
  {
    if s.frames != [] && r == Ok(true) {
      var (b, f) := s.NextByte().value;
      var op := Opcodes.FromByte(b).value;
      assert op == Opcodes.Ret;
    }
  }

  /** Every step of `trace` is a `StepSpec` step that leaves the program running. */
  ghost predicate Continues(ops: ValueOps, native: seq<Value> -> Value, trace: seq<State>) {
    forall k :: 0 <= k < |trace| - 1 ==> StepSpec(ops, native, trace[k], trace[k + 1], Ok(false))
  }

  /**
   * `trace` is the states of a run of at most `fuel` steps with outcome `r`:
   * when the fuel runs out (`None`), `fuel` steps that all leave the program
   * running; otherwise such steps followed by one last step with result
   * `last` that finished the program or failed, and `r` reports it.
   */
  ghost predicate Ran(ops: ValueOps, native: seq<Value> -> Value, fuel: nat, trace: seq<State>,
                      last: Result<bool, RuntimeError>, r: Option<Result<(), RuntimeError>>)
  {
    && |trace| >= 1
    && (r.None? ==> |trace| == fuel + 1 && Continues(ops, native, trace))
    && (r.Some? ==>
          && 2 <= |trace| <= fuel + 1
          && Continues(ops, native, trace[..|trace| - 1])
          && StepSpec(ops, native, trace[|trace| - 2], trace[|trace| - 1], last)
          && last != Ok(false)
          && r.value == Discard(last))
  }

  /** A run that goes on for one more step that leaves the program running. */
  lemma ContinuesExtend(ops: ValueOps, native: seq<Value> -> Value, trace: seq<State>, t: State)
    requires |trace| >= 1 && Continues(ops, native, trace)
    requires StepSpec(ops, native, trace[|trace| - 1], t, Ok(false))
    ensures Continues(ops, native, trace + [t])
  {
    forall k | 0 <= k < |trace|
      ensures StepSpec(ops, native, (trace + [t])[k], (trace + [t])[k + 1], Ok(false))
    {
      if k < |trace| - 1 {
        assert (trace + [t])[k] == trace[k] && (trace + [t])[k + 1] == trace[k + 1];
      }
    }
  }

  /** A run that stops with a step that finished the program or failed. */
  lemma RanStop(ops: ValueOps, native: seq<Value> -> Value, fuel: nat, trace: seq<State>, t: State,
                last: Result<bool, RuntimeError>)
    requires 1 <= |trace| <= fuel && Continues(ops, native, trace)
    requires StepSpec(ops, native, trace[|trace| - 1], t, last) && last != Ok(false)
    ensures Ran(ops, native, fuel, trace + [t], last, Some(Discard(last)))
  {
    assert (trace + [t])[..|trace|] == trace;
  }

  /** A run completes only once no frame is left. */
  lemma RanCompletes(ops: ValueOps, native: seq<Value> -> Value, fuel: nat, trace: seq<State>,
                     last: Result<bool, RuntimeError>, r: Option<Result<(), RuntimeError>>)
    requires Ran(ops, native, fuel, trace, last, r)
    ensures r == Some(Ok(())) ==> trace[|trace| - 1].frames == []
  {
    if r == Some(Ok(())) {
      assert Discard(last) == Ok(()) && last != Ok(false);
      assert last.Ok? && last.value;
      StepSpecOutcomes(ops, native, trace[|trace| - 2], trace[|trace| - 1], last);
    }
  }

  /** The first step of a run of at least one step: it finished or failed only if it is the last one. */
  lemma RanFirstStep(ops: ValueOps, native: seq<Value> -> Value, fuel: nat, trace: seq<State>,
                     last: Result<bool, RuntimeError>, r: Option<Result<(), RuntimeError>>)
    requires Ran(ops, native, fuel, trace, last, r)
    requires fuel > 0
    ensures |trace| >= 2
    ensures StepSpec(ops, native, trace[0], trace[1], if r.Some? && |trace| == 2 then last else Ok(false))
  {
    if r.Some? && |trace| > 2 {
      assert trace[..|trace| - 1][0] == trace[0] && trace[..|trace| - 1][1] == trace[1];
    }
  }

  /** A run with fuel from a state without frames fails at once with `StackExhausted` and changes nothing. */
  lemma RanWithoutFrames(ops: ValueOps, native: seq<Value> -> Value, fuel: nat, trace: seq<State>,
                         last: Result<bool, RuntimeError>, r: Option<Result<(), RuntimeError>>)
    requires Ran(ops, native, fuel, trace, last, r)
    requires trace[0].frames == [] && fuel > 0
    ensures r == Some(Err(StackExhausted)) && trace[|trace| - 1] == trace[0]
  {
    RanFirstStep(ops, native, fuel, trace, last, r);
    StepSpecOutcomes(ops, native, trace[0], trace[1], if r.Some? && |trace| == 2 then last else Ok(false));
  }

  class VirtualMachine {
    var stack: seq<Value>
    var frames: seq<CallFrame>
    var globals: map<string, Value>

    /** The stack and the frames stay within their bounds. */
    ghost predicate Valid()
      reads this
    {
      |stack| <= StackSize && |frames| <= FramesMax
    }

    /** The machine's fields as a value. */
    ghost function St(): State
      reads this
    {
      State(stack, frames, globals)
    }

    /** `VirtualMachine::new`: empty stacks, and the native function `clock` defined. */
    constructor ()
      ensures Valid()
      ensures stack == [] && frames == []
      ensures globals == map["clock" := Object(NativeFunObj(0))]
    {
      stack := [];
      frames := [];
      globals := map["clock" := Object(NativeFunObj(0))];
    }

    // -------------------------------------------------------------------
    // The stacks.

    /** `frame`: the current call frame. */
    function Frame(): (r: Result<CallFrame, RuntimeError>)
      reads this
      ensures r.Err? <==> frames == []
      ensures r.Err? ==> r.error == StackExhausted
      ensures r.Ok? ==> r.value == frames[|frames| - 1]
    {
      if frames == [] then Err(StackExhausted) else Ok(frames[|frames| - 1])
    }

    /** `frames_push`: refused when `FramesMax` frames are live; otherwise returns the old frame count. */
    method FramesPush(frame: CallFrame) returns (r: Result<nat, RuntimeError>)
      requires Valid()
      modifies this
      ensures Valid() && stack == old(stack) && globals == old(globals)
      ensures |old(frames)| == FramesMax ==> r == Err(StackOverflow) && frames == old(frames)
      ensures |old(frames)| < FramesMax ==> r == Ok(|old(frames)|) && frames == old(frames) + [frame]
    {
      var count := |frames|;
      if count == FramesMax {
        return Err(StackOverflow);
      }
      frames := frames + [frame];
      return Ok(count);
    }

    /** `frames_pop`. */
    method FramesPop() returns (r: Result<CallFrame, RuntimeError>)
      requires Valid()
      modifies this
      ensures Valid() && stack == old(stack) && globals == old(globals)
      ensures old(frames) == [] ==> r == Err(StackExhausted) && frames == []
      ensures old(frames) != [] ==>
        r == Ok(old(frames)[|old(frames)| - 1]) && frames == old(frames)[..|old(frames)| - 1]
    {
      if frames == [] {
        return Err(StackExhausted);
      }
      r := Ok(frames[|frames| - 1]);
      frames := frames[..|frames| - 1];
    }

    /** `stack_push`: refused on a full stack; otherwise returns the index the value went to. */
    method StackPush(value: Value) returns (r: Result<nat, RuntimeError>)
      requires Valid()
      modifies this
      ensures Valid() && frames == old(frames) && globals == old(globals)
      ensures |old(stack)| == StackSize ==> r == Err(StackOverflow) && stack == old(stack)
      ensures |old(stack)| < StackSize ==> r == Ok(|old(stack)|) && stack == old(stack) + [value]
    {
      var size := |stack|;
      if size == StackSize {
        return Err(StackOverflow);
      }
      stack := stack + [value];
      return Ok(size);
    }

    /** `stack_remove_top`: drops the top `n` values; more than the stack holds panics. */
    method StackRemoveTop(n: nat) returns (r: Result<(), RuntimeError>)
      requires Valid()
      modifies this
      ensures Valid() && frames == old(frames) && globals == old(globals)
      ensures n > |old(stack)| ==> r == Err(Panicked)
      ensures n <= |old(stack)| ==> r == Ok(()) && stack == old(stack)[..|old(stack)| - n]
    {
      if n > |stack| {
        return Err(Panicked);
      }
      stack := stack[..|stack| - n];
      return Ok(());
    }

    /** `stack_pop`. */
    method StackPop() returns (r: Result<Value, RuntimeError>)
      requires Valid()
      modifies this
      ensures Valid() && frames == old(frames) && globals == old(globals)
      ensures old(stack) == [] ==> r == Err(StackExhausted) && stack == []
      ensures old(stack) != [] ==>
        r == Ok(old(stack)[|old(stack)| - 1]) && stack == old(stack)[..|old(stack)| - 1]
    {
      if stack == [] {
        return Err(StackExhausted);
      }
      r := Ok(stack[|stack| - 1]);
      stack := stack[..|stack| - 1];
    }

    /** `stack_top`: the value `n` places below the top; never changes the stack. */
    function StackTop(n: nat): (r: Result<Value, RuntimeError>)
      reads this
      ensures stack == [] ==> r == Err(StackExhausted)
      ensures stack != [] && n >= |stack| ==> r == Err(Panicked)
      ensures n < |stack| ==> r == Ok(stack[|stack| - n - 1])
    {
      if stack == [] then Err(StackExhausted)
      else if n >= |stack| then Err(Panicked)
      else Ok(stack[|stack| - n - 1])
    }

    /** `stack_top_mut` and a write through the reference: replaces the value `n` places below the top. */
    method StackTopMut(n: nat, value: Value) returns (r: Result<(), RuntimeError>)
      requires Valid()
      modifies this
      ensures Valid() && frames == old(frames) && globals == old(globals)
      ensures old(stack) == [] ==> r == Err(StackExhausted) && stack == []
      ensures old(stack) != [] && n >= |old(stack)| ==> r == Err(Panicked) && stack == old(stack)
      ensures n < |old(stack)| ==> r == Ok(()) && stack == old(stack)[|old(stack)| - n - 1 := value]
    {
      if stack == [] {
        return Err(StackExhausted);
      }
      if n >= |stack| {
        return Err(Panicked);
      }
      stack := stack[|stack| - n - 1 := value];
      return Ok(());
    }

    // -------------------------------------------------------------------
    // Reading operands (`Task::read_byte`, `read_short`, `read_constant`).

    method ReadByte() returns (r: Result<byte, RuntimeError>)
      requires Valid()
      modifies this
      ensures Valid()
      ensures match old(St()).NextByte()
        case Err(e) => r == Err(e) && St() == old(St())
        case Ok((b, f)) => r == Ok(b) && St() == old(St()).WithTop(f)
    {
      var frame :- Frame();
      var read :- frame.ReadByte();
      frames := frames[|frames| - 1 := read.1];
      return Ok(read.0);
    }

    method ReadShort() returns (r: Result<u16, RuntimeError>)
      requires Valid()
      modifies this
      ensures Valid()
      ensures match old(St()).NextShort()
        case Err(e) => r == Err(e) && St() == old(St())
        case Ok((s, f)) => r == Ok(s) && St() == old(St()).WithTop(f)
    {
      var frame :- Frame();
      var read :- frame.ReadShort();
      frames := frames[|frames| - 1 := read.1];
      return Ok(read.0);
    }

    method ReadConstant() returns (r: Result<Value, RuntimeError>)
      requires Valid()
      modifies this
      ensures Valid()
      ensures match old(St()).NextConstant()
        case Err(e) => r == Err(e) && St() == old(St())
        case Ok((c, f)) => r == Ok(c) && St() == old(St()).WithTop(f)
    {
      var frame :- Frame();
      var read :- frame.ReadConstant();
      frames := frames[|frames| - 1 := read.1];
      return Ok(read.0);
    }

    // -------------------------------------------------------------------
    // Instruction handlers.

    method Constant() returns (r: Result<(), RuntimeError>)
      requires Valid()
      modifies this
      ensures Valid() && ConstantSpec(old(St()), St(), r)
    {
      var c :- ReadConstant();
      var index :- StackPush(c);
      return Ok(());
    }

    method GetLocal() returns (r: Result<(), RuntimeError>)
      requires Valid()
      modifies this
      ensures Valid() && GetLocalSpec(old(St()), St(), r)
    {
      var slot :- ReadByte();
      var frame := frames[|frames| - 1];
      var i := frame.slot + slot as int;
      if i >= |stack| {
        return Err(Panicked);
      }
      var index :- StackPush(stack[i]);
      return Ok(());
    }

    method SetLocal() returns (r: Result<(), RuntimeError>)
      requires Valid()
      modifies this
      ensures Valid() && SetLocalSpec(old(St()), St(), r)
    {
      var slot :- ReadByte();
      var frame := frames[|frames| - 1];
      var top :- StackTop(0);
      var i := frame.slot + slot as int;
      if i >= |stack| {
        return Err(Panicked);
      }
      stack := stack[i := top];
      return Ok(());
    }

    method GetGlobal() returns (r: Result<(), RuntimeError>)
      requires Valid()
      modifies this
      ensures Valid() && GetGlobalSpec(old(St()), St(), r)
    {
      var c :- ReadConstant();
      var name :- GlobalName(c);
      if name !in globals {
        return Err(UndefinedVariable(name));
      }
      var index :- StackPush(globals[name]);
      return Ok(());
    }

    method SetGlobal() returns (r: Result<(), RuntimeError>)
      requires Valid()
      modifies this
      ensures Valid() && SetGlobalSpec(old(St()), St(), r)
    {
      var c :- ReadConstant();
      var name :- GlobalName(c);
      var top :- StackTop(0);
      if name !in globals {
        return Err(UndefinedVariable(name));
      }
      globals := globals[name := top];
      return Ok(());
    }

    method DefineGlobal() returns (r: Result<(), RuntimeError>)
      requires Valid()
      modifies this
      ensures Valid() && DefineGlobalSpec(old(St()), St(), r)
    {
      var c :- ReadConstant();
      var name :- GlobalName(c);
      var value :- StackPop();
      globals := globals[name := value];
      return Ok(());
    }

    /** `ne`, `eq`, `gt`, `ge`, `lt`, `le`, `sub`, `mul` and `div`, by their operator `op`. */
    method Binary(op: (Value, Value) -> Result<Value, ValueError>) returns (r: Result<(), RuntimeError>)
      requires Valid()
      modifies this
      ensures Valid() && BinarySpec(op, old(St()), St(), r)
    {
      var rhs :- StackPop();
      var lhs :- StackTop(0);
      var res := op(lhs, rhs);
      if res.Err? {
        return Err(ValueErr(res.error));
      }
      r := StackTopMut(0, res.value);
    }

    /**
     * `add`: peeks at both operands so that they stay on the stack while the
     * result is computed, then pops the right one and replaces the left one.
     */
    method Add(add: (Value, Value) -> Result<Value, ValueError>) returns (r: Result<(), RuntimeError>)
      requires Valid()
      modifies this
      ensures Valid() && AddSpec(add, old(St()), St(), r)
    {
      var rhs :- StackTop(0);
      var lhs :- StackTop(1);
      var res :- AddValues(lhs, rhs, add);
      var popped := StackPop();
      r := StackTopMut(0, res);
    }

    /** `not` and `neg`, by their operator `op`. */
    method Unary(op: Value -> Result<Value, ValueError>) returns (r: Result<(), RuntimeError>)
      requires Valid()
      modifies this
      ensures Valid() && UnarySpec(op, old(St()), St(), r)
    {
      var v :- StackTop(0);
      var res := op(v);
      if res.Err? {
        return Err(ValueErr(res.error));
      }
      r := StackTopMut(0, res.value);
    }

    method Jump(direction: JumpDirection) returns (r: Result<(), RuntimeError>)
      requires Valid()
      modifies this
      ensures Valid() && JumpSpec(direction, old(St()), St(), r)
    {
      var offset :- ReadShort();
      var frame := frames[|frames| - 1];
      match direction {
        case Forward =>
          frame := frame.(ip := frame.ip + offset as int);
        case Backward =>
          if offset as int > frame.ip {
            return Err(Panicked);
          }
          frame := frame.(ip := frame.ip - offset as int);
      }
      frames := frames[|frames| - 1 := frame];
      return Ok(());
    }

    method JumpIfTrue() returns (r: Result<(), RuntimeError>)
      requires Valid()
      modifies this
      ensures Valid() && JumpIfSpec(true, old(St()), St(), r)
    {
      var offset :- ReadShort();
      var top :- StackTop(0);
      if IsTruthy(top) {
        var frame := frames[|frames| - 1];
        frames := frames[|frames| - 1 := frame.(ip := frame.ip + offset as int)];
      }
      return Ok(());
    }

    method JumpIfFalse() returns (r: Result<(), RuntimeError>)
      requires Valid()
      modifies this
      ensures Valid() && JumpIfSpec(false, old(St()), St(), r)
    {
      var offset :- ReadShort();
      var top :- StackTop(0);
      if IsFalsey(top) {
        var frame := frames[|frames| - 1];
        frames := frames[|frames| - 1 := frame.(ip := frame.ip + offset as int)];
      }
      return Ok(());
    }

    /**
     * `call_closure`: checks the arity and pushes a frame whose slot 0 is the
     * callee's own stack slot, just below its `argc` arguments.
     */
    method CallClosure(callee: Obj, argc: byte) returns (r: Result<(), RuntimeError>)
      requires Valid()
      modifies this
      ensures Valid() && stack == old(stack) && globals == old(globals)
      ensures !(callee.ClosureObj? && callee.callee.FunObj?) ==>
        r == Err(ObjectErr(Objects.InvalidCast)) && frames == old(frames)
      ensures callee.ClosureObj? && callee.callee.FunObj? ==>
        CalledClosure(callee.callee.fun, argc, old(stack), old(frames), frames, r)
    {
      if !callee.ClosureObj? || !callee.callee.FunObj? {
        return Err(ObjectErr(Objects.InvalidCast));
      }
      var fun := callee.callee.fun;
      if argc != fun.arity {
        return Err(BadArgumentsCount(fun.arity, argc));
      }
      if argc as int + 1 > |stack| {
        return Err(Panicked);
      }
      var count :- FramesPush(CallFrame(fun, 0, |stack| - argc as int - 1));
      return Ok(());
    }

    /**
     * `call_native`: checks the arity, then replaces the callee and its
     * arguments by what `native` (the native's Rust function) returns for them.
     */
    method CallNative(arity: byte, argc: byte, native: seq<Value> -> Value) returns (r: Result<(), RuntimeError>)
      requires Valid()
      modifies this
      ensures Valid() && frames == old(frames) && globals == old(globals)
      ensures CalledNative(arity, argc, native, old(stack), stack, r)
    {
      if argc != arity {
        return Err(BadArgumentsCount(arity, argc));
      }
      var sp := |stack|;
      if argc as int > sp {
        return Err(Panicked);
      }
      var res := native(stack[sp - argc as int..]);
      var removed :- StackRemoveTop(argc as int + 1);
      var index := StackPush(res);
      return Ok(());
    }

    /** `call_value` with `call_object`: dispatches on the kind of callee. */
    method CallValue(callee: Value, argc: byte, native: seq<Value> -> Value) returns (r: Result<(), RuntimeError>)
      requires Valid()
      modifies this
      ensures Valid() && globals == old(globals)
      ensures Called(callee, argc, native, old(stack), old(frames), stack, frames, r)
    {
      if callee.Object? && callee.obj.ClosureObj? {
        r := CallClosure(callee.obj, argc);
      } else if callee.Object? && callee.obj.NativeFunObj? {
        r := CallNative(callee.obj.arity, argc, native);
      } else {
        r := Err(ValueErr(InvalidUse("Can only call functions and classes.")));
      }
    }

    method Call(native: seq<Value> -> Value) returns (r: Result<(), RuntimeError>)
      requires Valid()
      modifies this
      ensures Valid() && CallSpec(native, old(St()), St(), r)
    {
      var argc :- ReadByte();
      var callee :- StackTop(argc as int);
      r := CallValue(callee, argc, native);
    }

    /** `closure` (allocation in the heap is not modelled). */
    method Closure() returns (r: Result<(), RuntimeError>)
      requires Valid()
      modifies this
      ensures Valid() && ClosureSpec(old(St()), St(), r)
    {
      var c :- ReadConstant();
      if !c.Object? {
        return Err(ValueErr(NotObject));
      }
      var index :- StackPush(Object(ClosureObj(c.obj)));
      return Ok(());
    }

    method Ret() returns (r: Result<bool, RuntimeError>)
      requires Valid()
      modifies this
      ensures Valid() && RetSpec(old(St()), St(), r)
    {
      var result :- StackPop();
      var frame :- FramesPop();
      if frames == [] {
        var script :- StackPop();
        return Ok(true);
      }
      if frame.slot > |stack| {
        return Err(Panicked);
      }
      var removed := StackRemoveTop(|stack| - frame.slot);
      var index := StackPush(result);
      return Ok(false);
    }

    /**
     * The `match` of `Task::run`: runs the handler of `op`. Printing is
     * reduced to its pop.
     */
    method Execute(op: Opcodes.Opcode, ops: ValueOps, native: seq<Value> -> Value) returns (r: Result<bool, RuntimeError>)
      requires Valid()
      modifies this
      ensures Valid() && OpcodeSpec(op, ops, native, old(St()), St(), r)
    {
      if op == Opcodes.Ret {
        r := Ret();
        return;
      }
      var outcome := Handle(op, ops, native);
      r := if outcome.Ok? then Ok(false) else Err(outcome.error);
      assert Discard(r) == outcome;
    }

    /** The arms of `Task::run`'s `match` other than `Ret`. */
    method Handle(op: Opcodes.Opcode, ops: ValueOps, native: seq<Value> -> Value) returns (r: Result<(), RuntimeError>)
      requires Valid()
      modifies this
      ensures Valid() && HandlerSpec(op, ops, native, old(St()), St(), r)
    {
      match op {
        case Const => r := Constant();
        case Nil => r := PushValue(Nil);
        case True => r := PushValue(Bool(true));
        case False => r := PushValue(Bool(false));
        case Pop => r := PopValue();
        case GetLocal => r := GetLocal();
        case SetLocal => r := SetLocal();
        case GetGlobal => r := GetGlobal();
        case SetGlobal => r := SetGlobal();
        case DefineGlobal => r := DefineGlobal();
        case Print => r := PopValue();
        case NE => r := Binary(NotEqual);
        case EQ => r := Binary(Equal);
        case GT => r := Binary(ops.gt);
        case GE => r := Binary(ops.ge);
        case LT => r := Binary(ops.lt);
        case LE => r := Binary(ops.le);
        case Add => r := Add(ops.add);
        case Sub => r := Binary(ops.sub);
        case Mul => r := Binary(ops.mul);
        case Div => r := Binary(ops.div);
        case Not => r := Unary(NotOp(ops));
        case Neg => r := Unary(ops.neg);
        case Jump => r := Jump(Forward);
        case JumpIfTrue => r := JumpIfTrue();
        case JumpIfFalse => r := JumpIfFalse();
        case Loop => r := Jump(Backward);
        case Call => r := Call(native);
        case Closure => r := Closure();
        case _ => r := Err(Panicked);
      }
    }

    /** The `Nil`, `True` and `False` arms: push a literal. */
    method PushValue(v: Value) returns (r: Result<(), RuntimeError>)
      requires Valid()
      modifies this
      ensures Valid() && PushSpec(v, old(St()), St(), r)
    {
      var index :- StackPush(v);
      return Ok(());
    }

    /** The `Pop` and `Print` arms: pop the top. */
    method PopValue() returns (r: Result<(), RuntimeError>)
      requires Valid()
      modifies this
      ensures Valid() && PopSpec(old(St()), St(), r)
    {
      var value :- StackPop();
      return Ok(());
    }

    /**
     * One turn of `Task::run`'s loop: fetch a byte, decode it and run its
     * handler. `Ok(true)` means the last frame returned.
     */
    method Step(ops: ValueOps, native: seq<Value> -> Value) returns (r: Result<bool, RuntimeError>)
      requires Valid()
      modifies this
      ensures Valid() && StepSpec(ops, native, old(St()), St(), r)
    {
      var b :- ReadByte();
      var decoded := Opcodes.FromByte(b);
      if decoded.Err? {
        return Err(InvalidOpcode(b));
      }
      r := Execute(decoded.value, ops, native);
    }

    /**
     * `Task::run`: steps until the last frame returns or a step fails. The
     * Rust loop is unbounded; here it runs for at most `fuel` steps and
     * `None` means the fuel ran out first. `trace` holds the states the
     * steps went through and `last` the last step's result.
     */
    method Run(ops: ValueOps, native: seq<Value> -> Value, fuel: nat)
      returns (r: Option<Result<(), RuntimeError>>, ghost trace: seq<State>, ghost last: Result<bool, RuntimeError>)
      requires Valid()
      modifies this
      ensures Valid()
      ensures Ran(ops, native, fuel, trace, last, r)
      ensures trace[0] == old(St()) && trace[|trace| - 1] == St()
      ensures fuel == 0 ==> r == None && St() == old(St())
      ensures old(frames) == [] && fuel > 0 ==> r == Some(Err(StackExhausted))
      ensures r == Some(Ok(())) ==> frames == []
    {
      trace := [St()];
      last := Ok(false);
      var steps := 0;
      while steps < fuel
        invariant steps <= fuel && Valid()
        invariant |trace| == steps + 1 && trace[0] == old(St()) && trace[steps] == St()
        invariant Continues(ops, native, trace)
      {
        ghost var before := trace;
        var step := Step(ops, native);
        if step != Ok(false) {
          RanStop(ops, native, fuel, before, St(), step);
          trace := before + [St()];
          last := step;
          r := Some(Discard(step));
          RanCompletes(ops, native, fuel, trace, last, r);
          if old(frames) == [] {
            RanWithoutFrames(ops, native, fuel, trace, last, r);
          }
          return;
        }
        ContinuesExtend(ops, native, before, St());
        trace := before + [St()];
        steps := steps + 1;
      }
      r := None;
      if old(frames) == [] && fuel > 0 {
        RanWithoutFrames(ops, native, fuel, trace, last, r);
      }
    }

    /**
     * `VirtualMachine::run`: wraps the compiled script in a closure, which
     * stays in stack slot 0 for the whole run, calls it with no arguments and
     * runs it.
     */
    method RunScript(script: Fun, ops: ValueOps, native: seq<Value> -> Value, fuel: nat)
      returns (r: Option<Result<(), RuntimeError>>, ghost trace: seq<State>, ghost last: Result<bool, RuntimeError>)
      requires Valid()
      modifies this
      ensures Valid()
      ensures |old(stack)| == StackSize ==> r == Some(Err(StackOverflow))
      ensures |old(stack)| < StackSize && script.arity != 0 ==> r == Some(Err(BadArgumentsCount(script.arity, 0)))
      ensures |old(stack)| < StackSize && script.arity == 0 && |old(frames)| == FramesMax ==>
        r == Some(Err(StackOverflow))
      ensures |old(stack)| < StackSize && script.arity == 0 && |old(frames)| < FramesMax ==>
        && Ran(ops, native, fuel, trace, last, r)
        && trace[0] == State(old(stack) + [Object(ClosureObj(FunObj(script)))],
                             old(frames) + [CallFrame(script, 0, |old(stack)|)], old(globals))
        && trace[|trace| - 1] == St()
      ensures r == Some(Ok(())) ==> frames == []
    {
      trace := [St()];
      last := Ok(false);
      var pushed := StackPush(Object(FunObj(script)));
      if pushed.Err? {
        r := Some(Err(pushed.error));
        return;
      }
      var fun := StackPop();
      pushed := StackPush(Object(ClosureObj(FunObj(script))));
      var called := CallClosure(ClosureObj(FunObj(script)), 0);
      if called.Err? {
        r := Some(Err(called.error));
        return;
      }
      r, trace, last := Run(ops, native, fuel);
    }
  }

  /**
   * Calling a closure and returning from it manage the stack window through
   * `slot`, at any call depth: with the callee and its arguments on top of
   * the caller's `base`, a call followed by the callee pushing `result` and
   * returning leaves the callers' frames as they were and `base` with the
   * result on top.
   */
  method CallThenReturn(callers: seq<CallFrame>, base: seq<Value>, callee: Fun, args: seq<Value>, result: Value)
    returns (r: Result<bool, RuntimeError>, stack: seq<Value>, frames: seq<CallFrame>)
    requires 0 < |callers| < FramesMax
    requires |args| == callee.arity as int
    requires |base| + |args| + 2 <= StackSize
    ensures r == Ok(false)
    ensures stack == base + [result]
    ensures frames == callers
  {
    var vm := new VirtualMachine();
    var closure := ClosureObj(FunObj(callee));
    vm.stack := base + [Object(closure)] + args;
    vm.frames := callers;
    var called := vm.CallClosure(closure, callee.arity);
    assert vm.frames == callers + [CallFrame(callee, 0, |base|)];
    var pushed := vm.StackPush(result);
    r := vm.Ret();
    assert vm.frames == (callers + [CallFrame(callee, 0, |base|)])[..|callers|];
    assert vm.stack == (base + [Object(closure)] + args + [result])[..|base|] + [result];
    assert (base + [Object(closure)] + args + [result])[..|base|] == base;
    stack := vm.stack;
    frames := vm.frames;
  }

  /**
   * The `Nil` instruction as one step: with its byte at the current frame's
   * `ip` and room on the stack, a step pushes `nil` and moves `ip` past it.
   */
  method StepNil(caller: CallFrame, base: seq<Value>, ops: ValueOps, native: seq<Value> -> Value)
    returns (r: Result<bool, RuntimeError>, stack: seq<Value>, frames: seq<CallFrame>)
    requires caller.ip < |caller.fun.instructions| && caller.fun.instructions[caller.ip] == Opcodes.ToByte(Opcodes.Nil)
    requires |base| < StackSize
    ensures r == Ok(false)
    ensures stack == base + [Nil]
    ensures frames == [caller.(ip := caller.ip + 1)]
  {
    var vm := new VirtualMachine();
    vm.stack := base;
    vm.frames := [caller];
    Opcodes.DecodeEncode(Opcodes.Nil);
    ghost var s := vm.St();
    assert s.NextByte() == Ok((Opcodes.ToByte(Opcodes.Nil), caller.(ip := caller.ip + 1)));
    r := vm.Step(ops, native);
    ghost var s1 := s.WithTop(caller.(ip := caller.ip + 1));
    assert OpcodeSpec(Opcodes.Nil, ops, native, s1, vm.St(), r);
    assert PushSpec(Nil, s1, vm.St(), Discard(r));
    assert Discard(r) == Ok(()) && r.Ok? && !r.value;
    stack := vm.stack;
    frames := vm.frames;
  }

  /** Pushing a value and popping it again gives the value back and leaves the stack as it was. */
  method PushThenPop(base: seq<Value>, v: Value) returns (r: Result<Value, RuntimeError>, stack: seq<Value>)
    requires |base| < StackSize
    ensures r == Ok(v) && stack == base
  {
    var vm := new VirtualMachine();
    vm.stack := base;
    var pushed := vm.StackPush(v);
    r := vm.StackPop();
    stack := vm.stack;
  }

  /** A worked example of the frame limit: once `FramesMax` frames are live, pushing one more is a `StackOverflow`. */
  method FramesOverflow(frame: CallFrame) returns (r: Result<nat, RuntimeError>)
    ensures r == Err(StackOverflow)
  {
    var vm := new VirtualMachine();
    var i := 0;
    while i < FramesMax
      invariant 0 <= i <= FramesMax
      invariant vm.Valid() && |vm.frames| == i
    {
      var count := vm.FramesPush(frame);
      i := i + 1;
    }
    r := vm.FramesPush(frame);
  }
}
