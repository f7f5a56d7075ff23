# rox: a verified model of the Lox bytecode VM core

This project models four pieces of `rox`, a Rust bytecode virtual machine
for the Lox language, and proves properties of each.

- **`Vm`** (`vm.dfy`, from `src/vm.rs`) is the virtual machine itself:
  - an operand stack bounded at 256 values;
  - a call-frame stack bounded at 64 frames;
  - a table of globals;
  - the dispatch of `Task::run`, from each decoded opcode to its handler.

  Each handler reads its operands from the current frame's instruction stream (big-endian for 16-bit operands) and updates the state in place. What an instruction does is a predicate over the machine's state before and after (`State`): `PushSpec`, `GetLocalSpec`, `BinarySpec(op)`, `RetSpec` and so on. `HandlerSpec` maps every opcode to its predicate, with the operator `run` passes it (`NE` to `!=`, `GT` to `gt`, `Loop` to a backward jump, …), and `StepSpec` is fetch, decode and `HandlerSpec`. Each handler, the inline arms (`Nil`, `True`, `False`, `Pop`, `Print`) and `Step` itself ensure their predicate, error cases included, except where a panic leaves the state unspecified (see "Left out"). Call and return manage each callee's stack window through the frame's `slot`.
- **`FixedStack`** (`stack.dfy`, from `src/stack.rs`) is a stack of fixed capacity over an array. It also has a double-ended iterator over the live items.
- **`Opcodes`** (`opcode.dfy`, from `src/opcode.rs`) maps the 41 opcodes to the bytes `0..=40` and back. Any other byte is rejected.
- **`Objects`** (`object.dfy`, from `src/object.rs`) is the mark phase of the tracing collector.
  - Every heap cell carries a test-and-set mark bit and an intrusive `next` link.
  - Marking an object greys it (appends it to the worklist) exactly when it was unmarked.
  - Each kind of object marks its direct children.
  - Heap references are ids into a map of cells.
  - The predicate `Traced` is the reference specification of "mark these targets". It says:
    - the targets are now marked, and nothing else is;
    - the worklist grew by exactly the previously unmarked targets, each once;
    - every grey object stays marked.
- **`Results`** (`results.dfy`) holds the `Option` and `Result` wrappers. `Result` works with `:-`, which stands in for Rust's `?`.

Where the Rust code panics, the model returns an error value instead:

- an index out of bounds or a `usize` subtraction below zero in the VM gives `Panicked`;
- an index past the stack pointer in `FixedStack` gives `None` or `false`;
- an unknown byte in `Opcode::from` gives `UnknownByteCode`.

Things the model takes as parameters:

- the numeric operators and comparisons of `value.rs` (a `ValueOps` value);
- the Rust function behind a native function (`native`);
- how long `run` may loop (`fuel`).

## Model

The cell accessors `Objects.GcData.GetNext` and `Objects.GcData.IsMarked` have no row of their own. The round trips `Objects.SetNextThenGetNext` and `Objects.MarkThenIsMarked` state what they return.

| member | source | states |
|---|---|---|
| Opcodes.ToByte | src/opcode.rs:20-109 | every opcode's byte is one of the 41 discriminants `0..=40` |
| Opcodes.FromByte | src/opcode.rs:111-157 | decoding succeeds exactly for bytes up to 40; any other byte is the error `UnknownByteCode(b)` |
| Opcodes.DecodeEncode | src/opcode.rs:105-157 | decoding the byte of any opcode gives that opcode back |
| Opcodes.EncodeDecode | src/opcode.rs:105-157 | for every byte up to 40, decoding succeeds and encoding the result gives the byte back |
| Opcodes.ToByteInjective | src/opcode.rs:20-103 | distinct opcodes have distinct bytes |
| FixedStack.Stack.Default | src/stack.rs:13-21 | a new stack has capacity `n`, pointer 0 and no items |
| FixedStack.Stack.Reset | src/stack.rs:25-27 | the pointer goes back to 0 and the stack is empty; the slots are untouched |
| FixedStack.Stack.Push | src/stack.rs:30-37 | on a full stack: `None`, nothing changes; otherwise the value is stored at the old pointer, which is returned, the pointer grows by one and the contents gain the value on top |
| FixedStack.Stack.Pop | src/stack.rs:42-55 | on an empty stack: `None`; otherwise the top item is returned and removed |
| FixedStack.Stack.Top | src/stack.rs:60-71 | `None` exactly when the stack is empty, otherwise the last item of the contents |
| FixedStack.Stack.TopMut | src/stack.rs:76-87 | fails exactly on an empty stack; otherwise only the top item is replaced and the pointer is unchanged |
| FixedStack.Stack.Index | src/stack.rs:100-112 | an item exactly when `index` is below the pointer, and then the item at `index` |
| FixedStack.Stack.IndexMut | src/stack.rs:115-125 | succeeds exactly when `index` is below the pointer, and then replaces that one item |
| FixedStack.StackIter.New | src/stack.rs:135-142 | the iterator has all the stack's items still to yield, bottom first |
| FixedStack.StackIter.Next | src/stack.rs:145-156 | yields the first remaining item and drops it; `None` once nothing remains |
| FixedStack.StackIter.NextBack | src/stack.rs:159-168 | yields the last remaining item and drops it; `None` once nothing remains |
| FixedStack.StackIter.Len | src/stack.rs:171-174 | the number of items still to yield |
| FixedStack.LifoOrder | src/stack.rs:214-223 | pushing `0, …, n-1` and then popping `n` times yields `n-1, …, 0`, for every `n` up to the capacity |
| FixedStack.PushBeyondCapacity | src/stack.rs:231-238 | after 256 pushes onto a 256-slot stack, another push fails |
| Objects.AsUpvalue | src/object.rs:68-75 | succeeds exactly on an upvalue, with its id; otherwise `InvalidCast` |
| Objects.AsClosure | src/object.rs:77-84 | succeeds exactly on a closure, with its id; otherwise `InvalidCast` |
| Objects.AsFun | src/object.rs:86-93 | succeeds exactly on a function, with its id; otherwise `InvalidCast` |
| Objects.CastsExclusive | src/object.rs:68-93 | at most one of the three casts succeeds on any object |
| Objects.TracedCompose | src/object.rs:141-151 | marking `a` and then `b` is marking `a + b`: the worklist still holds each newly marked object once |
| Objects.TracedKeepsGreyMarked | src/object.rs:95-109 | if every grey object was marked before a marking step, it still is afterwards, and so is every newly grey object |
| Objects.TracedIdempotent | src/object.rs:95-109 | marking the same targets a second time marks nothing and greys nothing |
| Objects.GcData.constructor | src/object.rs:441-448 | a new cell is unmarked and linked to the given `next` |
| Objects.SetNextThenGetNext | src/object.rs:450-456 | after `set_next(x)`, `get_next` gives `x` back, and the mark bit stays as it was |
| Objects.GcData.SetNext | src/object.rs:454-456 | the link becomes `next` and the mark is unchanged |
| Objects.MarkThenIsMarked | src/object.rs:458-468 | `mark` returns true exactly when the cell was unmarked; afterwards `is_marked` is true, a second `mark` returns false, and `get_next` is unchanged |
| Objects.GcData.Mark | src/object.rs:462-468 | returns true exactly when the cell was unmarked; the cell is marked afterwards; on a marked cell nothing changes |
| Objects.GcData.Unmark | src/object.rs:470-472 | the mark is cleared and the link is unchanged |
| Objects.Memory.IsMarked | src/object.rs:126-137 | true exactly when the object's id is in the marked set |
| Objects.Memory.GetNext | src/object.rs:154-165 | the object's link in the intrusive list |
| Objects.Memory.SetNext | src/object.rs:168-179 | only that object's link changes; no mark changes |
| Objects.Memory.Unmark | src/object.rs:112-123 | only that object leaves the marked set; no link changes |
| Objects.Memory.Mark | src/object.rs:95-109 | the worklist gains the object exactly when it was unmarked; the object is marked afterwards; links are unchanged |
| Objects.Memory.MarkClosureReferences | src/object.rs:233-245 | marks the closure's function and every captured upvalue, greying the newly marked ones once each; keeps every grey object marked |
| Objects.Memory.MarkUpvalueReferences | src/object.rs:264-271 | a closed upvalue holding an object marks it; an open one or a non-object marks nothing |
| Objects.Memory.MarkFunReferences | src/object.rs:304-311 | marks exactly the object-valued constants |
| Objects.Memory.MarkClassReferences | src/object.rs:360-367 | marks every method closure |
| Objects.Memory.MarkInstanceReferences | src/object.rs:392-402 | marks the class and every object-valued field; non-object fields are ignored |
| Objects.Memory.MarkBoundMethodReferences | src/object.rs:419-427 | marks the method and, if it is an object, the receiver |
| Objects.Memory.MarkReferences | src/object.rs:141-151 | dispatching on the object's kind, marks every direct child of the object; strings and native functions have none; links are unchanged |
| Vm.CallFrame.ReadByte | src/vm.rs:623-632 | the byte at `ip`, with `ip` advanced by one; outside the instructions it panics |
| Vm.CallFrame.ReadShort | src/vm.rs:634-645 | the big-endian number `hi·256 + lo` from the bytes at `ip` and `ip+1`, with `ip` advanced by two |
| Vm.CallFrame.ReadConstant | src/vm.rs:648-653 | the constant indexed by the next byte, with `ip` advanced by one; an index past the constants panics |
| Vm.ReadShortIsTwoReads | src/vm.rs:634-645 | reading a short is two byte reads, high byte first |
| Vm.GlobalName | src/vm.rs:455-457 | a global's name is the constant's string; not an object gives `NotObject`, not a string gives `InvalidCast` |
| Vm.AddValues | src/vm.rs:538-560 | two strings concatenate; two objects that are not both strings are an error; anything else is the numeric addition |
| Vm.VirtualMachine.constructor | src/vm.rs:81-91 | empty stacks, and only the native `clock` defined |
| Vm.VirtualMachine.Frame | src/vm.rs:124-126 | the last frame; `StackExhausted` when there is none |
| Vm.VirtualMachine.FramesPush | src/vm.rs:132-139 | with 64 frames live: `StackOverflow` and no change; otherwise appends and returns the previous count |
| Vm.VirtualMachine.FramesPop | src/vm.rs:141-143 | removes and returns the last frame; `StackExhausted` when there is none |
| Vm.VirtualMachine.StackPush | src/vm.rs:145-152 | on 256 values: `StackOverflow` and no change; otherwise appends and returns the previous length |
| Vm.VirtualMachine.StackRemoveTop | src/vm.rs:154-156 | drops exactly the top `n` values; more than the stack holds panics |
| Vm.VirtualMachine.StackPop | src/vm.rs:158-160 | removes and returns the last value; `StackExhausted` when empty |
| Vm.VirtualMachine.StackTop | src/vm.rs:162-168 | `StackExhausted` when empty; the value at `len-n-1` when `n < len`; panics otherwise; the stack is never changed |
| Vm.VirtualMachine.StackTopMut | src/vm.rs:170-176 | like `StackTop`, but replaces that one value |
| Vm.VirtualMachine.ReadByte | src/vm.rs:245-248 | reads through the current frame and advances only that frame's `ip`; `StackExhausted` without a frame |
| Vm.VirtualMachine.ReadShort | src/vm.rs:250-253 | as `ReadByte`, for a 16-bit operand |
| Vm.VirtualMachine.ReadConstant | src/vm.rs:256-258 | as `ReadByte`, for a constant operand |
| Vm.VirtualMachine.Constant | src/vm.rs:490-494 | `ConstantSpec`: pushes the operand's constant, or `StackOverflow` on a full stack |
| Vm.VirtualMachine.GetLocal | src/vm.rs:432-440 | pushes a copy of stack slot `frame.slot + operand` |
| Vm.VirtualMachine.SetLocal | src/vm.rs:443-451 | copies the top into slot `frame.slot + operand` without popping it |
| Vm.VirtualMachine.GetGlobal | src/vm.rs:454-465 | pushes the named global's value; `UndefinedVariable` with the stack unchanged for an unknown name |
| Vm.VirtualMachine.SetGlobal | src/vm.rs:468-478 | overwrites a defined global with the top, without popping; an unknown name is `UndefinedVariable` and the globals are unchanged |
| Vm.VirtualMachine.DefineGlobal | src/vm.rs:481-487 | pops the top into the named global, defined or not |
| Vm.VirtualMachine.Binary | src/vm.rs:496-536 | pops the right operand and replaces the left with the operator's result; an operator error is passed on |
| Vm.VirtualMachine.Add | src/vm.rs:538-566 | replaces the two operands by their sum; on an error both operands stay on the stack |
| Vm.VirtualMachine.Unary | src/vm.rs:589-599 | replaces the top with the operator's result |
| Vm.VirtualMachine.Jump | src/vm.rs:401-409 | after the 2-byte offset, `ip` moves forward or back by it; the stack is unchanged |
| Vm.VirtualMachine.JumpIfTrue | src/vm.rs:411-419 | jumps forward exactly when the top is truthy; the stack is unchanged |
| Vm.VirtualMachine.JumpIfFalse | src/vm.rs:421-429 | jumps forward exactly when the top is falsey; the stack is unchanged |
| Vm.VirtualMachine.CallClosure | src/vm.rs:368-383 | `BadArgumentsCount{arity, argc}` when they differ; otherwise pushes a frame with `ip = 0` and `slot = len - argc - 1` |
| Vm.VirtualMachine.CallNative | src/vm.rs:385-399 | `BadArgumentsCount` when the arity differs; otherwise the callee and its arguments are replaced by the native's result |
| Vm.VirtualMachine.CallValue | src/vm.rs:349-366 | closures and natives are called; any other value is "Can only call functions and classes." |
| Vm.VirtualMachine.Call | src/vm.rs:342-347 | calls the value `argc` places below the top |
| Vm.VirtualMachine.Closure | src/vm.rs:322-328 | pushes a closure over the constant's object |
| Vm.VirtualMachine.Ret | src/vm.rs:330-340 | pops the result and the frame; after the last frame it pops the script and reports completion; otherwise the stack is cut back to the frame's `slot` and the result pushed |
| Vm.VirtualMachine.PushValue | src/vm.rs:275-283 | `PushSpec`, the `Nil`, `True` and `False` arms: the literal is pushed, or `StackOverflow` with the stack unchanged; frames and globals are unchanged |
| Vm.VirtualMachine.PopValue | src/vm.rs:284-286 | `PopSpec`, the `Pop` and `Print` arms: the top is dropped, or `StackExhausted` on an empty stack; frames and globals are unchanged |
| Vm.VirtualMachine.Handle | src/vm.rs:273-316 | `HandlerSpec`: each opcode other than `Ret` runs its own handler with the operator `run` gives it; an opcode without an arm is `Panicked` |
| Vm.VirtualMachine.Execute | src/vm.rs:273-316 | `OpcodeSpec`: `Ret` runs the return and may finish the program; every other opcode runs its handler and never finishes it |
| Vm.VirtualMachine.Step | src/vm.rs:262-320 | `StepSpec`: fetches a byte from the current frame (advancing its `ip`), rejects an unknown byte as `InvalidOpcode`, and otherwise runs the decoded opcode's `OpcodeSpec` |
| Vm.StepSpecOutcomes | src/vm.rs:273-315 | a step finishes the program only by returning from the last frame, and a step without a frame is `StackExhausted` and changes nothing |
| Vm.StepNil | src/vm.rs:273-277 | a step on a `Nil` byte with room on the stack pushes `nil`, moves `ip` past the byte and does not finish |
| Vm.VirtualMachine.Run | src/vm.rs:262-320 | `Ran`: the states it went through form a trace from the old state to the new one; each step is a `StepSpec` step; all steps but the last leave the program running; the result is `None` after `fuel` such steps, otherwise the last step's completion or error; it completes only with no frame left, and fails with `StackExhausted` when started without one |
| Vm.RanCompletes | src/vm.rs:273-320 | a run that completes ends with no frame left |
| Vm.RanWithoutFrames | src/vm.rs:262-273 | a run with fuel from a state without frames fails at once with `StackExhausted` and changes nothing |
| Vm.VirtualMachine.RunScript | src/vm.rs:109-121 | the script's closure goes on top of the stack and a frame for it is pushed with slot at the closure, and `Run` starts from exactly that state; a script with parameters is `BadArgumentsCount` |
| Vm.CallThenReturn | src/vm.rs:330-340 | at any call depth below the limit, a call and the callee's return leave the callers' frames exactly as they were and the caller's stack with the result on top |
| Vm.PushThenPop | src/vm.rs:145-160 | pushing and popping a value gives it back and restores the stack |
| Vm.FramesOverflow | src/vm.rs:132-139 | a worked example of the frame limit, with no test behind it in the source: once 64 frames are live, another frame push is `StackOverflow` |

## Left out

- The virtual machine's `interpret`, the compiler (`Parser::compile`) and the heap (`heap.rs`: allocation and sweep) are not part of this model. A new closure or string is a value on the stack, not a heap allocation.
- `clock_native` reads the system clock; the Rust function behind a native is a parameter.
- Printing is left out. `print`, `frames_trace`, `stack_trace`, `heap_trace` and the debug disassembly in `run` are not modelled; `Print` is reduced to its pop.
- Number arithmetic and comparison (`value.rs`, on `f64`) are operator parameters. Numbers are left abstract as `real`.
- Truthiness follows Lox: `nil` and `false` are falsey. The `value.rs` definition is not part of this model.
- `NE` and `EQ` use structural equality of the model's values. The Rust `PartialEq` for objects is not part of this model. Numbers are `real`, so the `f64` case where `NaN` is not equal to itself cannot be expressed.
- `Value::as_object` is not part of this model. Its error is assumed to be a value error, named `NotObject`.
- `vm.rs` objects use an `ObjectContent` interface that differs from `object.rs`. So `Vm` has its own object values (string, function, closure over a function, native with an arity), and the two models are not connected.
- A frame holds the function its closure wraps, not the closure. The cast of the closure's function inside `read_byte` therefore cannot fail; `CallClosure` checks that cast when the frame is made.
- Vm.VirtualMachine.Step: opcodes without a handler in `run` (`GetUpvalue`, `SetUpvalue`, `GetProperty`, `SetProperty`, `GetSuper`, `Invoke`, `SuperInvoke`, `CloseUpvalue`, `Class`, `Inherit`, `Method`) all give `Panicked`, as the source's `unreachable!` does; their semantics are not modelled.
- Vm.VirtualMachine.Run: the Rust loop is unbounded; the model is bounded by `fuel`, so a program running longer than `fuel` steps is reported as `None`.
- Vm.CallFrame.ReadShort: computes `hi·256 + lo`, which equals the source's `hi << 8 | lo` on bytes; the bit-vector form itself is not used.
- Vm.VirtualMachine.ReadConstant: on a constant index past the table the source has already advanced `ip` when it panics; the model returns `Panicked` with the frame unchanged.
- `usize` wrap-around is not modelled. The instruction pointer and slots are unbounded naturals. A `usize` subtraction below zero is `Panicked`.
- After a panic (`Panicked`), the handlers promise nothing about the state, because the process aborts.
- `Gc<T>`'s pointer layer (`NonNull`, `Box::leak`, `release`, `Deref`), `mem_size`, `addr` and every `Display` impl are left out. References are ids into `Objects.Memory`.
- A function payload is reduced to its name, arity, upvalue count and constants. `ObjFun::new`, `ObjClass::new`, `ObjInstance::new` and the native function pointer are not modelled.
- Object payloads are immutable here. The `RefCell` interior mutability of payloads is not used by the mark phase.
- The order in which the Rust code visits a class's methods or an instance's fields is not modelled; the model picks map keys in an arbitrary order.
- FixedStack.Stack.Pop: the Rust code moves the item out and leaves the slot uninitialised; the model leaves the old value in the slot, which no operation can observe.
