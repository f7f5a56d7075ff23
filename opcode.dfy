/**
 * The byte encoding of the VM's instructions (src/opcode.rs): every opcode is
 * stored in the instruction stream as its declared `u8` discriminant.
 */
module Opcodes {
  import opened Results

  /** An unsigned 8-bit integer, the element type of the instruction stream. */
  newtype byte = x: int | 0 <= x < 256

  /** The largest discriminant in use (`Method = 40`). */
  const MaxOpcode: byte := 40

  /** The instructions of the VM, in declaration order. */
  datatype Opcode
    = Const
    | Nil
    | True
    | False
    | Pop
    | GetLocal
    | SetLocal
    | GetGlobal
    | SetGlobal
    | DefineGlobal
    | GetUpvalue
    | SetUpvalue
    | GetProperty
    | SetProperty
    | GetSuper
    | NE
    | EQ
    | GT
    | GE
    | LT
    | LE
    | Add
    | Sub
    | Mul
    | Div
    | Not
    | Neg
    | Print
    | Jump
    | JumpIfTrue
    | JumpIfFalse
    | Loop
    | Call
    | Invoke
    | SuperInvoke
    | Closure
    | CloseUpvalue
    | Ret
    | Class
    | Inherit
    | Method

  /** The failure of `From<u8> for Opcode`, which panics with "Unknown byte-code". */
  datatype DecodeError = UnknownByteCode(b: byte)

  /** `u8::from(op)`: the declared discriminant of `op`. */
  function ToByte(op: Opcode): (b: byte)
    ensures b <= MaxOpcode
  {
    match op
      case Const => 0
      case Nil => 1
      case True => 2
      case False => 3
      case Pop => 4
      case GetLocal => 5
      case SetLocal => 6
      case GetGlobal => 7
      case SetGlobal => 8
      case DefineGlobal => 9
      case GetUpvalue => 10
      case SetUpvalue => 11
      case GetProperty => 12
      case SetProperty => 13
      case GetSuper => 14
      case NE => 15
      case EQ => 16
      case GT => 17
      case GE => 18
      case LT => 19
      case LE => 20
      case Add => 21
      case Sub => 22
      case Mul => 23
      case Div => 24
      case Not => 25
      case Neg => 26
      case Print => 27
      case Jump => 28
      case JumpIfTrue => 29
      case JumpIfFalse => 30
      case Loop => 31
      case Call => 32
      case Invoke => 33
      case SuperInvoke => 34
      case Closure => 35
      case CloseUpvalue => 36
      case Ret => 37
      case Class => 38
      case Inherit => 39
      case Method => 40
  }

  /** `Opcode::from(byte)`: the opcode whose discriminant is `b`; any larger byte is rejected. */
  function FromByte(b: byte): (r: Result<Opcode, DecodeError>)
    ensures r.Ok? <==> b <= MaxOpcode
    ensures r.Err? ==> r.error == UnknownByteCode(b)
  {
    match b
      case 0 => Ok(Const)
      case 1 => Ok(Nil)
      case 2 => Ok(True)
      case 3 => Ok(False)
      case 4 => Ok(Pop)
      case 5 => Ok(GetLocal)
      case 6 => Ok(SetLocal)
      case 7 => Ok(GetGlobal)
      case 8 => Ok(SetGlobal)
      case 9 => Ok(DefineGlobal)
      case 10 => Ok(GetUpvalue)
      case 11 => Ok(SetUpvalue)
      case 12 => Ok(GetProperty)
      case 13 => Ok(SetProperty)
      case 14 => Ok(GetSuper)
      case 15 => Ok(NE)
      case 16 => Ok(EQ)
      case 17 => Ok(GT)
      case 18 => Ok(GE)
      case 19 => Ok(LT)
      case 20 => Ok(LE)
      case 21 => Ok(Add)
      case 22 => Ok(Sub)
      case 23 => Ok(Mul)
      case 24 => Ok(Div)
      case 25 => Ok(Not)
      case 26 => Ok(Neg)
      case 27 => Ok(Print)
      case 28 => Ok(Jump)
      case 29 => Ok(JumpIfTrue)
      case 30 => Ok(JumpIfFalse)
      case 31 => Ok(Loop)
      case 32 => Ok(Call)
      case 33 => Ok(Invoke)
      case 34 => Ok(SuperInvoke)
      case 35 => Ok(Closure)
      case 36 => Ok(CloseUpvalue)
      case 37 => Ok(Ret)
      case 38 => Ok(Class)
      case 39 => Ok(Inherit)
      case 40 => Ok(Method)
      case _ => Err(UnknownByteCode(b))
  }

  /** Decoding the encoding of an opcode gives the opcode back. */
  lemma DecodeEncode(op: Opcode)
    ensures FromByte(ToByte(op)) == Ok(op)
  {
  }

  /** Every byte up to 40 decodes to the opcode whose discriminant it is. */
  lemma EncodeDecode(b: byte)
    requires b <= MaxOpcode
    ensures FromByte(b).Ok? && ToByte(FromByte(b).value) == b
  {
  }

  /** Distinct opcodes have distinct bytes. */
  lemma ToByteInjective(a: Opcode, b: Opcode)
    requires ToByte(a) == ToByte(b)
    ensures a == b
  {
    DecodeEncode(a);
    DecodeEncode(b);
  }
}
