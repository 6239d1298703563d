/** The meaning of the interpreter of src/interp.rs as functions on a machine
    state: the operand stack, the definition table and the bytes written to
    standard output. Every built-in is a function from the state before it
    runs to an outcome; a failure keeps the state reached at the point of
    failure, because the source never rolls back. */
module Semantics {

  import opened Values
  import opened Numbers

  /** The interpreter's state: `stack` (src/interp.rs:11) with its top at the
      end, `storage` (src/interp.rs:10) and the output written so far. */
  datatype Machine = Machine(stack: seq<Value>, storage: map<seq<byte>, Value>, out: seq<byte>)

  /** How an operation ended, and the state it left. */
  datatype Outcome = Outcome(status: Result<()>, after: Machine)

  function Done(m: Machine): Outcome { Outcome(Ok(()), m) }

  function Fail(e: Error, m: Machine): Outcome { Outcome(Err(e), m) }

  const Empty := Machine([], map[], [])

  // ---------------------------------------------------------------------
  // The built-in table (src/interp.rs:67-109)

  datatype Builtin =
    | RaiseError | ExecAll | EvalTop | IfElse | PushArgs | DropTop | DupAt | SwapTop
    | Define | PeekLen | Defined | EmptyBytes | Write | Append
    | PlusUnsigned | MinusUnsigned | GtUnsigned | LtUnsigned | ParseUnsigned | PrintUnsigned

  /** The reserved name of each built-in, as bytes (the text is in the comment). */
  function Name(b: Builtin): seq<byte>
  {
    match b
    case RaiseError => [0x2E, 0x65, 0x72, 0x72, 0x6F, 0x72]  // .error
    case ExecAll => [0x2E, 0x7C, 0x3E]  // .|>
    case EvalTop => [0x2E]  // .
    case IfElse => [0x2E, 0x3F]  // .?
    case PushArgs => [0x2E, 0x70, 0x75, 0x73, 0x68]  // .push
    case DropTop => [0x2E, 0x64, 0x72, 0x6F, 0x70]  // .drop
    case DupAt => [0x2E, 0x64, 0x75, 0x70]  // .dup
    case SwapTop => [0x2E, 0x73, 0x77, 0x61, 0x70]  // .swap
    case Define => [0x2E, 0x64, 0x65, 0x66, 0x69, 0x6E, 0x65]  // .define
    case PeekLen => [0x2E, 0x70, 0x65, 0x65, 0x6B, 0x2D, 0x6C, 0x65, 0x6E]  // .peek-len
    case Defined => [0x2E, 0x40]  // .@
    case EmptyBytes => [0x2E, 0x65, 0x6D, 0x70, 0x74, 0x79, 0x2D, 0x62, 0x79, 0x74, 0x65, 0x73]  // .empty-bytes
    case Write => [0x2E, 0x77, 0x72, 0x69, 0x74, 0x65]  // .write
    case Append => [0x2E, 0x61, 0x70, 0x70, 0x65, 0x6E, 0x64]  // .append
    case PlusUnsigned => [0x2E, 0x75, 0x2B]  // .u+
    case MinusUnsigned => [0x2E, 0x75, 0x2D]  // .u-
    case GtUnsigned => [0x2E, 0x75, 0x3E]  // .u>
    case LtUnsigned => [0x2E, 0x75, 0x3C]  // .u<
    case ParseUnsigned => [0x2E, 0x75]  // .u
    case PrintUnsigned => [0x2E, 0x75, 0x2D, 0x70, 0x72, 0x69, 0x6E, 0x74]  // .u-print
  }

  /** The `match` of `call_builtin`: the built-in a name denotes, if any. */
  function BuiltinOf(name: seq<byte>): Option<Builtin>
  {
    if name == Name(RaiseError) then Some(RaiseError)
    else if name == Name(ExecAll) then Some(ExecAll)
    else if name == Name(EvalTop) then Some(EvalTop)
    else if name == Name(IfElse) then Some(IfElse)
    else if name == Name(PushArgs) then Some(PushArgs)
    else if name == Name(DropTop) then Some(DropTop)
    else if name == Name(DupAt) then Some(DupAt)
    else if name == Name(SwapTop) then Some(SwapTop)
    else if name == Name(Define) then Some(Define)
    else if name == Name(PeekLen) then Some(PeekLen)
    else if name == Name(Defined) then Some(Defined)
    else if name == Name(EmptyBytes) then Some(EmptyBytes)
    else if name == Name(Write) then Some(Write)
    else if name == Name(Append) then Some(Append)
    else if name == Name(PlusUnsigned) then Some(PlusUnsigned)
    else if name == Name(MinusUnsigned) then Some(MinusUnsigned)
    else if name == Name(GtUnsigned) then Some(GtUnsigned)
    else if name == Name(LtUnsigned) then Some(LtUnsigned)
    else if name == Name(ParseUnsigned) then Some(ParseUnsigned)
    else if name == Name(PrintUnsigned) then Some(PrintUnsigned)
    else None
  }

  // ---------------------------------------------------------------------
  // Stack access (src/interp.rs:32-36, 56-65, 257-259)

  function PushValue(m: Machine, v: Value): Machine
  {
    m.(stack := m.stack + [v])
  }

  /** `pop_expr`: the top value and the state without it. */
  function PopValue(m: Machine): (Result<Value>, Machine)
  {
    if m.stack == [] then (Err(StackUnderflow), m)
    else (Ok(m.stack[|m.stack| - 1]), m.(stack := m.stack[..|m.stack| - 1]))
  }

  /** `pop_expr()?.into_bytes()?`: the value is gone even when it is a list. */
  function PopBytes(m: Machine): (Result<seq<byte>>, Machine)
  {
    var (v, m1) := PopValue(m);
    if v.Err? then (Err(v.error), m1)
    else if v.value.List? then (Err(ExpectedBytes), m1)
    else (Ok(v.value.bytes), m1)
  }

  /** `pop_expr()?.into_list()?`. */
  function PopList(m: Machine): (Result<seq<Value>>, Machine)
  {
    var (v, m1) := PopValue(m);
    if v.Err? then (Err(v.error), m1)
    else if v.value.Bytes? then (Err(ExpectedList), m1)
    else (Ok(v.value.items), m1)
  }

  /** `pop_uint`: a byte string read as a little-endian number. */
  function PopUint(m: Machine): (Result<nat>, Machine)
  {
    var (w, m1) := PopBytes(m);
    if w.Err? then (Err(w.error), m1) else (Ok(Decode(w.value)), m1)
  }

  /** `peek_expr`: the value at depth `back`, the top being depth 0. */
  function Peek(stack: seq<Value>, back: nat): Result<Value>
  {
    if back < |stack| then Ok(stack[|stack| - 1 - back]) else Err(StackUnderflow)
  }

  /** `peek_expr` exactly as written: the index `len - 1 - back` is computed
      in `usize`, and with overflow checks on, an index below zero panics
      (`None` here) before the "not deep enough" error can be built. */
  function PeekAsWritten(stack: seq<Value>, back: nat): Option<Result<Value>>
  {
    if |stack| < back + 1 then None else Some(Peek(stack, back))
  }

  /** `swap_top_with`: the top exchanged with the value at depth `back`. */
  function SwapAt(stack: seq<Value>, back: nat): seq<Value>
    requires back < |stack|
  {
    var top, other := |stack| - 1, |stack| - 1 - back;
    stack[top := stack[other]][other := stack[top]]
  }

  /** The size `.peek-len` reports: bytes of a string, elements of a list. */
  function LengthOf(v: Value): nat
  {
    match v
    case Bytes(w) => |w|
    case List(vs) => |vs|
  }

  // ---------------------------------------------------------------------
  // Built-ins that do not evaluate (src/interp.rs:91-106, 117-135, 154-192, 207-255)

  function DefineOp(m: Machine): Outcome
  {
    var (d, m1) := PopValue(m);
    if d.Err? then Fail(d.error, m1) else
    var (w, m2) := PopBytes(m1);
    if w.Err? then Fail(w.error, m2) else
    Done(m2.(storage := m2.storage[w.value := d.value]))
  }

  /** `.@` (`dedef`): a presence check that pushes nothing. */
  function DefinedOp(m: Machine): Outcome
  {
    var (w, m1) := PopBytes(m);
    if w.Err? then Fail(w.error, m1)
    else if w.value in m1.storage then Done(m1)
    else Fail(NotDefined(w.value), m1)
  }

  function RaiseErrorOp(m: Machine): Outcome
  {
    var (v, m1) := PopValue(m);
    if v.Err? then Fail(v.error, m1) else Fail(Raised(v.value), m1)
  }

  function DropOp(m: Machine): Outcome
  {
    var (v, m1) := PopValue(m);
    if v.Err? then Fail(v.error, m1) else Done(m1)
  }

  function SwapOp(m: Machine): Outcome
  {
    var (n, m1) := PopUint(m);
    if n.Err? then Fail(n.error, m1)
    else if n.value < |m1.stack| then Done(m1.(stack := SwapAt(m1.stack, n.value)))
    else Fail(StackUnderflow, m1)
  }

  function DupOp(m: Machine): Outcome
  {
    var (n, m1) := PopUint(m);
    if n.Err? then Fail(n.error, m1) else
    var v := Peek(m1.stack, n.value);
    if v.Err? then Fail(v.error, m1) else Done(PushValue(m1, v.value))
  }

  function PeekLenOp(m: Machine): Outcome
  {
    var v := Peek(m.stack, 0);
    if v.Err? then Fail(v.error, m) else Done(PushValue(m, Bytes(Encode(LengthOf(v.value)))))
  }

  function WriteOp(m: Machine): Outcome
  {
    var (w, m1) := PopBytes(m);
    if w.Err? then Fail(w.error, m1) else Done(m1.(out := m1.out + w.value))
  }

  function AppendOp(m: Machine): Outcome
  {
    var (v, m1) := PopValue(m);
    if v.Err? then Fail(v.error, m1) else
    var (l, m2) := PopList(m1);
    if l.Err? then Fail(l.error, m2) else Done(PushValue(m2, List(l.value + [v.value])))
  }

  /** The two operands of an unsigned operator: `rhs` is popped first. */
  function PopOperands(m: Machine): (Result<(nat, nat)>, Machine)
  {
    var (rhs, m1) := PopUint(m);
    if rhs.Err? then (Err(rhs.error), m1) else
    var (lhs, m2) := PopUint(m1);
    if lhs.Err? then (Err(lhs.error), m2) else (Ok((lhs.value, rhs.value)), m2)
  }

  function PlusOp(m: Machine): Outcome
  {
    var (ops, m1) := PopOperands(m);
    if ops.Err? then Fail(ops.error, m1) else
    Done(PushValue(m1, Bytes(Encode(ops.value.0 + ops.value.1))))
  }

  /** `BigUint` subtraction panics below zero; here that is an error. */
  function MinusOp(m: Machine): Outcome
  {
    var (ops, m1) := PopOperands(m);
    if ops.Err? then Fail(ops.error, m1)
    else if ops.value.0 < ops.value.1 then Fail(NegativeDifference, m1)
    else Done(PushValue(m1, Bytes(Encode(ops.value.0 - ops.value.1))))
  }

  /** A comparison result: the single byte 1 or 0. */
  function Flag(b: bool): seq<byte>
  {
    if b then [1] else [0]
  }

  function LtOp(m: Machine): Outcome
  {
    var (ops, m1) := PopOperands(m);
    if ops.Err? then Fail(ops.error, m1) else Done(PushValue(m1, Bytes(Flag(ops.value.0 < ops.value.1))))
  }

  function GtOp(m: Machine): Outcome
  {
    var (ops, m1) := PopOperands(m);
    if ops.Err? then Fail(ops.error, m1) else Done(PushValue(m1, Bytes(Flag(ops.value.0 > ops.value.1))))
  }

  /** `.u`: a decimal numeral replaced by its little-endian encoding. */
  function ParseUnsignedOp(m: Machine): Outcome
  {
    var (w, m1) := PopBytes(m);
    if w.Err? then Fail(w.error, m1) else
    var n := ParseDecimal(w.value);
    if n.None? then Fail(InvalidNumeral, m1) else Done(PushValue(m1, Bytes(Encode(n.value))))
  }

  /** `.u-print`: the number in decimal and a line feed go to the output. */
  function PrintUnsignedOp(m: Machine): Outcome
  {
    var (w, m1) := PopBytes(m);
    if w.Err? then Fail(w.error, m1) else Done(m1.(out := m1.out + ShowDecimal(Decode(w.value)) + [0x0A]))
  }

  // ---------------------------------------------------------------------
  // Evaluation (src/interp.rs:38-54, 67-109, 140-152, 194-205). `fuel` bounds
  // the depth of nested evaluations; running out is the error OutOfFuel.

  /** `eval`: the head names the word, the other elements are pushed in order,
      a definition is looked up before the built-ins. */
  function Eval(fuel: nat, call: seq<Value>, m: Machine): Outcome
    decreases fuel, 5, 0
  {
    if call == [] then Fail(EmptyCall, m)
    else if call[0].List? then Fail(ExpectedBytes, m)
    else
      var name := call[0].bytes;
      var m1 := m.(stack := m.stack + call[1..]);
      if name in m1.storage then
        var body := m1.storage[name];
        if body.Bytes? then Fail(ExpectedList, m1)
        else if fuel == 0 then Fail(OutOfFuel, m1)
        else Eval(fuel - 1, body.items, m1)
      else CallBuiltin(fuel, name, m1)
  }

  function CallBuiltin(fuel: nat, name: seq<byte>, m: Machine): Outcome
    decreases fuel, 4, 0
  {
    match BuiltinOf(name)
    case None => Fail(UnknownWord(name), m)
    case Some(b) =>
      match b
      case RaiseError => RaiseErrorOp(m)
      case ExecAll => ExecAllOp(fuel, m)
      case EvalTop => EvalTopOp(fuel, m)
      case IfElse => IfElseOp(fuel, m)
      case PushArgs => Done(m)
      case DropTop => DropOp(m)
      case DupAt => DupOp(m)
      case SwapTop => SwapOp(m)
      case Define => DefineOp(m)
      case PeekLen => PeekLenOp(m)
      case Defined => DefinedOp(m)
      case EmptyBytes => Done(PushValue(m, Bytes([])))
      case Write => WriteOp(m)
      case Append => AppendOp(m)
      case PlusUnsigned => PlusOp(m)
      case MinusUnsigned => MinusOp(m)
      case GtUnsigned => GtOp(m)
      case LtUnsigned => LtOp(m)
      case ParseUnsigned => ParseUnsignedOp(m)
      case PrintUnsigned => PrintUnsignedOp(m)
  }

  /** `.?`: pops the condition; truthy runs the value just beneath it,
      falsy runs the one beneath that, after dropping the other. */
  function IfElseOp(fuel: nat, m: Machine): Outcome
    decreases fuel, 3, 0
  {
    var (c, m1) := PopBytes(m);
    if c.Err? then Fail(c.error, m1)
    else if IsTruthy(c.value) then
      if |m1.stack| < 2 then Fail(StackUnderflow, m1) else
      var d := DropOp(m1.(stack := SwapAt(m1.stack, 1)));
      if d.status.Err? then d else EvalTopOp(fuel, d.after)
    else
      var d := DropOp(m1);
      if d.status.Err? then d else EvalTopOp(fuel, d.after)
  }

  /** `.`: pops a list and evaluates it as a call. */
  function EvalTopOp(fuel: nat, m: Machine): Outcome
    decreases fuel, 2, 0
  {
    var (l, m1) := PopList(m);
    if l.Err? then Fail(l.error, m1)
    else if fuel == 0 then Fail(OutOfFuel, m1)
    else Eval(fuel - 1, l.value, m1)
  }

  /** `.|>`: pops a list of calls and evaluates them in order. */
  function ExecAllOp(fuel: nat, m: Machine): Outcome
    decreases fuel, 2, 0
  {
    var (l, m1) := PopList(m);
    if l.Err? then Fail(l.error, m1) else ExecItems(fuel, l.value, m1)
  }

  /** The loop of `exec_all`: each element must be a list; the first failure stops it. */
  function ExecItems(fuel: nat, items: seq<Value>, m: Machine): Outcome
    decreases fuel, 1, |items|
  {
    if items == [] then Done(m)
    else if items[0].Bytes? then Fail(ExpectedList, m)
    else if fuel == 0 then Fail(OutOfFuel, m)
    else
      var o := Eval(fuel - 1, items[0].items, m);
      if o.status.Err? then o else ExecItems(fuel, items[1..], o.after)
  }
}
