/** The interpreter of src/interp.rs as a class whose methods change its stack,
    definition table and output in place. Each method is proved to do exactly
    what the matching function of module Semantics says. */
module Interp {

  import opened Values
  import opened Numbers
  import S = Semantics

  class Interpreter {
    var storage: map<seq<byte>, Value>
    var stack: seq<Value>
    /** Bytes written to standard output by `.write` and `.u-print`. */
    var out: seq<byte>

    /** The state as a value of the semantics. */
    function State(): S.Machine
      reads this
    {
      S.Machine(stack, storage, out)
    }

    /** `Interpreter::new`: an empty stack and an empty table. */
    constructor ()
      ensures State() == S.Empty
    {
      storage := map[];
      stack := [];
      out := [];
    }

    /** `swap_top_with`: exchanges the top with depth `back`; where the source
        would underflow an index, this fails and leaves the stack alone. */
    method SwapTopWith(back: nat) returns (r: Result<()>)
      modifies this
      ensures back < |old(stack)| ==> r == Ok(()) && stack == S.SwapAt(old(stack), back)
      ensures back >= |old(stack)| ==> r == Err(StackUnderflow) && stack == old(stack)
      ensures storage == old(storage) && out == old(out)
    {
      var len := |stack|;
      if back >= len {
        return Err(StackUnderflow);
      }
      var top, other := len - 1, len - 1 - back;
      var moved := stack[top];
      stack := stack[top := stack[other]];
      stack := stack[other := moved];
      r := Ok(());
    }

    /** `pop_expr`. */
    method PopExpr() returns (r: Result<Value>)
      modifies this
      ensures (r, State()) == S.PopValue(old(State()))
    {
      if stack == [] {
        return Err(StackUnderflow);
      }
      r := Ok(stack[|stack| - 1]);
      stack := stack[..|stack| - 1];
    }

    /** `peek_expr`: the value at depth `back`, read without change. */
    method PeekExpr(back: nat) returns (r: Result<Value>)
      ensures r == S.Peek(stack, back)
      ensures r.Ok? <==> back < |stack|
    {
      if back >= |stack| {
        return Err(StackUnderflow);
      }
      r := Ok(stack[|stack| - 1 - back]);
    }

    /** `eval`: takes the head, pushes the other elements in order, then runs
        the head's definition or, failing that, the built-in of that name. */
    method Eval(fuel: nat, call: seq<Value>) returns (r: Result<()>)
      modifies this
      ensures S.Outcome(r, State()) == S.Eval(fuel, call, old(State()))
      decreases fuel, 5, 0
    {
      if call == [] {
        return Err(EmptyCall);
      }
      var head := call[0];
      if head.List? {
        return Err(ExpectedBytes);
      }
      var name := head.bytes;
      stack := stack + call[1..];
      if name in storage {
        var definition := storage[name];
        if definition.Bytes? {
          return Err(ExpectedList);
        }
        if fuel == 0 {
          return Err(OutOfFuel);
        }
        r := Eval(fuel - 1, definition.items);
        return;
      }
      r := CallBuiltin(fuel, name);
    }

    /** `call_builtin`, with `.u` and `.u-print` written inline as in the source. */
    method CallBuiltin(fuel: nat, name: seq<byte>) returns (r: Result<()>)
      modifies this
      ensures S.Outcome(r, State()) == S.CallBuiltin(fuel, name, old(State()))
      decreases fuel, 4, 0
    {
      match S.BuiltinOf(name) {
        case None =>
          r := Err(UnknownWord(name));
        case Some(b) =>
          match b {
            case RaiseError => r := RaiseError(this);
            case ExecAll => r := ExecAll(this, fuel);
            case EvalTop => r := EvalList(this, fuel);
            case IfElse => r := IfElse(this, fuel);
            case PushArgs => r := Push(this);
            case DropTop => r := Drop(this);
            case DupAt => r := Dup(this);
            case SwapTop => r := Swap(this);
            case Define => r := Define(this);
            case PeekLen => r := Length(this);
            case Defined => r := Dedef(this);
            case EmptyBytes => r := EmptyBytes(this);
            case Write => r := Write(this);
            case Append => r := Append(this);
            case PlusUnsigned => r := PlusUnsigned(this);
            case MinusUnsigned => r := MinusUnsigned(this);
            case GtUnsigned => r := GtUnsigned(this);
            case LtUnsigned => r := LtUnsigned(this);
            case ParseUnsigned =>
              var w := PopBytes(this);
              if w.Err? {
                return Err(w.error);
              }
              var n := ParseDecimal(w.value);
              if n.None? {
                return Err(InvalidNumeral);
              }
              stack := stack + [Bytes(Encode(n.value))];
              r := Ok(());
            case PrintUnsigned =>
              var w := PopBytes(this);
              if w.Err? {
                return Err(w.error);
              }
              out := out + ShowDecimal(Decode(w.value)) + [0x0A];
              r := Ok(());
          }
      }
    }
  }

  // -----------------------------------------------------------------------
  // `mod builtins` (src/interp.rs:112-260)

  /** `pop_expr()?.into_bytes()`. */
  method PopBytes(interp: Interpreter) returns (r: Result<seq<byte>>)
    modifies interp
    ensures (r, interp.State()) == S.PopBytes(old(interp.State()))
  {
    var v := interp.PopExpr();
    if v.Err? {
      return Err(v.error);
    }
    if v.value.List? {
      return Err(ExpectedBytes);
    }
    r := Ok(v.value.bytes);
  }

  /** `pop_expr()?.into_list()`. */
  method PopList(interp: Interpreter) returns (r: Result<seq<Value>>)
    modifies interp
    ensures (r, interp.State()) == S.PopList(old(interp.State()))
  {
    var v := interp.PopExpr();
    if v.Err? {
      return Err(v.error);
    }
    if v.value.Bytes? {
      return Err(ExpectedList);
    }
    r := Ok(v.value.items);
  }

  /** `pop_uint`. */
  method PopUint(interp: Interpreter) returns (r: Result<nat>)
    modifies interp
    ensures (r, interp.State()) == S.PopUint(old(interp.State()))
  {
    var w := PopBytes(interp);
    if w.Err? {
      return Err(w.error);
    }
    r := Ok(Decode(w.value));
  }

  method Define(interp: Interpreter) returns (r: Result<()>)
    modifies interp
    ensures S.Outcome(r, interp.State()) == S.DefineOp(old(interp.State()))
  {
    var definition := interp.PopExpr();
    if definition.Err? {
      return Err(definition.error);
    }
    var w := PopBytes(interp);
    if w.Err? {
      return Err(w.error);
    }
    interp.storage := interp.storage[w.value := definition.value];
    r := Ok(());
  }

  method Dedef(interp: Interpreter) returns (r: Result<()>)
    modifies interp
    ensures S.Outcome(r, interp.State()) == S.DefinedOp(old(interp.State()))
  {
    var w := PopBytes(interp);
    if w.Err? {
      return Err(w.error);
    }
    if w.value !in interp.storage {
      return Err(NotDefined(w.value));
    }
    r := Ok(());
  }

  method RaiseError(interp: Interpreter) returns (r: Result<()>)
    modifies interp
    ensures S.Outcome(r, interp.State()) == S.RaiseErrorOp(old(interp.State()))
  {
    var v := interp.PopExpr();
    if v.Err? {
      return Err(v.error);
    }
    r := Err(Raised(v.value));
  }

  method ExecAll(interp: Interpreter, fuel: nat) returns (r: Result<()>)
    modifies interp
    ensures S.Outcome(r, interp.State()) == S.ExecAllOp(fuel, old(interp.State()))
    decreases fuel, 2, 0
  {
    var list := PopList(interp);
    if list.Err? {
      return Err(list.error);
    }
    var items := list.value;
    ghost var start := interp.State();
    var i := 0;
    while i < |items|
      invariant 0 <= i <= |items|
      invariant S.ExecItems(fuel, items[i..], interp.State()) == S.ExecItems(fuel, items, start)
      decreases |items| - i
    {
      var el := items[i];
      assert items[i..][0] == el && items[i..][1..] == items[i + 1..];
      if el.Bytes? {
        return Err(ExpectedList);
      }
      if fuel == 0 {
        return Err(OutOfFuel);
      }
      r := interp.Eval(fuel - 1, el.items);
      if r.Err? {
        return;
      }
      i := i + 1;
    }
    assert items[i..] == [];
    r := Ok(());
  }

  /** Builtin `.` (`builtins::eval`). */
  method EvalList(interp: Interpreter, fuel: nat) returns (r: Result<()>)
    modifies interp
    ensures S.Outcome(r, interp.State()) == S.EvalTopOp(fuel, old(interp.State()))
    decreases fuel, 2, 0
  {
    var el := PopList(interp);
    if el.Err? {
      return Err(el.error);
    }
    if fuel == 0 {
      return Err(OutOfFuel);
    }
    r := interp.Eval(fuel - 1, el.value);
  }

  method IfElse(interp: Interpreter, fuel: nat) returns (r: Result<()>)
    modifies interp
    ensures S.Outcome(r, interp.State()) == S.IfElseOp(fuel, old(interp.State()))
    decreases fuel, 3, 0
  {
    var cond := PopBytes(interp);
    if cond.Err? {
      return Err(cond.error);
    }
    if IsTruthy(cond.value) {
      r := interp.SwapTopWith(1);
      if r.Err? {
        return;
      }
      r := Drop(interp);
      if r.Err? {
        return;
      }
      r := EvalList(interp, fuel);
    } else {
      r := Drop(interp);
      if r.Err? {
        return;
      }
      r := EvalList(interp, fuel);
    }
  }

  /** `.push` does nothing itself: the call already pushed its arguments. */
  method Push(interp: Interpreter) returns (r: Result<()>)
    ensures r == Ok(())
  {
    r := Ok(());
  }

  method Drop(interp: Interpreter) returns (r: Result<()>)
    modifies interp
    ensures S.Outcome(r, interp.State()) == S.DropOp(old(interp.State()))
  {
    var v := interp.PopExpr();
    if v.Err? {
      return Err(v.error);
    }
    r := Ok(());
  }

  method Swap(interp: Interpreter) returns (r: Result<()>)
    modifies interp
    ensures S.Outcome(r, interp.State()) == S.SwapOp(old(interp.State()))
  {
    var back := PopUint(interp);
    if back.Err? {
      return Err(back.error);
    }
    r := interp.SwapTopWith(back.value);
  }

  method Dup(interp: Interpreter) returns (r: Result<()>)
    modifies interp
    ensures S.Outcome(r, interp.State()) == S.DupOp(old(interp.State()))
  {
    var back := PopUint(interp);
    if back.Err? {
      return Err(back.error);
    }
    var v := interp.PeekExpr(back.value);
    if v.Err? {
      return Err(v.error);
    }
    interp.stack := interp.stack + [v.value];
    r := Ok(());
  }

  /** `.peek-len` (`builtins::length`). */
  method Length(interp: Interpreter) returns (r: Result<()>)
    modifies interp
    ensures S.Outcome(r, interp.State()) == S.PeekLenOp(old(interp.State()))
  {
    var el := interp.PeekExpr(0);
    if el.Err? {
      return Err(el.error);
    }
    var len := match el.value
      case Bytes(w) => |w|
      case List(l) => |l|;
    interp.stack := interp.stack + [Bytes(Encode(len))];
    r := Ok(());
  }

  method EmptyBytes(interp: Interpreter) returns (r: Result<()>)
    modifies interp
    ensures S.Outcome(r, interp.State()) == S.Done(S.PushValue(old(interp.State()), Bytes([])))
  {
    interp.stack := interp.stack + [Bytes([])];
    r := Ok(());
  }

  method Write(interp: Interpreter) returns (r: Result<()>)
    modifies interp
    ensures S.Outcome(r, interp.State()) == S.WriteOp(old(interp.State()))
  {
    var w := PopBytes(interp);
    if w.Err? {
      return Err(w.error);
    }
    interp.out := interp.out + w.value;
    r := Ok(());
  }

  method Append(interp: Interpreter) returns (r: Result<()>)
    modifies interp
    ensures S.Outcome(r, interp.State()) == S.AppendOp(old(interp.State()))
  {
    var toAppend := interp.PopExpr();
    if toAppend.Err? {
      return Err(toAppend.error);
    }
    var list := PopList(interp);
    if list.Err? {
      return Err(list.error);
    }
    interp.stack := interp.stack + [List(list.value + [toAppend.value])];
    r := Ok(());
  }

  method PlusUnsigned(interp: Interpreter) returns (r: Result<()>)
    modifies interp
    ensures S.Outcome(r, interp.State()) == S.PlusOp(old(interp.State()))
  {
    var rhs := PopUint(interp);
    if rhs.Err? {
      return Err(rhs.error);
    }
    var lhs := PopUint(interp);
    if lhs.Err? {
      return Err(lhs.error);
    }
    interp.stack := interp.stack + [Bytes(Encode(lhs.value + rhs.value))];
    r := Ok(());
  }

  method MinusUnsigned(interp: Interpreter) returns (r: Result<()>)
    modifies interp
    ensures S.Outcome(r, interp.State()) == S.MinusOp(old(interp.State()))
  {
    var rhs := PopUint(interp);
    if rhs.Err? {
      return Err(rhs.error);
    }
    var lhs := PopUint(interp);
    if lhs.Err? {
      return Err(lhs.error);
    }
    if lhs.value < rhs.value {
      return Err(NegativeDifference);
    }
    interp.stack := interp.stack + [Bytes(Encode(lhs.value - rhs.value))];
    r := Ok(());
  }

  method LtUnsigned(interp: Interpreter) returns (r: Result<()>)
    modifies interp
    ensures S.Outcome(r, interp.State()) == S.LtOp(old(interp.State()))
  {
    var rhs := PopUint(interp);
    if rhs.Err? {
      return Err(rhs.error);
    }
    var lhs := PopUint(interp);
    if lhs.Err? {
      return Err(lhs.error);
    }
    interp.stack := interp.stack + [Bytes(S.Flag(lhs.value < rhs.value))];
    r := Ok(());
  }

  method GtUnsigned(interp: Interpreter) returns (r: Result<()>)
    modifies interp
    ensures S.Outcome(r, interp.State()) == S.GtOp(old(interp.State()))
  {
    var rhs := PopUint(interp);
    if rhs.Err? {
      return Err(rhs.error);
    }
    var lhs := PopUint(interp);
    if lhs.Err? {
      return Err(lhs.error);
    }
    interp.stack := interp.stack + [Bytes(S.Flag(lhs.value > rhs.value))];
    r := Ok(());
  }
}
