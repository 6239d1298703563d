/** Properties of the interpreter semantics: dispatch, the stack effect of each
    built-in, arithmetic, and what evaluation never undoes. */
module Facts {

  import opened Values
  import opened Numbers
  import opened Semantics

  /** Every reserved name denotes its own built-in: the table is one-to-one. */
  lemma BuiltinNameDenotes(b: Builtin)
    ensures BuiltinOf(Name(b)) == Some(b)
  {
    match b
    case RaiseError =>
    case ExecAll =>
    case EvalTop =>
    case IfElse =>
    case PushArgs =>
    case DropTop =>
    case DupAt =>
    case SwapTop =>
    case Define =>
    case PeekLen =>
    case Defined =>
    case EmptyBytes =>
    case Write =>
    case Append =>
    case PlusUnsigned =>
    case MinusUnsigned =>
    case GtUnsigned =>
    case LtUnsigned =>
    case ParseUnsigned =>
    case PrintUnsigned =>
  }

  // ---------------------------------------------------------------------
  // Dispatch (src/interp.rs:38-54)

  /** A call whose head is not a byte string, or with no head, fails and changes nothing. */
  lemma MalformedCallFails(fuel: nat, call: seq<Value>, m: Machine)
    requires call == [] || call[0].List?
    ensures Eval(fuel, call, m).status.Err? && Eval(fuel, call, m).after == m
  {
  }

  /** The arguments are pushed in order, the last on top; then a defined name
      runs its stored body (a byte-string body is an error) and only an
      undefined name reaches the built-ins, failing when it is none of them. */
  lemma EvalDispatch(fuel: nat, name: seq<byte>, args: seq<Value>, m: Machine)
    ensures var pushed := m.(stack := m.stack + args);
      Eval(fuel, [Bytes(name)] + args, m)
      == if name in m.storage then
           (if m.storage[name].Bytes? then Fail(ExpectedList, pushed)
            else if fuel == 0 then Fail(OutOfFuel, pushed)
            else Eval(fuel - 1, m.storage[name].items, pushed))
         else if BuiltinOf(name).None? then Fail(UnknownWord(name), pushed)
         else CallBuiltin(fuel, name, pushed)
  {
    assert ([Bytes(name)] + args)[1..] == args;
  }

  /** User definitions shadow built-ins: a defined name never reaches the built-in table. */
  lemma DefinitionShadowsBuiltin(fuel: nat, b: Builtin, body: seq<Value>, args: seq<Value>, m: Machine)
    requires Name(b) in m.storage && m.storage[Name(b)] == List(body)
    ensures Eval(fuel + 1, [Bytes(Name(b))] + args, m) == Eval(fuel, body, m.(stack := m.stack + args))
  {
    EvalDispatch(fuel + 1, Name(b), args, m);
  }

  /** `.push` does nothing itself, so a call to it shows the argument passing:
      the arguments land on the stack in order, the last one on top. */
  lemma ArgumentsPushedInOrder(fuel: nat, args: seq<Value>, m: Machine)
    requires Name(PushArgs) !in m.storage
    ensures Eval(fuel, [Bytes(Name(PushArgs))] + args, m) == Done(m.(stack := m.stack + args))
    ensures args != [] ==> Eval(fuel, [Bytes(Name(PushArgs))] + args, m).after.stack[|m.stack| + |args| - 1] == args[|args| - 1]
  {
    EvalDispatch(fuel, Name(PushArgs), args, m);
    BuiltinNameDenotes(PushArgs);
  }

  // ---------------------------------------------------------------------
  // Definitions (src/interp.rs:117-131)

  /** `.define` pops the body, then a byte-string name, and binds the name
      (overwriting any earlier binding); the stack shrinks by exactly two. */
  lemma DefineEffect(m: Machine)
    ensures var n := |m.stack|;
      DefineOp(m).status.Ok? <==> n >= 2 && m.stack[n - 2].Bytes?
    ensures var n := |m.stack|;
      DefineOp(m).status.Ok? ==>
        DefineOp(m).after == m.(stack := m.stack[..n - 2],
                                storage := m.storage[m.stack[n - 2].bytes := m.stack[n - 1]])
  {
    var n := |m.stack|;
    if n >= 2 {
      assert m.stack[..n - 1][..n - 2] == m.stack[..n - 2];
    }
  }

  /** Defining a word and then calling it runs the body with the call's
      arguments pushed. */
  lemma DefineThenCall(fuel: nat, m: Machine, name: seq<byte>, body: seq<Value>, args: seq<Value>)
    requires |m.stack| >= 2
    requires m.stack[|m.stack| - 2] == Bytes(name) && m.stack[|m.stack| - 1] == List(body)
    ensures DefineOp(m).status.Ok?
    ensures var d := DefineOp(m).after;
      Eval(fuel + 1, [Bytes(name)] + args, d) == Eval(fuel, body, d.(stack := d.stack + args))
  {
    DefineEffect(m);
    EvalDispatch(fuel + 1, name, args, DefineOp(m).after);
  }

  /** `.@` pops a byte-string name, fails exactly when it is not defined, pushes
      nothing and never changes the table. */
  lemma DefinedEffect(m: Machine)
    ensures DefinedOp(m).after.storage == m.storage && DefinedOp(m).after.out == m.out
    ensures m.stack != [] ==> DefinedOp(m).after.stack == m.stack[..|m.stack| - 1]
    ensures var n := |m.stack|;
      DefinedOp(m).status.Ok? <==> n >= 1 && m.stack[n - 1].Bytes? && m.stack[n - 1].bytes in m.storage
  {
  }

  // ---------------------------------------------------------------------
  // Depth-indexed stack operations (src/interp.rs:32-36, 60-65, 164-181)

  /** As written, `peek_expr` never returns its own "not deep enough" error:
      every too-deep peek, the empty stack included, is an arithmetic panic. */
  lemma PeekAsWrittenPanics(stack: seq<Value>, back: nat)
    ensures PeekAsWritten(stack, back) != Some(Err(StackUnderflow))
    ensures PeekAsWritten(stack, back).None? <==> back >= |stack|
    ensures PeekAsWritten([], 0).None?
  {
  }

  /** The intended peek: the value at depth `back` when the stack is deep
      enough, and the error otherwise, never a panic. */
  lemma PeekMeaning(stack: seq<Value>, back: nat)
    ensures Peek(stack, back).Err? <==> back >= |stack|
    ensures Peek(stack, back).Err? ==> Peek(stack, back).error == StackUnderflow
    ensures Peek(stack, back).Ok? ==> Peek(stack, back).value == stack[|stack| - 1 - back]
    ensures back < |stack| ==> PeekAsWritten(stack, back) == Some(Peek(stack, back))
  {
  }

  /** Swapping exchanges the top with depth `back` and keeps every other position. */
  lemma {:induction false} SwapAtEffect(s: seq<Value>, back: nat)
    requires back < |s|
    ensures |SwapAt(s, back)| == |s|
    ensures SwapAt(s, back)[|s| - 1] == s[|s| - 1 - back]
    ensures SwapAt(s, back)[|s| - 1 - back] == s[|s| - 1]
    ensures forall i :: 0 <= i < |s| && i != |s| - 1 && i != |s| - 1 - back ==> SwapAt(s, back)[i] == s[i]
    ensures multiset(SwapAt(s, back)) == multiset(s)
  {
    var top, other := |s| - 1, |s| - 1 - back;
    var t := s[top := s[other]];
    assert multiset(t) == multiset(s) - multiset{s[top]} + multiset{s[other]};
  }

  /** Swapping twice with the same depth restores the stack. */
  lemma SwapTwice(s: seq<Value>, back: nat)
    requires back < |s|
    ensures SwapAt(SwapAt(s, back), back) == s
  {
    SwapAtEffect(s, back);
    SwapAtEffect(SwapAt(s, back), back);
  }

  /** `.swap` with depth `n` on top: fails unless `n` is below the remaining
      depth; otherwise exchanges the top with depth `n` and changes nothing else. */
  lemma SwapEffect(m: Machine, s: seq<Value>, w: seq<byte>)
    requires m.stack == s + [Bytes(w)]
    ensures SwapOp(m).status.Ok? <==> Decode(w) < |s|
    ensures SwapOp(m).status.Ok? ==> SwapOp(m).after == m.(stack := SwapAt(s, Decode(w)))
    ensures SwapOp(m).status.Err? ==> SwapOp(m).after == m.(stack := s)
  {
    assert m.stack[..|m.stack| - 1] == s;
  }

  /** `.dup` with depth `n` on top: fails unless the remaining stack is `n+1`
      deep; otherwise pushes a copy of depth `n`, which now sits at depth `n+1`. */
  lemma DupEffect(m: Machine, s: seq<Value>, w: seq<byte>)
    requires m.stack == s + [Bytes(w)]
    ensures DupOp(m).status.Ok? <==> Decode(w) < |s|
    ensures DupOp(m).status.Ok? ==> DupOp(m).after == m.(stack := s + [s[|s| - 1 - Decode(w)]])
    ensures DupOp(m).status.Ok? ==>
      var t := DupOp(m).after.stack;
      t[|t| - 1] == t[|t| - 2 - Decode(w)] && t[..|t| - 1] == s
    ensures DupOp(m).status.Err? ==> DupOp(m).after == m.(stack := s)
  {
    assert m.stack[..|m.stack| - 1] == s;
  }

  // ---------------------------------------------------------------------
  // Values (src/interp.rs:184-192, 249-255)

  /** `.append` pops a value, then a list, and pushes the list extended by the value. */
  lemma AppendEffect(m: Machine)
    ensures var n := |m.stack|;
      AppendOp(m).status.Ok? <==> n >= 2 && m.stack[n - 2].List?
    ensures var n := |m.stack|;
      AppendOp(m).status.Ok? ==>
        AppendOp(m).after == m.(stack := m.stack[..n - 2] + [List(m.stack[n - 2].items + [m.stack[n - 1]])])
  {
    var n := |m.stack|;
    if n >= 2 {
      assert m.stack[..n - 1][..n - 2] == m.stack[..n - 2];
    }
  }

  /** `.peek-len` keeps the top and pushes one canonical number equal to its length;
      on an empty stack it fails and changes nothing. */
  lemma PeekLenEffect(m: Machine)
    ensures PeekLenOp(m).status.Ok? <==> m.stack != []
    ensures m.stack == [] ==> PeekLenOp(m) == Fail(StackUnderflow, m)
    ensures m.stack != [] ==>
      PushedNumber(PeekLenOp(m), m, m.stack, LengthOf(m.stack[|m.stack| - 1]))
  {
    if m.stack != [] {
      PushedEncoding(m, m.stack, LengthOf(m.stack[|m.stack| - 1]));
    }
  }

  // ---------------------------------------------------------------------
  // Unsigned arithmetic (src/interp.rs:220-247, 257-268)

  /** The outcome left `s` below and pushed one canonical number equal to `n`. */
  predicate PushedNumber(o: Outcome, m: Machine, s: seq<Value>, n: nat)
  {
    && o.status.Ok?
    && o.after.storage == m.storage && o.after.out == m.out
    && |o.after.stack| == |s| + 1 && o.after.stack[..|s|] == s
    && o.after.stack[|s|].Bytes?
    && Decode(o.after.stack[|s|].bytes) == n
    && Canonical(o.after.stack[|s|].bytes)
  }

  lemma PushedEncoding(m: Machine, s: seq<Value>, n: nat)
    ensures PushedNumber(Done(m.(stack := s + [Bytes(Encode(n))])), m, s, n)
  {
    DecodeOfEncode(n);
    EncodeIsCanonical(n);
    assert (s + [Bytes(Encode(n))])[..|s|] == s;
  }

  /** `.u+` pops rhs, then lhs, and pushes their sum. */
  lemma PlusAdds(m: Machine, s: seq<Value>, lhs: seq<byte>, rhs: seq<byte>)
    requires m.stack == s + [Bytes(lhs), Bytes(rhs)]
    ensures PushedNumber(PlusOp(m), m, s, Decode(lhs) + Decode(rhs))
  {
    Pops2(m, s, lhs, rhs);
    PushedEncoding(m, s, Decode(lhs) + Decode(rhs));
  }

  /** `.u-` pushes lhs - rhs, and fails (leaving both popped) when lhs < rhs. */
  lemma MinusSubtracts(m: Machine, s: seq<Value>, lhs: seq<byte>, rhs: seq<byte>)
    requires m.stack == s + [Bytes(lhs), Bytes(rhs)]
    ensures MinusOp(m).status.Ok? <==> Decode(lhs) >= Decode(rhs)
    ensures Decode(lhs) >= Decode(rhs) ==> PushedNumber(MinusOp(m), m, s, Decode(lhs) - Decode(rhs))
    ensures Decode(lhs) < Decode(rhs) ==> MinusOp(m) == Fail(NegativeDifference, m.(stack := s))
  {
    Pops2(m, s, lhs, rhs);
    if Decode(lhs) >= Decode(rhs) {
      PushedEncoding(m, s, Decode(lhs) - Decode(rhs));
    }
  }

  /** `.u<` and `.u>` push the byte 1 when the comparison holds and 0 otherwise. */
  lemma ComparisonsCompare(m: Machine, s: seq<Value>, lhs: seq<byte>, rhs: seq<byte>)
    requires m.stack == s + [Bytes(lhs), Bytes(rhs)]
    ensures LtOp(m) == Done(m.(stack := s + [Bytes(if Decode(lhs) < Decode(rhs) then [1] else [0])]))
    ensures GtOp(m) == Done(m.(stack := s + [Bytes(if Decode(lhs) > Decode(rhs) then [1] else [0])]))
  {
    Pops2(m, s, lhs, rhs);
  }

  /** A comparison result is truthy exactly when the comparison holds, and
      reads as the number 1 or 0. */
  lemma FlagMeaning(b: bool)
    ensures IsTruthy(Flag(b)) == b
    ensures Decode(Flag(b)) == if b then 1 else 0
  {
    if b {
      assert Flag(b)[0] != 0;
    }
  }

  lemma Pops2(m: Machine, s: seq<Value>, lhs: seq<byte>, rhs: seq<byte>)
    requires m.stack == s + [Bytes(lhs), Bytes(rhs)]
    ensures PopOperands(m) == (Ok((Decode(lhs), Decode(rhs))), m.(stack := s))
  {
    assert m.stack[..|m.stack| - 1] == s + [Bytes(lhs)];
    assert (s + [Bytes(lhs)])[..|s|] == s;
  }

  /** `.u` turns a decimal numeral into the little-endian encoding of its
      value, and fails on anything but a non-empty run of ASCII digits. */
  lemma ParseUnsignedEffect(m: Machine, s: seq<Value>, w: seq<byte>)
    requires m.stack == s + [Bytes(w)]
    ensures ParseUnsignedOp(m).status.Ok? <==> w != [] && AllDigits(w)
    ensures w != [] && AllDigits(w) ==> PushedNumber(ParseUnsignedOp(m), m, s, DigitsValue(w))
    ensures !(w != [] && AllDigits(w)) ==> ParseUnsignedOp(m) == Fail(InvalidNumeral, m.(stack := s))
  {
    assert m.stack[..|m.stack| - 1] == s;
    if w != [] && AllDigits(w) {
      PushedEncoding(m, s, DigitsValue(w));
    }
  }

  /** `.u-print` writes the number's decimal digits and a line feed; a numeral
      read by `.u` is printed back as itself when it has no leading zeros. */
  lemma PrintAfterParse(m: Machine, s: seq<Value>, w: seq<byte>)
    requires m.stack == s + [Bytes(w)]
    requires w != [] && AllDigits(w) && (w[0] == 0x30 ==> |w| == 1)
    ensures ParseUnsignedOp(m).status.Ok?
    ensures PrintUnsignedOp(ParseUnsignedOp(m).after) == Done(m.(stack := s, out := m.out + w + [0x0A]))
  {
    ParseUnsignedEffect(m, s, w);
    var p := ParseUnsignedOp(m).after;
    assert p.stack == s + [Bytes(Encode(DigitsValue(w)))];
    assert p.stack[..|p.stack| - 1] == s;
    DecodeOfEncode(DigitsValue(w));
    ShowOfParse(w);
  }

  // ---------------------------------------------------------------------
  // Control (src/interp.rs:140-152, 194-205)

  /** `.?` with the condition on top: a truthy condition runs the value just
      under it, a falsy one the value beneath that; the other is dropped. */
  lemma IfElseChooses(fuel: nat, m: Machine, s: seq<Value>, x: Value, y: Value, c: seq<byte>)
    requires m.stack == s + [x, y, Bytes(c)]
    ensures IfElseOp(fuel, m) == EvalTopOp(fuel, m.(stack := s + [if IsTruthy(c) then y else x]))
  {
    var m1 := m.(stack := s + [x, y]);
    assert m.stack[..|m.stack| - 1] == s + [x, y];
    if IsTruthy(c) {
      var t := SwapAt(s + [x, y], 1);
      assert t == s + [y, x];
      assert t[..|t| - 1] == s + [y];
    } else {
      assert (s + [x, y])[..|s| + 1] == s + [x];
    }
  }

  /** `.` runs the popped list as a call. */
  lemma EvalTopRuns(fuel: nat, m: Machine, s: seq<Value>, call: seq<Value>)
    requires m.stack == s + [List(call)]
    ensures EvalTopOp(fuel + 1, m) == Eval(fuel, call, m.(stack := s))
  {
    assert m.stack[..|m.stack| - 1] == s;
  }

  /** `.|>` runs its calls strictly in order: running `a + b` is running `a`
      and then, unless that failed, `b` from where `a` left off. */
  lemma {:induction false} ExecItemsInOrder(fuel: nat, a: seq<Value>, b: seq<Value>, m: Machine)
    ensures ExecItems(fuel, a + b, m)
         == (var o := ExecItems(fuel, a, m); if o.status.Err? then o else ExecItems(fuel, b, o.after))
    decreases |a|
  {
    if a == [] {
      assert a + b == b;
    } else {
      assert (a + b)[0] == a[0] && (a + b)[1..] == a[1..] + b;
      if a[0].List? && fuel > 0 {
        var o := Eval(fuel - 1, a[0].items, m);
        if o.status.Ok? {
          ExecItemsInOrder(fuel, a[1..], b, o.after);
        }
      }
    }
  }

  // ---------------------------------------------------------------------
  // What evaluation never undoes

  /** Output only grows at its end, and no definition is ever removed. */
  predicate Extends(m: Machine, m': Machine)
  {
    m.out <= m'.out && m.storage.Keys <= m'.storage.Keys
  }

  lemma {:induction false} EvalExtends(fuel: nat, call: seq<Value>, m: Machine)
    ensures Extends(m, Eval(fuel, call, m).after)
    decreases fuel, 5, 0
  {
    if call != [] && call[0].Bytes? {
      var name := call[0].bytes;
      var m1 := m.(stack := m.stack + call[1..]);
      if name in m1.storage {
        if m1.storage[name].List? && fuel > 0 {
          EvalExtends(fuel - 1, m1.storage[name].items, m1);
        }
      } else {
        CallBuiltinExtends(fuel, name, m1);
      }
    }
  }

  lemma {:induction false} CallBuiltinExtends(fuel: nat, name: seq<byte>, m: Machine)
    ensures Extends(m, CallBuiltin(fuel, name, m).after)
    decreases fuel, 4, 0
  {
    match BuiltinOf(name)
    case None =>
    case Some(b) =>
      match b
      case ExecAll => ExecAllExtends(fuel, m);
      case EvalTop => EvalTopExtends(fuel, m);
      case IfElse => IfElseExtends(fuel, m);
      case _ =>
  }

  lemma {:induction false} IfElseExtends(fuel: nat, m: Machine)
    ensures Extends(m, IfElseOp(fuel, m).after)
    decreases fuel, 3, 0
  {
    var (c, m1) := PopBytes(m);
    if c.Ok? {
      if IsTruthy(c.value) {
        if |m1.stack| >= 2 {
          var d := DropOp(m1.(stack := SwapAt(m1.stack, 1)));
          if d.status.Ok? {
            EvalTopExtends(fuel, d.after);
          }
        }
      } else {
        var d := DropOp(m1);
        if d.status.Ok? {
          EvalTopExtends(fuel, d.after);
        }
      }
    }
  }

  lemma {:induction false} EvalTopExtends(fuel: nat, m: Machine)
    ensures Extends(m, EvalTopOp(fuel, m).after)
    decreases fuel, 2, 0
  {
    var (l, m1) := PopList(m);
    if l.Ok? && fuel > 0 {
      EvalExtends(fuel - 1, l.value, m1);
    }
  }

  lemma {:induction false} ExecAllExtends(fuel: nat, m: Machine)
    ensures Extends(m, ExecAllOp(fuel, m).after)
    decreases fuel, 2, 0
  {
    var (l, m1) := PopList(m);
    if l.Ok? {
      ExecItemsExtends(fuel, l.value, m1);
    }
  }

  lemma {:induction false} ExecItemsExtends(fuel: nat, items: seq<Value>, m: Machine)
    ensures Extends(m, ExecItems(fuel, items, m).after)
    decreases fuel, 1, |items|
  {
    if items != [] && items[0].List? && fuel > 0 {
      var o := Eval(fuel - 1, items[0].items, m);
      EvalExtends(fuel - 1, items[0].items, m);
      if o.status.Ok? {
        ExecItemsExtends(fuel, items[1..], o.after);
      }
    }
  }

  // ---------------------------------------------------------------------
  // The evaluation bound only cuts evaluations short

  /** An evaluation that did not run out of fuel gives the same outcome with more fuel. */
  lemma {:induction false} EvalFuel(fuel: nat, call: seq<Value>, m: Machine)
    ensures Eval(fuel, call, m).status != Err(OutOfFuel) ==> Eval(fuel + 1, call, m) == Eval(fuel, call, m)
    decreases fuel, 5, 0
  {
    if call != [] && call[0].Bytes? {
      var name := call[0].bytes;
      var m1 := m.(stack := m.stack + call[1..]);
      if name in m1.storage {
        if m1.storage[name].List? && fuel > 0 {
          EvalFuel(fuel - 1, m1.storage[name].items, m1);
        }
      } else {
        CallBuiltinFuel(fuel, name, m1);
      }
    }
  }

  lemma {:induction false} CallBuiltinFuel(fuel: nat, name: seq<byte>, m: Machine)
    ensures CallBuiltin(fuel, name, m).status != Err(OutOfFuel) ==> CallBuiltin(fuel + 1, name, m) == CallBuiltin(fuel, name, m)
    decreases fuel, 4, 0
  {
    match BuiltinOf(name)
    case None =>
    case Some(b) =>
      match b
      case ExecAll => ExecAllFuel(fuel, m);
      case EvalTop => EvalTopFuel(fuel, m);
      case IfElse => IfElseFuel(fuel, m);
      case _ =>
  }

  lemma {:induction false} IfElseFuel(fuel: nat, m: Machine)
    ensures IfElseOp(fuel, m).status != Err(OutOfFuel) ==> IfElseOp(fuel + 1, m) == IfElseOp(fuel, m)
    decreases fuel, 3, 0
  {
    var (c, m1) := PopBytes(m);
    if c.Ok? {
      if IsTruthy(c.value) {
        if |m1.stack| >= 2 {
          var d := DropOp(m1.(stack := SwapAt(m1.stack, 1)));
          if d.status.Ok? {
            EvalTopFuel(fuel, d.after);
          }
        }
      } else {
        var d := DropOp(m1);
        if d.status.Ok? {
          EvalTopFuel(fuel, d.after);
        }
      }
    }
  }

  lemma {:induction false} EvalTopFuel(fuel: nat, m: Machine)
    ensures EvalTopOp(fuel, m).status != Err(OutOfFuel) ==> EvalTopOp(fuel + 1, m) == EvalTopOp(fuel, m)
    decreases fuel, 2, 0
  {
    var (l, m1) := PopList(m);
    if l.Ok? && fuel > 0 {
      EvalFuel(fuel - 1, l.value, m1);
    }
  }

  lemma {:induction false} ExecAllFuel(fuel: nat, m: Machine)
    ensures ExecAllOp(fuel, m).status != Err(OutOfFuel) ==> ExecAllOp(fuel + 1, m) == ExecAllOp(fuel, m)
    decreases fuel, 2, 0
  {
    var (l, m1) := PopList(m);
    if l.Ok? {
      ExecItemsFuel(fuel, l.value, m1);
    }
  }

  lemma {:induction false} ExecItemsFuel(fuel: nat, items: seq<Value>, m: Machine)
    ensures ExecItems(fuel, items, m).status != Err(OutOfFuel) ==> ExecItems(fuel + 1, items, m) == ExecItems(fuel, items, m)
    decreases fuel, 1, |items|
  {
    if items != [] && items[0].List? && fuel > 0 {
      var o := Eval(fuel - 1, items[0].items, m);
      assert ExecItems(fuel, items, m) == if o.status.Err? then o else ExecItems(fuel, items[1..], o.after);
      assert ExecItems(fuel + 1, items, m)
          == (var o' := Eval(fuel, items[0].items, m);
              if o'.status.Err? then o' else ExecItems(fuel + 1, items[1..], o'.after));
      if ExecItems(fuel, items, m).status != Err(OutOfFuel) {
        EvalFuel(fuel - 1, items[0].items, m);
        if o.status.Ok? {
          ExecItemsFuel(fuel, items[1..], o.after);
        }
      }
    }
  }

  /** Any larger bound gives the same outcome. */
  lemma {:induction false} EvalFuelMonotone(fuel: nat, more: nat, call: seq<Value>, m: Machine)
    requires Eval(fuel, call, m).status != Err(OutOfFuel)
    ensures Eval(fuel + more, call, m) == Eval(fuel, call, m)
    decreases more
  {
    if more > 0 {
      EvalFuelMonotone(fuel, more - 1, call, m);
      EvalFuel(fuel + more - 1, call, m);
    }
  }
}
