/** Whole programs run on the semantics: the worked examples of the language,
    written as the parsed values their program text reads as. */
module Scenarios {

  import opened Values
  import opened Numbers
  import opened Semantics
  import opened Facts
  import Parser

  /** The word naming built-in `b`, and the call `(b args...)`. */
  function Word(b: Builtin): Value { Bytes(Name(b)) }

  function Call(b: Builtin, args: seq<Value>): Value { List([Word(b)] + args) }

  /** One call `(b args...)` of the body of `.|>`, where `b` is not redefined:
      the arguments are pushed, the built-in runs, and unless it failed the
      remaining calls follow. */
  lemma StepCall(fuel: nat, b: Builtin, args: seq<Value>, rest: seq<Value>, m: Machine)
    requires Name(b) !in m.storage
    ensures ExecItems(fuel + 1, [Call(b, args)] + rest, m)
         == (var o := CallBuiltin(fuel, Name(b), m.(stack := m.stack + args));
             if o.status.Err? then o else ExecItems(fuel + 1, rest, o.after))
  {
    var items := [Call(b, args)] + rest;
    assert items[0] == Call(b, args) && items[1..] == rest;
    EvalDispatch(fuel, Name(b), args, m);
    BuiltinNameDenotes(b);
  }

  lemma StepBuiltin(fuel: nat, b: Builtin, args: seq<Value>, rest: seq<Value>, m: Machine, m': Machine)
    requires Name(b) !in m.storage
    requires CallBuiltin(fuel, Name(b), m.(stack := m.stack + args)) == Done(m')
    ensures ExecItems(fuel + 1, [Call(b, args)] + rest, m) == ExecItems(fuel + 1, rest, m')
  {
    StepCall(fuel, b, args, rest, m);
  }

  /** `.u` on a numeral whose value fits one byte. */
  lemma ParseSmall(m: Machine, s: seq<Value>, w: seq<byte>)
    requires w != [] && AllDigits(w) && DigitsValue(w) < 256 && m.stack == s + [Bytes(w)]
    ensures ParseUnsignedOp(m) == Done(m.(stack := s + [Bytes([DigitsValue(w) as byte])]))
  {
    assert m.stack[..|m.stack| - 1] == s;
  }

  /** `.u-print` of a one-byte number. */
  lemma PrintSmall(m: Machine, s: seq<Value>, n: byte)
    requires m.stack == s + [Bytes([n])]
    ensures PrintUnsignedOp(m) == Done(m.(stack := s, out := m.out + ShowDecimal(n as nat) + [0x0A]))
  {
    assert m.stack[..|m.stack| - 1] == s;
    assert Decode([n]) == n as nat by {
      assert [n][1..] == [];
    }
  }

  /** `.u+` of two numbers whose sum is below 256. */
  lemma AddSmall(m: Machine, s: seq<Value>, a: byte, b: byte)
    requires a as int + b as int < 256 && m.stack == s + [Bytes([a]), Bytes([b])]
    ensures PlusOp(m) == Done(m.(stack := s + [Bytes([a + b])]))
  {
    Pops2(m, s, [a], [b]);
    assert [a][1..] == [] && [b][1..] == [];
  }

  /** A program `.|> ( calls... )` runs its calls in order. */
  lemma RunsInOrder(fuel: nat, calls: seq<Value>, m: Machine)
    requires Name(ExecAll) !in m.storage
    ensures Eval(fuel, [Word(ExecAll), List(calls)], m) == ExecItems(fuel, calls, m)
  {
    EvalDispatch(fuel, Name(ExecAll), [List(calls)], m);
    BuiltinNameDenotes(ExecAll);
    assert [Word(ExecAll), List(calls)] == [Bytes(Name(ExecAll))] + [List(calls)];
    assert (m.stack + [List(calls)])[..|m.stack|] == m.stack;
  }

  lemma ParseStep(fuel: nat, w: seq<byte>, rest: seq<Value>, m: Machine)
    requires w != [] && AllDigits(w) && DigitsValue(w) < 256 && Name(ParseUnsigned) !in m.storage
    ensures ExecItems(fuel + 1, [Call(ParseUnsigned, [Bytes(w)])] + rest, m)
         == ExecItems(fuel + 1, rest, m.(stack := m.stack + [Bytes([DigitsValue(w) as byte])]))
  {
    BuiltinNameDenotes(ParseUnsigned);
    ParseSmall(m.(stack := m.stack + [Bytes(w)]), m.stack, w);
    StepBuiltin(fuel, ParseUnsigned, [Bytes(w)], rest, m, m.(stack := m.stack + [Bytes([DigitsValue(w) as byte])]));
  }

  lemma AddStep(fuel: nat, s: seq<Value>, a: byte, b: byte, rest: seq<Value>, m: Machine)
    requires a as int + b as int < 256 && m.stack == s + [Bytes([a]), Bytes([b])] && Name(PlusUnsigned) !in m.storage
    ensures ExecItems(fuel + 1, [Call(PlusUnsigned, [])] + rest, m)
         == ExecItems(fuel + 1, rest, m.(stack := s + [Bytes([a + b])]))
  {
    BuiltinNameDenotes(PlusUnsigned);
    AddSmall(m, s, a, b);
    assert m.(stack := m.stack + []) == m;
    StepBuiltin(fuel, PlusUnsigned, [], rest, m, m.(stack := s + [Bytes([a + b])]));
  }

  lemma PrintStep(fuel: nat, s: seq<Value>, n: byte, rest: seq<Value>, m: Machine)
    requires m.stack == s + [Bytes([n])] && Name(PrintUnsigned) !in m.storage
    ensures ExecItems(fuel + 1, [Call(PrintUnsigned, [])] + rest, m)
         == ExecItems(fuel + 1, rest, m.(stack := s, out := m.out + ShowDecimal(n as nat) + [0x0A]))
  {
    BuiltinNameDenotes(PrintUnsigned);
    PrintSmall(m, s, n);
    assert m.(stack := m.stack + []) == m;
    StepBuiltin(fuel, PrintUnsigned, [], rest, m, m.(stack := s, out := m.out + ShowDecimal(n as nat) + [0x0A]));
  }

  lemma PushStep(fuel: nat, args: seq<Value>, rest: seq<Value>, m: Machine)
    requires Name(PushArgs) !in m.storage
    ensures ExecItems(fuel + 1, [Call(PushArgs, args)] + rest, m)
         == ExecItems(fuel + 1, rest, m.(stack := m.stack + args))
  {
    BuiltinNameDenotes(PushArgs);
    StepBuiltin(fuel, PushArgs, args, rest, m, m.(stack := m.stack + args));
  }

  lemma GtStep(fuel: nat, s: seq<Value>, a: byte, b: byte, rest: seq<Value>, m: Machine)
    requires m.stack == s + [Bytes([a]), Bytes([b])] && Name(GtUnsigned) !in m.storage
    ensures ExecItems(fuel + 1, [Call(GtUnsigned, [])] + rest, m)
         == ExecItems(fuel + 1, rest, m.(stack := s + [Bytes(if a > b then [1] else [0])]))
  {
    var m' := m.(stack := s + [Bytes(if a > b then [1] else [0])]);
    assert GtOp(m) == Done(m') by {
      ComparisonsCompare(m, s, [a], [b]);
      assert Decode([a]) == a as nat && Decode([b]) == b as nat by {
        assert [a][1..] == [] && [b][1..] == [];
      }
    }
    assert CallBuiltin(fuel, Name(GtUnsigned), m.(stack := m.stack + [])) == Done(m') by {
      BuiltinNameDenotes(GtUnsigned);
      assert m.(stack := m.stack + []) == m;
    }
    StepBuiltin(fuel, GtUnsigned, [], rest, m, m');
  }

  /** `.u-` stops the program when the difference would be negative. */
  lemma MinusFailsStep(fuel: nat, s: seq<Value>, a: byte, b: byte, rest: seq<Value>, m: Machine)
    requires a < b && m.stack == s + [Bytes([a]), Bytes([b])] && Name(MinusUnsigned) !in m.storage
    ensures ExecItems(fuel + 1, [Call(MinusUnsigned, [])] + rest, m) == Fail(NegativeDifference, m.(stack := s))
  {
    BuiltinNameDenotes(MinusUnsigned);
    MinusSubtracts(m, s, [a], [b]);
    assert [a][1..] == [] && [b][1..] == [];
    assert m.(stack := m.stack + []) == m;
    StepCall(fuel, MinusUnsigned, [], rest, m);
  }

  lemma DefineStep(fuel: nat, name: seq<byte>, body: Value, rest: seq<Value>, m: Machine)
    requires Name(Define) !in m.storage
    ensures ExecItems(fuel + 1, [Call(Define, [Bytes(name), body])] + rest, m)
         == ExecItems(fuel + 1, rest, m.(storage := m.storage[name := body]))
  {
    BuiltinNameDenotes(Define);
    var pushed := m.(stack := m.stack + [Bytes(name), body]);
    assert pushed.stack[..|pushed.stack| - 1] == m.stack + [Bytes(name)];
    assert (m.stack + [Bytes(name)])[..|m.stack|] == m.stack;
    assert DefineOp(pushed) == Done(m.(storage := m.storage[name := body]));
    StepBuiltin(fuel, Define, [Bytes(name), body], rest, m, m.(storage := m.storage[name := body]));
  }

  /** Calling a word defined as `(.|> (calls...))` runs those calls. */
  lemma CallWordStep(fuel: nat, name: seq<byte>, calls: seq<Value>, rest: seq<Value>, m: Machine)
    requires name in m.storage && m.storage[name] == Call(ExecAll, [List(calls)])
    requires Name(ExecAll) !in m.storage
    ensures ExecItems(fuel + 2, [List([Bytes(name)])] + rest, m)
         == (var o := ExecItems(fuel, calls, m);
             if o.status.Err? then o else ExecItems(fuel + 2, rest, o.after))
  {
    var items := [List([Bytes(name)])] + rest;
    assert items[0] == List([Bytes(name)]) && items[1..] == rest;
    EvalDispatch(fuel + 1, name, [], m);
    assert [Bytes(name)] + [] == [Bytes(name)];
    assert m.(stack := m.stack + []) == m;
    assert Call(ExecAll, [List(calls)]).items == [Word(ExecAll), List(calls)];
    RunsInOrder(fuel, calls, m);
  }

  /** `.?` with the condition on top of two quoted calls runs one of them. */
  lemma IfElseStep(fuel: nat, s: seq<Value>, x: Value, y: Value, c: seq<byte>, rest: seq<Value>, m: Machine)
    requires x.List? && y.List? && m.stack == s + [x, y, Bytes(c)] && Name(IfElse) !in m.storage
    ensures ExecItems(fuel + 2, [Call(IfElse, [])] + rest, m)
         == (var o := Eval(fuel, (if IsTruthy(c) then y else x).items, m.(stack := s));
             if o.status.Err? then o else ExecItems(fuel + 2, rest, o.after))
  {
    BuiltinNameDenotes(IfElse);
    assert m.(stack := m.stack + []) == m;
    StepCall(fuel + 1, IfElse, [], rest, m);
    IfElseChooses(fuel + 1, m, s, x, y, c);
    var chosen := if IsTruthy(c) then y else x;
    EvalTopRuns(fuel, m.(stack := s + [chosen]), s, chosen.items);
  }

  /** `.|> ( (.u 2) (.u 3) (.u+) (.u-print) )` prints "5" and a line feed. */
  lemma AddAndPrint(fuel: nat)
    requires fuel >= 1
    ensures Eval(fuel, [Word(ExecAll), List([
              Call(ParseUnsigned, [Bytes([0x32])]),
              Call(ParseUnsigned, [Bytes([0x33])]),
              Call(PlusUnsigned, []),
              Call(PrintUnsigned, [])])], Empty)
         == Done(Machine([], map[], [0x35, 0x0A]))
  {
    var c1, c2, c3, c4 := Call(ParseUnsigned, [Bytes([0x32])]), Call(ParseUnsigned, [Bytes([0x33])]),
      Call(PlusUnsigned, []), Call(PrintUnsigned, []);
    var f := fuel - 1;
    RunsInOrder(fuel, [c1, c2, c3, c4], Empty);
    assert [c1, c2, c3, c4] == [c1] + [c2, c3, c4];
    assert DigitsValue([0x32]) == 2 && DigitsValue([0x33]) == 3 by {
      assert [0x32][..0] == [] && [0x33][..0] == [];
    }
    ParseStep(f, [0x32], [c2, c3, c4], Empty);
    assert [c2, c3, c4] == [c2] + [c3, c4];
    ParseStep(f, [0x33], [c3, c4], Machine([Bytes([2])], map[], []));
    assert [c3, c4] == [c3] + [c4];
    AddStep(f, [], 2, 3, [c4], Machine([Bytes([2]), Bytes([3])], map[], []));
    assert [c4] == [c4] + [];
    PrintStep(f, [], 5, [], Machine([Bytes([5])], map[], []));
    assert Empty.(stack := Empty.stack + [Bytes([2])]) == Machine([Bytes([2])], map[], []);
    assert Machine([Bytes([2])], map[], []).(stack := [Bytes([2])] + [Bytes([3])])
        == Machine([Bytes([2]), Bytes([3])], map[], []);
    assert Machine([Bytes([2]), Bytes([3])], map[], []).(stack := [] + [Bytes([2 + 3])]) == Machine([Bytes([5])], map[], []);
    assert ShowDecimal(5) == [0x35];
    assert Machine([Bytes([5])], map[], []).(stack := [], out := [] + [0x35] + [0x0A]) == Machine([], map[], [0x35, 0x0A]);
  }

  /** The text `(.u 2) (.u 3) (.u+) (.u-print)`. */
  function AddAndPrintCallsText(): seq<byte>
  {
    [0x28, 0x2E, 0x75, 0x20, 0x32, 0x29, 0x20,
     0x28, 0x2E, 0x75, 0x20, 0x33, 0x29, 0x20,
     0x28, 0x2E, 0x75, 0x2B, 0x29, 0x20,
     0x28, 0x2E, 0x75, 0x2D, 0x70, 0x72, 0x69, 0x6E, 0x74, 0x29]
  }

  /** The program text `(.|> ((.u 2) (.u 3) (.u+) (.u-print)))`. */
  function AddAndPrintText(): seq<byte>
  {
    [0x28, 0x2E, 0x7C, 0x3E, 0x20, 0x28] + AddAndPrintCallsText() + [0x29, 0x29]
  }

  /** The calls in the body of `.|>` in that text. */
  function AddAndPrintCalls(): seq<Value>
  {
    [ Call(ParseUnsigned, [Bytes([0x32])]),
      Call(ParseUnsigned, [Bytes([0x33])]),
      Call(PlusUnsigned, []),
      Call(PrintUnsigned, []) ]
  }

  /** A call of one argument prints as `(name arg)`, one of none as `(name)`. */
  lemma PrintCall(b: Builtin, args: seq<Value>)
    requires |args| <= 1
    ensures Parser.Print(Call(b, args))
         == [0x28] + Name(b) + (if args == [] then [] else [0x20] + Parser.Print(args[0])) + [0x29]
  {
    var items := [Word(b)] + args;
    assert Parser.Print(Call(b, args)) == [0x28] + Parser.PrintSeq(items) + [0x29];
    if args != [] {
      assert items[1..] == args && |items| == 2;
      assert Parser.PrintSeq(items) == Name(b) + [0x20] + Parser.PrintSeq(args);
    } else {
      assert items == [Word(b)];
    }
  }

  /** Values print separated by single spaces. */
  lemma PrintCons(a: Value, rest: seq<Value>)
    requires rest != []
    ensures Parser.PrintSeq([a] + rest) == Parser.Print(a) + [0x20] + Parser.PrintSeq(rest)
  {
    assert ([a] + rest)[0] == a && ([a] + rest)[1..] == rest;
  }

  /** The first two calls print as `(.u 2)` and `(.u 3)`. */
  lemma ParseCallsPrinted()
    ensures Parser.Print(AddAndPrintCalls()[0]) == [0x28, 0x2E, 0x75, 0x20, 0x32, 0x29]
    ensures Parser.Print(AddAndPrintCalls()[1]) == [0x28, 0x2E, 0x75, 0x20, 0x33, 0x29]
  {
    PrintCall(ParseUnsigned, [Bytes([0x32])]);
    PrintCall(ParseUnsigned, [Bytes([0x33])]);
  }

  /** The last two calls print as `(.u+)` and `(.u-print)`. */
  lemma OperatorCallsPrinted()
    ensures Parser.Print(AddAndPrintCalls()[2]) == [0x28, 0x2E, 0x75, 0x2B, 0x29]
    ensures Parser.Print(AddAndPrintCalls()[3]) == [0x28, 0x2E, 0x75, 0x2D, 0x70, 0x72, 0x69, 0x6E, 0x74, 0x29]
  {
    PrintCall(PlusUnsigned, []);
    PrintCall(PrintUnsigned, []);
  }

  /** The calls print as `(.u 2) (.u 3) (.u+) (.u-print)`. */
  lemma AddAndPrintCallsPrinted()
    ensures Parser.PrintSeq(AddAndPrintCalls()) == AddAndPrintCallsText()
  {
    var cs := AddAndPrintCalls();
    ParseCallsPrinted();
    OperatorCallsPrinted();
    var p0, p1, p2, p3 := Parser.Print(cs[0]), Parser.Print(cs[1]), Parser.Print(cs[2]), Parser.Print(cs[3]);
    assert Parser.PrintSeq([cs[3]]) == p3;
    PrintCons(cs[2], [cs[3]]);
    assert [cs[2]] + [cs[3]] == cs[2..];
    PrintCons(cs[1], cs[2..]);
    assert [cs[1]] + cs[2..] == cs[1..];
    PrintCons(cs[0], cs[1..]);
    assert [cs[0]] + cs[1..] == cs;
    assert Parser.PrintSeq(cs) == p0 + [0x20] + (p1 + [0x20] + (p2 + [0x20] + p3));
  }

  /** The call `.|>` of those calls prints as `.|> (...)` inside its parentheses. */
  lemma AddAndPrintCallPrinted()
    ensures Parser.PrintSeq([Word(ExecAll), List(AddAndPrintCalls())])
         == Name(ExecAll) + [0x20] + ([0x28] + AddAndPrintCallsText() + [0x29])
  {
    var cs := AddAndPrintCalls();
    AddAndPrintCallsPrinted();
    var call := [Word(ExecAll), List(cs)];
    assert call[1..] == [List(cs)];
    assert Parser.PrintSeq(call[1..]) == Parser.Print(List(cs));
  }

  /** That text is the printed form of the `AddAndPrint` program. */
  lemma AddAndPrintPrinted()
    ensures Parser.PrintSeq([List([Word(ExecAll), List(AddAndPrintCalls())])]) == AddAndPrintText()
  {
    var call := [Word(ExecAll), List(AddAndPrintCalls())];
    var t := AddAndPrintCallsText();
    AddAndPrintCallPrinted();
    assert Parser.PrintSeq([List(call)]) == [0x28] + Parser.PrintSeq(call) + [0x29];
    WrapInCall(t);
  }

  /** `(.|> (t))` is the six opening bytes, `t` and the two closing ones. */
  lemma WrapInCall(t: seq<byte>)
    ensures [0x28] + (Name(ExecAll) + [0x20] + ([0x28] + t + [0x29])) + [0x29]
         == [0x28, 0x2E, 0x7C, 0x3E, 0x20, 0x28] + t + [0x29, 0x29]
  {
    assert Name(ExecAll) == [0x2E, 0x7C, 0x3E];
  }

  /** Every word of the `AddAndPrint` program can be read. */
  lemma AddAndPrintWellFormed()
    ensures Parser.WellFormed(List([Word(ExecAll), List(AddAndPrintCalls())]))
  {
    forall w | w in [Name(ExecAll), Name(ParseUnsigned), Name(PlusUnsigned), Name(PrintUnsigned), [0x32], [0x33]]
      ensures Parser.IsWord(w)
    {
    }
    var cs := AddAndPrintCalls();
    assert Parser.WellFormed(cs[0]) && Parser.WellFormed(cs[1]) && Parser.WellFormed(cs[2]) && Parser.WellFormed(cs[3]);
  }

  /** From text to output: reading `(.|> ((.u 2) (.u 3) (.u+) (.u-print)))`
      gives one call, and evaluating it prints "5" and a line feed. */
  lemma AddAndPrintFromText(fuel: nat)
    requires fuel >= 1
    ensures Parser.ParseText(AddAndPrintText()) == Ok(List([List([Word(ExecAll), List(AddAndPrintCalls())])]))
    ensures Eval(fuel, [Word(ExecAll), List(AddAndPrintCalls())], Empty) == Done(Machine([], map[], [0x35, 0x0A]))
  {
    var program := List([Word(ExecAll), List(AddAndPrintCalls())]);
    AddAndPrintWellFormed();
    Parser.ParsePrintRoundTrip([program]);
    AddAndPrintPrinted();
    AddAndPrint(fuel);
  }

  /** `.|> ( (.u 5) (.u 7) (.u-) (.u-print) )` stops at `.u-` with nothing
      printed and both operands gone. */
  lemma SubtractBelowZero(fuel: nat)
    requires fuel >= 1
    ensures Eval(fuel, [Word(ExecAll), List([
              Call(ParseUnsigned, [Bytes([0x35])]),
              Call(ParseUnsigned, [Bytes([0x37])]),
              Call(MinusUnsigned, []),
              Call(PrintUnsigned, [])])], Empty)
         == Fail(NegativeDifference, Empty)
  {
    var c1, c2, c3, c4 := Call(ParseUnsigned, [Bytes([0x35])]), Call(ParseUnsigned, [Bytes([0x37])]),
      Call(MinusUnsigned, []), Call(PrintUnsigned, []);
    var f := fuel - 1;
    RunsInOrder(fuel, [c1, c2, c3, c4], Empty);
    assert DigitsValue([0x35]) == 5 && DigitsValue([0x37]) == 7 by {
      assert [0x35][..0] == [] && [0x37][..0] == [];
    }
    assert [c1, c2, c3, c4] == [c1] + [c2, c3, c4];
    ParseStep(f, [0x35], [c2, c3, c4], Empty);
    assert [c2, c3, c4] == [c2] + [c3, c4];
    ParseStep(f, [0x37], [c3, c4], Machine([Bytes([5])], map[], []));
    assert [c3, c4] == [c3] + [c4];
    MinusFailsStep(f, [], 5, 7, [c4], Machine([Bytes([5]), Bytes([7])], map[], []));
    assert Empty.(stack := Empty.stack + [Bytes([5])]) == Machine([Bytes([5])], map[], []);
    assert Machine([Bytes([5])], map[], []).(stack := [Bytes([5])] + [Bytes([7])])
        == Machine([Bytes([5]), Bytes([7])], map[], []);
  }

  /** The calls in the body of `x` in the program below. */
  function SumCalls(): seq<Value>
  {
    [ Call(ParseUnsigned, [Bytes([0x34, 0x31])]),
      Call(ParseUnsigned, [Bytes([0x31])]),
      Call(PlusUnsigned, []) ]
  }

  function SumBody(): Value
  {
    Call(ExecAll, [List(SumCalls())])
  }

  /** `(.u 41) (.u 1) (.u+)` leaves the number 42 on the stack. */
  lemma SumCallsPush42(fuel: nat, m: Machine)
    requires Name(ParseUnsigned) !in m.storage && Name(PlusUnsigned) !in m.storage
    ensures ExecItems(fuel + 1, SumCalls(), m) == Done(m.(stack := m.stack + [Bytes([42])]))
  {
    var d1, d2, d3 := Call(ParseUnsigned, [Bytes([0x34, 0x31])]), Call(ParseUnsigned, [Bytes([0x31])]),
      Call(PlusUnsigned, []);
    assert DigitsValue([0x34, 0x31]) == 41 && DigitsValue([0x31]) == 1 by {
      assert [0x34, 0x31][..1] == [0x34] && [0x34][..0] == [] && [0x31][..0] == [];
    }
    assert SumCalls() == [d1] + [d2, d3];
    ParseStep(fuel, [0x34, 0x31], [d2, d3], m);
    var m1 := m.(stack := m.stack + [Bytes([41])]);
    assert [d2, d3] == [d2] + [d3];
    ParseStep(fuel, [0x31], [d3], m1);
    var m2 := m.(stack := m.stack + [Bytes([41]), Bytes([1])]);
    assert m1.(stack := m1.stack + [Bytes([1])]) == m2;
    assert [d3] == [d3] + [];
    AddStep(fuel, m.stack, 41, 1, [], m2);
    assert m2.(stack := m.stack + [Bytes([41 + 1])]) == m.(stack := m.stack + [Bytes([42])]);
  }

  /** `(x)`, with `x` bound to the sum program, pushes 42. */
  lemma CallSumWord(fuel: nat, rest: seq<Value>, m: Machine)
    requires m.storage == map[[0x78] := SumBody()]
    ensures ExecItems(fuel + 3, [List([Bytes([0x78])])] + rest, m)
         == ExecItems(fuel + 3, rest, m.(stack := m.stack + [Bytes([42])]))
  {
    CallWordStep(fuel + 1, [0x78], SumCalls(), rest, m);
    SumCallsPush42(fuel, m);
  }

  /** `.|> ( (.define x (.|> ((.u 41) (.u 1) (.u+)))) (x) (.u-print) )` prints
      "42" and a line feed, and leaves `x` defined. */
  lemma DefineAndCall(fuel: nat)
    requires fuel >= 3
    ensures Eval(fuel, [Word(ExecAll), List([
              Call(Define, [Bytes([0x78]), SumBody()]),
              List([Bytes([0x78])]),
              Call(PrintUnsigned, [])])], Empty)
         == Done(Machine([], map[[0x78] := SumBody()], [0x34, 0x32, 0x0A]))
  {
    var c1, c2, c3 := Call(Define, [Bytes([0x78]), SumBody()]), List([Bytes([0x78])]), Call(PrintUnsigned, []);
    var table := map[[0x78] := SumBody()];
    var defined := Machine([], table, []);
    var summed := Machine([Bytes([42])], table, []);
    RunsInOrder(fuel, [c1, c2, c3], Empty);
    assert ExecItems(fuel, [c1, c2, c3], Empty) == ExecItems(fuel, [c2, c3], defined) by {
      assert [c1, c2, c3] == [c1] + [c2, c3];
      DefineStep(fuel - 1, [0x78], SumBody(), [c2, c3], Empty);
      assert Empty.(storage := Empty.storage[[0x78] := SumBody()]) == defined;
    }
    // the body of x runs with two fewer units of fuel, its calls with three
    assert ExecItems(fuel, [c2, c3], defined) == ExecItems(fuel, [c3], summed) by {
      assert [c2, c3] == [c2] + [c3];
      CallSumWord(fuel - 3, [c3], defined);
      assert defined.(stack := [] + [Bytes([42])]) == summed;
    }
    assert ExecItems(fuel, [c3], summed) == Done(Machine([], table, [0x34, 0x32, 0x0A])) by {
      assert [c3] == [c3] + [];
      PrintStep(fuel - 1, [], 42, [], summed);
      assert ShowDecimal(42) == [0x34, 0x32];
      assert summed.(stack := [], out := [] + [0x34, 0x32] + [0x0A]) == Machine([], table, [0x34, 0x32, 0x0A]);
    }
  }

  /** `.?` stops the program when a quoted call, not a condition, is on top. */
  lemma IfElseListOnTopStep(fuel: nat, s: seq<Value>, q: seq<Value>, rest: seq<Value>, m: Machine)
    requires m.stack == s + [List(q)] && Name(IfElse) !in m.storage
    ensures ExecItems(fuel + 1, [Call(IfElse, [])] + rest, m) == Fail(ExpectedBytes, m.(stack := s))
  {
    BuiltinNameDenotes(IfElse);
    assert m.(stack := m.stack + []) == m;
    assert m.stack[..|m.stack| - 1] == s;
    StepCall(fuel, IfElse, [], rest, m);
  }

  /** The quoted program `(.|> ((.u d) (.u-print)))`, which prints the digit `d`. */
  function PrintDigitProgram(d: byte): Value
  {
    Call(ExecAll, [List([Call(ParseUnsigned, [Bytes([d])]), Call(PrintUnsigned, [])])])
  }

  lemma PrintDigitRuns(fuel: nat, d: byte, m: Machine)
    requires 0x30 <= d <= 0x39 && m.storage == map[]
    ensures Eval(fuel + 1, PrintDigitProgram(d).items, m) == Done(m.(out := m.out + [d, 0x0A]))
  {
    var p1, p2 := Call(ParseUnsigned, [Bytes([d])]), Call(PrintUnsigned, []);
    RunsInOrder(fuel + 1, [p1, p2], m);
    assert DigitsValue([d]) == (d - 0x30) as nat by {
      assert [d][..0] == [];
    }
    assert [p1, p2] == [p1] + [p2];
    ParseStep(fuel, [d], [p2], m);
    assert [p2] == [p2] + [];
    PrintStep(fuel, m.stack, d - 0x30, [], m.(stack := m.stack + [Bytes([d - 0x30])]));
    assert ShowDecimal((d - 0x30) as nat) == [d];
  }

  /** `(.push x) (.push y)` leaves `y` on top of `x`. */
  lemma PushBoth(fuel: nat, x: Value, y: Value, rest: seq<Value>, m: Machine)
    requires Name(PushArgs) !in m.storage
    ensures ExecItems(fuel + 1, [Call(PushArgs, [x]), Call(PushArgs, [y])] + rest, m)
         == ExecItems(fuel + 1, rest, m.(stack := m.stack + [x, y]))
  {
    assert [Call(PushArgs, [x]), Call(PushArgs, [y])] + rest == [Call(PushArgs, [x])] + ([Call(PushArgs, [y])] + rest);
    PushStep(fuel, [x], [Call(PushArgs, [y])] + rest, m);
    PushStep(fuel, [y], rest, m.(stack := m.stack + [x]));
    assert m.stack + [x] + [y] == m.stack + [x, y];
  }

  /** `(.u 6) (.u 9) (.u>)` pushes the byte 0 (false). */
  lemma SixAboveNine(fuel: nat, rest: seq<Value>, m: Machine)
    requires m.storage == map[]
    ensures ExecItems(fuel + 1, [Call(ParseUnsigned, [Bytes([0x36])]), Call(ParseUnsigned, [Bytes([0x39])]),
                                 Call(GtUnsigned, [])] + rest, m)
         == ExecItems(fuel + 1, rest, m.(stack := m.stack + [Bytes([0])]))
  {
    var c1, c2, c3 := Call(ParseUnsigned, [Bytes([0x36])]), Call(ParseUnsigned, [Bytes([0x39])]), Call(GtUnsigned, []);
    var m1 := m.(stack := m.stack + [Bytes([6])]);
    var m2 := m.(stack := m.stack + [Bytes([6]), Bytes([9])]);
    assert DigitsValue([0x36]) == 6 && DigitsValue([0x39]) == 9 by {
      assert [0x36][..0] == [] && [0x39][..0] == [];
    }
    assert ExecItems(fuel + 1, [c1, c2, c3] + rest, m) == ExecItems(fuel + 1, [c2, c3] + rest, m1) by {
      assert [c1, c2, c3] + rest == [c1] + ([c2, c3] + rest);
      ParseStep(fuel, [0x36], [c2, c3] + rest, m);
    }
    assert ExecItems(fuel + 1, [c2, c3] + rest, m1) == ExecItems(fuel + 1, [c3] + rest, m2) by {
      assert [c2, c3] + rest == [c2] + ([c3] + rest);
      ParseStep(fuel, [0x39], [c3] + rest, m1);
      assert m1.(stack := m1.stack + [Bytes([9])]) == m2;
    }
    GtStep(fuel, m.stack, 6, 9, rest, m2);
  }

  /** `.?` on the byte 0 above the two quoted programs runs the lower one. */
  lemma FalseRunsLower(fuel: nat, x: Value, y: Value)
    requires fuel >= 1 && x == PrintDigitProgram(0x37) && y.List?
    ensures ExecItems(fuel + 2, [Call(IfElse, [])] + [], Machine([x, y, Bytes([0])], map[], []))
         == Done(Machine([], map[], [0x37, 0x0A]))
  {
    assert !IsTruthy([0]);
    IfElseStep(fuel, [], x, y, [0], [], Machine([x, y, Bytes([0])], map[], []));
    PrintDigitRuns(fuel - 1, 0x37, Empty);
    assert Machine([x, y, Bytes([0])], map[], []).(stack := []) == Empty;
    assert Empty.(out := [] + [0x37, 0x0A]) == Machine([], map[], [0x37, 0x0A]);
  }

  /** With the two quoted programs pushed first and the condition on top,
      `.?` runs the lower one when the condition is the byte 0:
      `.|> ( (.push (.|> ((.u 7) (.u-print)))) (.push (.|> ((.u 9) (.u-print))))
      (.u 6) (.u 9) (.u>) (.?) )` prints "7" and a line feed. */
  lemma FalseConditionRunsLower(fuel: nat)
    requires fuel >= 3
    ensures Eval(fuel, [Word(ExecAll), List([
              Call(PushArgs, [PrintDigitProgram(0x37)]),
              Call(PushArgs, [PrintDigitProgram(0x39)]),
              Call(ParseUnsigned, [Bytes([0x36])]),
              Call(ParseUnsigned, [Bytes([0x39])]),
              Call(GtUnsigned, []),
              Call(IfElse, [])])], Empty)
         == Done(Machine([], map[], [0x37, 0x0A]))
  {
    var x, y := PrintDigitProgram(0x37), PrintDigitProgram(0x39);
    var c1, c2, c3, c4, c5, c6 := Call(PushArgs, [x]), Call(PushArgs, [y]),
      Call(ParseUnsigned, [Bytes([0x36])]), Call(ParseUnsigned, [Bytes([0x39])]),
      Call(GtUnsigned, []), Call(IfElse, []);
    var f := fuel - 1;
    RunsInOrder(fuel, [c1, c2, c3, c4, c5, c6], Empty);
    assert ExecItems(fuel, [c1, c2, c3, c4, c5, c6], Empty) == ExecItems(fuel, [c3, c4, c5, c6], Machine([x, y], map[], [])) by {
      assert [c1, c2, c3, c4, c5, c6] == [c1, c2] + [c3, c4, c5, c6];
      PushBoth(f, x, y, [c3, c4, c5, c6], Empty);
      assert Empty.(stack := [] + [x, y]) == Machine([x, y], map[], []);
    }
    assert ExecItems(fuel, [c3, c4, c5, c6], Machine([x, y], map[], [])) == ExecItems(fuel, [c6], Machine([x, y, Bytes([0])], map[], [])) by {
      assert [c3, c4, c5, c6] == [c3, c4, c5] + [c6];
      SixAboveNine(f, [c6], Machine([x, y], map[], []));
      assert Machine([x, y], map[], []).(stack := [x, y] + [Bytes([0])]) == Machine([x, y, Bytes([0])], map[], []);
    }
    assert ExecItems(fuel, [c6], Machine([x, y, Bytes([0])], map[], [])) == Done(Machine([], map[], [0x37, 0x0A])) by {
      assert [c6] == [c6] + [];
      FalseRunsLower(fuel - 2, x, y);
    }
  }

  /** The condition computed first and the two quoted programs pushed after
      it, as in `.|> ( (.u 6) (.u 9) (.u>) (.push (.|> ((.u 7) (.u-print))))
      (.push (.|> ((.u 9) (.u-print)))) (.?) )`: `.?` takes the top quoted
      program as its condition and the run stops with nothing printed. */
  lemma ConditionBeneathQuotesFails(fuel: nat)
    requires fuel >= 1
    ensures Eval(fuel, [Word(ExecAll), List([
              Call(ParseUnsigned, [Bytes([0x36])]),
              Call(ParseUnsigned, [Bytes([0x39])]),
              Call(GtUnsigned, []),
              Call(PushArgs, [PrintDigitProgram(0x37)]),
              Call(PushArgs, [PrintDigitProgram(0x39)]),
              Call(IfElse, [])])], Empty)
         == Fail(ExpectedBytes, Machine([Bytes([0]), PrintDigitProgram(0x37)], map[], []))
  {
    var x, y := PrintDigitProgram(0x37), PrintDigitProgram(0x39);
    var c1, c2, c3, c4, c5, c6 := Call(ParseUnsigned, [Bytes([0x36])]), Call(ParseUnsigned, [Bytes([0x39])]),
      Call(GtUnsigned, []), Call(PushArgs, [x]), Call(PushArgs, [y]), Call(IfElse, []);
    var f := fuel - 1;
    RunsInOrder(fuel, [c1, c2, c3, c4, c5, c6], Empty);
    assert [c1, c2, c3, c4, c5, c6] == [c1, c2, c3] + [c4, c5, c6];
    SixAboveNine(f, [c4, c5, c6], Empty);
    assert Empty.(stack := [] + [Bytes([0])]) == Machine([Bytes([0])], map[], []);
    assert [c4, c5, c6] == [c4, c5] + [c6];
    PushBoth(f, x, y, [c6], Machine([Bytes([0])], map[], []));
    assert Machine([Bytes([0])], map[], []).(stack := [Bytes([0])] + [x, y]) == Machine([Bytes([0]), x, y], map[], []);
    IfElseListOnTopStep(f, [Bytes([0]), x], y.items, [], Machine([Bytes([0]), x, y], map[], []));
  }
}
