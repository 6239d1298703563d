# yolo-rs interpreter core in Dafny

yolo-rs is a tiny stack language. A program is an S-expression text. Its
atoms are byte-string words. Its lists are `( ... )`. Evaluating a list
treats the first element as the name of a word. The remaining elements are
pushed onto an operand stack, first to last. Then the word runs:

- a user definition stored with `.define` runs first, when one exists;
- otherwise one of twenty built-ins runs.

The built-ins cover stack shuffling (`.drop`, `.dup`, `.swap`,
`.peek-len`), definitions (`.define`, `.@`), control (`.`, `.|>`, `.?`,
`.error`), byte and list values (`.empty-bytes`, `.write`, `.append`),
and unsigned big-number arithmetic on little-endian byte strings (`.u`,
`.u+`, `.u-`, `.u<`, `.u>`, `.u-print`).

The model has these modules:

- `Values` (values.dfy): bytes, the value tree (`Bytes` or `List`), the
  error kinds and `Result`/`Option`.
- `Numbers` (numbers.dfy): the little-endian reading of a byte string
  (`uint`) and the canonical encoding pushed back (`to_bytes_le`), the
  decimal numerals of `.u` and `.u-print`, and truthiness (`is_truthy`).
- `Parser` (parser.dfy): `parse_exprs` as a specification function over
  the unread input, and as a method with the source's loop. Proved: the
  method agrees with the function, reading succeeds exactly when the
  parentheses balance, every word read is well formed, and printing
  values and reading them back is the identity.
- `Semantics` (semantics.dfy): every operation of the interpreter as a
  pure function. Each takes the machine state (stack, definition table,
  output written so far) to an outcome: success or an error, together
  with the state reached. A failure keeps the partial state, because the
  source never rolls back. Nested evaluation is bounded by `fuel`.
- `Facts` (facts.dfy): the properties of those functions. Covered:
  dispatch and shadowing, each built-in's effect, the order of `.|>`,
  how `.?` chooses, that output and definitions are never undone, and
  that fuel only matters when it runs out.
- `Interp` (interp.dfy): the `Interpreter` as a class whose methods update
  its `stack`, `storage` and `out` fields in place. Each method is proved
  to yield exactly the outcome its `Semantics` function gives on the state
  before the call. `.|>` keeps the source's loop.
- `Scenarios` (scenarios.dfy): whole programs evaluated end to end.

Standard output is modelled as the byte sequence `out`, to which `.write`
and `.u-print` append.

The operand order of `.?` is the reverse of the order a reader may expect,
and the model keeps the code's order. The code pops the condition from the top of the stack. It then
evaluates the quoted call just beneath the condition when the condition is
truthy, and the one beneath that when it is not. A program that computes the
condition first and pushes the two quoted calls after it therefore fails: its
top is a list, not a condition (`Scenarios.ConditionBeneathQuotesFails`). The
working order is in `Scenarios.FalseConditionRunsLower`.

Two built-ins deviate from the code on purpose; "## Left out" records both:

- **`.peek-len`** pushes the length in the canonical little-endian form that
  the arithmetic built-ins use, where the code pushes the native-endian bytes
  of a `usize`. On a little-endian target both read as the same number,
  because trailing zero bytes do not change a number
  (`Numbers.DecodeIgnoresTrailingZeros`).
- **`.u`** accepts exactly the non-empty runs of ASCII digits, where the
  code's `BigUint::from_str` also accepts a leading `+` and `_` separators.

## Model

| member | source | states |
|---|---|---|
| Numbers.Encode | src/interp.rs:220-226 | a pushed number is never the empty byte string |
| Numbers.DecodeOfEncode | src/interp.rs:266-268 | reading back the little-endian bytes that an arithmetic built-in pushes gives the number it computed |
| Numbers.EncodeIsCanonical | src/interp.rs:220-226 | the pushed bytes have no trailing zero byte, and zero is the single byte 0 |
| Numbers.EncodeOfDecode | src/interp.rs:266-268 | a canonical byte string is re-encoded unchanged, so reading and encoding are inverse on canonical strings |
| Numbers.DecodePositive | src/interp.rs:266-268 | a byte string whose last byte is nonzero reads as a positive number |
| Numbers.DecodeIgnoresTrailingZeros | src/interp.rs:266-268 | appending zero bytes does not change the number a byte string reads as |
| Numbers.DecodeBound | src/interp.rs:266-268 | k bytes read as a number below 256^k |
| Numbers.ShowDecimal | src/interp.rs:100-106 | `.u-print` prints a non-empty run of digits that starts with `0` only for zero |
| Numbers.ParseOfShow | src/interp.rs:91-106 | `.u` reads back exactly the number `.u-print` printed |
| Numbers.ShowOfParse | src/interp.rs:91-106 | a numeral without leading zeros read by `.u` prints back as itself |
| Numbers.TruthyIffNonzero | src/interp.rs:262-264 | a byte string is truthy exactly when some byte is nonzero, that is, when it reads as a nonzero number |
| Numbers.TruthyIgnoresTrailingZeros | src/interp.rs:262-264 | trailing zero bytes do not change truthiness |
| Parser.Parse | src/parser.rs:7-48 | inside a list, the input left after the closing `)` is strictly shorter; at top level the whole input is consumed |
| Parser.ParseText | src/parser.rs:7-48 | a successfully read text is a list |
| Parser.ParseExprs | src/parser.rs:7-48 | the reader's loop gives the same success or error, the same elements and the position just after the list as the reading function |
| Parser.ParseYieldsWords | src/parser.rs:25-33 | every word read is non-empty and holds no whitespace and no parenthesis, inside nested lists too |
| Parser.ParseTextYieldsWords | src/parser.rs:7-48 | every value of a read text is well formed |
| Parser.ParseListBalance | src/parser.rs:14-24 | inside a list at depth d, reading stops just after the `)` that closes the list, so the rest balances at depth d - 1 exactly when the whole input balances at depth d; reading fails only when the input does not balance |
| Parser.ParseTopBalance | src/parser.rs:37-44 | at top level, reading succeeds exactly when the parentheses balance |
| Parser.ParseTextSucceedsIffBalanced | src/parser.rs:17-23 | a text is read without error if and only if its parentheses balance |
| Parser.FlushAtDelimiter | src/parser.rs:17-44 | a pending word is emitted at the end of input, at `)` and at every whitespace byte (tab, line feed, vertical tab, form feed, carriage return, space) |
| Parser.ReadWord | src/parser.rs:28-33 | the bytes of a word accumulate into one pending word |
| Parser.SkipSpace | src/parser.rs:25-27 | a space with no pending word changes nothing |
| Parser.ReadPrinted | src/parser.rs:7-48 | reading the printed form of a well-formed value yields that value |
| Parser.ReadPrintedSeq | src/parser.rs:7-48 | reading the printed form of a sequence of values yields those values in order |
| Parser.ParsePrintRoundTrip | src/parser.rs:7-48 | printing any well-formed values and reading the text back gives exactly those values |
| Parser.WordContinuesAcrossList | src/parser.rs:14-16 | `(` does not end a pending word: `ab(c)d` reads as the list `(c)` followed by the word `abd` |
| Parser.ReaderCases | src/parser.rs:17-24 | `(())` reads as a nested empty list, `(()` is an unclosed list and `)` an unmatched one |
| Parser.NestedListCase | src/parser.rs:14-16 | `(a b (c d))` reads as the expected nested lists |
| Facts.BuiltinNameDenotes | src/interp.rs:67-107 | every built-in's name selects that built-in, so the twenty names are distinct |
| Facts.MalformedCallFails | src/interp.rs:38-40 | an empty call, or one whose head is a list, fails and leaves the state unchanged |
| Facts.EvalDispatch | src/interp.rs:38-54 | a call pushes its arguments in order, then runs the stored definition of its head if there is one and the built-in of that name otherwise |
| Facts.DefinitionShadowsBuiltin | src/interp.rs:44-51 | a user definition of a built-in's name replaces the built-in |
| Facts.ArgumentsPushedInOrder | src/interp.rs:155-157 | `.push` leaves its arguments on the stack with the last one on top |
| Facts.DefineEffect | src/interp.rs:117-122 | `.define` succeeds exactly when there are two values and the lower one is a byte string; it pops the body, then the name, and binds the name to the body, overwriting any earlier binding |
| Facts.DefineThenCall | src/interp.rs:117-122 | after `.define`, calling the name with arguments runs the stored body with those arguments pushed |
| Facts.DefinedEffect | src/interp.rs:124-131 | `.@` pops a name and succeeds exactly when it is defined, changing nothing else |
| Facts.PeekAsWrittenPanics | src/interp.rs:60-65 | as written, the "not deep enough" error of `peek_expr` is never returned: every too-deep peek underflows first |
| Facts.PeekMeaning | src/interp.rs:60-65 | the intended peek returns the value at the given depth, or the stack-underflow error exactly when the stack is too shallow |
| Facts.SwapAtEffect | src/interp.rs:32-36 | swapping exchanges the top and the value at depth `back` and keeps every other position and the multiset of values |
| Facts.SwapTwice | src/interp.rs:32-36 | swapping twice with the same depth restores the stack |
| Facts.SwapEffect | src/interp.rs:164-171 | `.swap` pops a depth and succeeds exactly when the rest of the stack is deeper than it |
| Facts.DupEffect | src/interp.rs:174-181 | `.dup` pops a depth and pushes a copy of the value at that depth, failing exactly when the stack is too shallow |
| Facts.AppendEffect | src/interp.rs:249-255 | `.append` succeeds exactly when the value beneath the top is a list; it replaces the two by that list extended by the top value |
| Facts.PeekLenEffect | src/interp.rs:184-192 | `.peek-len` keeps the whole stack and pushes one canonical number equal to the top's byte or element count, with storage and output unchanged; it fails exactly on an empty stack, and then changes nothing |
| Facts.PlusAdds | src/interp.rs:220-226 | `.u+` replaces two numbers by one canonical number equal to their sum |
| Facts.MinusSubtracts | src/interp.rs:228-233 | `.u-` pushes lhs - rhs when lhs >= rhs and otherwise fails with both operands gone |
| Facts.ComparisonsCompare | src/interp.rs:235-247 | `.u<` and `.u>` push the byte 1 when the comparison holds and the byte 0 otherwise |
| Facts.FlagMeaning | src/interp.rs:262-264 | a comparison result is truthy exactly when the comparison held |
| Facts.Pops2 | src/interp.rs:257-259 | a binary operator pops rhs first and lhs second and reads both as little-endian numbers |
| Facts.ParseUnsignedEffect | src/interp.rs:91-99 | `.u` replaces a numeral by the little-endian encoding of its value and fails on anything but a non-empty run of digits |
| Facts.PrintAfterParse | src/interp.rs:91-106 | `.u` followed by `.u-print` writes the numeral (without leading zeros) and a line feed and leaves the stack as before |
| Facts.IfElseChooses | src/interp.rs:194-205 | `.?` pops a condition; when truthy it evaluates the quoted call just beneath it, otherwise the one beneath that |
| Facts.EvalTopRuns | src/interp.rs:148-152 | `.` pops a quoted call and evaluates it |
| Facts.ExecItemsInOrder | src/interp.rs:140-146 | `.|>` runs its calls strictly in order and stops at the first failure |
| Facts.EvalExtends | src/interp.rs:38-54 | evaluation only appends to the output and never removes a definition |
| Facts.CallBuiltinExtends | src/interp.rs:67-109 | the same for every built-in |
| Facts.IfElseExtends | src/interp.rs:194-205 | the same for `.?` |
| Facts.EvalTopExtends | src/interp.rs:148-152 | the same for `.` |
| Facts.ExecAllExtends | src/interp.rs:140-146 | the same for `.|>` |
| Facts.ExecItemsExtends | src/interp.rs:141-145 | the same for each loop of `.|>` |
| Facts.EvalFuel | src/interp.rs:38-54 | an evaluation that does not run out of fuel gives the same outcome with more fuel |
| Facts.CallBuiltinFuel | src/interp.rs:67-109 | the same for built-ins |
| Facts.IfElseFuel | src/interp.rs:194-205 | the same for `.?` |
| Facts.EvalTopFuel | src/interp.rs:148-152 | the same for `.` |
| Facts.ExecAllFuel | src/interp.rs:140-146 | the same for `.|>` |
| Facts.ExecItemsFuel | src/interp.rs:141-145 | the same for each loop of `.|>` |
| Facts.EvalFuelMonotone | src/interp.rs:38-54 | a result reached with some fuel is reached with any larger amount of fuel |
| Interp.Interpreter.constructor | src/interp.rs:21-26 | a new interpreter has an empty stack, no definitions and no output |
| Interp.Interpreter.SwapTopWith | src/interp.rs:32-36 | exchanges the top with depth `back` in place when the stack is deep enough; nothing else changes |
| Interp.Interpreter.PopExpr | src/interp.rs:56-58 | removes and returns the top, failing on an empty stack |
| Interp.Interpreter.PeekExpr | src/interp.rs:60-65 | returns the value at depth `back` without changing anything, failing exactly when the stack is too shallow |
| Interp.Interpreter.Eval | src/interp.rs:38-54 | the state and result after evaluating a call are those of the evaluation semantics |
| Interp.Interpreter.CallBuiltin | src/interp.rs:67-109 | the same for a built-in, including the inline `.u` and `.u-print` |
| Interp.PopUint | src/interp.rs:257-259 | pops a byte string and reads it as a little-endian number |
| Interp.Define | src/interp.rs:117-122 | updates the definition table as `.define` is specified |
| Interp.Dedef | src/interp.rs:124-131 | behaves as `.@` is specified |
| Interp.RaiseError | src/interp.rs:133-135 | pops the value and fails with it; an empty stack is the underflow error |
| Interp.ExecAll | src/interp.rs:140-146 | its loop over the popped calls gives the outcome of `.|>` in the semantics |
| Interp.EvalList | src/interp.rs:148-152 | behaves as `.` is specified |
| Interp.IfElse | src/interp.rs:194-205 | behaves as `.?` is specified |
| Interp.Push | src/interp.rs:155-157 | succeeds and changes nothing |
| Interp.Drop | src/interp.rs:159-162 | removes the top value |
| Interp.Swap | src/interp.rs:164-171 | behaves as `.swap` is specified |
| Interp.Dup | src/interp.rs:174-181 | behaves as `.dup` is specified |
| Interp.Length | src/interp.rs:184-192 | behaves as `.peek-len` is specified |
| Interp.EmptyBytes | src/interp.rs:207-210 | pushes the empty byte string |
| Interp.Write | src/interp.rs:212-218 | pops a byte string and appends it to the output |
| Interp.Append | src/interp.rs:249-255 | behaves as `.append` is specified |
| Interp.PlusUnsigned | src/interp.rs:220-226 | behaves as `.u+` is specified |
| Interp.MinusUnsigned | src/interp.rs:228-233 | behaves as `.u-` is specified |
| Interp.LtUnsigned | src/interp.rs:235-240 | behaves as `.u<` is specified |
| Interp.GtUnsigned | src/interp.rs:242-247 | behaves as `.u>` is specified |
| Scenarios.RunsInOrder | src/interp.rs:140-146 | a program `.|> ( calls... )` runs its calls in order |
| Scenarios.AddAndPrint | src/interp.rs:87-106 | `.|> ( (.u 2) (.u 3) (.u+) (.u-print) )` prints `5` and a line feed and leaves the stack empty |
| Scenarios.AddAndPrintFromText | src/parser.rs:7-48 | reading that text gives the one call, and evaluating the call prints `5` and a line feed: from program text to output |
| Scenarios.SubtractBelowZero | src/interp.rs:228-233 | `.|> ( (.u 5) (.u 7) (.u-) (.u-print) )` fails at `.u-`, prints nothing and leaves the stack empty |
| Scenarios.DefineAndCall | src/interp.rs:117-122 | defining `x` as a quoted program and calling `(x)` runs it: the program prints `42` |
| Scenarios.FalseConditionRunsLower | src/interp.rs:194-205 | with both quoted calls pushed before a false condition, `.?` runs the lower one and prints `7` |
| Scenarios.ConditionBeneathQuotesFails | src/interp.rs:194-196 | with the condition beneath the two quoted calls, `.?` fails with a type error and prints nothing |

## Left out

- Standard output is the `out` sequence. Writes cannot fail, so the error a failed `write_all` or `flush` would give is not modelled.
- `dbg_stack` is not modelled: it only prints the stack for debugging.
- src/main.rs, the demonstration driver, is not part of this model.
- Error messages: each error is an `Error` value that names its kind, not the source's formatted text.
- Parser.Parse: the source panics on an unmatched `)` and on an unclosed `(`. These panics are modelled as the errors `UnmatchedClose` and `UnclosedList`.
- Parser.Parse: input is bytes, and whitespace is ASCII whitespace (9 to 13 and 32). The source reads `char`s and `char::is_whitespace` also accepts non-ASCII Unicode spaces. A word is a byte string, not a `String`.
- Semantics.MinusOp: `BigUint` subtraction below zero panics in the source. It is modelled as the error `NegativeDifference`.
- Interp.Interpreter.SwapTopWith: the source panics when the stack is empty or not deep enough. The model returns the stack-underflow error and leaves the stack unchanged.
- Semantics.Peek: as written, a too-deep peek panics in builds with overflow checks and returns the error otherwise. The model uses the error (see Findings).
- Semantics.SwapOp and Semantics.DupOp: a depth too large for `usize` is refused by the source with its own error. In the model such a depth meets the stack-underflow error instead: no stack can be that deep, so only the error kind differs.
- Semantics.PeekLenOp: the length is pushed as the canonical little-endian encoding, not as the eight native-endian bytes of a `usize`. Both read as the same number on little-endian targets; big-endian targets are not modelled.
- Semantics.ParseUnsignedOp: only non-empty runs of ASCII digits are accepted. `BigUint::from_str` also takes a leading `+` and `_` separators. Invalid UTF-8 and a bad numeral are both the one error `InvalidNumeral`.
- Semantics.Eval and Semantics.DefinedOp: the source formats its "not found" messages with `from_utf8(..).unwrap()` (src/interp.rs:47, 107, 129). So a name that is not valid UTF-8 panics where the model returns an error. For a call head this happens on every lookup that misses storage, where the model returns `UnknownWord`. For `.@` it happens when the name is not defined, where the model returns `NotDefined`. Such names are reachable, for example the byte 0xFF built with `.u 255` and `.append`. The model keeps the error that a valid name would give.
- Semantics.Eval: nested evaluation is bounded by a `fuel` argument and fails with `OutOfFuel` when it runs out. The source recurses without bound, so a definition that calls itself loops forever or overflows the native stack. The fuel lemmas show that fuel only matters once it runs out.
- Interp.Interpreter.Eval: the source takes the call as an iterator and extends the stack with the elements left after the head. The model takes the call as a sequence.

## Findings

| source | as written | input that shows it | evidently intended | confidence | as-written member | corrected member |
|---|---|---|---|---|---|---|
| src/interp.rs:60-65 | `peek_expr` computes the index `len - 1 - back` in `usize` before calling `get`. With overflow checks on, a too-deep peek panics, so the `stack was not N deep` error is never returned. | `.dup` with depth 0 on an empty stack, or `.peek-len` on an empty stack | return the "not deep enough" error whenever `back >= len` | medium (not executed; depends on the build profile's overflow checks) | Facts.PeekAsWrittenPanics | Facts.PeekMeaning |
