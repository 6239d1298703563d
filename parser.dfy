/** The S-expression reader of src/parser.rs. The source reads `char`s; this
    model reads the UTF-8 bytes of the text, which gives the same words for
    every text whose whitespace is ASCII. */
module Parser {

  import opened Values

  const OPEN: byte := 0x28   // '('
  const CLOSE: byte := 0x29  // ')'
  const SPACE: byte := 0x20  // ' '

  /** ASCII whitespace as `char::is_whitespace` classifies it: tab, line feed,
      vertical tab, form feed, carriage return and space. */
  predicate IsWhitespace(c: byte)
  {
    c == SPACE || 0x09 <= c <= 0x0D
  }

  predicate IsDelimiter(c: byte)
  {
    IsWhitespace(c) || c == OPEN || c == CLOSE
  }

  /** A word the reader can produce: non-empty, with no whitespace or parenthesis. */
  predicate IsWord(w: seq<byte>)
  {
    w != [] && forall i :: 0 <= i < |w| ==> !IsDelimiter(w[i])
  }

  predicate WellFormed(v: Value)
  {
    match v
    case Bytes(w) => IsWord(w)
    case List(vs) => forall i :: 0 <= i < |vs| ==> WellFormed(vs[i])
  }

  predicate AllWellFormed(vs: seq<Value>)
  {
    forall i :: 0 <= i < |vs| ==> WellFormed(vs[i])
  }

  /** The pending word, if any, emitted after the elements read so far. */
  function Flush(acc: seq<Value>, pending: Option<seq<byte>>): seq<Value>
  {
    if pending.Some? then acc + [Bytes(pending.value)] else acc
  }

  /** The pending word grown by one byte (a fresh word when none is pending). */
  function Grow(pending: Option<seq<byte>>, c: byte): seq<byte>
  {
    if pending.Some? then pending.value + [c] else [c]
  }

  /** The reader's loop as a function of the unread input `s`, the elements
      `acc` read so far and the pending word. It yields the elements of the
      list and the input left after its closing `)` (nothing, at top level). */
  function Parse(s: seq<byte>, inside: bool, acc: seq<Value>, pending: Option<seq<byte>>)
    : (r: Result<(seq<Value>, seq<byte>)>)
    ensures r.Ok? && inside ==> |r.value.1| < |s|
    ensures r.Ok? && !inside ==> r.value.1 == []
    decreases |s|
  {
    if s == [] then
      if inside then Err(UnclosedList) else Ok((Flush(acc, pending), []))
    else if s[0] == OPEN then
      match Parse(s[1..], true, [], None)
      case Err(e) => Err(e)
      case Ok((items, rest)) => Parse(rest, inside, acc + [List(items)], pending)
    else if s[0] == CLOSE then
      if inside then Ok((Flush(acc, pending), s[1..])) else Err(UnmatchedClose)
    else if IsWhitespace(s[0]) then
      Parse(s[1..], inside, Flush(acc, pending), None)
    else
      Parse(s[1..], inside, acc, Some(Grow(pending, s[0])))
  }

  /** A whole text read at top level: always a list when it succeeds. */
  function ParseText(s: seq<byte>): (r: Result<Value>)
    ensures r.Ok? ==> r.value.List?
  {
    match Parse(s, false, [], None)
    case Err(e) => Err(e)
    case Ok((items, _)) => Ok(List(items))
  }

  /** `parse_exprs`: reads `input` from `pos`, at top level or inside a list
      whose `(` has just been read, and returns the list and the position after it. */
  method ParseExprs(input: seq<byte>, pos: nat, inside: bool) returns (r: Result<(Value, nat)>)
    requires pos <= |input|
    ensures var spec := Parse(input[pos..], inside, [], None);
      && r.Ok? == spec.Ok?
      && (r.Err? ==> r.error == spec.error)
      && (r.Ok? ==> r.value.0 == List(spec.value.0) && pos <= r.value.1 <= |input|
                    && input[r.value.1..] == spec.value.1)
    decreases |input| - pos
  {
    var exprs: seq<Value> := [];
    var current: Option<seq<byte>> := None;
    var i := pos;
    while i < |input|
      invariant pos <= i <= |input|
      invariant Parse(input[i..], inside, exprs, current) == Parse(input[pos..], inside, [], None)
      decreases |input| - i
    {
      ghost var s := input[i..];
      var c := input[i];
      assert s[0] == c && s[1..] == input[i + 1..];
      if c == OPEN {
        var sub := ParseExprs(input, i + 1, true);
        if sub.Err? {
          return Err(sub.error);
        }
        ghost var items := sub.value.0.items;
        assert |input[sub.value.1..]| < |input[i + 1..]|;
        assert Parse(s, inside, exprs, current)
            == Parse(input[sub.value.1..], inside, exprs + [List(items)], current);
        exprs := exprs + [sub.value.0];
        i := sub.value.1;
      } else if c == CLOSE {
        if !inside {
          return Err(UnmatchedClose);
        }
        if current.Some? {
          exprs := exprs + [Bytes(current.value)];
        }
        return Ok((List(exprs), i + 1));
      } else if IsWhitespace(c) {
        assert Parse(s, inside, exprs, current) == Parse(input[i + 1..], inside, Flush(exprs, current), None);
        if current.Some? {
          exprs := exprs + [Bytes(current.value)];
          current := None;
        }
        i := i + 1;
      } else {
        assert Parse(s, inside, exprs, current) == Parse(input[i + 1..], inside, exprs, Some(Grow(current, c)));
        match current {
          case None => current := Some([c]);
          case Some(w) => current := Some(w + [c]);
        }
        i := i + 1;
      }
    }
    assert input[i..] == [];
    if inside {
      return Err(UnclosedList);
    }
    if current.Some? {
      exprs := exprs + [Bytes(current.value)];
    }
    return Ok((List(exprs), i));
  }

  // ---------------------------------------------------------------------
  // What the reader produces

  /** Every word read is non-empty and holds no whitespace or parenthesis. */
  lemma {:induction false} ParseYieldsWords(s: seq<byte>, inside: bool, acc: seq<Value>, pending: Option<seq<byte>>)
    requires AllWellFormed(acc)
    requires pending.Some? ==> IsWord(pending.value)
    ensures Parse(s, inside, acc, pending).Ok? ==> AllWellFormed(Parse(s, inside, acc, pending).value.0)
    decreases |s|
  {
    if s == [] {
    } else if s[0] == OPEN {
      ParseYieldsWords(s[1..], true, [], None);
      match Parse(s[1..], true, [], None)
      case Err(_) =>
      case Ok((items, rest)) =>
        assert WellFormed(List(items));
        ParseYieldsWords(rest, inside, acc + [List(items)], pending);
    } else if s[0] == CLOSE {
    } else if IsWhitespace(s[0]) {
      ParseYieldsWords(s[1..], inside, Flush(acc, pending), None);
    } else {
      ParseYieldsWords(s[1..], inside, acc, Some(Grow(pending, s[0])));
    }
  }

  lemma ParseTextYieldsWords(s: seq<byte>)
    ensures ParseText(s).Ok? ==> WellFormed(ParseText(s).value)
  {
    ParseYieldsWords(s, false, [], None);
  }

  // ---------------------------------------------------------------------
  // When the reader fails: exactly when the parentheses do not balance

  /** Reading `s` at nesting depth `d` ends with every `(` matched by a `)`
      and no `)` unmatched. */
  predicate BalancedFrom(s: seq<byte>, d: nat)
    decreases |s|
  {
    if s == [] then d == 0
    else if s[0] == OPEN then BalancedFrom(s[1..], d + 1)
    else if s[0] == CLOSE then d > 0 && BalancedFrom(s[1..], d - 1)
    else BalancedFrom(s[1..], d)
  }

  /** Inside a list the reader stops right after the `)` that closes it, and
      fails only when no such `)` exists. */
  lemma {:induction false} ParseListBalance(s: seq<byte>, acc: seq<Value>, pending: Option<seq<byte>>, d: nat)
    requires d >= 1
    ensures Parse(s, true, acc, pending).Ok? ==>
      BalancedFrom(s, d) == BalancedFrom(Parse(s, true, acc, pending).value.1, d - 1)
    ensures Parse(s, true, acc, pending).Err? ==> !BalancedFrom(s, d)
    decreases |s|
  {
    if s == [] {
    } else if s[0] == OPEN {
      ParseListBalance(s[1..], [], None, d + 1);
      match Parse(s[1..], true, [], None)
      case Err(_) =>
      case Ok((items, rest)) =>
        ParseListBalance(rest, acc + [List(items)], pending, d);
    } else if s[0] == CLOSE {
    } else if IsWhitespace(s[0]) {
      ParseListBalance(s[1..], Flush(acc, pending), None, d);
    } else {
      ParseListBalance(s[1..], acc, Some(Grow(pending, s[0])), d);
    }
  }

  lemma {:induction false} ParseTopBalance(s: seq<byte>, acc: seq<Value>, pending: Option<seq<byte>>)
    ensures Parse(s, false, acc, pending).Ok? <==> BalancedFrom(s, 0)
    decreases |s|
  {
    if s == [] {
    } else if s[0] == OPEN {
      ParseListBalance(s[1..], [], None, 1);
      match Parse(s[1..], true, [], None)
      case Err(_) =>
      case Ok((items, rest)) =>
        ParseTopBalance(rest, acc + [List(items)], pending);
    } else if s[0] == CLOSE {
    } else if IsWhitespace(s[0]) {
      ParseTopBalance(s[1..], Flush(acc, pending), None);
    } else {
      ParseTopBalance(s[1..], acc, Some(Grow(pending, s[0])));
    }
  }

  /** A text reads successfully exactly when its parentheses balance: an
      unmatched `)` and an unclosed `(` are the only errors. */
  lemma ParseTextSucceedsIffBalanced(s: seq<byte>)
    ensures ParseText(s).Ok? <==> BalancedFrom(s, 0)
  {
    ParseTopBalance(s, [], None);
  }

  // ---------------------------------------------------------------------
  // Printing and reading back

  /** A value in surface syntax: words as they are, lists in parentheses
      with elements separated by single spaces. */
  function Print(v: Value): seq<byte>
    decreases v, 1
  {
    match v
    case Bytes(w) => w
    case List(vs) => [OPEN] + PrintSeq(vs) + [CLOSE]
  }

  function PrintSeq(vs: seq<Value>): seq<byte>
    decreases vs, 0
  {
    if vs == [] then []
    else if |vs| == 1 then Print(vs[0])
    else Print(vs[0]) + [SPACE] + PrintSeq(vs[1..])
  }

  /** What may follow a word: the end, any whitespace byte or a `)`. */
  predicate EndsElement(r: seq<byte>)
  {
    r == [] || IsWhitespace(r[0]) || r[0] == CLOSE
  }

  /** The pending word is emitted at whitespace, at `)` and at the end. */
  lemma FlushAtDelimiter(r: seq<byte>, inside: bool, acc: seq<Value>, w: seq<byte>)
    requires EndsElement(r)
    ensures Parse(r, inside, acc, Some(w)) == Parse(r, inside, acc + [Bytes(w)], None)
  {
  }

  /** The bytes of a word accumulate into the pending word. */
  lemma {:induction false} ReadWord(w: seq<byte>, r: seq<byte>, inside: bool, acc: seq<Value>, pending: Option<seq<byte>>)
    requires IsWord(w)
    ensures Parse(w + r, inside, acc, pending)
         == Parse(r, inside, acc, Some(if pending.Some? then pending.value + w else w))
    decreases |w|
  {
    var s := w + r;
    assert s[0] == w[0] && s[1..] == w[1..] + r;
    var next := Some(Grow(pending, w[0]));
    if |w| == 1 {
      assert w[1..] + r == r;
      assert w == [w[0]];
    } else {
      ReadWord(w[1..], r, inside, acc, next);
      assert Grow(pending, w[0]) + w[1..] == (if pending.Some? then pending.value + w else w);
    }
  }

  /** A separator with no pending word changes nothing. */
  lemma SkipSpace(r: seq<byte>, inside: bool, acc: seq<Value>)
    ensures Parse([SPACE] + r, inside, acc, None) == Parse(r, inside, acc, None)
  {
    assert ([SPACE] + r)[1..] == r;
  }

  lemma {:induction false} ReadPrinted(v: Value, r: seq<byte>, inside: bool, acc: seq<Value>)
    requires WellFormed(v) && EndsElement(r)
    ensures Parse(Print(v) + r, inside, acc, None) == Parse(r, inside, acc + [v], None)
    decreases v, 1
  {
    match v
    case Bytes(w) =>
      ReadWord(w, r, inside, acc, None);
      FlushAtDelimiter(r, inside, acc, w);
    case List(vs) =>
      var s := Print(v) + r;
      var inner := PrintSeq(vs) + ([CLOSE] + r);
      assert s == [OPEN] + inner;
      assert s[1..] == inner;
      ReadPrintedSeq(vs, [CLOSE] + r, true, []);
      assert [] + vs == vs;
      assert Parse([CLOSE] + r, true, vs, None) == Ok((vs, r));
  }

  lemma {:induction false} ReadPrintedSeq(vs: seq<Value>, r: seq<byte>, inside: bool, acc: seq<Value>)
    requires AllWellFormed(vs)
    requires r == [] || r[0] == CLOSE
    ensures Parse(PrintSeq(vs) + r, inside, acc, None) == Parse(r, inside, acc + vs, None)
    decreases vs, 0
  {
    if vs == [] {
      assert acc + vs == acc;
      assert PrintSeq(vs) + r == r;
    } else if |vs| == 1 {
      ReadPrinted(vs[0], r, inside, acc);
      assert acc + [vs[0]] == acc + vs;
    } else {
      var tail := PrintSeq(vs[1..]) + r;
      var r' := [SPACE] + tail;
      assert r'[0] == SPACE;
      assert WellFormed(vs[0]) && EndsElement(r');
      assert AllWellFormed(vs[1..]) by {
        forall i | 0 <= i < |vs[1..]| ensures WellFormed(vs[1..][i]) {
          assert vs[1..][i] == vs[i + 1];
        }
      }
      calc {
        Parse(PrintSeq(vs) + r, inside, acc, None);
        { assert PrintSeq(vs) + r == Print(vs[0]) + r'; }
        Parse(Print(vs[0]) + r', inside, acc, None);
        { ReadPrinted(vs[0], r', inside, acc); }
        Parse(r', inside, acc + [vs[0]], None);
        { SkipSpace(tail, inside, acc + [vs[0]]); }
        Parse(tail, inside, acc + [vs[0]], None);
        { ReadPrintedSeq(vs[1..], r, inside, acc + [vs[0]]); }
        Parse(r, inside, acc + [vs[0]] + vs[1..], None);
        { assert acc + [vs[0]] + vs[1..] == acc + vs; }
        Parse(r, inside, acc + vs, None);
      }
    }
  }

  /** Round trip: printing the elements of a well-formed list and reading the
      text back gives the list. */
  lemma ParsePrintRoundTrip(vs: seq<Value>)
    requires AllWellFormed(vs)
    ensures ParseText(PrintSeq(vs)) == Ok(List(vs))
  {
    ReadPrintedSeq(vs, [], false, []);
    assert PrintSeq(vs) + [] == PrintSeq(vs);
    assert [] + vs == vs;
  }

  // ---------------------------------------------------------------------
  // Worked cases

  lemma StepClose(r: seq<byte>, acc: seq<Value>, pending: Option<seq<byte>>)
    ensures Parse([CLOSE] + r, true, acc, pending) == Ok((Flush(acc, pending), r))
  {
    assert ([CLOSE] + r)[1..] == r;
  }

  lemma StepOpen(r: seq<byte>, inside: bool, acc: seq<Value>, pending: Option<seq<byte>>, items: seq<Value>, rest: seq<byte>)
    requires Parse(r, true, [], None) == Ok((items, rest))
    ensures Parse([OPEN] + r, inside, acc, pending) == Parse(rest, inside, acc + [List(items)], pending)
  {
    assert ([OPEN] + r)[1..] == r;
  }

  /** A pending word is not emitted at `(`: the nested list comes first and
      the word goes on after the matching `)`. */
  lemma WordContinuesAcrossList()
    ensures ParseText(Ascii("ab(c)d")) == Ok(List([List([Bytes(Ascii("c"))]), Bytes(Ascii("abd"))]))
  {
    var ab, c, d := Ascii("ab"), Ascii("c"), Ascii("d");
    assert IsWord(ab) && IsWord(c) && IsWord(d);
    var nested := c + ([CLOSE] + d);
    var tail := [OPEN] + nested;
    var e: seq<byte> := [];
    var first := [List([Bytes(c)])];
    calc {
      Parse(nested, true, [], None);
      { ReadWord(c, [CLOSE] + d, true, [], None); }
      Parse([CLOSE] + d, true, [], Some(c));
      { StepClose(d, [], Some(c)); }
      Ok((Flush([], Some(c)), d));
      { assert Flush([], Some(c)) == [Bytes(c)]; }
      Ok(([Bytes(c)], d));
    }
    calc {
      Parse(ab + tail, false, [], None);
      { ReadWord(ab, tail, false, [], None); }
      Parse(tail, false, [], Some(ab));
      { StepOpen(nested, false, [], Some(ab), [Bytes(c)], d); assert [] + first == first; }
      Parse(d, false, first, Some(ab));
      { ReadWord(d, e, false, first, Some(ab)); assert d + e == d; }
      Parse(e, false, first, Some(ab + d));
      Ok((first + [Bytes(ab + d)], e));
    }
    assert Ascii("ab(c)d") == ab + tail;
    assert ab + d == Ascii("abd");
    assert Flush(first, Some(ab + d)) == first + [Bytes(ab + d)];
    assert first + [Bytes(ab + d)] == [List([Bytes(Ascii("c"))]), Bytes(Ascii("abd"))];
  }

  lemma ReaderCases()
    ensures ParseText(Ascii("(())")) == Ok(List([List([List([])])]))
    ensures ParseText(Ascii("(()")) == Err(UnclosedList)
    ensures ParseText(Ascii(")")) == Err(UnmatchedClose)
  {
    var e: seq<byte> := [];
    var none: Option<seq<byte>> := None;
    assert Flush([], none) == [];
    calc {
      Parse([OPEN] + ([CLOSE] + [CLOSE]), true, [], none);
      { StepClose([CLOSE], [], none); StepOpen([CLOSE] + [CLOSE], true, [], none, [], [CLOSE]); }
      Parse([CLOSE], true, [] + [List([])], none);
      { assert [] + [List([])] == [List([])]; }
      Parse([CLOSE] + e, true, [List([])], none);
      { StepClose(e, [List([])], none); assert Flush([List([])], none) == [List([])]; }
      Ok(([List([])], e));
    }
    calc {
      Parse([OPEN] + ([OPEN] + ([CLOSE] + [CLOSE])), false, [], none);
      { StepOpen([OPEN] + ([CLOSE] + [CLOSE]), false, [], none, [List([])], e); }
      Parse(e, false, [] + [List([List([])])], none);
      { assert [] + [List([List([])])] == [List([List([])])]; }
      Parse(e, false, [List([List([])])], none);
      { assert Flush([List([List([])])], none) == [List([List([])])]; }
      Ok(([List([List([])])], e));
    }
    assert Ascii("(())") == [OPEN] + ([OPEN] + ([CLOSE] + [CLOSE]));

    calc {
      Parse([OPEN] + [CLOSE], true, [], none);
      { StepClose(e, [], none); assert [CLOSE] == [CLOSE] + e; StepOpen([CLOSE], true, [], none, [], e); }
      Parse(e, true, [] + [List([])], none);
      Err(UnclosedList);
    }
    assert ([OPEN] + ([OPEN] + [CLOSE]))[1..] == [OPEN] + [CLOSE];
    assert Ascii("(()") == [OPEN] + ([OPEN] + [CLOSE]);

    assert Ascii(")") == [CLOSE];
  }

  lemma NestedListCase()
    ensures ParseText(Ascii("(a b (c d))"))
         == Ok(List([List([Bytes(Ascii("a")), Bytes(Ascii("b")), List([Bytes(Ascii("c")), Bytes(Ascii("d"))])])]))
  {
    var a, b, c, d := Ascii("a"), Ascii("b"), Ascii("c"), Ascii("d");
    var inner := List([Bytes(c), Bytes(d)]);
    var outer := List([Bytes(a), Bytes(b), inner]);
    assert [Bytes(c), Bytes(d)][1..] == [Bytes(d)];
    assert PrintSeq([Bytes(d)]) == d;
    assert PrintSeq([Bytes(c), Bytes(d)]) == c + [SPACE] + d;
    assert [Bytes(b), inner][1..] == [inner];
    assert PrintSeq([Bytes(b), inner]) == b + [SPACE] + Print(inner);
    assert [Bytes(a), Bytes(b), inner][1..] == [Bytes(b), inner];
    assert PrintSeq([Bytes(a), Bytes(b), inner]) == a + [SPACE] + PrintSeq([Bytes(b), inner]);
    assert PrintSeq([outer]) == Ascii("(a b (c d))");
    assert AllWellFormed([outer]) by {
      assert IsWord(a) && IsWord(b) && IsWord(c) && IsWord(d);
      assert WellFormed(inner);
    }
    ParsePrintRoundTrip([outer]);
  }
}
