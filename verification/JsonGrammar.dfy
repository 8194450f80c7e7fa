/** The streaming JSON automaton of grammar.rs, character by character. */
module JsonGrammar {
  import opened Common

  const MAX_JSON_STACK_DEPTH: nat := 32

  datatype Scope = Object | Array

  datatype LiteralKind = True | False | Null

  datatype NumberState = Sign | Zero | Integer | FractionStart | Fraction | ExponentStart | ExponentSign | ExponentDigits

  datatype Primitive = NoPrimitive | Literal(kind: LiteralKind, next: nat) | Number(state: NumberState)

  /** The automaton's fields; the fixed scope array and its depth appear as the stack they hold. */
  datatype State = State(
    stack: seq<Scope>,
    inString: bool,
    escape: bool,
    expectKey: bool,
    expectColon: bool,
    expectValue: bool,
    expectCommaOrClose: bool,
    started: bool,
    completed: bool,
    hasError: bool,
    primitive: Primitive)

  const INITIAL := State([], false, false, false, false, true, false, false, false, false, NoPrimitive)

  // ---------- character classes ----------

  /** The Unicode White_Space property, which `char::is_whitespace` tests. */
  predicate IsWhitespace(ch: char) {
    var c := ch as int;
    9 <= c <= 13 || c == 0x20 || c == 0x85 || c == 0xA0 || c == 0x1680 || 0x2000 <= c <= 0x200A
    || c == 0x2028 || c == 0x2029 || c == 0x202F || c == 0x205F || c == 0x3000
  }

  predicate IsDigit(ch: char) {
    '0' <= ch <= '9'
  }

  predicate IsValueDelimiter(ch: char) {
    IsWhitespace(ch) || ch == ',' || ch == '}' || ch == ']'
  }

  function LiteralText(kind: LiteralKind): string {
    match kind
    case True => "true"
    case False => "false"
    case Null => "null"
  }

  // ---------- one character ----------

  function Fail(g: State): State {
    g.(hasError := true)
  }

  function FinishValue(g: State): State {
    if |g.stack| == 0 && g.started
    then g.(expectValue := false, completed := true, expectCommaOrClose := false)
    else g.(expectValue := false, expectCommaOrClose := true)
  }

  function FinishPrimitive(g: State): State {
    FinishValue(g.(primitive := NoPrimitive))
  }

  predicate Accepting(s: NumberState) {
    s.Zero? || s.Integer? || s.Fraction? || s.ExponentDigits?
  }

  /** The number transitions that consume a character. */
  function NextNumber(s: NumberState, ch: char): Option<NumberState> {
    match s
    case Sign => if ch == '0' then Some(Zero) else if IsDigit(ch) then Some(Integer) else None
    case Zero => if ch == '.' then Some(FractionStart) else if ch == 'e' || ch == 'E' then Some(ExponentStart) else None
    case Integer =>
      if IsDigit(ch) then Some(Integer) else if ch == '.' then Some(FractionStart)
      else if ch == 'e' || ch == 'E' then Some(ExponentStart) else None
    case FractionStart => if IsDigit(ch) then Some(Fraction) else None
    case Fraction => if IsDigit(ch) then Some(Fraction) else if ch == 'e' || ch == 'E' then Some(ExponentStart) else None
    case ExponentStart =>
      if ch == '+' || ch == '-' then Some(ExponentSign) else if IsDigit(ch) then Some(ExponentDigits) else None
    case ExponentSign => if IsDigit(ch) then Some(ExponentDigits) else None
    case ExponentDigits => if IsDigit(ch) then Some(ExponentDigits) else None
  }

  /** `feed_primitive`: the new state, and whether the character was consumed. */
  function FeedPrimitive(g: State, ch: char): (State, bool) {
    match g.primitive
    case NoPrimitive => (g, false)
    case Literal(kind, next) =>
      var expected := LiteralText(kind);
      if next < |expected| && ch == expected[next] then
        if next + 1 == |expected| then (FinishPrimitive(g), true)
        else (g.(primitive := Literal(kind, next + 1)), true)
      else (Fail(g), false)
    case Number(state) =>
      match NextNumber(state, ch)
      case Some(next) => (g.(primitive := Number(next)), true)
      case None =>
        if Accepting(state) && IsValueDelimiter(ch) then (FinishPrimitive(g), false) else (Fail(g), false)
  }

  function PrimitiveStart(ch: char): Option<Primitive> {
    if ch == 't' then Some(Literal(True, 1))
    else if ch == 'f' then Some(Literal(False, 1))
    else if ch == 'n' then Some(Literal(Null, 1))
    else if ch == '-' then Some(Number(Sign))
    else if ch == '0' then Some(Number(Zero))
    else if '1' <= ch <= '9' then Some(Number(Integer))
    else None
  }

  function Quote(g0: State): State {
    var g := g0.(inString := !g0.inString);
    if !g.inString then
      if g.expectKey then g.(expectKey := false, expectColon := true, started := true)
      else if g.expectValue then FinishValue(g).(started := true)
      else Fail(g)
    else if !g.expectKey && !g.expectValue then Fail(g)
    else g.(started := true)
  }

  function Popped(g: State): State
    requires |g.stack| > 0
  {
    g.(stack := g.stack[..|g.stack| - 1])
  }

  /** A value ended by a closing bracket: at depth 0 the text is complete. */
  function Closed(g: State): State {
    if |g.stack| == 0 && g.started
    then g.(expectValue := false, completed := true, expectCommaOrClose := false)
    else g.(expectValue := false, expectCommaOrClose := true)
  }

  /** Closing a container: the popped scope must match. */
  function Close(g: State, scope: Scope): State {
    if |g.stack| == 0 then Fail(g)
    else if g.stack[|g.stack| - 1] != scope then Fail(Popped(g))
    else if scope.Object? then Closed(Popped(g)).(expectKey := false, expectColon := false)
    else Closed(Popped(g))
  }

  function Open(g: State, scope: Scope): State {
    if !g.expectValue || |g.stack| >= MAX_JSON_STACK_DEPTH then Fail(g)
    else if scope.Object?
    then g.(stack := g.stack + [Object], expectValue := false, expectKey := true, expectCommaOrClose := true, started := true)
    else g.(stack := g.stack + [Array], expectCommaOrClose := true, started := true)
  }

  function Colon(g: State): State {
    if g.expectColon then g.(expectColon := false, expectValue := true, expectCommaOrClose := false) else Fail(g)
  }

  function Comma(g: State): State {
    if g.expectCommaOrClose && !g.expectValue && !g.expectColon then
      if |g.stack| > 0 && g.stack[|g.stack| - 1].Object?
      then g.(expectCommaOrClose := false, expectKey := true)
      else g.(expectCommaOrClose := false, expectValue := true)
    else Fail(g)
  }

  function BeginPrimitive(g: State, ch: char): State {
    match PrimitiveStart(ch)
    case None => Fail(g)
    case Some(p) =>
      if !g.expectValue then Fail(g)
      else g.(started := true, expectValue := false, expectCommaOrClose := true, primitive := p)
  }

  /** A character outside strings, primitives and whitespace. */
  function Structural(g: State, ch: char): State {
    if ch == '{' then Open(g, Object)
    else if ch == '}' then
      if g.expectColon || g.expectValue || (g.expectKey && !g.expectCommaOrClose) then Fail(g) else Close(g, Object)
    else if ch == '[' then Open(g, Array)
    else if ch == ']' then
      if g.expectColon || (g.expectValue && !g.expectCommaOrClose) then Fail(g) else Close(g, Array)
    else if ch == ':' then Colon(g)
    else if ch == ',' then Comma(g)
    else BeginPrimitive(g, ch)
  }

  function Step(g: State, ch: char): State {
    if g.completed then if IsWhitespace(ch) then g else Fail(g)
    else if g.escape then g.(escape := false)
    else if ch == '\\' && g.inString then g.(escape := true)
    else if ch == '"' then Quote(g)
    else if g.inString then g
    else
      var (next, consumed) := FeedPrimitive(g, ch);
      if consumed || next.hasError || IsWhitespace(ch) then next else Structural(next, ch)
  }

  /** A whole chunk: the loop stops at the first error. */
  function Run(g: State, s: string): State {
    if |s| == 0 then g
    else
      var before := Run(g, s[..|s| - 1]);
      if before.hasError then before else Step(before, s[|s| - 1])
  }

  /** `feed`: a finished or failed automaton refuses every chunk and does not move. */
  function Feed(g: State, chunk: string): State {
    if g.completed || g.hasError then g else Run(g, chunk)
  }

  // ---------- the mutable automaton ----------

  class Automaton {
    const scopes: array<Scope>
    var depth: nat
    ghost var stack: seq<Scope>
    var inString: bool
    var escape: bool
    var expectKey: bool
    var expectColon: bool
    var expectValue: bool
    var expectCommaOrClose: bool
    var started: bool
    var completed: bool
    var hasError: bool
    var primitive: Primitive

    ghost predicate Valid()
      reads this, scopes
    {
      scopes.Length == MAX_JSON_STACK_DEPTH && depth <= scopes.Length && stack == scopes[..depth]
    }

    ghost function Abs(): State
      reads this
    {
      State(stack, inString, escape, expectKey, expectColon, expectValue, expectCommaOrClose,
            started, completed, hasError, primitive)
    }

    constructor ()
      ensures Valid() && Abs() == INITIAL && fresh(scopes)
    {
      scopes := new Scope[MAX_JSON_STACK_DEPTH](_ => Object);
      depth, primitive, stack := 0, NoPrimitive, [];
      inString, escape, expectKey, expectColon := false, false, false, false;
      expectValue := true;
      expectCommaOrClose, started, completed, hasError := false, false, false, false;
    }

    /** The by-value copy `can_accept` simulates on. */
    constructor Copy(g: Automaton)
      requires g.Valid()
      ensures Valid() && Abs() == g.Abs() && fresh(scopes)
    {
      scopes := new Scope[MAX_JSON_STACK_DEPTH](i requires 0 <= i < MAX_JSON_STACK_DEPTH reads g, g.scopes requires g.scopes.Length == MAX_JSON_STACK_DEPTH => g.scopes[i]);
      depth, primitive, stack := g.depth, g.primitive, g.stack;
      inString, escape, expectKey, expectColon := g.inString, g.escape, g.expectKey, g.expectColon;
      expectValue := g.expectValue;
      expectCommaOrClose, started, completed, hasError := g.expectCommaOrClose, g.started, g.completed, g.hasError;
    }

    method PushScope(scope: Scope) returns (ok: bool)
      requires Valid()
      modifies this, scopes
      ensures Valid()
      ensures ok == (|old(Abs()).stack| < MAX_JSON_STACK_DEPTH)
      ensures Abs() == if ok then old(Abs()).(stack := old(Abs()).stack + [scope]) else old(Abs())
    {
      if depth < MAX_JSON_STACK_DEPTH {
        scopes[depth] := scope;
        depth := depth + 1;
        stack := stack + [scope];
        ok := true;
      } else {
        ok := false;
      }
    }

    method PopScope() returns (scope: Option<Scope>)
      requires Valid()
      modifies this
      ensures Valid()
      ensures var was := old(Abs()).stack;
        if |was| == 0 then scope == None && Abs() == old(Abs())
        else scope == Some(was[|was| - 1]) && Abs() == old(Abs()).(stack := was[..|was| - 1])
    {
      if depth > 0 {
        depth := depth - 1;
        stack := stack[..depth];
        scope := Some(scopes[depth]);
      } else {
        scope := None;
      }
    }

    method DoFinishValue()
      requires Valid()
      modifies this
      ensures Valid() && Abs() == FinishValue(old(Abs()))
    {
      expectValue := false;
      expectCommaOrClose := true;
      if depth == 0 && started {
        completed := true;
        expectCommaOrClose := false;
      }
    }

    method DoFinishPrimitive()
      requires Valid()
      modifies this
      ensures Valid() && Abs() == FinishPrimitive(old(Abs()))
    {
      primitive := NoPrimitive;
      DoFinishValue();
    }

    method DoFeedPrimitive(ch: char) returns (consumed: bool)
      requires Valid()
      modifies this
      ensures Valid() && (Abs(), consumed) == FeedPrimitive(old(Abs()), ch)
    {
      match primitive {
        case NoPrimitive =>
          consumed := false;
        case Literal(kind, next) =>
          var expected := LiteralText(kind);
          if next < |expected| && ch == expected[next] {
            if next + 1 == |expected| {
              DoFinishPrimitive();
            } else {
              primitive := Literal(kind, next + 1);
            }
            consumed := true;
          } else {
            hasError := true;
            consumed := false;
          }
        case Number(state) =>
          match NextNumber(state, ch) {
            case Some(next) =>
              primitive := Number(next);
              consumed := true;
            case None =>
              if Accepting(state) && IsValueDelimiter(ch) {
                DoFinishPrimitive();
              } else {
                hasError := true;
              }
              consumed := false;
          }
      }
    }

    method DoQuote()
      requires Valid()
      modifies this
      ensures Valid() && Abs() == Quote(old(Abs()))
    {
      inString := !inString;
      if !inString {
        if expectKey {
          expectKey := false;
          expectColon := true;
        } else if expectValue {
          DoFinishValue();
        } else {
          hasError := true;
          return;
        }
      } else if !expectKey && !expectValue {
        hasError := true;
        return;
      }
      started := true;
    }

    method DoClosed()
      requires Valid()
      modifies this
      ensures Valid() && Abs() == Closed(old(Abs()))
    {
      expectCommaOrClose := true;
      expectValue := false;
      if depth == 0 && started {
        completed := true;
        expectCommaOrClose := false;
      }
    }

    method DoClose(scope: Scope)
      requires Valid()
      modifies this
      ensures Valid() && Abs() == Close(old(Abs()), scope)
    {
      var popped := PopScope();
      if popped != Some(scope) {
        hasError := true;
        return;
      }
      DoClosed();
      if scope.Object? {
        expectKey := false;
        expectColon := false;
      }
    }

    method DoOpen(scope: Scope)
      requires Valid()
      modifies this, scopes
      ensures Valid() && Abs() == Open(old(Abs()), scope)
    {
      if !expectValue {
        hasError := true;
        return;
      }
      var ok := PushScope(scope);
      if !ok {
        hasError := true;
        return;
      }
      if scope.Object? {
        expectValue := false;
        expectKey := true;
      }
      expectCommaOrClose := true;
      started := true;
    }

    method DoColon()
      requires Valid()
      modifies this
      ensures Valid() && Abs() == Colon(old(Abs()))
    {
      if expectColon {
        expectColon, expectValue, expectCommaOrClose := false, true, false;
      } else {
        hasError := true;
      }
    }

    method DoComma()
      requires Valid()
      modifies this
      ensures Valid() && Abs() == Comma(old(Abs()))
    {
      if expectCommaOrClose && !expectValue && !expectColon {
        expectCommaOrClose := false;
        if depth > 0 && scopes[depth - 1] == Object {
          expectKey := true;
          expectValue := false;
        } else {
          expectValue := true;
        }
      } else {
        hasError := true;
      }
    }

    method DoBeginPrimitive(ch: char)
      requires Valid()
      modifies this
      ensures Valid() && Abs() == BeginPrimitive(old(Abs()), ch)
    {
      var p := PrimitiveStart(ch);
      if p.None? || !expectValue {
        hasError := true;
      } else {
        started, expectValue, expectCommaOrClose, primitive := true, false, true, p.value;
      }
    }

    method DoStructural(ch: char)
      requires Valid()
      modifies this, scopes
      ensures Valid() && Abs() == Structural(old(Abs()), ch)
    {
      if ch == '{' {
        DoOpen(Object);
      } else if ch == '}' {
        if expectColon || expectValue || (expectKey && !expectCommaOrClose) {
          hasError := true;
        } else {
          DoClose(Object);
        }
      } else if ch == '[' {
        DoOpen(Array);
      } else if ch == ']' {
        if expectColon || (expectValue && !expectCommaOrClose) {
          hasError := true;
        } else {
          DoClose(Array);
        }
      } else if ch == ':' {
        DoColon();
      } else if ch == ',' {
        DoComma();
      } else {
        DoBeginPrimitive(ch);
      }
    }

    /** One turn of the loop in `feed`. */
    method DoStep(ch: char)
      requires Valid()
      modifies this, scopes
      ensures Valid() && Abs() == Step(old(Abs()), ch)
    {
      if completed {
        if !IsWhitespace(ch) { hasError := true; }
        return;
      }
      if escape {
        escape := false;
        return;
      }
      if ch == '\\' && inString {
        escape := true;
        return;
      }
      if ch == '"' {
        DoQuote();
        return;
      }
      if inString {
        return;
      }
      if primitive != NoPrimitive {
        var consumed := DoFeedPrimitive(ch);
        if consumed { return; }
      }
      if hasError || IsWhitespace(ch) {
        return;
      }
      DoStructural(ch);
    }

    method DoFeed(chunk: string) returns (ok: bool)
      requires Valid()
      modifies this, scopes
      ensures Valid() && Abs() == Feed(old(Abs()), chunk)
      ensures ok == (!old(completed) && !old(hasError) && !Abs().hasError)
    {
      if completed || hasError {
        return false;
      }
      ghost var start := Abs();
      for i := 0 to |chunk|
        invariant Valid() && !hasError && Abs() == Run(start, chunk[..i])
      {
        DoStep(chunk[i]);
        assert chunk[..i + 1][..i] == chunk[..i];
        if hasError {
          RunStopped(start, chunk, i + 1);
          return false;
        }
      }
      assert chunk[..|chunk|] == chunk;
      ok := true;
    }

    method CanAccept(chunk: string) returns (ok: bool)
      requires Valid()
      ensures ok == (!completed && !hasError && |chunk| > 0 && !Feed(Abs(), chunk).hasError)
    {
      if completed || hasError || |chunk| == 0 {
        return false;
      }
      var sim := new Automaton.Copy(this);
      ok := sim.DoFeed(chunk);
    }
  }

  /** Once a prefix has failed, so has the whole text. */
  lemma {:induction false} RunStopped(g: State, s: string, n: nat)
    requires n <= |s| && Run(g, s[..n]).hasError
    ensures Run(g, s) == Run(g, s[..n])
  {
    if n < |s| {
      assert s[..|s| - 1][..n] == s[..n];
      RunStopped(g, s[..|s| - 1], n);
    } else {
      assert s[..n] == s;
    }
  }
}
