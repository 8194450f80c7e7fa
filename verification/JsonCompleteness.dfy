/** Every well-formed JSON text of nesting depth at most 32 drives the automaton to completion. */
module JsonCompleteness {
  import opened Common
  import opened JsonGrammar
  import opened JsonSyntax

  // ---------- the automaton's resting states ----------

  /** Waiting for a value inside the containers of `st`. */
  function ValueState(st: seq<Scope>, comma: bool, started: bool): State {
    State(st, false, false, false, false, true, comma, started, false, false, NoPrimitive)
  }

  /** A value has just ended inside the containers of `st`; at depth 0 the text is complete. */
  function AfterState(st: seq<Scope>): State {
    if |st| == 0 then State(st, false, false, false, false, false, false, true, true, false, NoPrimitive)
    else State(st, false, false, false, false, false, true, true, false, false, NoPrimitive)
  }

  function PrimitiveState(st: seq<Scope>, p: Primitive): State {
    State(st, false, false, false, false, false, true, true, false, false, p)
  }

  function KeyState(st: seq<Scope>, comma: bool): State {
    State(st, false, false, true, false, false, comma, true, false, false, NoPrimitive)
  }

  function ColonState(st: seq<Scope>, comma: bool): State {
    State(st, false, false, false, true, false, comma, true, false, false, NoPrimitive)
  }

  // ---------- running over pieces ----------

  lemma {:induction false} RunConcat(g: State, s: string, t: string)
    ensures Run(g, s + t) == Run(Run(g, s), t)
  {
    if |t| == 0 {
      assert s + t == s;
    } else {
      assert (s + t)[..|s + t| - 1] == s + t[..|t| - 1];
      RunConcat(g, s, t[..|t| - 1]);
    }
  }

  lemma RunChar(g: State, ch: char)
    ensures Run(g, [ch]) == if g.hasError then g else Step(g, ch)
  {
    assert [ch][..0] == [];
    assert Run(g, []) == g;
  }

  /** Running a text that starts with one character. */
  lemma RunFirst(g: State, ch: char, t: string)
    requires !g.hasError
    ensures Run(g, [ch] + t) == Run(Step(g, ch), t)
  {
    RunConcat(g, [ch], t);
    RunChar(g, ch);
  }

  predicate Idle(g: State) {
    !g.hasError && !g.escape && !g.inString && g.primitive.NoPrimitive?
  }

  lemma {:induction false} RunWs(g: State, w: string)
    requires Idle(g) && AllWs(w)
    ensures Run(g, w) == g
  {
    if |w| > 0 { RunWs(g, w[..|w| - 1]); }
  }

  lemma {:induction false} RunBody(g: State, body: string)
    requires g.inString && !g.escape && !g.completed && !g.hasError && NoBareQuote(body)
    ensures Run(g, body) == g.(escape := Escaped(body))
  {
    if |body| > 0 { RunBody(g, body[..|body| - 1]); }
  }

  /** A whole string token between its quotation marks. */
  lemma RunString(g: State, body: string)
    requires BodyOk(body) && Idle(g) && !g.completed && (g.expectKey || g.expectValue)
    ensures Run(g, Quoted(body)) == Quote(g.(inString := true, started := true))
  {
    var inside := g.(inString := true, started := true);
    RunFirst(g, '"', body + ['"']);
    RunConcat(inside, body, ['"']);
    RunBody(inside, body);
    RunChar(inside, '"');
  }

  lemma RunKey(st: seq<Scope>, comma: bool, key: Key)
    requires KeyOk(key)
    ensures Run(KeyState(st, comma), PrintKey(key)) == ValueState(st, false, true)
  {
    var g := KeyState(st, comma);
    RunConcat(g, key.w0, Quoted(key.text) + (key.w1 + ([':'] + key.w2)));
    RunWs(g, key.w0);
    RunConcat(g, Quoted(key.text), key.w1 + ([':'] + key.w2));
    RunString(g, key.text);
    RunAfterKey(st, comma, key);
  }

  lemma RunColon(st: seq<Scope>, comma: bool, w: string)
    requires AllWs(w)
    ensures Run(ColonState(st, comma), [':'] + w) == ValueState(st, false, true)
  {
    RunFirst(ColonState(st, comma), ':', w);
    RunWs(ValueState(st, false, true), w);
  }

  lemma RunAfterKey(st: seq<Scope>, comma: bool, key: Key)
    requires KeyOk(key)
    ensures Run(ColonState(st, comma), key.w1 + ([':'] + key.w2)) == ValueState(st, false, true)
  {
    var g := ColonState(st, comma);
    RunConcat(g, key.w1, [':'] + key.w2);
    RunWs(g, key.w1);
    RunColon(st, comma, key.w2);
  }

  lemma StepLiteral(st: seq<Scope>, kind: LiteralKind, i: nat)
    requires 1 <= i < |LiteralText(kind)|
    ensures Step(PrimitiveState(st, Literal(kind, i)), LiteralText(kind)[i])
      == if i + 1 == |LiteralText(kind)| then AfterState(st) else PrimitiveState(st, Literal(kind, i + 1))
  {
  }

  lemma {:induction false} RunLiteral(st: seq<Scope>, comma: bool, started: bool, kind: LiteralKind, i: nat)
    requires 1 <= i <= |LiteralText(kind)|
    ensures Run(ValueState(st, comma, started), LiteralText(kind)[..i])
      == if i == |LiteralText(kind)| then AfterState(st) else PrimitiveState(st, Literal(kind, i))
  {
    var g, text := ValueState(st, comma, started), LiteralText(kind);
    assert text[..i][..i - 1] == text[..i - 1];
    if i == 1 {
      assert text[..1] == [text[0]];
      RunChar(g, text[0]);
    } else {
      RunLiteral(st, comma, started, kind, i - 1);
      StepLiteral(st, kind, i - 1);
    }
  }

  lemma {:induction false} RunNumber(st: seq<Scope>, comma: bool, started: bool, s: string)
    requires NumRun(s).Some?
    ensures Run(ValueState(st, comma, started), s) == PrimitiveState(st, Number(NumRun(s).value))
  {
    var g := ValueState(st, comma, started);
    if |s| == 1 {
      assert s == [s[0]];
      RunChar(g, s[0]);
    } else {
      RunNumber(st, comma, started, s[..|s| - 1]);
    }
  }

  // ---------- values, items, members ----------

  /** The state reached by reading all of t: a number is still open, anything else has ended. */
  function Read(st: seq<Scope>, t: Tree): State {
    if t.Num? then PrimitiveState(st, Number(NumStateOf(t.n))) else AfterState(st)
  }

  /** g behaves like a finished value on the next comma or closing bracket. */
  predicate Ended(g: State, st: seq<Scope>) {
    !g.hasError && forall ch | ch == ',' || ch == ']' || ch == '}' :: Step(g, ch) == Step(AfterState(st), ch)
  }

  lemma NumberEnds(st: seq<Scope>, s: NumberState)
    requires |st| > 0 && Accepting(s)
    ensures Ended(PrimitiveState(st, Number(s)), st)
  {
  }

  /** A value and the whitespace after it leave the automaton ready for a comma or a closing bracket. */
  lemma StepNumberWs(st: seq<Scope>, s: NumberState, ch: char)
    requires Accepting(s) && IsWhitespace(ch)
    ensures Step(PrimitiveState(st, Number(s)), ch) == AfterState(st)
  {
    assert NextNumber(s, ch).None?;
  }

  lemma NumberThenWs(st: seq<Scope>, s: NumberState, w: string)
    requires Accepting(s) && AllWs(w) && |w| > 0
    ensures Run(PrimitiveState(st, Number(s)), w) == AfterState(st)
  {
    assert w == [w[0]] + w[1..];
    StepNumberWs(st, s, w[0]);
    RunFirst(PrimitiveState(st, Number(s)), w[0], w[1..]);
    RunWs(AfterState(st), w[1..]);
  }

  lemma {:induction false} ReadThenWs(st: seq<Scope>, t: Tree, d: nat, w: string)
    requires |st| > 0 && TreeOk(t, d) && AllWs(w)
    ensures Ended(Run(Read(st, t), w), st)
  {
    if t.Num? { AcceptedNumbers(t.n); }
    if t.Num? && |w| == 0 {
      NumberEnds(st, NumStateOf(t.n));
    } else if t.Num? {
      NumberThenWs(st, NumStateOf(t.n), w);
    } else {
      RunWs(AfterState(st), w);
    }
  }

  /** Reading a value in place. */
  lemma {:induction false} RunTree(t: Tree, st: seq<Scope>, comma: bool, started: bool, d: nat)
    requires TreeOk(t, d) && |st| + d <= MAX_JSON_STACK_DEPTH
    ensures Run(ValueState(st, comma, started), Print(t)) == Read(st, t)
    decreases t, 0
  {
    var g := ValueState(st, comma, started);
    match t
    case Lit(kind) =>
      RunLiteral(st, comma, started, kind, |LiteralText(kind)|);
      assert LiteralText(kind)[..|LiteralText(kind)|] == LiteralText(kind);
    case Num(n) =>
      AcceptedNumbers(n);
      NumReached(n);
      RunNumber(st, comma, started, PrintNum(n));
    case Str(body) =>
      RunString(g, body);
    case Arr(items) =>
      RunArray(items, st, comma, started, d - 1);
    case Obj(members) =>
      RunObject(members, st, comma, started, d - 1);
  }

  lemma StepClose(g: State, st: seq<Scope>, scope: Scope)
    requires Ended(g, st + [scope])
    ensures Run(g, [if scope.Array? then ']' else '}']) == AfterState(st)
  {
    assert (st + [scope])[..|st + [scope]| - 1] == st;
    RunChar(g, if scope.Array? then ']' else '}');
  }

  lemma StepCloseEmpty(st: seq<Scope>)
    ensures Run(ValueState(st + [Array], true, true), [']']) == AfterState(st)
    ensures Run(KeyState(st + [Object], true), ['}']) == AfterState(st)
  {
    assert (st + [Array])[..|st + [Array]| - 1] == st;
    assert (st + [Object])[..|st + [Object]| - 1] == st;
    RunChar(ValueState(st + [Array], true, true), ']');
    RunChar(KeyState(st + [Object], true), '}');
  }

  lemma {:induction false} RunArray(items: Items, st: seq<Scope>, comma: bool, started: bool, d: nat)
    requires ItemsOk(items, d) && |st| + d < MAX_JSON_STACK_DEPTH
    ensures Run(ValueState(st, comma, started), ['['] + (PrintItems(items) + [']'])) == AfterState(st)
    decreases items, 2
  {
    var inner := ValueState(st + [Array], true, true);
    RunFirst(ValueState(st, comma, started), '[', PrintItems(items) + [']']);
    RunConcat(inner, PrintItems(items), [']']);
    RunItems(items, st + [Array], d);
    if items.NoItems? {
      StepCloseEmpty(st);
    } else {
      StepClose(Run(inner, PrintItems(items)), st, Array);
    }
  }

  function NextElement(st: seq<Scope>): State
    requires |st| > 0
  {
    if st[|st| - 1].Object? then KeyState(st, false) else ValueState(st, false, true)
  }

  lemma StepComma(st: seq<Scope>)
    requires |st| > 0
    ensures Step(AfterState(st), ',') == NextElement(st)
  {
    assert !IsWhitespace(',');
  }

  /** A comma after a finished element takes the automaton to the next one. */
  lemma RunNext(g: State, st: seq<Scope>, rest: string)
    requires |st| > 0 && Ended(g, st)
    ensures Run(g, [','] + rest) == Run(NextElement(st), rest)
  {
    StepComma(st);
    RunFirst(g, ',', rest);
  }

  lemma {:induction false} RunItems(items: Items, st: seq<Scope>, d: nat)
    requires |st| > 0 && st[|st| - 1] == Array && ItemsOk(items, d) && |st| + d <= MAX_JSON_STACK_DEPTH
    ensures items.NoItems? ==> Run(ValueState(st, true, true), PrintItems(items)) == ValueState(st, true, true)
    ensures !items.NoItems? ==> Ended(Run(ValueState(st, true, true), PrintItems(items)), st)
    decreases items, 1
  {
    var g := ValueState(st, true, true);
    match items
    case NoItems(ws) =>
      RunWs(g, ws);
    case FirstItem(w0, v, w1) =>
      RunItem(v, st, true, d, w0, w1);
    case NextItem(init, w0, v, w1) =>
      RunItems(init, st, d);
      RunConcat(g, PrintItems(init), [','] + PrintItem(w0, v, w1));
      RunNext(Run(g, PrintItems(init)), st, PrintItem(w0, v, w1));
      RunItem(v, st, false, d, w0, w1);
  }

  lemma {:induction false} RunItem(v: Tree, st: seq<Scope>, comma: bool, d: nat, w0: string, w1: string)
    requires |st| > 0 && TreeOk(v, d) && |st| + d <= MAX_JSON_STACK_DEPTH && AllWs(w0) && AllWs(w1)
    ensures Ended(Run(ValueState(st, comma, true), PrintItem(w0, v, w1)), st)
    decreases v, 1
  {
    var g := ValueState(st, comma, true);
    RunConcat(g, w0, Print(v) + w1);
    RunWs(g, w0);
    RunConcat(g, Print(v), w1);
    RunTree(v, st, comma, true, d);
    ReadThenWs(st, v, d, w1);
  }

  lemma {:induction false} RunObject(members: Members, st: seq<Scope>, comma: bool, started: bool, d: nat)
    requires MembersOk(members, d) && |st| + d < MAX_JSON_STACK_DEPTH
    ensures Run(ValueState(st, comma, started), ['{'] + (PrintMembers(members) + ['}'])) == AfterState(st)
    decreases members, 2
  {
    var inner := KeyState(st + [Object], true);
    RunFirst(ValueState(st, comma, started), '{', PrintMembers(members) + ['}']);
    RunConcat(inner, PrintMembers(members), ['}']);
    RunMembers(members, st + [Object], d);
    if members.NoMembers? {
      StepCloseEmpty(st);
    } else {
      StepClose(Run(inner, PrintMembers(members)), st, Object);
    }
  }

  /** The tolerated comma ahead of the first member. */
  lemma RunLead(st: seq<Scope>, lead: string, rest: string)
    requires |st| > 0 && st[|st| - 1] == Object && AllWs(lead)
    ensures Run(KeyState(st, true), lead + ([','] + rest)) == Run(KeyState(st, false), rest)
  {
    RunConcat(KeyState(st, true), lead, [','] + rest);
    RunWs(KeyState(st, true), lead);
    RunFirst(KeyState(st, true), ',', rest);
  }

  lemma {:induction false} RunMembers(members: Members, st: seq<Scope>, d: nat)
    requires |st| > 0 && st[|st| - 1] == Object && MembersOk(members, d) && |st| + d <= MAX_JSON_STACK_DEPTH
    ensures members.NoMembers? ==> Run(KeyState(st, true), PrintMembers(members)) == KeyState(st, true)
    ensures !members.NoMembers? ==> Ended(Run(KeyState(st, true), PrintMembers(members)), st)
    decreases members, 1
  {
    var g := KeyState(st, true);
    match members
    case NoMembers(ws) =>
      RunWs(g, ws);
    case FirstMember(lead, key, v, w) =>
      if lead.Some? {
        RunLead(st, lead.value, PrintMember(key, v, w));
        RunMember(key, v, st, false, d, w);
      } else {
        RunMember(key, v, st, true, d, w);
      }
    case NextMember(init, key, v, w) =>
      RunMembers(init, st, d);
      RunConcat(g, PrintMembers(init), [','] + PrintMember(key, v, w));
      RunNext(Run(g, PrintMembers(init)), st, PrintMember(key, v, w));
      RunMember(key, v, st, false, d, w);
  }

  lemma {:induction false} RunMember(key: Key, v: Tree, st: seq<Scope>, comma: bool, d: nat, w: string)
    requires |st| > 0 && KeyOk(key) && TreeOk(v, d) && |st| + d <= MAX_JSON_STACK_DEPTH && AllWs(w)
    ensures Ended(Run(KeyState(st, comma), PrintMember(key, v, w)), st)
    decreases v, 1
  {
    var g := KeyState(st, comma);
    RunConcat(g, PrintKey(key), Print(v) + w);
    RunKey(st, comma, key);
    RunConcat(ValueState(st, false, true), Print(v), w);
    RunTree(v, st, false, true, d);
    ReadThenWs(st, v, d, w);
  }

  // ---------- whole texts ----------

  /** A whole text the automaton is meant to accept: whitespace, a value nesting at most 32 containers, whitespace;
      after a number there must be some whitespace, because only the next character can end it. */
  predicate IsText(s: string, before: string, t: Tree, after: string) {
    && s == before + (Print(t) + after)
    && AllWs(before) && TreeOk(t, MAX_JSON_STACK_DEPTH) && AllWs(after) && (t.Num? ==> |after| > 0)
  }

  /** Every such text is accepted and complete. */
  lemma TextCompletes(s: string, before: string, t: Tree, after: string)
    requires IsText(s, before, t, after)
    ensures Run(INITIAL, s) == AfterState([])
  {
    var g := ValueState([], false, false);
    RunConcat(g, before, Print(t) + after);
    RunWs(g, before);
    RunConcat(g, Print(t), after);
    RunTree(t, [], false, false, MAX_JSON_STACK_DEPTH);
    if t.Num? {
      AcceptedNumbers(t.n);
      NumberThenWs([], NumStateOf(t.n), after);
    } else {
      RunWs(AfterState([]), after);
    }
  }

  /** A string, literal, array or object at the top is complete at its last character. */
  lemma CompletesAtLastCharacter(before: string, t: Tree)
    requires AllWs(before) && TreeOk(t, MAX_JSON_STACK_DEPTH) && !t.Num?
    ensures Run(INITIAL, before + Print(t)) == AfterState([])
  {
    var s := before + Print(t);
    assert Print(t) + [] == Print(t);
    TextCompletes(s, before, t, []);
  }

  /** A number at the top stays open at its last character: the automaton cannot know that it has ended. */
  lemma NumberStaysOpen(before: string, t: Tree)
    requires AllWs(before) && TreeOk(t, MAX_JSON_STACK_DEPTH) && t.Num?
    ensures var g := Run(INITIAL, before + Print(t)); !g.completed && !g.hasError
  {
    var g := ValueState([], false, false);
    RunConcat(g, before, Print(t));
    RunWs(g, before);
    RunTree(t, [], false, false, MAX_JSON_STACK_DEPTH);
  }
}
