/** What the automaton's users rely on: chunking does not matter, strict JSON is accepted,
    and every accepted beginning can be finished. */
module JsonTheorems {
  import opened Common
  import opened JsonGrammar
  import opened JsonSyntax
  import opened JsonCompleteness
  import opened JsonSoundness

  // ---------- chunks ----------

  function FeedAll(g: State, chunks: seq<string>): State {
    if |chunks| == 0 then g else Feed(FeedAll(g, chunks[..|chunks| - 1]), chunks[|chunks| - 1])
  }

  lemma {:induction false} RunFailed(g: State, s: string)
    requires g.hasError
    ensures Run(g, s) == g
  {
    if |s| > 0 { RunFailed(g, s[..|s| - 1]); }
  }

  predicate OpenBefore(chunks: seq<string>, i: nat)
    requires i <= |chunks|
  {
    !Run(INITIAL, Joined(chunks[..i])).completed
  }

  /** Any split of a text into chunks, up to the chunk that completes it, is read as the whole text. */
  lemma {:induction false} ChunksDoNotMatter(chunks: seq<string>)
    requires forall i :: 0 <= i < |chunks| ==> OpenBefore(chunks, i)
    ensures FeedAll(INITIAL, chunks) == Run(INITIAL, Joined(chunks))
  {
    if |chunks| > 0 {
      var init, last := chunks[..|chunks| - 1], chunks[|chunks| - 1];
      forall i | 0 <= i < |init| ensures OpenBefore(init, i) {
        assert init[..i] == chunks[..i];
        assert OpenBefore(chunks, i);
      }
      ChunksDoNotMatter(init);
      RunConcat(INITIAL, Joined(init), last);
      assert OpenBefore(chunks, |init|);
      if Run(INITIAL, Joined(init)).hasError { RunFailed(Run(INITIAL, Joined(init)), last); }
    }
  }

  // ---------- strict JSON ----------

  /** Whitespace in the sense of section 2 of RFC 8259. */
  predicate StrictWs(s: string) {
    forall i :: 0 <= i < |s| ==> s[i] == ' ' || s[i] == '\t' || s[i] == '\n' || s[i] == '\r'
  }

  predicate IsHex(ch: char) {
    IsDigit(ch) || 'a' <= ch <= 'f' || 'A' <= ch <= 'F'
  }

  /** The characters of a string in the sense of section 7 of RFC 8259. */
  predicate StrictBody(s: string) {
    if |s| == 0 then true
    else if s[0] == '\\' then
      |s| >= 2 &&
      if s[1] == 'u' then
        |s| >= 6 && IsHex(s[2]) && IsHex(s[3]) && IsHex(s[4]) && IsHex(s[5]) && StrictBody(s[6..])
      else s[1] in "\"\\/bfnrt" && StrictBody(s[2..])
    else s[0] != '"' && s[0] >= ' ' && StrictBody(s[1..])
  }

  predicate StrictKey(k: Key) {
    StrictWs(k.w0) && StrictBody(k.text) && StrictWs(k.w1) && StrictWs(k.w2)
  }

  /** t is a value of RFC 8259 nesting at most d containers. */
  predicate Strict(t: Tree, d: nat)
    decreases t
  {
    match t
    case Lit(_) => true
    case Num(n) => StrictNum(n)
    case Str(body) => StrictBody(body)
    case Arr(items) => d > 0 && StrictItems(items, d - 1)
    case Obj(members) => d > 0 && StrictMembers(members, d - 1)
  }

  predicate StrictItems(items: Items, d: nat)
    decreases items
  {
    match items
    case NoItems(ws) => StrictWs(ws)
    case FirstItem(w0, v, w1) => StrictWs(w0) && Strict(v, d) && StrictWs(w1)
    case NextItem(init, w0, v, w1) => !init.NoItems? && StrictItems(init, d) && StrictWs(w0) && Strict(v, d) && StrictWs(w1)
  }

  /** No comma may stand ahead of the first member. */
  predicate StrictMembers(members: Members, d: nat)
    decreases members
  {
    match members
    case NoMembers(ws) => StrictWs(ws)
    case FirstMember(lead, key, v, w) => lead.None? && StrictKey(key) && Strict(v, d) && StrictWs(w)
    case NextMember(init, key, v, w) => !init.NoMembers? && StrictMembers(init, d) && StrictKey(key) && Strict(v, d) && StrictWs(w)
  }

  lemma BodyPlain(p: string, ch: char)
    requires BodyOk(p) && ch != '"' && ch != '\\'
    ensures BodyOk(p + [ch])
  {
    assert (p + [ch])[..|p|] == p;
  }

  lemma BodyEscape(p: string, ch: char)
    requires BodyOk(p)
    ensures BodyOk(p + ['\\', ch])
  {
    var q := p + ['\\'];
    assert q[..|p|] == p;
    assert NoBareQuote(q) && Escaped(q);
    var r := p + ['\\', ch];
    assert r[..|r| - 1] == q;
    assert NoBareQuote(r) && !Escaped(r);
  }

  lemma {:induction false} StrictBodyAfter(p: string, s: string)
    requires BodyOk(p) && StrictBody(s)
    ensures BodyOk(p + s)
    decreases |s|
  {
    if |s| == 0 {
      assert p + s == p;
    } else if s[0] == '\\' {
      BodyEscape(p, s[1]);
      assert (p + ['\\', s[1]]) + s[2..] == p + s;
      if s[1] == 'u' { StrictBodyAfterHex(p + ['\\', 'u'], s[2..]); } else { StrictBodyAfter(p + ['\\', s[1]], s[2..]); }
    } else {
      BodyPlain(p, s[0]);
      assert (p + [s[0]]) + s[1..] == p + s;
      StrictBodyAfter(p + [s[0]], s[1..]);
    }
  }

  lemma StrictBodyAfterHex(p: string, s: string)
    requires BodyOk(p) && |s| >= 4 && StrictBody(s[4..])
    requires forall i :: 0 <= i < 4 ==> IsHex(s[i])
    ensures BodyOk(p + s)
    decreases |s|
  {
    var p1 := p + [s[0]];
    var p2 := p1 + [s[1]];
    var p3 := p2 + [s[2]];
    BodyPlain(p, s[0]);
    BodyPlain(p1, s[1]);
    BodyPlain(p2, s[2]);
    BodyPlain(p3, s[3]);
    assert (p3 + [s[3]]) + s[4..] == p + s;
    StrictBodyAfter(p3 + [s[3]], s[4..]);
  }

  lemma StrictBodyIsBody(s: string)
    requires StrictBody(s)
    ensures BodyOk(s)
  {
    StrictBodyAfter("", s);
    assert "" + s == s;
  }

  lemma {:induction false} StrictIsTree(t: Tree, d: nat)
    requires Strict(t, d)
    ensures TreeOk(t, d)
    decreases t, 0
  {
    match t
    case Lit(_) =>
    case Num(_) =>
    case Str(body) => StrictBodyIsBody(body);
    case Arr(items) => StrictIsItems(items, d - 1);
    case Obj(members) => StrictIsMembers(members, d - 1);
  }

  lemma {:induction false} StrictIsItems(items: Items, d: nat)
    requires StrictItems(items, d)
    ensures ItemsOk(items, d)
    decreases items, 1
  {
    match items
    case NoItems(_) =>
    case FirstItem(_, v, _) => StrictIsTree(v, d);
    case NextItem(init, _, v, _) => StrictIsItems(init, d); StrictIsTree(v, d);
  }

  lemma {:induction false} StrictIsMembers(members: Members, d: nat)
    requires StrictMembers(members, d)
    ensures MembersOk(members, d)
    decreases members, 1
  {
    match members
    case NoMembers(_) =>
    case FirstMember(_, key, v, _) => StrictBodyIsBody(key.text); StrictIsTree(v, d);
    case NextMember(init, key, v, _) => StrictIsMembers(init, d); StrictBodyIsBody(key.text); StrictIsTree(v, d);
  }

  /** Every strict object or array nesting at most 32 containers is accepted and complete at its last bracket. */
  lemma StrictCompletes(before: string, t: Tree)
    requires StrictWs(before) && (t.Arr? || t.Obj?) && Strict(t, MAX_JSON_STACK_DEPTH)
    ensures Run(INITIAL, before + Print(t)) == AfterState([])
  {
    StrictIsTree(t, MAX_JSON_STACK_DEPTH);
    CompletesAtLastCharacter(before, t);
  }

  const NUMBER_EXAMPLE := Num(NumText(true, "10", true, "5", "E", "+", "3"))
  const ITEMS_EXAMPLE := NextItem(FirstItem("", NUMBER_EXAMPLE, ""), " ", Str("\\n"), "")
  const TREE_EXAMPLE := Obj(FirstMember(None, Key("", "k", "", ""), Arr(ITEMS_EXAMPLE), ""))

  lemma ItemsExample()
    ensures StrictItems(ITEMS_EXAMPLE, 0)
  {
    var body := "\\n";
    assert body[2..] == "" && StrictBody("");
    assert StrictBody(body);
    assert StrictItems(FirstItem("", NUMBER_EXAMPLE, ""), 0);
  }

  /** {"k":[-10.5E+3, "\n"]} is strict and nests two containers. */
  lemma StrictExample()
    ensures Strict(TREE_EXAMPLE, 2) && !Strict(TREE_EXAMPLE, 1)
  {
    ItemsExample();
    assert "k"[1..] == "" && StrictBody("") && StrictBody("k");
    assert Strict(Arr(ITEMS_EXAMPLE), 1) && !Strict(Arr(ITEMS_EXAMPLE), 0);
  }

  // ---------- the characters, the words and the depth ----------

  /** The code points with the Unicode property White_Space. */
  const WHITE_SPACE: set<int> := {
    0x09, 0x0A, 0x0B, 0x0C, 0x0D, 0x20, 0x85, 0xA0, 0x1680, 0x2000, 0x2001, 0x2002, 0x2003, 0x2004, 0x2005, 0x2006, 0x2007,
    0x2008, 0x2009, 0x200A, 0x2028, 0x2029, 0x202F, 0x205F, 0x3000 }

  /** Between the tokens of a text these stand, and nothing else. */
  lemma WhitespaceIs(s: string)
    ensures AllWs(s) <==> forall ch :: ch in s ==> ch as int in WHITE_SPACE
  {
    if forall ch :: ch in s ==> ch as int in WHITE_SPACE {
      forall i | 0 <= i < |s| ensures IsWhitespace(s[i]) {
        assert s[i] in s;
      }
    }
  }

  /** The three words are complete texts. */
  lemma WordsComplete()
    ensures Run(INITIAL, "true") == Run(INITIAL, "false") == Run(INITIAL, "null") == AfterState([])
  {
    CompletesAtLastCharacter("", Lit(True));
    CompletesAtLastCharacter("", Lit(False));
    CompletesAtLastCharacter("", Lit(Null));
    assert "" + Print(Lit(True)) == "true" && "" + Print(Lit(False)) == "false" && "" + Print(Lit(Null)) == "null";
  }

  function Brackets(n: nat): (s: string)
    ensures |s| == n
  {
    seq(n, _ => '[')
  }

  function Arrays(n: nat): (st: seq<Scope>)
    ensures |st| == n
  {
    seq(n, _ => Array)
  }

  predicate Deep(g: State, n: nat) {
    (g.hasError <==> n > 32) && (n <= 32 ==> g == ValueState(Arrays(n), n > 0, n > 0))
  }

  lemma DeepOn(g: State, n: nat, next: nat)
    requires Deep(g, n) && next == n + 1
    ensures Deep(if g.hasError then g else Step(g, '['), next)
  {
    assert Arrays(next) == Arrays(n) + [Array];
  }

  lemma RunLast(g: State, s: string, last: char)
    ensures Run(g, s + [last]) == if Run(g, s).hasError then Run(g, s) else Step(Run(g, s), last)
  {
    assert (s + [last])[..|s|] == s;
  }

  /** 32 brackets can be open at once, 33 cannot. */
  lemma {:induction false} DepthIs(g: State, n: nat)
    requires g == INITIAL
    ensures Deep(Run(g, Brackets(n)), n)
  {
    if n == 0 {
      assert Arrays(0) == [];
    } else {
      var last := n - 1;
      DepthIs(g, last);
      assert Brackets(n) == Brackets(last) + ['['];
      RunLast(g, Brackets(last), '[');
      DeepOn(Run(g, Brackets(last)), last, n);
    }
  }

  // ---------- every accepted beginning can be finished ----------

  function Closers(st: seq<Scope>): string {
    if |st| == 0 then ""
    else [if st[|st| - 1].Array? then ']' else '}'] + Closers(st[..|st| - 1])
  }

  lemma {:induction false} CloseAll(st: seq<Scope>)
    ensures Run(AfterState(st), Closers(st)) == AfterState([])
  {
    if |st| > 0 {
      var outer, scope := st[..|st| - 1], st[|st| - 1];
      assert outer + [scope] == st;
      StepClose(AfterState(st), outer, scope);
      RunConcat(AfterState(st), [if scope.Array? then ']' else '}'], Closers(outer));
      CloseAll(outer);
    }
  }

  const EMPTY_STRING := Quoted("")

  lemma RunEmptyString(st: seq<Scope>, comma: bool, started: bool)
    ensures Run(ValueState(st, comma, started), EMPTY_STRING) == AfterState(st)
  {
    RunString(ValueState(st, comma, started), "");
  }

  /** The end of a string, out of an escape if need be. */
  function Unquote(body: string): string {
    if Escaped(body) then ['n'] + ['"'] else ['"']
  }

  lemma RunUnquote(g: State, body: string)
    requires g.inString && g.escape == Escaped(body) && !g.completed && !g.hasError
    ensures Run(g, Unquote(body)) == Quote(g.(escape := false))
  {
    if Escaped(body) { RunFirst(g, 'n', ['"']); }
    RunChar(g.(escape := false), '"');
  }

  function FinishNumber(s: NumberState): string {
    if Accepting(s) then " " else "0 "
  }

  lemma StepZero(st: seq<Scope>, s: NumberState) returns (next: NumberState)
    requires !Accepting(s)
    ensures Accepting(next) && Step(PrimitiveState(st, Number(s)), '0') == PrimitiveState(st, Number(next))
  {
    next := NextNumber(s, '0').value;
  }

  lemma RunFinishNumber(st: seq<Scope>, s: NumberState)
    ensures Run(PrimitiveState(st, Number(s)), FinishNumber(s)) == AfterState(st)
  {
    if Accepting(s) {
      NumberThenWs(st, s, " ");
    } else {
      assert "0 " == ['0'] + " ";
      var next := StepZero(st, s);
      RunFirst(PrimitiveState(st, Number(s)), '0', " ");
      NumberThenWs(st, next, " ");
    }
  }

  lemma RunRestOfLiteral(st: seq<Scope>, kind: LiteralKind, next: nat)
    requires 1 <= next < |LiteralText(kind)|
    ensures Run(PrimitiveState(st, Literal(kind, next)), LiteralText(kind)[next..]) == AfterState(st)
  {
    var g, text := ValueState(st, false, false), LiteralText(kind);
    RunLiteral(st, false, false, kind, next);
    RunLiteral(st, false, false, kind, |text|);
    assert text[..next] + text[next..] == text && text[..|text|] == text;
    RunConcat(g, text[..next], text[next..]);
  }

  /** The shortest way to end the value, key or member being read. */
  function Finish(c: Config): string {
    match c
    case NeedValue(_) => EMPTY_STRING
    case InString(_, body) => Unquote(body)
    case InPrimitive(_, LiteralPart(kind, next)) => if next <= |LiteralText(kind)| then LiteralText(kind)[next..] else ""
    case InPrimitive(_, NumberPart(n)) => FinishNumber(NumStateOf(n))
    case AfterValue(_, _, _) => ""
    case NeedKey(_, _, _) => EMPTY_STRING + ([':'] + EMPTY_STRING)
    case InKey(_, _, _, body) => Unquote(body) + ([':'] + EMPTY_STRING)
    case NeedColon(_, _, _, _, _) => [':'] + EMPTY_STRING
  }

  function OpenScopes(c: Config): seq<Scope> {
    if c.NeedKey? || c.InKey? || c.NeedColon? then Scopes(c.hole) + [Object] else Scopes(c.hole)
  }

  lemma RunColonValue(st: seq<Scope>, comma: bool)
    ensures Run(ColonState(st, comma), [':'] + EMPTY_STRING) == AfterState(st)
  {
    RunConcat(ColonState(st, comma), [':'], EMPTY_STRING);
    RunColon(st, comma, "");
    assert [':'] + "" == [':'];
    RunEmptyString(st, false, true);
  }

  lemma RunFinish(c: Config)
    requires ConfigOk(c)
    ensures Run(Abs(c), Finish(c)) == AfterState(OpenScopes(c))
  {
    var st := OpenScopes(c);
    match c
    case NeedValue(hole) =>
      RunEmptyString(st, FirstInArray(hole), !hole.Top?);
    case InString(_, body) =>
      RunUnquote(Abs(c), body);
    case InPrimitive(_, LiteralPart(kind, next)) =>
      RunRestOfLiteral(st, kind, next);
    case InPrimitive(_, NumberPart(n)) =>
      RunFinishNumber(st, NumStateOf(n));
    case AfterValue(_, _, _) =>
    case NeedKey(_, head, _) =>
      RunConcat(Abs(c), EMPTY_STRING, [':'] + EMPTY_STRING);
      RunString(Abs(c), "");
      RunColonValue(st, head.Fresh?);
    case InKey(_, head, _, body) =>
      RunConcat(Abs(c), Unquote(body), [':'] + EMPTY_STRING);
      RunUnquote(Abs(c), body);
      RunColonValue(st, head.Fresh?);
    case NeedColon(_, head, _, _, _) =>
      RunColonValue(st, head.Fresh?);
  }

  predicate Completes(s: string) {
    Run(INITIAL, s).completed && !Run(INITIAL, s).hasError
  }

  /** Everything read without an error is the beginning of a JSON text: constrained decoding is never stuck. */
  lemma NeverStuck(s: string) returns (rest: string)
    requires !Run(INITIAL, s).hasError
    ensures Completes(s + rest)
  {
    var c := Parse(s);
    RunParses(s);
    RunFinish(c);
    rest := Finish(c) + Closers(OpenScopes(c));
    RunConcat(INITIAL, s, rest);
    RunConcat(Run(INITIAL, s), Finish(c), Closers(OpenScopes(c)));
    CloseAll(OpenScopes(c));
  }

  predicate CompletesWith(s: string, rest: string) {
    Completes(s + rest)
  }

  /** After a text read so far, a chunk is accepted exactly when the two together begin some JSON text. */
  lemma AcceptedIffViable(s: string, chunk: string)
    requires !Run(INITIAL, s).hasError
    ensures !Run(Run(INITIAL, s), chunk).hasError <==> exists rest :: CompletesWith(s + chunk, rest)
  {
    RunConcat(INITIAL, s, chunk);
    if !Run(INITIAL, s + chunk).hasError {
      var rest := NeverStuck(s + chunk);
      assert CompletesWith(s + chunk, rest);
    } else {
      forall rest ensures !CompletesWith(s + chunk, rest) {
        RunConcat(INITIAL, s + chunk, rest);
        RunFailed(Run(INITIAL, s + chunk), rest);
      }
    }
  }
}
