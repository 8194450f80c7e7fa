/** The automaton accepts nothing but JSON: what it has read so far always parses, as a tree with a hole. */
module JsonSoundness {
  import opened Common
  import opened JsonGrammar
  import opened JsonSyntax
  import opened JsonCompleteness

  // ---------- trees with a hole ----------

  /** What stands in an open object before the next key. */
  datatype Head = Fresh | Lead(ws: string) | Comma(members: Members)

  /** Where the next value goes, with all the text before it. */
  datatype Hole =
    | Top(ws: string)
    | InArray(outer: Hole, done: Option<Items>, ws: string)
    | InObject(outer: Hole, head: Head, key: Key)

  datatype Part = LiteralPart(kind: LiteralKind, next: nat) | NumberPart(n: NumText)

  /** Everything read so far. */
  datatype Config =
    | NeedValue(hole: Hole)
    | InString(hole: Hole, body: string)
    | InPrimitive(hole: Hole, part: Part)
    | AfterValue(hole: Hole, v: Tree, ws: string)
    | NeedKey(hole: Hole, head: Head, ws: string)
    | InKey(hole: Hole, head: Head, ws: string, body: string)
    | NeedColon(hole: Hole, head: Head, ws: string, body: string, after: string)

  const START := NeedValue(Top(""))

  // ---------- the text read ----------

  function DoneText(done: Option<Items>): string {
    match done
    case None => ""
    case Some(items) => PrintItems(items) + [',']
  }

  function HeadText(head: Head): string {
    match head
    case Fresh => ""
    case Lead(ws) => ws + [',']
    case Comma(members) => PrintMembers(members) + [',']
  }

  function HoleText(hole: Hole): string {
    match hole
    case Top(ws) => ws
    case InArray(outer, done, ws) => HoleText(outer) + (['['] + (DoneText(done) + ws))
    case InObject(outer, head, key) => HoleText(outer) + (['{'] + (HeadText(head) + PrintKey(key)))
  }

  function PartText(part: Part): string {
    match part
    case LiteralPart(kind, next) => if next <= |LiteralText(kind)| then LiteralText(kind)[..next] else ""
    case NumberPart(n) => PrintNum(n)
  }

  function Text(c: Config): string {
    match c
    case NeedValue(hole) => HoleText(hole)
    case InString(hole, body) => HoleText(hole) + (['"'] + body)
    case InPrimitive(hole, part) => HoleText(hole) + PartText(part)
    case AfterValue(hole, v, ws) => HoleText(hole) + (Print(v) + ws)
    case NeedKey(hole, head, ws) => HoleText(hole) + (['{'] + (HeadText(head) + ws))
    case InKey(hole, head, ws, body) => HoleText(hole) + (['{'] + (HeadText(head) + (ws + (['"'] + body))))
    case NeedColon(hole, head, ws, body, after) =>
      HoleText(hole) + (['{'] + (HeadText(head) + (ws + (Quoted(body) + after))))
  }

  // ---------- well-formedness and the automaton's state ----------

  function Scopes(hole: Hole): seq<Scope> {
    match hole
    case Top(_) => []
    case InArray(outer, _, _) => Scopes(outer) + [Array]
    case InObject(outer, _, _) => Scopes(outer) + [Object]
  }

  /** The nesting still allowed inside the containers of `st`. */
  function Room(st: seq<Scope>): nat {
    if |st| <= MAX_JSON_STACK_DEPTH then MAX_JSON_STACK_DEPTH - |st| else 0
  }

  predicate DoneOk(done: Option<Items>, d: nat) {
    done.None? || (!done.value.NoItems? && ItemsOk(done.value, d))
  }

  predicate HeadOk(head: Head, d: nat) {
    match head
    case Fresh => true
    case Lead(ws) => AllWs(ws)
    case Comma(members) => !members.NoMembers? && MembersOk(members, d)
  }

  predicate HoleOk(hole: Hole) {
    |Scopes(hole)| <= MAX_JSON_STACK_DEPTH &&
    match hole
    case Top(ws) => AllWs(ws)
    case InArray(outer, done, ws) => HoleOk(outer) && DoneOk(done, Room(Scopes(hole))) && AllWs(ws)
    case InObject(outer, head, key) => HoleOk(outer) && HeadOk(head, Room(Scopes(hole))) && KeyOk(key)
  }

  predicate PartOk(part: Part) {
    match part
    case LiteralPart(kind, next) => 1 <= next < |LiteralText(kind)|
    case NumberPart(n) => NumOk(n) && |PrintNum(n)| > 0
  }

  /** An object open inside the hole, up to its next key. */
  predicate ObjectOk(hole: Hole, head: Head, ws: string) {
    HoleOk(hole) && |Scopes(hole)| < MAX_JSON_STACK_DEPTH && HeadOk(head, Room(Scopes(hole)) - 1) && AllWs(ws)
  }

  predicate ConfigOk(c: Config) {
    match c
    case NeedValue(hole) => HoleOk(hole)
    case InString(hole, body) => HoleOk(hole) && NoBareQuote(body)
    case InPrimitive(hole, part) => HoleOk(hole) && PartOk(part)
    case AfterValue(hole, v, ws) =>
      HoleOk(hole) && TreeOk(v, Room(Scopes(hole))) && AllWs(ws) && (v.Num? && hole.Top? ==> |ws| > 0)
    case NeedKey(hole, head, ws) => ObjectOk(hole, head, ws)
    case InKey(hole, head, ws, body) => ObjectOk(hole, head, ws) && NoBareQuote(body)
    case NeedColon(hole, head, ws, body, after) => ObjectOk(hole, head, ws) && BodyOk(body) && AllWs(after)
  }

  predicate FirstInArray(hole: Hole) {
    hole.InArray? && hole.done.None?
  }

  function PartState(part: Part): Primitive {
    match part
    case LiteralPart(kind, next) => Literal(kind, next)
    case NumberPart(n) => Number(NumStateOf(n))
  }

  function Abs(c: Config): State {
    match c
    case NeedValue(hole) => ValueState(Scopes(hole), FirstInArray(hole), !hole.Top?)
    case InString(hole, body) => ValueState(Scopes(hole), FirstInArray(hole), true).(inString := true, escape := Escaped(body))
    case InPrimitive(hole, part) => PrimitiveState(Scopes(hole), PartState(part))
    case AfterValue(hole, _, _) => AfterState(Scopes(hole))
    case NeedKey(hole, head, _) => KeyState(Scopes(hole) + [Object], head.Fresh?)
    case InKey(hole, head, _, body) => KeyState(Scopes(hole) + [Object], head.Fresh?).(inString := true, escape := Escaped(body))
    case NeedColon(hole, head, _, _, _) => ColonState(Scopes(hole) + [Object], head.Fresh?)
  }

  // ---------- reading one more character ----------

  function PadHole(hole: Hole, ch: char): Hole {
    match hole
    case Top(ws) => Top(ws + [ch])
    case InArray(outer, done, ws) => InArray(outer, done, ws + [ch])
    case InObject(outer, head, key) => InObject(outer, head, key.(w2 := key.w2 + [ch]))
  }

  function Extend(done: Option<Items>, w0: string, v: Tree, w1: string): Items {
    match done
    case None => FirstItem(w0, v, w1)
    case Some(items) => NextItem(items, w0, v, w1)
  }

  function Join(head: Head, key: Key, v: Tree, w: string): Members {
    match head
    case Fresh => FirstMember(None, key, v, w)
    case Lead(ws) => FirstMember(Some(ws), key, v, w)
    case Comma(members) => NextMember(members, key, v, w)
  }

  /** A comma or closing bracket after a value. */
  function AfterElement(c: Config, hole: Hole, v: Tree, ws: string, ch: char): Config {
    match hole
    case Top(_) => c
    case InArray(outer, done, w0) =>
      var items := Extend(done, w0, v, ws);
      if ch == ',' then NeedValue(InArray(outer, Some(items), "")) else AfterValue(outer, Arr(items), "")
    case InObject(outer, head, key) =>
      var members := Join(head, key, v, ws);
      if ch == ',' then NeedKey(outer, Comma(members), "") else AfterValue(outer, Obj(members), "")
  }

  function FirstPart(ch: char): Part {
    if ch == 't' then LiteralPart(True, 1)
    else if ch == 'f' then LiteralPart(False, 1)
    else if ch == 'n' then LiteralPart(Null, 1)
    else if ch == '-' then NumberPart(NumText(true, "", false, "", "", "", ""))
    else NumberPart(NumText(false, [ch], false, "", "", "", ""))
  }

  function ValueStart(hole: Hole, ch: char): Config {
    if IsWhitespace(ch) then NeedValue(PadHole(hole, ch))
    else if ch == '"' then InString(hole, "")
    else if ch == '[' then NeedValue(InArray(hole, None, ""))
    else if ch == '{' then NeedKey(hole, Fresh, "")
    else if ch == ']' && FirstInArray(hole) then AfterValue(hole.outer, Arr(NoItems(hole.ws)), "")
    else InPrimitive(hole, FirstPart(ch))
  }

  function Next(c: Config, ch: char): Config {
    match c
    case NeedValue(hole) => ValueStart(hole, ch)
    case InString(hole, body) =>
      if ch == '"' && !Escaped(body) then AfterValue(hole, Str(body), "") else InString(hole, body + [ch])
    case InPrimitive(hole, LiteralPart(kind, next)) =>
      if next + 1 < |LiteralText(kind)| then InPrimitive(hole, LiteralPart(kind, next + 1)) else AfterValue(hole, Lit(kind), "")
    case InPrimitive(hole, NumberPart(n)) =>
      if NextNumber(NumStateOf(n), ch).Some? then InPrimitive(hole, NumberPart(NumNext(n, ch)))
      else if IsWhitespace(ch) then AfterValue(hole, Num(n), [ch])
      else AfterElement(c, hole, Num(n), "", ch)
    case AfterValue(hole, v, ws) =>
      if IsWhitespace(ch) then AfterValue(hole, v, ws + [ch]) else AfterElement(c, hole, v, ws, ch)
    case NeedKey(hole, head, ws) =>
      if IsWhitespace(ch) then NeedKey(hole, head, ws + [ch])
      else if ch == '"' then InKey(hole, head, ws, "")
      else if ch == ',' then NeedKey(hole, Lead(ws), "")
      else AfterValue(hole, Obj(NoMembers(ws)), "")
    case InKey(hole, head, ws, body) =>
      if ch == '"' && !Escaped(body) then NeedColon(hole, head, ws, body, "") else InKey(hole, head, ws, body + [ch])
    case NeedColon(hole, head, ws, body, after) =>
      if IsWhitespace(ch) then NeedColon(hole, head, ws, body, after + [ch])
      else NeedValue(InObject(hole, head, Key(ws, body, after, "")))
  }

  // ---------- each character keeps the configuration in step with the automaton ----------

  predicate Accepts(c: Config, ch: char) {
    !Step(Abs(c), ch).hasError
  }

  lemma ScopesPopped(st: seq<Scope>, scope: Scope)
    ensures (st + [scope])[..|st + [scope]| - 1] == st
  {
  }

  lemma AfterElementOk(c: Config, hole: Hole, v: Tree, ws: string, ch: char)
    requires ConfigOk(c) && HoleOk(hole) && TreeOk(v, Room(Scopes(hole))) && AllWs(ws)
    ensures ConfigOk(AfterElement(c, hole, v, ws, ch))
  {
  }

  predicate Matches(hole: Hole, ch: char) {
    !hole.Top? && (ch == ',' || ch == if hole.InArray? then ']' else '}')
  }

  lemma AcceptedMatches(hole: Hole, ch: char)
    requires !IsWhitespace(ch) && !Step(AfterState(Scopes(hole)), ch).hasError
    ensures Matches(hole, ch)
  {
  }

  lemma StepBracket(st: seq<Scope>, scope: Scope)
    ensures Step(AfterState(st + [scope]), if scope.Array? then ']' else '}') == AfterState(st)
  {
    ScopesPopped(st, scope);
  }

  /** The automaton on a comma or the right closing bracket after a finished value. */
  lemma AfterElementState(c: Config, hole: Hole, v: Tree, ws: string, ch: char)
    requires !hole.Top? && !IsWhitespace(ch) && !Step(AfterState(Scopes(hole)), ch).hasError
    ensures Abs(AfterElement(c, hole, v, ws, ch)) == Step(AfterState(Scopes(hole)), ch)
  {
    AcceptedMatches(hole, ch);
    if ch == ',' {
      StepComma(Scopes(hole));
    } else {
      StepBracket(Scopes(hole.outer), if hole.InArray? then Array else Object);
    }
  }

  lemma FirstPartOk(ch: char)
    requires PrimitiveStart(ch).Some?
    ensures PartOk(FirstPart(ch)) && PrimitiveStart(ch) == Some(PartState(FirstPart(ch)))
  {
    assert ch == '0' ==> [ch] == "0";
  }

  predicate IsBracket(ch: char) {
    ch == '[' || ch == ']' || ch == '{' || ch == '}'
  }

  lemma ValueStartBracket(hole: Hole, ch: char)
    requires HoleOk(hole) && Accepts(NeedValue(hole), ch) && IsBracket(ch)
    ensures Abs(ValueStart(hole, ch)) == Step(Abs(NeedValue(hole)), ch)
  {
    if FirstInArray(hole) { ScopesPopped(Scopes(hole.outer), Array); }
  }

  lemma ValueStartPrimitive(hole: Hole, ch: char)
    requires Accepts(NeedValue(hole), ch) && !IsBracket(ch) && !IsWhitespace(ch) && ch != '"'
    ensures PrimitiveStart(ch).Some?
    ensures Step(Abs(NeedValue(hole)), ch) == PrimitiveState(Scopes(hole), PrimitiveStart(ch).value)
  {
  }

  lemma ValueStartOk(hole: Hole, ch: char)
    requires HoleOk(hole) && Accepts(NeedValue(hole), ch)
    ensures ConfigOk(ValueStart(hole, ch))
  {
    if !IsBracket(ch) && !IsWhitespace(ch) && ch != '"' {
      ValueStartPrimitive(hole, ch);
      FirstPartOk(ch);
    }
  }

  lemma ValueStartState(hole: Hole, ch: char)
    requires HoleOk(hole) && Accepts(NeedValue(hole), ch)
    ensures Abs(ValueStart(hole, ch)) == Step(Abs(NeedValue(hole)), ch)
  {
    if IsBracket(ch) {
      ValueStartBracket(hole, ch);
    } else if !IsWhitespace(ch) && ch != '"' {
      ValueStartPrimitive(hole, ch);
      FirstPartOk(ch);
    }
  }

  lemma StringOk(hole: Hole, body: string, ch: char)
    requires ConfigOk(InString(hole, body))
    ensures ConfigOk(Next(InString(hole, body), ch))
  {
  }

  lemma StringState(hole: Hole, body: string, ch: char)
    requires ConfigOk(InString(hole, body))
    ensures Abs(Next(InString(hole, body), ch)) == Step(Abs(InString(hole, body)), ch)
  {
  }

  lemma LiteralOk(hole: Hole, kind: LiteralKind, next: nat, ch: char)
    requires ConfigOk(InPrimitive(hole, LiteralPart(kind, next)))
    ensures ConfigOk(Next(InPrimitive(hole, LiteralPart(kind, next)), ch))
  {
  }

  lemma LiteralState(hole: Hole, kind: LiteralKind, next: nat, ch: char)
    requires ConfigOk(InPrimitive(hole, LiteralPart(kind, next))) && Accepts(InPrimitive(hole, LiteralPart(kind, next)), ch)
    ensures Abs(Next(InPrimitive(hole, LiteralPart(kind, next)), ch)) == Step(Abs(InPrimitive(hole, LiteralPart(kind, next))), ch)
  {
  }

  lemma NumberPartOk(hole: Hole, n: NumText, ch: char)
    requires ConfigOk(InPrimitive(hole, NumberPart(n))) && Accepts(InPrimitive(hole, NumberPart(n)), ch)
    ensures ConfigOk(Next(InPrimitive(hole, NumberPart(n)), ch))
  {
    var c := InPrimitive(hole, NumberPart(n));
    AcceptedNumbers(n);
    if NextNumber(NumStateOf(n), ch).Some? {
      NumNextOk(n, ch);
      NumNextText(n, ch);
    } else if !IsWhitespace(ch) {
      AfterElementOk(c, hole, Num(n), "", ch);
    }
  }

  lemma NumberPartState(hole: Hole, n: NumText, ch: char)
    requires ConfigOk(InPrimitive(hole, NumberPart(n))) && Accepts(InPrimitive(hole, NumberPart(n)), ch)
    ensures Abs(Next(InPrimitive(hole, NumberPart(n)), ch)) == Step(Abs(InPrimitive(hole, NumberPart(n))), ch)
  {
    var c := InPrimitive(hole, NumberPart(n));
    AcceptedNumbers(n);
    if NextNumber(NumStateOf(n), ch).Some? {
      NumNextState(n, ch);
    } else if !IsWhitespace(ch) {
      AfterElementState(c, hole, Num(n), "", ch);
    }
  }

  lemma AfterValueOk(hole: Hole, v: Tree, ws: string, ch: char)
    requires ConfigOk(AfterValue(hole, v, ws))
    ensures ConfigOk(Next(AfterValue(hole, v, ws), ch))
  {
    if !IsWhitespace(ch) { AfterElementOk(AfterValue(hole, v, ws), hole, v, ws, ch); }
  }

  lemma AfterValueState(hole: Hole, v: Tree, ws: string, ch: char)
    requires Accepts(AfterValue(hole, v, ws), ch)
    ensures Abs(Next(AfterValue(hole, v, ws), ch)) == Step(Abs(AfterValue(hole, v, ws)), ch)
  {
    if !IsWhitespace(ch) { AfterElementState(AfterValue(hole, v, ws), hole, v, ws, ch); }
  }

  lemma NeedKeyOk(hole: Hole, head: Head, ws: string, ch: char)
    requires ConfigOk(NeedKey(hole, head, ws)) && Accepts(NeedKey(hole, head, ws), ch)
    ensures ConfigOk(Next(NeedKey(hole, head, ws), ch))
  {
  }

  lemma OpenKeyState(hole: Hole, head: Head, ws: string, ch: char)
    requires Accepts(NeedKey(hole, head, ws), ch) && ch != '}'
    ensures Abs(Next(NeedKey(hole, head, ws), ch)) == Step(Abs(NeedKey(hole, head, ws)), ch)
  {
  }

  lemma ShutKeyState(hole: Hole, head: Head, ws: string)
    requires Accepts(NeedKey(hole, head, ws), '}')
    ensures Abs(Next(NeedKey(hole, head, ws), '}')) == Step(Abs(NeedKey(hole, head, ws)), '}')
  {
    ScopesPopped(Scopes(hole), Object);
  }

  lemma NeedKeyState(hole: Hole, head: Head, ws: string, ch: char)
    requires Accepts(NeedKey(hole, head, ws), ch)
    ensures Abs(Next(NeedKey(hole, head, ws), ch)) == Step(Abs(NeedKey(hole, head, ws)), ch)
  {
    if ch == '}' { ShutKeyState(hole, head, ws); } else { OpenKeyState(hole, head, ws, ch); }
  }

  lemma InKeyOk(hole: Hole, head: Head, ws: string, body: string, ch: char)
    requires ConfigOk(InKey(hole, head, ws, body))
    ensures ConfigOk(Next(InKey(hole, head, ws, body), ch))
  {
  }

  lemma InKeyState(hole: Hole, head: Head, ws: string, body: string, ch: char)
    ensures Abs(Next(InKey(hole, head, ws, body), ch)) == Step(Abs(InKey(hole, head, ws, body)), ch)
  {
  }

  lemma NeedColonOk(hole: Hole, head: Head, ws: string, body: string, after: string, ch: char)
    requires ConfigOk(NeedColon(hole, head, ws, body, after))
    ensures ConfigOk(Next(NeedColon(hole, head, ws, body, after), ch))
  {
  }

  lemma NeedColonState(hole: Hole, head: Head, ws: string, body: string, after: string, ch: char)
    requires Accepts(NeedColon(hole, head, ws, body, after), ch)
    ensures Abs(Next(NeedColon(hole, head, ws, body, after), ch)) == Step(Abs(NeedColon(hole, head, ws, body, after)), ch)
  {
  }

  lemma NextOk(c: Config, ch: char)
    requires ConfigOk(c) && Accepts(c, ch)
    ensures ConfigOk(Next(c, ch))
  {
    match c
    case NeedValue(hole) => ValueStartOk(hole, ch);
    case InString(hole, body) => StringOk(hole, body, ch);
    case InPrimitive(hole, LiteralPart(kind, next)) => LiteralOk(hole, kind, next, ch);
    case InPrimitive(hole, NumberPart(n)) => NumberPartOk(hole, n, ch);
    case AfterValue(hole, v, ws) => AfterValueOk(hole, v, ws, ch);
    case NeedKey(hole, head, ws) => NeedKeyOk(hole, head, ws, ch);
    case InKey(hole, head, ws, body) => InKeyOk(hole, head, ws, body, ch);
    case NeedColon(hole, head, ws, body, after) => NeedColonOk(hole, head, ws, body, after, ch);
  }

  lemma NextState(c: Config, ch: char)
    requires ConfigOk(c) && Accepts(c, ch)
    ensures Abs(Next(c, ch)) == Step(Abs(c), ch)
  {
    match c
    case NeedValue(hole) => ValueStartState(hole, ch);
    case InString(hole, body) => StringState(hole, body, ch);
    case InPrimitive(hole, LiteralPart(kind, next)) => LiteralState(hole, kind, next, ch);
    case InPrimitive(hole, NumberPart(n)) => NumberPartState(hole, n, ch);
    case AfterValue(hole, v, ws) => AfterValueState(hole, v, ws, ch);
    case NeedKey(hole, head, ws) => NeedKeyState(hole, head, ws, ch);
    case InKey(hole, head, ws, body) => InKeyState(hole, head, ws, body, ch);
    case NeedColon(hole, head, ws, body, after) => NeedColonState(hole, head, ws, body, after, ch);
  }

  // ---------- and with the text ----------

  lemma Glue(a: string, b: string, c: string)
    ensures (a + b) + c == a + (b + c)
  {
  }

  lemma Glue3(a: string, b: string, c: string, d: string)
    ensures (a + (b + c)) + d == a + (b + (c + d))
  {
  }

  lemma PadHoleText(hole: Hole, ch: char)
    ensures HoleText(PadHole(hole, ch)) == HoleText(hole) + [ch]
  {
    match hole
    case Top(_) =>
    case InArray(outer, done, ws) =>
      Glue(DoneText(done), ws, [ch]);
      Glue3(HoleText(outer), ['['], DoneText(done) + ws, [ch]);
    case InObject(outer, head, key) =>
      PadKeyText(key, ch);
      Glue(HeadText(head), PrintKey(key), [ch]);
      Glue3(HoleText(outer), ['{'], HeadText(head) + PrintKey(key), [ch]);
  }

  lemma PadKeyText(key: Key, ch: char)
    ensures PrintKey(key.(w2 := key.w2 + [ch])) == PrintKey(key) + [ch]
  {
    var tail := key.w1 + ([':'] + key.w2);
    Glue3(key.w1, [':'], key.w2, [ch]);
    Glue3(key.w0, Quoted(key.text), tail, [ch]);
  }

  lemma ExtendText(done: Option<Items>, w0: string, v: Tree, w1: string)
    ensures PrintItems(Extend(done, w0, v, w1)) == (DoneText(done) + w0) + (Print(v) + w1)
  {
    match done
    case None =>
    case Some(items) =>
      Glue(PrintItems(items), [','], PrintItem(w0, v, w1));
      Glue(DoneText(done), w0, Print(v) + w1);
  }

  lemma JoinText(head: Head, key: Key, v: Tree, w: string)
    ensures PrintMembers(Join(head, key, v, w)) == (HeadText(head) + PrintKey(key)) + (Print(v) + w)
  {
    Glue(HeadText(head), PrintKey(key), Print(v) + w);
    match head
    case Fresh =>
    case Lead(ws) => Glue(ws, [','], PrintMember(key, v, w));
    case Comma(members) => Glue(PrintMembers(members), [','], PrintMember(key, v, w));
  }

  /** Plugging a value into its hole and reading a comma or a closing bracket. */
  lemma Plug(outer: string, open: string, before: string, value: string, ch: char)
    ensures (outer + (open + before) + value) + [ch] == outer + (open + ((before + value) + [ch]))
  {
  }

  lemma AfterElementText(c: Config, hole: Hole, v: Tree, ws: string, ch: char)
    requires Matches(hole, ch)
    ensures Text(AfterElement(c, hole, v, ws, ch)) == (HoleText(hole) + (Print(v) + ws)) + [ch]
  {
    match hole
    case InArray(outer, done, w0) =>
      ExtendText(done, w0, v, ws);
      Plug(HoleText(outer), ['['], DoneText(done) + w0, Print(v) + ws, ch);
    case InObject(outer, head, key) =>
      JoinText(head, key, v, ws);
      Plug(HoleText(outer), ['{'], HeadText(head) + PrintKey(key), Print(v) + ws, ch);
  }

  /** The text of an empty container, before and after its closing bracket. */
  lemma EmptyText(outer: string, open: string, ws: string, close: string)
    ensures (outer + (open + ([] + ws))) + close == outer + ((open + (ws + close)) + [])
  {
  }

  lemma EmptyArrayText(outer: Hole, ws: string)
    ensures Text(AfterValue(outer, Arr(NoItems(ws)), "")) == HoleText(InArray(outer, None, ws)) + [']']
  {
    assert Print(Arr(NoItems(ws))) == ['['] + (ws + [']']) by { assert PrintItems(NoItems(ws)) == ws; }
    EmptyText(HoleText(outer), ['['], ws, [']']);
  }

  lemma EmptyObjectText(outer: Hole, ws: string)
    ensures Text(AfterValue(outer, Obj(NoMembers(ws)), "")) == Text(NeedKey(outer, Fresh, ws)) + ['}']
  {
    assert Print(Obj(NoMembers(ws))) == ['{'] + (ws + ['}']) by { assert PrintMembers(NoMembers(ws)) == ws; }
    EmptyText(HoleText(outer), ['{'], ws, ['}']);
  }

  lemma ValueStartText(hole: Hole, ch: char)
    requires HoleOk(hole) && Accepts(NeedValue(hole), ch)
    ensures Text(ValueStart(hole, ch)) == Text(NeedValue(hole)) + [ch]
  {
    if IsWhitespace(ch) {
      PadHoleText(hole, ch);
    } else if ch == ']' && FirstInArray(hole) {
      EmptyArrayText(hole.outer, hole.ws);
    } else if !IsBracket(ch) && ch != '"' {
      ValueStartPrimitive(hole, ch);
      FirstPartText(ch);
    }
  }

  lemma FirstPartText(ch: char)
    requires PrimitiveStart(ch).Some?
    ensures PartText(FirstPart(ch)) == [ch]
  {
  }

  lemma InStringText(hole: Hole, body: string, ch: char)
    ensures Text(Next(InString(hole, body), ch)) == Text(InString(hole, body)) + [ch]
  {
    Glue3(HoleText(hole), ['"'], body, [ch]);
    if ch == '"' && !Escaped(body) { assert Quoted(body) + [] == Quoted(body); }
  }

  lemma LiteralPartText(hole: Hole, kind: LiteralKind, next: nat, ch: char)
    requires PartOk(LiteralPart(kind, next)) && Accepts(InPrimitive(hole, LiteralPart(kind, next)), ch)
    ensures Text(Next(InPrimitive(hole, LiteralPart(kind, next)), ch)) == Text(InPrimitive(hole, LiteralPart(kind, next))) + [ch]
  {
    var text := LiteralText(kind);
    assert ch == text[next];
    assert text[..next] + [ch] == text[..next + 1];
    Glue(HoleText(hole), text[..next], [ch]);
    if next + 1 == |text| { assert text[..next + 1] == text && text + [] == text; }
  }

  lemma NumberPartText(hole: Hole, n: NumText, ch: char)
    requires NumOk(n) && Accepts(InPrimitive(hole, NumberPart(n)), ch)
    ensures Text(Next(InPrimitive(hole, NumberPart(n)), ch)) == Text(InPrimitive(hole, NumberPart(n))) + [ch]
  {
    Glue(HoleText(hole), PrintNum(n), [ch]);
    if NextNumber(NumStateOf(n), ch).Some? {
      NumNextText(n, ch);
    } else if !IsWhitespace(ch) {
      AcceptedMatches(hole, ch);
      AfterElementText(InPrimitive(hole, NumberPart(n)), hole, Num(n), "", ch);
      assert PrintNum(n) + [] == PrintNum(n);
    }
  }

  lemma AfterValueText(hole: Hole, v: Tree, ws: string, ch: char)
    requires Accepts(AfterValue(hole, v, ws), ch)
    ensures Text(Next(AfterValue(hole, v, ws), ch)) == Text(AfterValue(hole, v, ws)) + [ch]
  {
    if IsWhitespace(ch) {
      Glue3(HoleText(hole), Print(v), ws, [ch]);
    } else {
      AcceptedMatches(hole, ch);
      AfterElementText(AfterValue(hole, v, ws), hole, v, ws, ch);
    }
  }

  lemma ObjectText(outer: string, head: string, s: string, ch: char)
    ensures (outer + (['{'] + (head + s))) + [ch] == outer + (['{'] + (head + (s + [ch])))
  {
  }

  lemma LeadText(hole: Hole, ws: string)
    ensures Text(NeedKey(hole, Lead(ws), "")) == Text(NeedKey(hole, Fresh, ws)) + [',']
  {
    ObjectText(HoleText(hole), HeadText(Fresh), ws, ',');
    assert HeadText(Lead(ws)) + "" == HeadText(Fresh) + (ws + [',']);
  }

  lemma NeedKeyOnly(hole: Hole, head: Head, ws: string, ch: char)
    requires Accepts(NeedKey(hole, head, ws), ch) && !IsWhitespace(ch) && ch != '"'
    ensures head.Fresh? && (ch == ',' || ch == '}')
  {
    ScopesPopped(Scopes(hole), Object);
  }

  lemma NeedKeyText(hole: Hole, head: Head, ws: string, ch: char)
    requires Accepts(NeedKey(hole, head, ws), ch)
    ensures Text(Next(NeedKey(hole, head, ws), ch)) == Text(NeedKey(hole, head, ws)) + [ch]
  {
    if IsWhitespace(ch) || ch == '"' {
      ObjectText(HoleText(hole), HeadText(head), ws, ch);
      assert ['"'] + "" == ['"'];
    } else {
      NeedKeyOnly(hole, head, ws, ch);
      LeadText(hole, ws);
      EmptyObjectText(hole, ws);
    }
  }

  lemma InKeyText(hole: Hole, head: Head, ws: string, body: string, ch: char)
    ensures Text(Next(InKey(hole, head, ws, body), ch)) == Text(InKey(hole, head, ws, body)) + [ch]
  {
    ObjectText(HoleText(hole), HeadText(head), ws + (['"'] + body), ch);
    Glue3(ws, ['"'], body, [ch]);
    if ch == '"' && !Escaped(body) { assert Quoted(body) + [] == Quoted(body); }
  }

  lemma NeedColonText(hole: Hole, head: Head, ws: string, body: string, after: string, ch: char)
    requires Accepts(NeedColon(hole, head, ws, body, after), ch)
    ensures Text(Next(NeedColon(hole, head, ws, body, after), ch)) == Text(NeedColon(hole, head, ws, body, after)) + [ch]
  {
    ObjectText(HoleText(hole), HeadText(head), ws + (Quoted(body) + after), ch);
    Glue3(ws, Quoted(body), after, [ch]);
    if !IsWhitespace(ch) { assert [':'] + "" == [ch]; }
  }

  lemma NextText(c: Config, ch: char)
    requires ConfigOk(c) && Accepts(c, ch)
    ensures Text(Next(c, ch)) == Text(c) + [ch]
  {
    match c
    case NeedValue(hole) => ValueStartText(hole, ch);
    case InString(hole, body) => InStringText(hole, body, ch);
    case InPrimitive(hole, LiteralPart(kind, next)) => LiteralPartText(hole, kind, next, ch);
    case InPrimitive(hole, NumberPart(n)) => NumberPartText(hole, n, ch);
    case AfterValue(hole, v, ws) => AfterValueText(hole, v, ws, ch);
    case NeedKey(hole, head, ws) => NeedKeyText(hole, head, ws, ch);
    case InKey(hole, head, ws, body) => InKeyText(hole, head, ws, body, ch);
    case NeedColon(hole, head, ws, body, after) => NeedColonText(hole, head, ws, body, after, ch);
  }

  // ---------- soundness ----------

  /** The configuration after a whole text. */
  function Parse(s: string): Config {
    if |s| == 0 then START else Next(Parse(s[..|s| - 1]), s[|s| - 1])
  }

  /** c is a well-formed parse of s, and determines the automaton's state g. */
  predicate Reads(c: Config, g: State, s: string) {
    ConfigOk(c) && Abs(c) == g && Text(c) == s
  }

  lemma NextReads(c: Config, g: State, s: string, ch: char)
    requires Reads(c, g, s) && !Step(g, ch).hasError
    ensures Reads(Next(c, ch), Step(g, ch), s + [ch])
  {
    NextOk(c, ch);
    NextState(c, ch);
    NextText(c, ch);
  }

  lemma StartReads()
    ensures Reads(START, INITIAL, "")
  {
  }

  /** The last turn of the loop. */
  lemma RunLast(init: string, ch: char)
    ensures Run(INITIAL, init + [ch]) == if Run(INITIAL, init).hasError then Run(INITIAL, init) else Step(Run(INITIAL, init), ch)
    ensures Parse(init + [ch]) == Next(Parse(init), ch)
  {
    var s := init + [ch];
    assert s[..|s| - 1] == init && s[|s| - 1] == ch;
  }

  /** Whatever the automaton has read without an error is the printed form of a well-formed tree with a hole,
      and the automaton's state is the one that tree determines. */
  lemma {:induction false} RunParses(s: string)
    requires !Run(INITIAL, s).hasError
    ensures Reads(Parse(s), Run(INITIAL, s), s)
  {
    if |s| == 0 {
      StartReads();
    } else {
      var init, ch := s[..|s| - 1], s[|s| - 1];
      var c, g := Parse(init), Run(INITIAL, init);
      assert init + [ch] == s;
      RunLast(init, ch);
      RunParses(init);
      NextReads(c, g, init, ch);
    }
  }

  /** A completed text is JSON. */
  lemma CompletedIsText(s: string)
    requires Run(INITIAL, s).completed && !Run(INITIAL, s).hasError
    ensures exists before, t, after :: IsText(s, before, t, after)
  {
    RunParses(s);
    var c := Parse(s);
    assert c.AfterValue? && c.hole.Top?;
    assert IsText(s, c.hole.ws, c.v, c.ws);
  }

  /** Exactly the JSON texts complete without an error. */
  lemma CompletesIffText(s: string)
    ensures (Run(INITIAL, s).completed && !Run(INITIAL, s).hasError) <==> exists before, t, after :: IsText(s, before, t, after)
  {
    if Run(INITIAL, s).completed && !Run(INITIAL, s).hasError {
      CompletedIsText(s);
    }
    if before, t, after :| IsText(s, before, t, after) {
      TextCompletes(s, before, t, after);
    }
  }
}
