/** The grammar the automaton is meant to recognise, as syntax trees with all their whitespace:
    sections 2 to 7 of RFC 8259 with the relaxations the code makes. */
module JsonSyntax {
  import opened Common
  import opened JsonGrammar

  /** A number's pieces; unfinished numbers are pieces too. `mark` is "", "e" or "E"; `sign` is "", "+" or "-". */
  datatype NumText = NumText(neg: bool, whole: string, dot: bool, frac: string, mark: string, sign: string, exp: string)

  datatype Tree = Lit(kind: LiteralKind) | Num(n: NumText) | Str(body: string) | Arr(items: Items) | Obj(members: Members)

  datatype Items = NoItems(ws: string) | FirstItem(w0: string, v: Tree, w1: string) | NextItem(init: Items, w0: string, v: Tree, w1: string)

  /** A member's name, with the whitespace before it, after it and after the colon. */
  datatype Key = Key(w0: string, text: string, w1: string, w2: string)

  /** `lead` is the whitespace before a comma standing ahead of the first member, which the automaton tolerates. */
  datatype Members =
    | NoMembers(ws: string)
    | FirstMember(lead: Option<string>, key: Key, v: Tree, w: string)
    | NextMember(init: Members, key: Key, v: Tree, w: string)

  // ---------- texts ----------

  function PrintNum(n: NumText): string {
    (if n.neg then "-" else "") + n.whole + (if n.dot then "." else "") + n.frac + n.mark + n.sign + n.exp
  }

  function Quoted(body: string): string {
    ['"'] + (body + ['"'])
  }

  function PrintKey(k: Key): string {
    k.w0 + (Quoted(k.text) + (k.w1 + ([':'] + k.w2)))
  }

  function Print(t: Tree): string
    decreases t, 0
  {
    match t
    case Lit(kind) => LiteralText(kind)
    case Num(n) => PrintNum(n)
    case Str(body) => Quoted(body)
    case Arr(items) => ['['] + (PrintItems(items) + [']'])
    case Obj(members) => ['{'] + (PrintMembers(members) + ['}'])
  }

  function PrintItem(w0: string, v: Tree, w1: string): string
    decreases v, 1
  {
    w0 + (Print(v) + w1)
  }

  function PrintItems(items: Items): string
    decreases items, 2
  {
    match items
    case NoItems(ws) => ws
    case FirstItem(w0, v, w1) => PrintItem(w0, v, w1)
    case NextItem(init, w0, v, w1) => PrintItems(init) + ([','] + PrintItem(w0, v, w1))
  }

  function PrintMember(key: Key, v: Tree, w: string): string
    decreases v, 1
  {
    PrintKey(key) + (Print(v) + w)
  }

  function PrintMembers(members: Members): string
    decreases members, 2
  {
    match members
    case NoMembers(ws) => ws
    case FirstMember(lead, key, v, w) =>
      if lead.Some? then lead.value + ([','] + PrintMember(key, v, w)) else PrintMember(key, v, w)
    case NextMember(init, key, v, w) => PrintMembers(init) + ([','] + PrintMember(key, v, w))
  }

  // ---------- well-formedness ----------

  predicate AllWs(s: string) {
    forall i :: 0 <= i < |s| ==> IsWhitespace(s[i])
  }

  predicate AllDigits(s: string) {
    forall i :: 0 <= i < |s| ==> IsDigit(s[i])
  }

  /** The string ends inside an escape. */
  predicate Escaped(s: string) {
    |s| > 0 && s[|s| - 1] == '\\' && !Escaped(s[..|s| - 1])
  }

  /** Every quotation mark is escaped. */
  predicate NoBareQuote(s: string) {
    |s| == 0 || (NoBareQuote(s[..|s| - 1]) && (s[|s| - 1] == '"' ==> Escaped(s[..|s| - 1])))
  }

  predicate BodyOk(s: string) {
    NoBareQuote(s) && !Escaped(s)
  }

  /** The pieces form a number or the beginning of one. */
  predicate NumOk(n: NumText) {
    && AllDigits(n.whole) && AllDigits(n.frac) && AllDigits(n.exp)
    && (n.whole == "" ==> n.neg && !n.dot && n.mark == "")
    && (|n.whole| > 1 ==> n.whole[0] != '0')
    && (n.frac != "" ==> n.dot)
    && (n.mark == "" || ((n.mark == "e" || n.mark == "E") && (n.dot ==> n.frac != "")))
    && (n.mark == "" ==> n.sign == "" && n.exp == "")
    && (n.sign == "" || n.sign == "+" || n.sign == "-")
  }

  function NumStateOf(n: NumText): NumberState {
    if n.mark != "" then (if n.exp != "" then ExponentDigits else if n.sign != "" then ExponentSign else ExponentStart)
    else if n.dot then (if n.frac != "" then Fraction else FractionStart)
    else if n.whole == "" then Sign
    else if n.whole == "0" then Zero
    else Integer
  }

  predicate StrictDigits(s: string) {
    forall i :: 0 <= i < |s| ==> '0' <= s[i] <= '9'
  }

  /** A finished number in the sense of section 6 of RFC 8259: an integer part without leading zeros, a point with digits after
      it, an exponent with digits, and a sign in the exponent only. */
  predicate StrictNum(n: NumText) {
    && StrictDigits(n.whole) && n.whole != "" && (n.whole[0] == '0' ==> |n.whole| == 1)
    && StrictDigits(n.frac) && (n.dot <==> n.frac != "")
    && StrictDigits(n.exp) && (n.mark == "" || n.mark == "e" || n.mark == "E") && (n.mark != "" <==> n.exp != "")
    && (n.sign == "" || n.sign == "+" || n.sign == "-") && (n.sign != "" ==> n.mark != "")
  }

  /** They are exactly the numbers that leave the automaton in an accepting state. */
  lemma AcceptedNumbers(n: NumText)
    ensures NumOk(n) && Accepting(NumStateOf(n)) <==> StrictNum(n)
  {
    if StrictNum(n) {
      assert AllDigits(n.whole) && AllDigits(n.frac) && AllDigits(n.exp);
    }
  }

  /** t is a JSON value nesting at most d containers. */
  predicate TreeOk(t: Tree, d: nat)
    decreases t
  {
    match t
    case Lit(_) => true
    case Num(n) => StrictNum(n)
    case Str(body) => BodyOk(body)
    case Arr(items) => d > 0 && ItemsOk(items, d - 1)
    case Obj(members) => d > 0 && MembersOk(members, d - 1)
  }

  predicate ItemsOk(items: Items, d: nat)
    decreases items
  {
    match items
    case NoItems(ws) => AllWs(ws)
    case FirstItem(w0, v, w1) => AllWs(w0) && TreeOk(v, d) && AllWs(w1)
    case NextItem(init, w0, v, w1) => !init.NoItems? && ItemsOk(init, d) && AllWs(w0) && TreeOk(v, d) && AllWs(w1)
  }

  predicate KeyOk(k: Key) {
    AllWs(k.w0) && BodyOk(k.text) && AllWs(k.w1) && AllWs(k.w2)
  }

  predicate MembersOk(members: Members, d: nat)
    decreases members
  {
    match members
    case NoMembers(ws) => AllWs(ws)
    case FirstMember(lead, key, v, w) => (lead.Some? ==> AllWs(lead.value)) && KeyOk(key) && TreeOk(v, d) && AllWs(w)
    case NextMember(init, key, v, w) => !init.NoMembers? && MembersOk(init, d) && KeyOk(key) && TreeOk(v, d) && AllWs(w)
  }

  // ---------- numbers ----------

  /** The pieces after one more character. */
  function NumNext(n: NumText, ch: char): NumText {
    if ch == '.' then n.(dot := true)
    else if ch == 'e' || ch == 'E' then n.(mark := [ch])
    else if ch == '+' || ch == '-' then n.(sign := [ch])
    else if n.mark != "" then n.(exp := n.exp + [ch])
    else if n.dot then n.(frac := n.frac + [ch])
    else n.(whole := n.whole + [ch])
  }

  lemma NumNextWholeOk(n: NumText, ch: char)
    requires NumOk(n) && NextNumber(NumStateOf(n), ch).Some? && !n.dot && n.mark == ""
    ensures NumOk(NumNext(n, ch))
  {
    assert n.whole != "" ==> (n.whole + [ch])[0] == n.whole[0];
    assert n.whole != "" && n.whole[0] == '0' ==> n.whole == "0";
  }

  lemma NumNextFracOk(n: NumText, ch: char)
    requires NumOk(n) && NextNumber(NumStateOf(n), ch).Some? && n.dot && n.mark == ""
    ensures NumOk(NumNext(n, ch))
  {
  }

  lemma NumNextExpOk(n: NumText, ch: char)
    requires NumOk(n) && NextNumber(NumStateOf(n), ch).Some? && n.mark != ""
    ensures NumOk(NumNext(n, ch))
  {
    if ch == '+' || ch == '-' {
      assert n.sign == "" && n.exp == "";
    } else {
      assert IsDigit(ch);
    }
  }

  lemma NumNextOk(n: NumText, ch: char)
    requires NumOk(n) && NextNumber(NumStateOf(n), ch).Some?
    ensures NumOk(NumNext(n, ch))
  {
    if n.mark != "" {
      NumNextExpOk(n, ch);
    } else if n.dot {
      NumNextFracOk(n, ch);
    } else {
      NumNextWholeOk(n, ch);
    }
  }

  lemma NumNextState(n: NumText, ch: char)
    requires NumOk(n) && NextNumber(NumStateOf(n), ch).Some?
    ensures NextNumber(NumStateOf(n), ch) == Some(NumStateOf(NumNext(n, ch)))
  {
    if n.whole == "" {
      assert n.whole + [ch] == [ch] && (ch == '0' ==> [ch] == "0");
    } else {
      assert |n.whole + [ch]| > 1;
    }
  }

  lemma NumNextText(n: NumText, ch: char)
    requires NumOk(n) && NextNumber(NumStateOf(n), ch).Some?
    ensures PrintNum(NumNext(n, ch)) == PrintNum(n) + [ch]
  {
  }

  /** The pieces before the last character. */
  function NumPrev(n: NumText): NumText {
    if n.exp != "" then n.(exp := n.exp[..|n.exp| - 1])
    else if n.sign != "" then n.(sign := "")
    else if n.mark != "" then n.(mark := "")
    else if n.frac != "" then n.(frac := n.frac[..|n.frac| - 1])
    else if n.dot then n.(dot := false)
    else if n.whole != "" then n.(whole := n.whole[..|n.whole| - 1])
    else n
  }

  /** The number state after reading a whole text from the start of a value. */
  function NumRun(s: string): Option<NumberState> {
    if |s| == 0 then None
    else if |s| == 1 then
      match PrimitiveStart(s[0])
      case Some(Number(state)) => Some(state)
      case _ => None
    else
      match NumRun(s[..|s| - 1])
      case None => None
      case Some(state) => NextNumber(state, s[|s| - 1])
  }

  lemma NumPrevOk(n: NumText)
    requires NumOk(n)
    ensures |PrintNum(n)| >= 1
    ensures |PrintNum(n)| > 1 ==> NumOk(NumPrev(n))
  {
  }

  /** The last nonempty piece loses its last character. */
  lemma DropLast(before: string, piece: string)
    requires piece != ""
    ensures before + piece[..|piece| - 1] == (before + piece)[..|before + piece| - 1]
  {
  }

  lemma NumPrevText(n: NumText)
    requires NumOk(n) && |PrintNum(n)| > 1
    ensures PrintNum(NumPrev(n)) == PrintNum(n)[..|PrintNum(n)| - 1]
  {
    var minus, point := if n.neg then "-" else "", if n.dot then "." else "";
    if n.exp != "" {
      DropLast(minus + n.whole + point + n.frac + n.mark + n.sign, n.exp);
    } else if n.frac != "" && n.mark == "" {
      DropLast(minus + n.whole + point, n.frac);
    } else if n.sign == "" && n.mark == "" && !n.dot {
      DropLast(minus, n.whole);
    }
  }

  /** The character that the last piece ends in. */
  lemma NumLast(n: NumText, last: char)
    requires NumOk(n) && |PrintNum(n)| > 1 && last == PrintNum(n)[|PrintNum(n)| - 1]
    ensures n.exp != "" ==> last == n.exp[|n.exp| - 1]
    ensures n.exp == "" && n.sign != "" ==> [last] == n.sign
    ensures n.exp == "" && n.sign == "" && n.mark != "" ==> [last] == n.mark
    ensures n.mark == "" && n.frac != "" ==> last == n.frac[|n.frac| - 1]
    ensures n.mark == "" && n.frac == "" && n.dot ==> last == '.'
    ensures n.mark == "" && !n.dot ==> n.whole != "" && last == n.whole[|n.whole| - 1]
  {
  }

  lemma NumPrevStepExp(n: NumText, last: char)
    requires NumOk(n) && NumOk(NumPrev(n)) && n.mark != ""
    requires n.exp != "" ==> last == n.exp[|n.exp| - 1]
    requires n.exp == "" && n.sign != "" ==> [last] == n.sign
    requires n.exp == "" && n.sign == "" ==> [last] == n.mark
    ensures NextNumber(NumStateOf(NumPrev(n)), last) == Some(NumStateOf(n))
  {
    assert [last][0] == last;
  }

  lemma NumPrevStepPlain(n: NumText, last: char)
    requires NumOk(n) && NumOk(NumPrev(n)) && n.mark == "" && |PrintNum(n)| > 1
    requires n.frac != "" ==> last == n.frac[|n.frac| - 1]
    requires n.frac == "" && n.dot ==> last == '.'
    requires !n.dot ==> n.whole != "" && last == n.whole[|n.whole| - 1]
    ensures NextNumber(NumStateOf(NumPrev(n)), last) == Some(NumStateOf(n))
  {
    if !n.dot && |n.whole| > 1 {
      assert NumPrev(n).whole[0] == n.whole[0] != '0';
    }
  }

  lemma NumPrevStep(n: NumText)
    requires NumOk(n) && |PrintNum(n)| > 1 && NumOk(NumPrev(n))
    ensures NextNumber(NumStateOf(NumPrev(n)), PrintNum(n)[|PrintNum(n)| - 1]) == Some(NumStateOf(n))
  {
    var last := PrintNum(n)[|PrintNum(n)| - 1];
    NumLast(n, last);
    if n.mark != "" {
      NumPrevStepExp(n, last);
    } else {
      NumPrevStepPlain(n, last);
    }
  }

  /** A number's text drives the number states exactly as its pieces say. */
  lemma {:induction false} NumReached(n: NumText)
    requires NumOk(n)
    ensures NumRun(PrintNum(n)) == Some(NumStateOf(n))
    decreases |PrintNum(n)|
  {
    NumPrevOk(n);
    if |PrintNum(n)| > 1 {
      NumPrevText(n);
      NumPrevStep(n);
      NumReached(NumPrev(n));
    }
  }
}
