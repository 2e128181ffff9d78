/** The scientific calculator's expression buffer (ui/tools/calculator.py).

    The dialog keeps the text typed so far (`current_expression`), whether that
    text is the result of the last evaluation (`has_result`), a memory value and
    the angle mode. Buttons and keys append tokens, edit the text, or evaluate
    it with Python's `eval`. Evaluation itself and float arithmetic are outside
    the model: an `Engine` value supplies them. */
module Calculator {
  import opened StringOps

  /** What Python's `eval` made of an expression: the text the dialog then
      shows, or the message of the exception it raised. */
  datatype EvalResult = Value(text: string) | Raised(message: string)

  /** The parts of the calculator that rest on `eval` and on floats. */
  datatype Engine = Engine(
    evaluate: string -> EvalResult,       // eval of a rewritten expression, result formatted for display
    toNumber: string -> Option<real>,     // float(eval(expr)), None when it raises
    show: real -> string,                 // str(memory)
    percent: string -> Option<string>)    // the new expression calculate_percentage computes, None when it raises

  /** The dialog's state: `current_expression`, `has_result`, `memory`,
      `deg_mode`, and the texts of the main and the history display. */
  datatype CalcState = CalcState(
    expr: string, hasResult: bool, memory: real, degMode: bool,
    display: string, history: string)

  const Digits := "0123456789"

  // ---------------------------------------------------------------------------
  // Button labels

  /** What a button does, decided by its caption alone. */
  datatype Action =
    | Evaluate | ClearAll | ClearEntry | DeleteLast | Negate
    | Append(token: string) | AppendFunction(name: string) | SetDegrees(on: bool)
    | MemoryClear | MemoryStore | MemoryAdd | MemorySubtract | MemoryRecall
    | SecondFunction | Percentage

  /** The dispatch of `button_clicked` on the caption; unlisted labels append themselves. */
  function ButtonAction(caption: string): Action {
    if caption == "=" then Evaluate
    else if caption == "C" then ClearAll
    else if caption == "CE" then ClearEntry
    else if caption == "⌫" then DeleteLast
    else if caption == "±" then Negate
    else if caption == "√" then Append("sqrt(")
    else if caption == "π" then Append("pi")
    else if caption == "e" then Append("e")
    else if caption == "x²" then Append("^2")
    else if caption == "x³" then Append("^3")
    else if caption == "10ˣ" then Append("10^")
    else if caption == "sin" || caption == "cos" || caption == "tan"
         || caption == "asin" || caption == "acos" || caption == "atan" then AppendFunction(caption)
    else if caption == "sinh" then Append("sinh(")
    else if caption == "cosh" then Append("cosh(")
    else if caption == "tanh" then Append("tanh(")
    else if caption == "log" then Append("log10(")
    else if caption == "ln" then Append("log(")
    else if caption == "!" then Append("factorial(")
    else if caption == "1/x" then Append("1/(")
    else if caption == "×" then Append("*")
    else if caption == "÷" then Append("/")
    else if caption == "mod" then Append("%")
    else if caption == "exp" then Append("exp(")
    else if caption == "rand" then Append("random()")
    else if caption == "rad" then SetDegrees(false)
    else if caption == "deg" then SetDegrees(true)
    else if caption == "MC" then MemoryClear
    else if caption == "MS" then MemoryStore
    else if caption == "M+" then MemoryAdd
    else if caption == "M-" then MemorySubtract
    else if caption == "MR" then MemoryRecall
    else if caption == "2ⁿᵈ" then SecondFunction
    else if caption == "%" then Percentage
    else Append(caption)
  }

  /** The token `append_function` adds: in degree mode the argument of
      sin, cos and tan is passed through `radians(`. */
  function FunctionToken(name: string, degMode: bool): string {
    if degMode && (name == "sin" || name == "cos" || name == "tan")
    then name + "(radians(" else name + "("
  }

  // ---------------------------------------------------------------------------
  // State transitions

  /** The check both handlers run first: `text in "0123456789"` is Python's
      substring test, so it holds for every digit and also for the empty text. */
  function Restarted(st: CalcState, text: string): CalcState {
    if st.hasResult && IsSubstring(text, Digits) then st.(expr := "", hasResult := false) else st
  }

  function Appended(st: CalcState, token: string): CalcState {
    st.(expr := st.expr + token, display := st.expr + token)
  }

  /** `clear`: empties the expression and both displays, forgets the result flag. */
  function Cleared(st: CalcState): CalcState {
    st.(expr := "", display := "", history := "", hasResult := false)
  }

  /** `clear_entry`: like `clear` but keeps the history display. */
  function EntryCleared(st: CalcState): CalcState {
    st.(expr := "", display := "", hasResult := false)
  }

  /** `delete_last`: Python's `expr[:-1]`, which leaves "" as "". */
  function Backspaced(st: CalcState): CalcState {
    var e := if st.expr == "" then "" else st.expr[..|st.expr| - 1];
    st.(expr := e, display := e)
  }

  function Negated(st: CalcState): CalcState {
    var e := NegatedExpression(st.expr);
    st.(expr := e, display := e)
  }

  function ErrorNote(message: string, original: string): string {
    "错误: " + message + " (在表达式: " + original + ")"
  }

  /** `calculate`: rewrite, then the two guards, then `eval`. */
  function Calculated(st: CalcState, eng: Engine): CalcState {
    Outcome(st, Rewrite(st.expr), eng)
  }

  /** The part of `calculate` after the rewrites, `rewritten` being the
      rewritten form of `st.expr`. */
  function Outcome(st: CalcState, rewritten: string, eng: Engine): CalcState {
    if IsBlank(rewritten) then
      st.(expr := "0", display := "0", history := st.expr)
    else if Count(rewritten, '(') != Count(rewritten, ')') then
      st.(expr := "", display := "错误", history := ErrorNote("括号不匹配", st.expr))
    else match eng.evaluate(rewritten)
      case Raised(msg) => st.(expr := "", display := "错误", history := ErrorNote(msg, st.expr))
      case Value(v) => st.(expr := v, display := v, hasResult := true, history := st.expr)
  }

  function Perform(st: CalcState, a: Action, eng: Engine): CalcState {
    match a
    case Evaluate => Calculated(st, eng)
    case ClearAll => Cleared(st)
    case ClearEntry => EntryCleared(st)
    case DeleteLast => Backspaced(st)
    case Negate => Negated(st)
    case Append(t) => Appended(st, t)
    case AppendFunction(f) => Appended(st, FunctionToken(f, st.degMode))
    case SetDegrees(on) => st.(degMode := on)
    case MemoryClear => st.(memory := 0.0)
    case MemoryStore =>
      if st.expr == "" then st
      else (match eng.toNumber(st.expr) case Some(v) => st.(memory := v) case None => st)
    case MemoryAdd =>
      if st.expr == "" then st
      else (match eng.toNumber(st.expr) case Some(v) => st.(memory := st.memory + v) case None => st)
    case MemorySubtract =>
      if st.expr == "" then st
      else (match eng.toNumber(st.expr) case Some(v) => st.(memory := st.memory - v) case None => st)
    case MemoryRecall =>
      var t := eng.show(st.memory);
      st.(expr := t, display := t)
    case SecondFunction => st
    case Percentage =>
      if st.expr == "" then st
      else (match eng.percent(st.expr) case Some(t) => st.(expr := t, display := t) case None => st)
  }

  /** `button_clicked` with the given caption. */
  function ButtonStep(st: CalcState, caption: string, eng: Engine): CalcState {
    Perform(Restarted(st, caption), ButtonAction(caption), eng)
  }

  // Qt key codes used by keyPressEvent
  const KeyEscape := 0x0100_0000
  const KeyBackspace := 0x0100_0003
  const KeyReturn := 0x0100_0004
  const KeyEnter := 0x0100_0005
  const KeyDelete := 0x0100_0007
  const KeyEqual := 0x3d

  /** `process_key_input`: the restart check, then the text is appended. */
  function KeyInput(st: CalcState, text: string): CalcState {
    Appended(Restarted(st, text), text)
  }

  /** `keyPressEvent` for a key code and the text the key produced. */
  function KeyStep(st: CalcState, key: int, text: string, eng: Engine): CalcState {
    if 48 <= key <= 57 then KeyInput(st, text)
    else if IsSubstring(text, "+-*/^%()") then
      KeyInput(st, if text == "*" then "×" else if text == "/" then "÷" else text)
    else if text == "." then KeyInput(st, ".")
    else if key == KeyReturn || key == KeyEnter || key == KeyEqual then Calculated(st, eng)
    else if key == KeyBackspace then Backspaced(st)
    else if key == KeyEscape then Cleared(st)
    else if key == KeyDelete then EntryCleared(st)
    else if text == "s" then Appended(st, FunctionToken("sin", st.degMode))
    else if text == "c" then Appended(st, FunctionToken("cos", st.degMode))
    else if text == "t" then Appended(st, FunctionToken("tan", st.degMode))
    else if text == "l" then Appended(st, "log10(")
    else if text == "n" then Appended(st, "log(")
    else if text == "q" then Appended(st, "sqrt(")
    else if text == "p" then Appended(st, "pi")
    else if text == "e" then Appended(st, "e")
    else st
  }

  // ---------------------------------------------------------------------------
  // The sign toggle

  predicate IsDigit(c: char) { '0' <= c <= '9' }

  /** A digit is never taken for the sign group. */
  lemma DigitIsNoSign(c: char)
    requires IsDigit(c)
    ensures !IsSignChar(c)
  {
  }

  /** The optional first group of the pattern: one of - + * / ^ ( */
  predicate IsSignChar(c: char) {
    c == '-' || c == '+' || c == '*' || c == '/' || c == '^' || c == '('
  }

  /** `t` is matched in full by `\d+\.?\d*`: a digit, then digits with at most one '.'. */
  predicate IsNumeral(t: string) {
    && |t| > 0 && IsDigit(t[0])
    && (forall i :: 1 <= i < |t| ==> IsDigit(t[i]) || t[i] == '.')
    && (forall i, j :: 1 <= i < j < |t| && t[i] == '.' ==> t[j] != '.')
  }

  // The pattern `([-+*/^(]?)(\d+\.?\d*)$` matches `s` starting at position `i`.
  predicate MatchesAt(s: string, i: nat) {
    i < |s| && ((IsSignChar(s[i]) && IsNumeral(s[i + 1..])) || IsNumeral(s[i..]))
  }

  /** `re.search` from position `i`: the first position where the pattern matches. */
  function SearchFrom(s: string, i: nat): (r: Option<nat>)
    requires i <= |s|
    ensures r.Some? ==> i <= r.value < |s| && MatchesAt(s, r.value)
    ensures r.Some? ==> forall k :: i <= k < r.value ==> !MatchesAt(s, k)
    ensures r.None? ==> forall k :: i <= k < |s| ==> !MatchesAt(s, k)
    decreases |s| - i
  {
    if i == |s| then None else if MatchesAt(s, i) then Some(i) else SearchFrom(s, i + 1)
  }

  /** The two groups of the match. */
  datatype NumberMatch = NumberMatch(prefix: string, number: string)

  /** The leftmost match of the trailing-number pattern, split into its groups;
      the optional sign group is taken whenever it can be. */
  function TrailingNumber(s: string): (r: Option<NumberMatch>)
    ensures r.None? <==> SearchFrom(s, 0).None?
    ensures r.Some? ==> && IsNumeral(r.value.number)
                        && |r.value.prefix| + |r.value.number| <= |s|
                        && s[|s| - |r.value.number|..] == r.value.number
    ensures r.Some? && r.value.prefix != "" ==>
              |r.value.prefix| == 1 && IsSignChar(r.value.prefix[0])
              && s[|s| - |r.value.number| - 1] == r.value.prefix[0]
  {
    match SearchFrom(s, 0)
    case None => None
    case Some(i) =>
      if IsSignChar(s[i]) && IsNumeral(s[i + 1..]) then Some(NumberMatch([s[i]], s[i + 1..]))
      else Some(NumberMatch("", s[i..]))
  }

  /** `negate` on the expression text. */
  function NegatedExpression(s: string): string {
    if s == "" || s == "-" then "-"
    else match TrailingNumber(s)
      case None => s + "(-"
      case Some(m) =>
        if m.prefix == "-" then s[..|s| - |m.number| - 1] + m.number
        else s[..|s| - |m.number|] + "-" + m.number
  }

  // ---------------------------------------------------------------------------
  // The rewrites `calculate` applies before the guards

  const Rewrites: seq<(string, string)> := [
    ("^", "**"), ("×", "*"), ("÷", "/"), ("pi", "math.pi"), ("e", "math.e"),
    ("sqrt", "math.sqrt"), ("sin", "math.sin"), ("cos", "math.cos"), ("tan", "math.tan"),
    ("asin", "math.asin"), ("acos", "math.acos"), ("atan", "math.atan"),
    ("sinh", "math.sinh"), ("cosh", "math.cosh"), ("tanh", "math.tanh"),
    ("log10", "math.log10"), ("log", "math.log"), ("exp", "math.exp"),
    ("factorial", "math.factorial"), ("radians", "math.radians"),
    ("random()", "random.random()")]

  predicate ParenFree(s: string) {
    '(' !in s && ')' !in s
  }

  lemma RulePatternsNonEmpty()
    ensures forall k :: 0 <= k < |Rewrites| ==> |Rewrites[k].0| > 0
  {
  }

  lemma RulesParenFree()
    ensures forall k :: 0 <= k < |Rewrites| - 1 ==> ParenFree(Rewrites[k].0) && ParenFree(Rewrites[k].1)
  {
  }

  lemma ParenFreeBalance(s: string)
    requires ParenFree(s)
    ensures Balance(s) == 0
  {
    CountAbsent(s, '(');
    CountAbsent(s, ')');
  }

  lemma CallSuffixBalanced(name: string)
    requires ParenFree(name)
    ensures Balance(name + "()") == 0
  {
    var p := "()";
    assert p[0] == '(' && p[1..] == [')'];
    assert [')'][1..] == [];
    assert Count(p, '(') == 1 && Count(p, ')') == 1;
    ParenFreeBalance(name);
    CountConcat(name, p, '(');
    CountConcat(name, p, ')');
  }

  lemma LastRuleBalanced()
    ensures Balance(Rewrites[|Rewrites| - 1].0) == Balance(Rewrites[|Rewrites| - 1].1)
  {
    assert Rewrites[|Rewrites| - 1] == ("random()", "random.random()");
    assert "random()" == "random" + "()";
    assert "random.random()" == "random.random" + "()";
    CallSuffixBalanced("random");
    CallSuffixBalanced("random.random");
  }

  /** Every rule has a non-empty pattern, and both sides of every rule have the
      same parenthesis balance: only the last rule mentions parentheses at all. */
  lemma RewritesAreNeutral()
    ensures forall k :: 0 <= k < |Rewrites| ==> Rewrites[k].0 != ""
    ensures forall k :: 0 <= k < |Rewrites| ==> Balance(Rewrites[k].0) == Balance(Rewrites[k].1)
  {
    RulePatternsNonEmpty();
    RulesParenFree();
    LastRuleBalanced();
    forall k | 0 <= k < |Rewrites| - 1
      ensures Balance(Rewrites[k].0) == Balance(Rewrites[k].1)
    {
      ParenFreeBalance(Rewrites[k].0);
      ParenFreeBalance(Rewrites[k].1);
    }
  }

  /** The expression `calculate` hands to the guards and to `eval`. */
  function Rewrite(s: string): string {
    RewritesAreNeutral();
    ApplyRules(s, Rewrites)
  }

  // ---------------------------------------------------------------------------
  // Properties of the sign toggle

  /** A character that is neither a digit nor '.' stops every match that starts
      before it: the number group cannot run across it. */
  lemma BlockedBefore(s: string, p: nat)
    requires p < |s| && !IsDigit(s[p]) && s[p] != '.'
    ensures forall i :: 0 <= i < p ==> !MatchesAt(s, i)
  {
    forall i | 0 <= i < p
      ensures !MatchesAt(s, i)
    {
      assert s[i..][p - i] == s[p];
      if i + 1 < p {
        assert s[i + 1..][p - i - 1] == s[p];
      } else {
        assert s[i + 1..][0] == s[p];
      }
    }
  }

  /** With a numeral after a '-', the minus is the sign group of the match and
      the toggle removes it. */
  lemma {:induction false} NegateAfterMinus(a: string, n: string)
    requires IsNumeral(n)
    ensures NegatedExpression(a + "-" + n) == a + n
  {
    var s := a + "-" + n;
    var p := |a|;
    assert s[p] == '-' && s[p + 1..] == n && s[p..][0] == '-';
    BlockedBefore(s, p);
    assert MatchesAt(s, p);
    SearchFindsFirst(s, p);
    assert TrailingNumber(s) == Some(NumberMatch("-", n));
    assert s[..|s| - |n| - 1] == a && |s| >= 2;
    NegateSigned(s, NumberMatch("-", n));
  }

  /** The toggle on a trailing number with a minus removes the minus. */
  lemma NegateSigned(s: string, m: NumberMatch)
    requires |s| >= 2 && TrailingNumber(s) == Some(m) && m.prefix == "-"
    ensures NegatedExpression(s) == s[..|s| - |m.number| - 1] + m.number
  {
  }

  /** The search stops at the first position where the pattern matches. */
  lemma SearchFindsFirst(s: string, p: nat)
    requires p < |s| && MatchesAt(s, p)
    requires forall i :: 0 <= i < p ==> !MatchesAt(s, i)
    ensures SearchFrom(s, 0) == Some(p)
  {
  }

  /** The groups of the match in `b + n` when `b` ends in a sign character. */
  lemma TrailingAfterSign(b: string, n: string)
    requires IsNumeral(n) && b != "" && IsSignChar(b[|b| - 1])
    ensures TrailingNumber(b + n) == Some(NumberMatch([b[|b| - 1]], n))
  {
    var s := b + n;
    var p := |b| - 1;
    assert s[p] == b[p] && s[p + 1..] == n;
    BlockedBefore(s, p);
    SearchFindsFirst(s, p);
  }

  /** The groups of the match in `b + n` when `b` ends in some other character
      that cannot be part of a number. */
  lemma TrailingAfterOther(b: string, n: string)
    requires IsNumeral(n) && b != ""
    requires !IsDigit(b[|b| - 1]) && b[|b| - 1] != '.' && !IsSignChar(b[|b| - 1])
    ensures TrailingNumber(b + n) == Some(NumberMatch("", n))
  {
    var s := b + n;
    var p := |b| - 1;
    assert s[p] == b[p] && s[|b|..] == n && s[|b|] == n[0];
    BlockedBefore(s, p);
    assert !MatchesAt(s, p) by {
      assert s[p..][0] == s[p];
    }
    SearchFindsFirst(s, |b|);
  }

  /** After text that does not end in a digit, '.' or '-', the toggle puts a
      minus in front of a trailing numeral. */
  lemma NegateBeforeNumeral(b: string, n: string)
    requires IsNumeral(n)
    requires b == "" || (!IsDigit(b[|b| - 1]) && b[|b| - 1] != '.' && b[|b| - 1] != '-')
    ensures NegatedExpression(b + n) == b + "-" + n
  {
    if b == "" {
      NegateLoneNumeral(b, n);
    } else {
      NegateAfterText(b, n);
    }
  }

  /** A numeral alone gets a minus in front. */
  lemma NegateLoneNumeral(b: string, n: string)
    requires IsNumeral(n) && b == ""
    ensures NegatedExpression(b + n) == b + "-" + n
  {
    assert b + n == n && b + "-" + n == "-" + n;
    DigitIsNoSign(n[0]);
    assert MatchesAt(n, 0) && n != "-" && n[0..] == n;
    SearchFindsFirst(n, 0);
    assert n[..0] == "";
    NegateUnsigned(n, NumberMatch("", n));
  }

  /** After text ending in a sign other than '-', or in a character that
      cannot be part of a number, the minus goes before the numeral. */
  lemma NegateAfterText(b: string, n: string)
    requires IsNumeral(n) && b != ""
    requires !IsDigit(b[|b| - 1]) && b[|b| - 1] != '.' && b[|b| - 1] != '-'
    ensures NegatedExpression(b + n) == b + "-" + n
  {
    var s := b + n;
    assert s[..|b|] == b && s[|b|] == n[0] && s != "-";
    var prefix := if IsSignChar(b[|b| - 1]) then [b[|b| - 1]] else "";
    if IsSignChar(b[|b| - 1]) {
      TrailingAfterSign(b, n);
    } else {
      TrailingAfterOther(b, n);
    }
    NegateUnsigned(s, NumberMatch(prefix, n));
  }

  /** The toggle on a trailing number without a minus puts one in front of it. */
  lemma NegateUnsigned(s: string, m: NumberMatch)
    requires s != "" && s != "-" && TrailingNumber(s) == Some(m) && m.prefix != "-"
    ensures NegatedExpression(s) == s[..|s| - |m.number|] + "-" + m.number
  {
  }

  /** Pressing ± twice gives back an expression whose trailing number carried
      no minus sign. */
  lemma NegateTwiceRestores(s: string)
    requires s != "" && s != "-"
    requires TrailingNumber(s).Some? && TrailingNumber(s).value.prefix != "-"
    ensures NegatedExpression(NegatedExpression(s)) == s
  {
    var n := TrailingNumber(s).value.number;
    var a := s[..|s| - |n|];
    assert a + n == s by {
      assert s[|s| - |n|..] == n;
    }
    var once := NegatedExpression(s);
    NegateUnsigned(s, TrailingNumber(s).value);
    assert once == a + "-" + n;
    NegateAfterMinus(a, n);
  }

  /** Pressing ± twice gives back an expression whose trailing number carried
      a minus sign, provided the minus does not follow a digit, '.' or '-'. */
  lemma NegateTwiceRestoresNegative(b: string, n: string)
    requires IsNumeral(n)
    requires b == "" || (!IsDigit(b[|b| - 1]) && b[|b| - 1] != '.' && b[|b| - 1] != '-')
    ensures NegatedExpression(b + "-" + n) == b + n
    ensures NegatedExpression(NegatedExpression(b + "-" + n)) == b + "-" + n
  {
    NegateAfterMinus(b, n);
    NegateBeforeNumeral(b, n);
  }

  /** The minus of a subtraction is taken for a sign: ± on "3-5" joins the
      operands into "35", and a second ± does not bring the subtraction back. */
  lemma NegateJoinsOperands()
    ensures NegatedExpression("3-5") == "35"
    ensures NegatedExpression(NegatedExpression("3-5")) == "-35"
  {
    assert "3" + "-" + "5" == "3-5" && "3" + "5" == "35";
    assert "" + "35" == "35" && "" + "-" + "35" == "-35";
    assert IsNumeral("5") && IsNumeral("35");
    NegateAfterMinus("3", "5");
    NegateBeforeNumeral("", "35");
  }

  /** An expression that ends in neither a digit nor '.' has no trailing number:
      ± opens a negated parenthesis. */
  lemma NegateWithoutNumber(s: string)
    requires s != "" && s != "-" && !IsDigit(s[|s| - 1]) && s[|s| - 1] != '.'
    ensures NegatedExpression(s) == s + "(-"
  {
    BlockedBefore(s, |s| - 1);
    assert !MatchesAt(s, |s| - 1) by {
      assert s[|s| - 1..][0] == s[|s| - 1];
    }
    assert SearchFrom(s, 0).None?;
  }

  /** The chain of `replace` calls, one rule after the other. */
  method ReplaceAll(s: string, rules: seq<(string, string)>) returns (r: string)
    requires forall k :: 0 <= k < |rules| ==> rules[k].0 != ""
    ensures r == ApplyRules(s, rules)
  {
    r := s;
    var k := 0;
    while k < |rules|
      invariant 0 <= k <= |rules|
      invariant ApplyRules(r, rules[k..]) == ApplyRules(s, rules)
    {
      assert rules[k..][1..] == rules[k + 1..];
      r := Replace(r, rules[k].0, rules[k].1);
      k := k + 1;
    }
  }

  // ---------------------------------------------------------------------------
  // Properties of calculate

  lemma {:induction false} ApplyRulesKeepsBalance(s: string, rules: seq<(string, string)>)
    requires forall k :: 0 <= k < |rules| ==> rules[k].0 != ""
    requires forall k :: 0 <= k < |rules| ==> Balance(rules[k].0) == Balance(rules[k].1)
    ensures Balance(ApplyRules(s, rules)) == Balance(s)
    decreases |rules|
  {
    if rules != [] {
      ReplaceKeepsBalance(s, rules[0].0, rules[0].1);
      ApplyRulesKeepsBalance(Replace(s, rules[0].0, rules[0].1), rules[1..]);
    }
  }

  /** The rewrites neither add nor remove an unmatched parenthesis. */
  lemma RewriteKeepsBalance(e: string)
    ensures Balance(Rewrite(e)) == Balance(e)
  {
    RewritesAreNeutral();
    ApplyRulesKeepsBalance(e, Rewrites);
  }

  lemma RulesStartVisible()
    ensures forall k :: 0 <= k < |Rewrites| ==> |Rewrites[k].0| > 0 && !IsSpace(Rewrites[k].0[0])
  {
  }

  lemma {:induction false} ReplaceKeepsBlank(s: string, pat: string, rep: string)
    requires pat != "" && !IsSpace(pat[0]) && IsBlank(s)
    ensures Replace(s, pat, rep) == s
    decreases |s|
  {
    if |s| >= |pat| {
      assert s[..|pat|][0] == s[0];
      ReplaceKeepsBlank(s[1..], pat, rep);
    }
  }

  lemma {:induction false} ApplyRulesKeepsBlank(s: string, rules: seq<(string, string)>)
    requires forall k :: 0 <= k < |rules| ==> rules[k].0 != "" && !IsSpace(rules[k].0[0])
    requires IsBlank(s)
    ensures ApplyRules(s, rules) == s
    decreases |rules|
  {
    if rules != [] {
      ReplaceKeepsBlank(s, rules[0].0, rules[0].1);
      ApplyRulesKeepsBlank(s, rules[1..]);
    }
  }

  /** Whitespace contains no parenthesis. */
  lemma BlankIsBalanced(s: string)
    requires IsBlank(s)
    ensures Balance(s) == 0
  {
    assert !IsSpace('(') && !IsSpace(')');
    CountAbsent(s, '(');
    CountAbsent(s, ')');
  }

  /** `=` on an empty or all-blank expression shows 0 and keeps the typed text
      as history; the result flag is left as it was. */
  lemma BlankEvaluatesToZero(st: CalcState, eng: Engine)
    requires IsBlank(st.expr)
    ensures Calculated(st, eng) == st.(expr := "0", display := "0", history := st.expr)
  {
    RulesStartVisible();
    ApplyRulesKeepsBlank(st.expr, Rewrites);
  }

  /** `=` on an expression with more '(' than ')' or the other way round
      reports the mismatch without calling `eval`, empties the expression and
      keeps the result flag, the memory and the angle mode. */
  lemma UnbalancedIsRejected(st: CalcState, eng: Engine)
    requires Balance(st.expr) != 0
    ensures Calculated(st, eng) == st.(expr := "", display := "错误", history := ErrorNote("括号不匹配", st.expr))
  {
    var r := Rewrite(st.expr);
    RewriteKeepsBalance(st.expr);
    if IsBlank(r) {
      BlankIsBalanced(r);
    }
  }

  /** Otherwise `eval` decides: a value becomes the new expression and sets the
      result flag; an exception empties the expression and names the message. */
  lemma EvaluationDecides(st: CalcState, eng: Engine)
    requires Balance(st.expr) == 0 && !IsBlank(Rewrite(st.expr))
    ensures eng.evaluate(Rewrite(st.expr)).Value? ==>
              var v := eng.evaluate(Rewrite(st.expr)).text;
              Calculated(st, eng) == st.(expr := v, display := v, hasResult := true, history := st.expr)
    ensures eng.evaluate(Rewrite(st.expr)).Raised? ==>
              var m := eng.evaluate(Rewrite(st.expr)).message;
              Calculated(st, eng) == st.(expr := "", display := "错误", history := ErrorNote(m, st.expr))
  {
    RewriteKeepsBalance(st.expr);
  }

  lemma {:induction false} ApplyRulesConcat(s: string, r1: seq<(string, string)>, r2: seq<(string, string)>)
    requires forall k :: 0 <= k < |r1| ==> r1[k].0 != ""
    requires forall k :: 0 <= k < |r2| ==> r2[k].0 != ""
    ensures forall k :: 0 <= k < |r1 + r2| ==> (r1 + r2)[k].0 != ""
    ensures ApplyRules(s, r1 + r2) == ApplyRules(ApplyRules(s, r1), r2)
    decreases |r1|
  {
    if r1 == [] {
      assert r1 + r2 == r2;
    } else {
      assert (r1 + r2)[0] == r1[0] && (r1 + r2)[1..] == r1[1..] + r2;
      ApplyRulesConcat(Replace(s, r1[0].0, r1[0].1), r1[1..], r2);
    }
  }

  /** The rewrites split after the three operator rules. */
  lemma RewritesSplit(e: string)
    ensures Rewrite(e) == ApplyRules(
      Replace(Replace(Replace(e, "^", "**"), "×", "*"), "÷", "/"), Rewrites[3..])
  {
    RewritesAreNeutral();
    var head := Rewrites[..3];
    assert head == [("^", "**"), ("×", "*"), ("÷", "/")];
    assert Rewrites == head + Rewrites[3..];
    ApplyRulesConcat(e, head, Rewrites[3..]);
    assert head[1..][1..][1..] == [];
  }

  /** The keyboard types "×" where the button types "*", and "÷" where the
      button types "/"; after the rewrites both evaluate the same text. */
  lemma OperatorSpellingsAgree(e: string)
    ensures Rewrite(e + "×") == Rewrite(e + "*")
    ensures Rewrite(e + "÷") == Rewrite(e + "/")
  {
    var r0 := Replace(e, "^", "**");
    var r1 := Replace(r0, "×", "*");
    var r2 := Replace(r1, "÷", "/");
    ReplaceCharAppend(e, '^', "**", '×');
    ReplaceCharAppend(e, '^', "**", '*');
    ReplaceCharAppend(r0, '×', "*", '×');
    ReplaceCharAppend(r0, '×', "*", '*');
    ReplaceCharAppend(r1, '÷', "/", '*');
    RewritesSplit(e + "×");
    RewritesSplit(e + "*");
    ReplaceCharAppend(e, '^', "**", '÷');
    ReplaceCharAppend(e, '^', "**", '/');
    ReplaceCharAppend(r0, '×', "*", '÷');
    ReplaceCharAppend(r0, '×', "*", '/');
    ReplaceCharAppend(r1, '÷', "/", '÷');
    ReplaceCharAppend(r1, '÷', "/", '/');
    RewritesSplit(e + "÷");
    RewritesSplit(e + "/");
  }

  // ---------------------------------------------------------------------------
  // Properties of the buttons and keys

  /** The actions of the captions the lemmas below press, each worked out on
      its own so that the dispatch is not unfolded beside a whole state. */
  lemma PlusAction()
    ensures ButtonAction("+") == Append("+")
  {
  }

  lemma ModeAction(on: bool)
    ensures ButtonAction(if on then "deg" else "rad") == SetDegrees(on)
  {
  }

  lemma TrigAction(f: string)
    requires f in ["sin", "cos", "tan", "asin", "acos", "atan"]
    ensures ButtonAction(f) == AppendFunction(f)
  {
  }

  lemma MultiplyAction()
    ensures ButtonAction("×") == Append("*")
  {
  }

  lemma DivideAction()
    ensures ButtonAction("÷") == Append("/")
  {
  }

  lemma ClearAction()
    ensures ButtonAction("C") == ClearAll
  {
  }

  lemma ClearEntryAction()
    ensures ButtonAction("CE") == ClearEntry
  {
  }

  lemma MemoryClearAction()
    ensures ButtonAction("MC") == MemoryClear
  {
  }

  lemma BackspaceAction()
    ensures ButtonAction("⌫") == DeleteLast
  {
  }

  lemma DigitAction(d: nat)
    requires d < 10
    ensures ButtonAction([DigitChar(d)]) == Append([DigitChar(d)])
  {
  }

  /** Only a text made of digits (or the empty text) passes `text in "0123456789"`. */
  lemma NotInDigits(t: string)
    requires t != "" && !IsDigit(t[0])
    ensures !IsSubstring(t, Digits)
  {
    if IsSubstring(t, Digits) {
      SubstringHead(t, Digits);
      assert false;
    }
  }

  lemma DigitInDigits(d: nat)
    requires d < 10
    ensures IsSubstring([DigitChar(d)], Digits)
  {
    SubstringOfChar(DigitChar(d), Digits);
    assert Digits[d] == DigitChar(d);
  }

  /** A digit button after a result starts a new expression with that digit;
      otherwise the digit is appended. */
  lemma DigitButton(st: CalcState, d: nat, eng: Engine)
    requires d < 10
    ensures var c := [DigitChar(d)];
            ButtonStep(st, c, eng) ==
              if st.hasResult then st.(expr := c, display := c, hasResult := false)
              else st.(expr := st.expr + c, display := st.expr + c)
  {
    DigitInDigits(d);
    DigitAction(d);
  }

  /** A digit key does what the digit button does. */
  lemma DigitKeyMatchesButton(st: CalcState, d: nat, eng: Engine)
    requires d < 10
    ensures KeyStep(st, 48 + d, [DigitChar(d)], eng) == ButtonStep(st, [DigitChar(d)], eng)
  {
    DigitAction(d);
  }

  /** A button whose caption does not start with a digit never clears the
      expression first: its action applies to the state as it is. */
  lemma NonDigitButtonKeepsExpression(st: CalcState, caption: string, eng: Engine)
    requires caption != "" && !IsDigit(caption[0])
    ensures ButtonStep(st, caption, eng) == Perform(st, ButtonAction(caption), eng)
  {
    NotInDigits(caption);
  }

  /** An operator button after a result appends to the result but leaves the
      result flag set, so the digit typed next starts over: "+" then "1" after
      a result leaves the expression "1". */
  lemma OperatorAfterResultIsLost(st: CalcState, eng: Engine)
    requires st.hasResult
    ensures ButtonStep(st, "+", eng).expr == st.expr + "+"
    ensures ButtonStep(st, "+", eng).hasResult
    ensures ButtonStep(ButtonStep(st, "+", eng), "1", eng).expr == "1"
  {
    PlusAction();
    NonDigitButtonKeepsExpression(st, "+", eng);
    var next := ButtonStep(st, "+", eng);
    assert next == st.(expr := st.expr + "+", display := st.expr + "+");
    DigitButton(next, 1, eng);
    assert [DigitChar(1)] == "1";
  }

  // A key whose text is empty (a modifier, say) goes the operator way, since
  // "" is a substring of "+-*/^%()": after a result it empties the expression.
  lemma EmptyKeyTextRestarts(st: CalcState, key: int, eng: Engine)
    requires !(48 <= key <= 57)
    ensures KeyStep(st, key, "", eng) ==
              if st.hasResult then st.(expr := "", display := "", hasResult := false)
              else st.(display := st.expr)
  {
    assert StartsWith("+-*/^%()", "");
    assert StartsWith(Digits, "");
  }

  /** The multiplication and division keys put the display signs × and ÷ into
      the expression. */
  lemma MultiplyDivideKeys(st: CalcState, key: int, eng: Engine)
    requires !(48 <= key <= 57)
    ensures KeyStep(st, key, "*", eng).expr == st.expr + "×"
    ensures KeyStep(st, key, "/", eng).expr == st.expr + "÷"
  {
    assert "+-*/^%()"[2..][..1] == "*";
    SubstringAt("*", "+-*/^%()", 2);
    assert "+-*/^%()"[3..][..1] == "/";
    SubstringAt("/", "+-*/^%()", 3);
    NotInDigits("×");
    NotInDigits("÷");
  }

  /** The × button puts the ASCII sign into the expression. */
  lemma MultiplyButton(st: CalcState, eng: Engine)
    ensures ButtonStep(st, "×", eng).expr == st.expr + "*"
  {
    NonDigitButtonKeepsExpression(st, "×", eng);
    MultiplyAction();
    assert Perform(st, Append("*"), eng) == Appended(st, "*");
  }

  /** The ÷ button puts the ASCII sign into the expression. */
  lemma DivideButton(st: CalcState, eng: Engine)
    ensures ButtonStep(st, "÷", eng).expr == st.expr + "/"
  {
    NonDigitButtonKeepsExpression(st, "÷", eng);
    DivideAction();
    assert Perform(st, Append("/"), eng) == Appended(st, "/");
  }

  /** sin, cos and tan take their argument in degrees while the angle mode is
      DEG; the inverse functions never do. */
  lemma TrigButtonsFollowAngleMode(st: CalcState, f: string, eng: Engine)
    requires f in ["sin", "cos", "tan", "asin", "acos", "atan"]
    ensures var trig := f in ["sin", "cos", "tan"];
            ButtonStep(st, f, eng).expr ==
              st.expr + f + (if st.degMode && trig then "(radians(" else "(")
  {
    TrigAction(f);
    NonDigitButtonKeepsExpression(st, f, eng);
  }

  /** The rad and deg buttons set the angle mode and nothing else. */
  lemma ModeButtons(st: CalcState, on: bool, eng: Engine)
    ensures ButtonStep(st, if on then "deg" else "rad", eng) == st.(degMode := on)
  {
    var caption := if on then "deg" else "rad";
    ModeAction(on);
    NonDigitButtonKeepsExpression(st, caption, eng);
  }

  /** C empties the expression, both displays and the result flag but keeps the
      memory and the angle mode. */
  lemma ClearButton(st: CalcState, eng: Engine)
    ensures var r := ButtonStep(st, "C", eng);
            r.expr == "" && r.display == "" && r.history == "" && !r.hasResult
            && r.memory == st.memory && r.degMode == st.degMode
  {
    NonDigitButtonKeepsExpression(st, "C", eng);
    ClearAction();
  }

  /** CE is C without clearing the history. */
  lemma ClearEntryButton(st: CalcState, eng: Engine)
    ensures var r := ButtonStep(st, "CE", eng);
            r.expr == "" && r.display == "" && r.history == st.history && !r.hasResult
            && r.memory == st.memory && r.degMode == st.degMode
  {
    NonDigitButtonKeepsExpression(st, "CE", eng);
    ClearEntryAction();
  }

  /** MC zeroes the memory and changes nothing else. */
  lemma MemoryClearButton(st: CalcState, eng: Engine)
    ensures ButtonStep(st, "MC", eng) == st.(memory := 0.0)
  {
    NonDigitButtonKeepsExpression(st, "MC", eng);
    MemoryClearAction();
  }

  /** MS, M+, M- and % do nothing while the expression is empty. */
  lemma EmptyExpressionActions(st: CalcState, a: Action, eng: Engine)
    requires a.MemoryStore? || a.MemoryAdd? || a.MemorySubtract? || a.Percentage?
    requires st.expr == ""
    ensures Perform(st, a, eng) == st
  {
  }

  /** ⌫ removes the last character typed, and leaves an empty expression empty. */
  lemma BackspaceUndoesAppend(st: CalcState, c: char, eng: Engine)
    ensures ButtonStep(Appended(st, [c]), "⌫", eng).expr == st.expr
    ensures st.expr == "" ==> ButtonStep(st, "⌫", eng).expr == ""
  {
    BackspaceAction();
    NonDigitButtonKeepsExpression(st, "⌫", eng);
    NonDigitButtonKeepsExpression(Appended(st, [c]), "⌫", eng);
    assert (st.expr + [c])[..|st.expr|] == st.expr;
  }

  // ---------------------------------------------------------------------------
  // The dialog

  class Calculator {
    var expr: string
    var hasResult: bool
    var memory: real
    var degMode: bool
    var display: string
    var history: string

    function State(): CalcState
      reads this
    {
      CalcState(expr, hasResult, memory, degMode, display, history)
    }

    constructor ()
      ensures State() == CalcState("", false, 0.0, true, "", "")
    {
      expr, hasResult, memory, degMode := "", false, 0.0, true;
      display, history := "", "";
    }

    method ToggleAngleMode()
      modifies this
      ensures State() == old(State()).(degMode := !old(degMode))
    {
      degMode := !degMode;
    }

    method AppendToExpression(token: string)
      modifies this
      ensures State() == Appended(old(State()), token)
    {
      expr := expr + token;
      display := expr;
    }

    method AppendFunction(name: string)
      modifies this
      ensures State() == Appended(old(State()), FunctionToken(name, old(degMode)))
    {
      if degMode && (name == "sin" || name == "cos" || name == "tan") {
        AppendToExpression(name + "(radians(");
      } else {
        AppendToExpression(name + "(");
      }
    }

    method Clear()
      modifies this
      ensures State() == Cleared(old(State()))
    {
      expr := "";
      display := "";
      history := "";
      hasResult := false;
    }

    method ClearEntry()
      modifies this
      ensures State() == EntryCleared(old(State()))
    {
      expr := "";
      display := "";
      hasResult := false;
    }

    method DeleteLast()
      modifies this
      ensures State() == Backspaced(old(State()))
    {
      if expr != "" {
        expr := expr[..|expr| - 1];
      }
      display := expr;
    }

    method Negate()
      modifies this
      ensures State() == Negated(old(State()))
    {
      if expr == "" || expr == "-" {
        expr := "-";
      } else {
        var m := TrailingNumber(expr);
        if m.Some? {
          var number := m.value.number;
          if m.value.prefix == "-" {
            expr := expr[..|expr| - |number| - 1] + number;
          } else {
            expr := expr[..|expr| - |number|] + "-" + number;
          }
        } else {
          expr := expr + "(-";
        }
      }
      display := expr;
    }

    method Calculate(eng: Engine)
      modifies this
      ensures State() == Calculated(old(State()), eng)
    {
      RewritesAreNeutral();
      var expression := ReplaceAll(expr, Rewrites);
      assert expression == Rewrite(expr);
      Conclude(expression, eng);
    }

    /** The guards and the evaluation, on the rewritten expression. */
    method Conclude(expression: string, eng: Engine)
      modifies this
      ensures State() == Outcome(old(State()), expression, eng)
    {
      var original := expr;
      if IsBlank(expression) {
        display := "0";
        expr := "0";
        history := original;
        return;
      }
      if Count(expression, '(') != Count(expression, ')') {
        display := "错误";
        history := ErrorNote("括号不匹配", original);
        expr := "";
        return;
      }
      match eng.evaluate(expression)
      case Raised(msg) =>
        display := "错误";
        history := ErrorNote(msg, original);
        expr := "";
      case Value(v) =>
        expr := v;
        display := v;
        hasResult := true;
        history := original;
    }

    /** `button_clicked`: the restart check, then the caption's action. */
    method ButtonClicked(caption: string, eng: Engine)
      modifies this
      ensures State() == ButtonStep(old(State()), caption, eng)
    {
      Restart(caption);
      PerformAction(ButtonAction(caption), eng);
    }

    /** The check both handlers run first: digits typed after a result start a
        new expression. */
    method Restart(text: string)
      modifies this
      ensures State() == Restarted(old(State()), text)
    {
      if hasResult && IsSubstring(text, Digits) {
        expr := "";
        hasResult := false;
      }
    }

    method PerformAction(a: Action, eng: Engine)
      modifies this
      ensures State() == Perform(old(State()), a, eng)
    {
      match a
      case Evaluate => Calculate(eng);
      case ClearAll => Clear();
      case ClearEntry => ClearEntry();
      case DeleteLast => DeleteLast();
      case Negate => Negate();
      case Append(t) => AppendToExpression(t);
      case AppendFunction(f) => AppendFunction(f);
      case SetDegrees(on) => degMode := on;
      case MemoryClear => memory := 0.0;
      case MemoryStore => MemoryUpdate(a, eng);
      case MemoryAdd => MemoryUpdate(a, eng);
      case MemorySubtract => MemoryUpdate(a, eng);
      case MemoryRecall =>
        expr := eng.show(memory);
        display := expr;
      case SecondFunction =>
      case Percentage =>
        if expr != "" {
          var t := eng.percent(expr);
          if t.Some? {
            expr := t.value;
            display := expr;
          }
        }
    }

    /** MS, M+ and M-: the expression's value is stored, added or subtracted;
        an empty expression or one `eval` rejects leaves the memory alone. */
    method MemoryUpdate(a: Action, eng: Engine)
      requires a.MemoryStore? || a.MemoryAdd? || a.MemorySubtract?
      modifies this
      ensures State() == Perform(old(State()), a, eng)
    {
      if expr != "" {
        var v := eng.toNumber(expr);
        if v.Some? {
          if a.MemoryStore? {
            memory := v.value;
          } else if a.MemoryAdd? {
            memory := memory + v.value;
          } else {
            memory := memory - v.value;
          }
        }
      }
    }

    method ProcessKeyInput(text: string)
      modifies this
      ensures State() == KeyInput(old(State()), text)
    {
      Restart(text);
      AppendToExpression(text);
    }

    method KeyPressEvent(key: int, text: string, eng: Engine)
      modifies this
      ensures State() == KeyStep(old(State()), key, text, eng)
    {
      if 48 <= key <= 57 {
        ProcessKeyInput(text);
      } else if IsSubstring(text, "+-*/^%()") {
        if text == "*" {
          ProcessKeyInput("×");
        } else if text == "/" {
          ProcessKeyInput("÷");
        } else {
          ProcessKeyInput(text);
        }
      } else if text == "." {
        ProcessKeyInput(".");
      } else if key == KeyReturn || key == KeyEnter || key == KeyEqual {
        Calculate(eng);
      } else if key == KeyBackspace {
        DeleteLast();
      } else if key == KeyEscape {
        Clear();
      } else if key == KeyDelete {
        ClearEntry();
      } else if text == "s" {
        AppendFunction("sin");
      } else if text == "c" {
        AppendFunction("cos");
      } else if text == "t" {
        AppendFunction("tan");
      } else if text == "l" {
        AppendToExpression("log10(");
      } else if text == "n" {
        AppendToExpression("log(");
      } else if text == "q" {
        AppendToExpression("sqrt(");
      } else if text == "p" {
        AppendToExpression("pi");
      } else if text == "e" {
        AppendToExpression("e");
      }
    }
  }
}
