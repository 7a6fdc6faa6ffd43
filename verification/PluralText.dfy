/** The texts that the plural parser accepts: the formulas of the manual, and what it takes besides. */
module PluralText {
  import opened Characters
  import opened PluralForm
  import opened Wrappers

  /** A text with all its blanks and parentheses. The first six forms are those of the C language.
      The parser also takes for an operand nothing at all and a number with a sign of its own. The last
      three, and what begins with '!' and ends in one of them, are broken: the parser finds no function
      there, but reads on behind them. They are the end of the text, a group that is not closed, and a
      choice without its colon. */
  datatype Text =
    | TIdentity
    | TNumber(digits: string)
    | TParens(w1: string, inner: Text, w2: string)
    | TNot(w1: string, arg: Text)
    | TBinary(left: Text, w1: string, op: Operator, w2: string, right: Text)
    | TChoice(cond: Text, w1: string, w2: string, val: Text, w3: string, w4: string, alt: Text)
    | TMissing
    | TSigned(minus: bool, digits: string)
    | TNothing
    | TOpen(w1: string, inner: Text)
    | TNoColon(cond: Text, w1: string, w2: string, val: Text)

  const TOP_LEVEL := 7

  function LevelOf(op: Operator): (level: nat)
    ensures 1 <= level <= LEVELS
  {
    match op
    case Mul => 1 case Div => 1 case Mod => 1
    case Add => 2 case Sub => 2
    case Le => 3 case Ge => 3 case Lt => 3 case Gt => 3
    case Eq => 4 case Ne => 4
    case And => 5
    case Or => 6
  }

  predicate Blank(w: string) {
    forall i :: 0 <= i < |w| ==> Space(w[i])
  }

  /** The text is a formula that stands where an expression of the level may: operators associate to
      the left and bind as in C, a choice associates to the right. */
  predicate Fits(level: nat, t: Text)
    decreases t
  {
    match t
    case TIdentity => true
    case TNumber(digits) => digits != "" && forall i :: 0 <= i < |digits| ==> Digit(digits[i])
    case TParens(w1, inner, w2) => Blank(w1) && Blank(w2) && Fits(TOP_LEVEL, inner)
    case TNot(w1, arg) => Blank(w1) && Fits(0, arg)
    case TBinary(left, w1, op, w2, right) =>
      Blank(w1) && Blank(w2) && LevelOf(op) <= level && Fits(LevelOf(op), left) && Fits(LevelOf(op) - 1, right)
    case TChoice(cond, w1, w2, val, w3, w4, alt) =>
      Blank(w1) && Blank(w2) && Blank(w3) && Blank(w4) && level >= TOP_LEVEL &&
      Fits(LEVELS, cond) && Fits(TOP_LEVEL, val) && Fits(TOP_LEVEL, alt)
    case _ => false
  }

  /** The parser finds no function in the text. */
  predicate Broken(t: Text) {
    match t
    case TNothing => true
    case TOpen(_, _) => true
    case TNoColon(_, _, _, _) => true
    case TNot(_, arg) => Broken(arg)
    case _ => false
  }

  /** No blanks stand before the end of the text. */
  predicate Snug(w: string, t: Text) {
    Blank(w) && (t.TNothing? ==> w == "")
  }

  /** The text stands where the parser may read an expression of the level. Only the branches of a
      choice, and what is itself broken, may have broken parts. */
  predicate Loose(level: nat, t: Text)
    decreases t
  {
    match t
    case TIdentity => true
    case TNumber(digits) => Fits(level, t)
    case TParens(w1, inner, w2) => Blank(w1) && Blank(w2) && Loose(TOP_LEVEL, inner) && !Broken(inner)
    case TNot(w1, arg) => Snug(w1, arg) && Loose(0, arg)
    case TBinary(left, w1, op, w2, right) =>
      Blank(w1) && Blank(w2) && LevelOf(op) <= level && Loose(LevelOf(op), left) && Loose(LevelOf(op) - 1, right) &&
      !Broken(left) && !Broken(right)
    case TChoice(cond, w1, w2, val, w3, w4, alt) =>
      Blank(w1) && Snug(w2, val) && Blank(w3) && Snug(w4, alt) && level >= TOP_LEVEL &&
      Loose(LEVELS, cond) && Loose(TOP_LEVEL, val) && Loose(TOP_LEVEL, alt) && !Broken(cond)
    case TMissing => true
    case TSigned(_, digits) => Fits(level, TNumber(digits))
    case TNothing => true
    case TOpen(w1, inner) => Snug(w1, inner) && Loose(TOP_LEVEL, inner)
    case TNoColon(cond, w1, w2, val) =>
      Blank(w1) && Snug(w2, val) && level >= TOP_LEVEL && Loose(LEVELS, cond) && !Broken(cond) && Loose(TOP_LEVEL, val)
  }

  function Flatten(t: Text): string {
    match t
    case TIdentity => "n"
    case TNumber(digits) => digits
    case TParens(w1, inner, w2) => "(" + (w1 + (Flatten(inner) + (w2 + ")")))
    case TNot(w1, arg) => "!" + (w1 + Flatten(arg))
    case TBinary(left, w1, op, w2, right) => Flatten(left) + (w1 + (Pattern(op) + (w2 + Flatten(right))))
    case TChoice(cond, w1, w2, val, w3, w4, alt) =>
      Flatten(cond) + (w1 + ("?" + (w2 + (Flatten(val) + (w3 + (":" + (w4 + Flatten(alt))))))))
    case TMissing => ""
    case TSigned(minus, digits) => [if minus then '-' else '+'] + digits
    case TNothing => ""
    case TOpen(w1, inner) => "(" + (w1 + Flatten(inner))
    case TNoColon(cond, w1, w2, val) => Flatten(cond) + (w1 + ("?" + (w2 + Flatten(val))))
  }

  function NumberOf(digits: string, minus: bool): Num {
    if !(forall i :: 0 <= i < |digits| ==> Digit(digits[i])) then 0
    else SignedValue(DecimalValue(digits), minus)
  }

  /** What the text is worth for `n`, by the rules of C for unsigned numbers; dividing by 0 gives 0, and
      so does a missing operand. */
  function Meaning(t: Text, n: Num): Num {
    match t
    case TIdentity => n
    case TNumber(digits) => NumberOf(digits, false)
    case TParens(_, inner, _) => Meaning(inner, n)
    case TNot(_, arg) => if Meaning(arg, n) == 0 then 1 else 0
    case TBinary(left, _, op, _, right) =>
      if op.And? then (if Meaning(left, n) == 0 then 0 else Truth(Meaning(right, n) != 0))
      else if op.Or? then (if Meaning(left, n) != 0 then 1 else Truth(Meaning(right, n) != 0))
      else Apply(op, Meaning(left, n), Meaning(right, n))
    case TChoice(cond, _, _, val, _, _, alt) => if Meaning(cond, n) != 0 then Meaning(val, n) else Meaning(alt, n)
    case TSigned(minus, digits) => NumberOf(digits, minus)
    case _ => 0
  }

  /** An operator is worth what C makes of its operands, a choice the branch that its condition says. */
  lemma MeaningIsC(t: Text, n: Num)
    ensures t.TBinary? ==> IsValueOf(t.op, Meaning(t.left, n), Meaning(t.right, n), Meaning(t, n))
    ensures t.TNot? ==> IsOne(Meaning(t, n), Meaning(t.arg, n) == 0)
    ensures t.TChoice? ==> Meaning(t, n) == if Meaning(t.cond, n) > 0 then Meaning(t.val, n) else Meaning(t.alt, n)
  {
    if t.TBinary? {
      ApplyIsC(t.op, Meaning(t.left, n), Meaning(t.right, n));
    }
  }

  /** Evaluating the text for `n` comes to a broken branch. Both operands are always evaluated, of a
      choice one branch. */
  predicate Reaches(t: Text, n: Num) {
    match t
    case TParens(_, inner, _) => Reaches(inner, n)
    case TNot(_, arg) => Reaches(arg, n)
    case TBinary(left, _, _, _, right) => Reaches(left, n) || Reaches(right, n)
    case TChoice(cond, _, _, val, _, _, alt) =>
      Reaches(cond, n) || if Meaning(cond, n) != 0 then Broken(val) || Reaches(val, n) else Broken(alt) || Reaches(alt, n)
    case _ => false
  }

  /** The function that a text stands for; a broken branch is missing. */
  function Denoted(t: Text): Fn {
    match t
    case TIdentity => Identity
    case TNumber(digits) => Const(NumberOf(digits, false))
    case TParens(_, inner, _) => Denoted(inner)
    case TNot(_, arg) => Not(Denoted(arg))
    case TBinary(left, _, op, _, right) => Binary(op, Denoted(left), Denoted(right))
    case TChoice(cond, _, _, val, _, _, alt) =>
      Choice(Denoted(cond), if Broken(val) then None else Some(Denoted(val)), if Broken(alt) then None else Some(Denoted(alt)))
    case TSigned(minus, digits) => Const(NumberOf(digits, minus))
    case _ => Const(0)
  }

  function Outcome(t: Text): Option<Fn> {
    if Broken(t) then None else Some(Denoted(t))
  }

  /** Evaluating the function fails exactly when it comes to a broken branch; otherwise it computes the
      meaning of the text. */
  lemma {:induction false} DenotedMeans(t: Text, n: Num)
    ensures Eval(Denoted(t), n) == if Reaches(t, n) then None else Some(Meaning(t, n))
  {
    match t
    case TParens(_, inner, _) => DenotedMeans(inner, n);
    case TNot(_, arg) => DenotedMeans(arg, n);
    case TBinary(left, _, _, _, right) => DenotedMeans(left, n); DenotedMeans(right, n);
    case TChoice(cond, _, _, val, _, _, alt) => DenotedMeans(cond, n); DenotedMeans(val, n); DenotedMeans(alt, n);
    case _ =>
  }

  /** A formula never fails. */
  lemma {:induction false} FormulaIsWhole(t: Text, level: nat, n: Num)
    requires Fits(level, t)
    ensures !Broken(t) && !Reaches(t, n)
  {
    match t
    case TIdentity =>
    case TNumber(_) =>
    case TParens(_, inner, _) => FormulaIsWhole(inner, TOP_LEVEL, n);
    case TNot(_, arg) => FormulaIsWhole(arg, 0, n);
    case TBinary(left, _, op, _, right) => FormulaIsWhole(left, LevelOf(op), n); FormulaIsWhole(right, LevelOf(op) - 1, n);
    case TChoice(cond, _, _, val, _, _, alt) =>
      FormulaIsWhole(cond, LEVELS, n);
      FormulaIsWhole(val, TOP_LEVEL, n);
      FormulaIsWhole(alt, TOP_LEVEL, n);
  }

  /** The function of a formula lacks no branch, and so it can be printed. */
  lemma {:induction false} FormulaIsComplete(t: Text, level: nat)
    requires Fits(level, t)
    ensures Complete(Denoted(t))
  {
    match t
    case TParens(_, inner, _) => FormulaIsComplete(inner, TOP_LEVEL);
    case TNot(_, arg) => FormulaIsComplete(arg, 0);
    case TBinary(left, _, op, _, right) => FormulaIsComplete(left, LevelOf(op)); FormulaIsComplete(right, LevelOf(op) - 1);
    case TChoice(cond, _, _, val, _, _, alt) =>
      FormulaIsComplete(cond, LEVELS);
      FormulaIsComplete(val, TOP_LEVEL);
      FormulaIsComplete(alt, TOP_LEVEL);
      FormulaIsWhole(val, TOP_LEVEL, 0);
      FormulaIsWhole(alt, TOP_LEVEL, 0);
    case _ =>
  }

  // ----- trimming -----

  predicate Trimmed(s: string) {
    s == "" || (!Space(s[0]) && !Space(s[|s| - 1]))
  }

  lemma {:induction false} TrimBlank(w: string, s: string)
    requires Blank(w) && Trimmed(s) && (s == "" ==> w == "")
    ensures Trim(w + s) == s
  {
    if w == "" {
      assert w + s == s;
    } else {
      assert (w + s)[1..] == w[1..] + s;
      if s == "" {
        assert false;
      }
      TrimBlank(w[1..], s);
    }
  }

  // ----- what may follow -----

  /** How tightly the operator that starts with this character binds; 0 if none does, 8 for what ends
      an operand. */
  function Class(c: char): nat {
    if c == '*' || c == '/' || c == '%' then 1
    else if c == '+' || c == '-' then 2
    else if c == '<' || c == '>' then 3
    else if c == '=' || c == '!' then 4
    else if c == '&' then 5
    else if c == '|' then 6
    else if c == '?' then 7
    else if c == ')' || c == ':' then 8
    else 0
  }

  /** No expression of the level goes on here. */
  predicate Stops(level: nat, y: string) {
    y == "" || Class(y[0]) > level
  }

  lemma PatternClass(op: Operator)
    ensures Pattern(op) != "" && Class(Pattern(op)[0]) == LevelOf(op) && !Space(Pattern(op)[0])
  {
  }

  predicate EndsInked(s: string) {
    s != "" && !Space(s[|s| - 1])
  }

  lemma Joined(a: string, b: string)
    requires EndsInked(b)
    ensures EndsInked(a + b) && (a != "" ==> (a + b)[0] == a[0])
  {
    assert a == "" ==> a + b == b;
    assert (a + b)[|a + b| - 1] == b[|b| - 1];
  }

  /** Blanks `w` and then `y`, the rest of the text. */
  predicate Tail(w: string, y: string) {
    Blank(w) && Trimmed(y) && (y == "" ==> w == "")
  }

  /** What may follow a text of the level: no expression goes on there. */
  predicate Follows(level: nat, w: string, y: string) {
    Tail(w, y) && Stops(level, y)
  }

  /** An operand may be missing before a closing sign or an operator, but not before "!=", nor before a
      sign with digits, which are read as a negation and as a number. */
  predicate MayMiss(y: string) {
    y != "" && Class(y[0]) > 0 && y[0] != '!' && (Class(y[0]) == 2 && |y| > 1 ==> !Digit(y[1]))
  }

  /** '<' or '>' is not read as a longer operator. */
  predicate StaysShort(op: Operator, rest: string) {
    (op.Lt? || op.Gt?) && rest != "" ==> rest[0] != '='
  }

  /** Followed by blanks `w` and then `y`, the text is read as it is written. */
  predicate Stands(t: Text, w: string, y: string)
    decreases t
  {
    match t
    case TParens(w1, inner, w2) => Stands(inner, w2, ")" + (w + y))
    case TNot(w1, arg) => Stands(arg, w, y)
    case TBinary(left, w1, op, w2, right) =>
      var x := w2 + (Flatten(right) + (w + y));
      Stands(left, w1, Pattern(op) + x) && Stands(right, w, y) && StaysShort(op, x)
    case TChoice(cond, w1, w2, val, w3, w4, alt) =>
      var colon := ":" + (w4 + (Flatten(alt) + (w + y)));
      Stands(cond, w1, "?" + (w2 + (Flatten(val) + (w3 + colon)))) && Stands(val, w3, colon) && Stands(alt, w, y)
    case TMissing => w == "" && MayMiss(y)
    case TNothing => w == "" && y == ""
    case TOpen(_, inner) => Stands(inner, w, y) && (Broken(inner) || y == "" || y[0] != ')')
    case TNoColon(cond, w1, w2, val) =>
      Stands(cond, w1, "?" + (w2 + (Flatten(val) + (w + y)))) && Stands(val, w, y) && (y == "" || y[0] != ':')
    case _ => true
  }

  lemma Append3(a: string, b: string, c: string, z: string)
    ensures (a + (b + c)) + z == a + (b + (c + z))
  {
    assert (a + (b + c)) + z == a + ((b + c) + z);
    assert (b + c) + z == b + (c + z);
  }

  lemma Append5(a: string, b: string, c: string, d: string, e: string, z: string)
    ensures (a + (b + (c + (d + e)))) + z == a + (b + (c + (d + (e + z))))
  {
    Append3(a, b, c + (d + e), z);
    Append3(c, d, e, z);
  }

  lemma NoChoiceText(cond: string, w1: string, w2: string, val: string, z: string)
    ensures (cond + (w1 + ("?" + (w2 + val)))) + z == cond + (w1 + ("?" + (w2 + (val + z))))
  {
    Append5(cond, w1, "?", w2, val, z);
  }

  /** A sign, blanks and a text without blanks around it. */
  lemma SignJoins(c: char, w: string, x: string)
    requires !Space(c) && Tail(w, x)
    ensures Trimmed([c] + (w + x)) && ([c] + (w + x))[0] == c && ([c] + (w + x))[1..] == w + x && Trim(w + x) == x
  {
    TrimBlank(w, x);
    if x != "" {
      Joined(w, x);
      Joined([c], w + x);
    }
  }

  lemma PatternJoins(op: Operator, w: string, x: string)
    requires Tail(w, x)
    ensures Trimmed(Pattern(op) + (w + x)) && Pattern(op) + (w + x) != "" && Class((Pattern(op) + (w + x))[0]) == LevelOf(op)
  {
    PatternClass(op);
    if x != "" {
      Joined(w, x);
      Joined(Pattern(op), w + x);
    } else {
      assert Pattern(op) + (w + x) == Pattern(op);
      PatternEnds(op);
    }
  }

  lemma PatternEnds(op: Operator)
    ensures EndsInked(Pattern(op))
  {
  }

  /** A text that stands has no blanks around it, and only the end of the text is empty. */
  lemma {:induction false} TextTrimmed(level: nat, t: Text, w: string, y: string)
    requires Loose(level, t) && Stands(t, w, y) && Tail(w, y)
    ensures var s := Flatten(t) + (w + y); Trimmed(s) && (s == "" ==> t.TNothing?)
    decreases t
  {
    match t
    case TIdentity => SignJoins('n', w, y); assert "n" == ['n'];
    case TNumber(digits) => DigitsTrimmed(digits, w, y);
    case TParens(w1, inner, w2) =>
      ParensTrimmed(t, w, y);
    case TNot(w1, arg) =>
      NotTrimmed(t, w, y);
    case TBinary(left, w1, op, w2, right) =>
      BinaryTrimmed(t, w, y);
    case TChoice(cond, w1, w2, val, w3, w4, alt) =>
      ChoiceTrimmed(t, w, y);
    case TMissing => assert "" + ("" + y) == y;
    case TSigned(minus, digits) => SignedTrimmed(minus, digits, w, y);
    case TNothing =>
    case TOpen(w1, inner) =>
      OpenTrimmed(t, w, y);
    case TNoColon(cond, w1, w2, val) =>
      NoColonTrimmed(t, w, y);
  }

  lemma {:induction false} NotTrimmed(t: Text, w: string, y: string)
    requires t.TNot? && Loose(0, t) && Stands(t, w, y) && Tail(w, y)
    ensures var s := Flatten(t) + (w + y); Trimmed(s) && s != ""
    decreases t, 0
  {
    TextTrimmed(0, t.arg, w, y);
    SignJoins('!', t.w1, Flatten(t.arg) + (w + y));
    assert ['!'] == "!";
    Append3("!", t.w1, Flatten(t.arg), w + y);
  }

  lemma {:induction false} OpenTrimmed(t: Text, w: string, y: string)
    requires t.TOpen? && Loose(0, t) && Stands(t, w, y) && Tail(w, y)
    ensures var s := Flatten(t) + (w + y); Trimmed(s) && s != ""
    decreases t, 0
  {
    TextTrimmed(TOP_LEVEL, t.inner, w, y);
    SignJoins('(', t.w1, Flatten(t.inner) + (w + y));
    assert ['('] == "(";
    Append3("(", t.w1, Flatten(t.inner), w + y);
  }

  lemma {:induction false} ParensTrimmed(t: Text, w: string, y: string)
    requires t.TParens? && Loose(0, t) && Stands(t, w, y) && Tail(w, y)
    ensures var s := Flatten(t) + (w + y); Trimmed(s) && s != ""
    decreases t, 0
  {
    SignJoins(')', w, y);
    assert [')'] == ")" && ['('] == "(";
    TextTrimmed(TOP_LEVEL, t.inner, t.w2, ")" + (w + y));
    SignJoins('(', t.w1, Flatten(t.inner) + (t.w2 + (")" + (w + y))));
    Append5("(", t.w1, Flatten(t.inner), t.w2, ")", w + y);
  }

  lemma {:induction false} BinaryTrimmed(t: Text, w: string, y: string)
    requires t.TBinary? && Loose(LevelOf(t.op), t) && Stands(t, w, y) && Tail(w, y)
    ensures var s := Flatten(t) + (w + y); Trimmed(s) && s != ""
    decreases t, 0
  {
    TextTrimmed(LevelOf(t.op) - 1, t.right, w, y);
    PatternJoins(t.op, t.w2, Flatten(t.right) + (w + y));
    TextTrimmed(LevelOf(t.op), t.left, t.w1, Pattern(t.op) + (t.w2 + (Flatten(t.right) + (w + y))));
    Append5(Flatten(t.left), t.w1, Pattern(t.op), t.w2, Flatten(t.right), w + y);
  }

  lemma {:induction false} NoColonTrimmed(t: Text, w: string, y: string)
    requires t.TNoColon? && Loose(TOP_LEVEL, t) && Stands(t, w, y) && Tail(w, y)
    ensures var s := Flatten(t) + (w + y); Trimmed(s) && s != ""
    decreases t, 0
  {
    TextTrimmed(TOP_LEVEL, t.val, w, y);
    SignJoins('?', t.w2, Flatten(t.val) + (w + y));
    assert ['?'] == "?";
    TextTrimmed(LEVELS, t.cond, t.w1, "?" + (t.w2 + (Flatten(t.val) + (w + y))));
    NoChoiceText(Flatten(t.cond), t.w1, t.w2, Flatten(t.val), w + y);
  }

  lemma {:induction false} ChoiceTrimmed(t: Text, w: string, y: string)
    requires t.TChoice? && Loose(TOP_LEVEL, t) && Stands(t, w, y) && Tail(w, y)
    ensures var s := Flatten(t) + (w + y); Trimmed(s) && s != ""
    decreases t, 0
  {
    var alt := Flatten(t.alt) + (w + y);
    var colon := ":" + (t.w4 + alt);
    var val := Flatten(t.val) + (t.w3 + colon);
    assert [':'] == ":" && ['?'] == "?";
    ChoiceText(t, w + y);
    hide Flatten, Trimmed, Trim, Fits;
    TextTrimmed(TOP_LEVEL, t.alt, w, y);
    SignJoins(':', t.w4, alt);
    TextTrimmed(TOP_LEVEL, t.val, t.w3, colon);
    SignJoins('?', t.w2, val);
    TextTrimmed(LEVELS, t.cond, t.w1, "?" + (t.w2 + val));
  }

  lemma DigitsTrimmed(digits: string, w: string, y: string)
    requires Fits(0, TNumber(digits)) && Tail(w, y)
    ensures var s := digits + (w + y); Trimmed(s) && s != ""
  {
    assert Digit(digits[0]) && Digit(digits[|digits| - 1]);
    if y != "" {
      Joined(w, y);
      Joined(digits, w + y);
    } else {
      assert digits + (w + y) == digits;
    }
  }

  lemma SignedTrimmed(minus: bool, digits: string, w: string, y: string)
    requires Fits(0, TNumber(digits)) && Tail(w, y)
    ensures var s := ([if minus then '-' else '+'] + digits) + (w + y); Trimmed(s) && s != ""
  {
    var c := if minus then '-' else '+';
    assert !Space(c);
    hide *;
    DigitsTrimmed(digits, w, y);
    CharacterJoins(c, digits + (w + y));
    Associates([c], digits, w + y);
  }

  lemma Associates(a: string, b: string, c: string)
    ensures (a + b) + c == a + (b + c)
  {
  }

  lemma CharacterJoins(c: char, s: string)
    requires !Space(c) && Trimmed(s)
    ensures Trimmed([c] + s) && [c] + s != ""
  {
    assert s != "" ==> ([c] + s)[|s|] == s[|s| - 1];
  }

  lemma TextTrims(w1: string, level: nat, t: Text, w: string, y: string)
    requires Snug(w1, t) && Loose(level, t) && Stands(t, w, y) && Tail(w, y)
    ensures var s := Flatten(t) + (w + y); Trim(w1 + s) == s && Trimmed(s) && (s == "" ==> t.TNothing?) && Tail(w1, s)
  {
    TextTrimmed(level, t, w, y);
    TrimBlank(w1, Flatten(t) + (w + y));
    hide Flatten, Trim, Trimmed;
  }

  /** Where the parts of a choice stand. */
  lemma ChoiceText(t: Text, z: string)
    requires t.TChoice?
    ensures Flatten(t) + z ==
            Flatten(t.cond) + (t.w1 + ("?" + (t.w2 + (Flatten(t.val) + (t.w3 + (":" + (t.w4 + (Flatten(t.alt) + z))))))))
  {
    var c, w1, w2, v, w3, w4, a := Flatten(t.cond), t.w1, t.w2, Flatten(t.val), t.w3, t.w4, Flatten(t.alt);
    assert Flatten(t) == c + (w1 + ("?" + (w2 + (v + (w3 + (":" + (w4 + a)))))));
    hide Flatten;
    Append5(c, w1, "?", w2, v + (w3 + (":" + (w4 + a))), z);
    Append5(v, w3, ":", w4, a, z);
  }

  // ----- texts are parsed to what they denote -----

  function ParseAt(level: nat, s: string): Result
    requires level <= TOP_LEVEL
  {
    if level == TOP_LEVEL then ParseTernary(s) else ParseLevel(level, s)
  }

  lemma {:induction false} DigitRun(digits: string, rest: string)
    requires (forall i :: 0 <= i < |digits| ==> Digit(digits[i])) && (rest == "" || !Digit(rest[0]))
    ensures DigitCount(digits + rest) == |digits|
  {
    if digits == "" {
      assert digits + rest == rest;
    } else {
      assert (digits + rest)[1..] == digits[1..] + rest;
      DigitRun(digits[1..], rest);
    }
  }

  lemma NumberParses(digits: string, w: string, y: string)
    requires Fits(0, TNumber(digits)) && Follows(0, w, y)
    ensures ParseLevel(0, digits + (w + y)) == Result(Some(Denoted(TNumber(digits))), y)
  {
    var rest := w + y;
    var s := digits + rest;
    assert Digit(digits[0]) && s[0] == digits[0] && s[|digits|..] == rest;
    assert s[0] != 'n' && s[0] != '!' && s[0] != '(' && Tail(w, y);
    hide *;
    NoDigitFollows(w, y);
    PlainRead(digits, rest);
    TrimBlank(w, y);
    AtomicNumber(s);
    AtomicParses(s);
    DenotesNumber(false, digits);
  }

  lemma PlainRead(digits: string, rest: string)
    requires Fits(0, TNumber(digits)) && (rest == "" || !Digit(rest[0]))
    ensures ReadNumber(digits + rest) == (NumberOf(digits, false), |digits|)
  {
    var s := digits + rest;
    DigitRun(digits, rest);
    assert Digit(digits[0]) && s[0] == digits[0];
    assert s[0..] == s && s[..|digits|] == digits;
  }

  lemma NoDigitFollows(w: string, y: string)
    requires Follows(0, w, y)
    ensures w + y == "" || !Digit((w + y)[0])
  {
    if w == "" {
      assert w + y == y;
    }
  }

  lemma SignedParses(minus: bool, digits: string, w: string, y: string)
    requires Fits(0, TNumber(digits)) && Follows(0, w, y)
    ensures ParseLevel(0, ([if minus then '-' else '+'] + digits) + (w + y)) == Result(Some(Denoted(TSigned(minus, digits))), y)
  {
    var rest := w + y;
    var c := if minus then '-' else '+';
    var s := ([c] + digits) + rest;
    assert s[0] == c && s[1 + |digits|..] == rest;
    assert Tail(w, y);
    hide *;
    NoDigitFollows(w, y);
    SignedRead(minus, digits, rest);
    TrimBlank(w, y);
    AtomicNumber(s);
    AtomicParses(s);
    DenotesNumber(minus, digits);
  }

  lemma DenotesNumber(minus: bool, digits: string)
    ensures Denoted(TSigned(minus, digits)) == Const(NumberOf(digits, minus)) && Denoted(TNumber(digits)) == Const(NumberOf(digits, false))
  {
  }

  lemma AtomicNumber(s: string)
    requires s != "" && s[0] != 'n'
    ensures ParseAtomic(s) == Result(Some(Const(ReadNumber(s).0)), Trim(s[ReadNumber(s).1..]))
  {
    hide ReadNumber, Trim;
  }

  lemma SignedRead(minus: bool, digits: string, rest: string)
    requires Fits(0, TNumber(digits)) && (rest == "" || !Digit(rest[0]))
    ensures ReadNumber(([if minus then '-' else '+'] + digits) + rest) == (NumberOf(digits, minus), 1 + |digits|)
  {
    var s := ([if minus then '-' else '+'] + digits) + rest;
    DigitRun(digits, rest);
    assert s[1..] == digits + rest && (digits + rest)[..|digits|] == digits;
  }

  /** Where an operand may be missing, the parser reads a 0 and stays where it is. */
  lemma MissingParses(y: string)
    requires MayMiss(y) && Trimmed(y)
    ensures ParseLevel(0, y) == Result(Some(Const(0)), y)
  {
    var sign := if y[0] == '+' || y[0] == '-' then 1 else 0;
    assert DigitCount(y[sign..]) == 0;
    assert y[0..] == y;
    TrimKept(y);
    assert ParseAtomic(y) == Result(Some(Const(0)), y);
    AtomicParses(y);
  }

  lemma TrimKept(s: string)
    requires Trimmed(s)
    ensures Trim(s) == s
  {
    TrimBlank("", s);
    assert "" + s == s;
  }

  lemma AtomicParses(s: string)
    requires s != "" && s[0] != '!' && s[0] != '('
    ensures ParseLevel(0, s) == ParseAtomic(s)
  {
    assert ParseParenthesized(s) == ParseAtomic(s);
    assert ParseNegation(s) == ParseParenthesized(s);
  }

  /** When nothing of the level goes on, the loop over its operators ends. */
  lemma {:induction false} NothingToReduce(level: nat, i: nat, res: Result)
    requires 1 <= level <= LEVELS && res.first.Some? && i <= |Operators(level)| && Stops(level, res.second)
    ensures Reduce(level, i, res) == Result(None, res.second)
    decreases |Operators(level)| - i
  {
    if i < |Operators(level)| {
      var op := Operators(level)[i];
      OperatorsOfLevel(level, i);
      PatternClass(op);
      assert !StartsWith(res.second, Pattern(op));
      NothingToReduce(level, i + 1, res);
    }
  }

  /** An operator is taken in with the operand that follows it. */
  lemma OperatorReduces(level: nat, i: nat, f: Fn, w2: string, x: string, g: Fn, y: string)
    requires 1 <= level <= LEVELS && i < |Operators(level)|
    requires Tail(w2, x) && Trimmed(y)
    requires ParseLevel(level - 1, x) == Result(Some(g), y)
    ensures var op := Operators(level)[i];
            ReduceSingle(level, op, Result(Some(f), Pattern(op) + (w2 + x))) == Result(Some(Binary(op, f, g)), y)
  {
    var op := Operators(level)[i];
    var s := Pattern(op) + (w2 + x);
    assert s[..|Pattern(op)|] == Pattern(op) && s[|Pattern(op)|..] == w2 + x;
    TrimBlank(w2, x);
    TrimKept(y);
  }

  lemma ReduceSkips(level: nat, j: nat, res: Result)
    requires 1 <= level <= LEVELS && res.first.Some? && j < |Operators(level)|
    requires !StartsWith(res.second, Pattern(Operators(level)[j]))
    ensures Reduce(level, j, res) == Reduce(level, j + 1, res)
  {
    hide Operators, Pattern, ParseLevel;
  }

  lemma ReduceTakes(level: nat, j: nat, res: Result)
    requires 1 <= level <= LEVELS && res.first.Some? && j < |Operators(level)|
    requires ReduceSingle(level, Operators(level)[j], res).first.Some?
    ensures Reduce(level, j, res) == ReduceSingle(level, Operators(level)[j], res)
  {
    hide Operators, ReduceSingle;
  }

  /** Operators tried before the one that is there do not match. */
  lemma {:induction false} OperatorFound(level: nat, i: nat, j: nat, f: Fn, w2: string, x: string, g: Fn, y: string)
    requires 1 <= level <= LEVELS && j <= i < |Operators(level)|
    requires Tail(w2, x) && x != "" && StaysShort(Operators(level)[i], w2 + x) && Trimmed(y)
    requires ParseLevel(level - 1, x) == Result(Some(g), y)
    ensures var op := Operators(level)[i];
            Reduce(level, j, Result(Some(f), Pattern(op) + (w2 + x))) == Result(Some(Binary(op, f, g)), y)
    decreases i - j
  {
    hide *;
    var op := Operators(level)[i];
    var res := Result(Some(f), Pattern(op) + (w2 + x));
    if j == i {
      OperatorReduces(level, i, f, w2, x, g, y);
      ReduceTakes(level, i, res);
    } else {
      EarlierFails(level, i, j, w2 + x);
      ReduceSkips(level, j, res);
      OperatorFound(level, i, j + 1, f, w2, x, g, y);
    }
  }

  lemma EarlierFails(level: nat, i: nat, j: nat, tail: string)
    requires 1 <= level <= LEVELS && j < i < |Operators(level)| && tail != "" && StaysShort(Operators(level)[i], tail)
    ensures !StartsWith(Pattern(Operators(level)[i]) + tail, Pattern(Operators(level)[j]))
  {
    var p, q := Pattern(Operators(level)[i]), Pattern(Operators(level)[j]);
    assert (p + tail)[0] == p[0] && (|p| == 1 ==> (p + tail)[1] == tail[0]);
    FirstCharacters(p + tail, q);
  }

  lemma FirstCharacters(s: string, p: string)
    requires |p| > 0
    ensures StartsWith(s, p) ==> |s| >= |p| && s[0] == p[0] && (|p| > 1 ==> s[1] == p[1])
  {
    if StartsWith(s, p) {
      assert s[..|p|][0] == s[0] && (|p| > 1 ==> s[..|p|][1] == s[1]);
    }
  }

  lemma OperatorsOfLevel(level: nat, i: nat)
    requires 1 <= level <= LEVELS && i < |Operators(level)|
    ensures LevelOf(Operators(level)[i]) == level
  {
  }

  lemma HasPlace(op: Operator) returns (i: nat)
    ensures i < |Operators(LevelOf(op))| && Operators(LevelOf(op))[i] == op
  {
    i := match op case Div => 1 case Mod => 2 case Sub => 1 case Ge => 1 case Lt => 2 case Gt => 3 case Ne => 1 case _ => 0;
  }

  /** One more operand of a chain of operators. */
  lemma ChainGrows(op: Operator, f: Fn, w2: string, x: string, g: Fn, y: string)
    requires Tail(w2, x) && x != "" && StaysShort(op, w2 + x) && Trimmed(y)
    requires ParseLevel(LevelOf(op) - 1, x) == Result(Some(g), y)
    ensures ReduceAll(LevelOf(op), Result(Some(f), Pattern(op) + (w2 + x))) ==
            ReduceAll(LevelOf(op), Result(Some(Binary(op, f, g)), y))
  {
    var i := HasPlace(op);
    OperatorFound(LevelOf(op), i, 0, f, w2, x, g, y);
    PatternClass(op);
    TrimKept(y);
    hide Operators, Pattern, ParseLevel, LevelOf, StaysShort;
  }

  /** The chain of operators of one level in a text is parsed from left to right. */
  lemma {:induction false} ChainParses(level: nat, t: Text, w: string, y: string)
    requires 1 <= level <= LEVELS && Loose(level, t) && !Broken(t) && Stands(t, w, y) && Follows(level - 1, w, y)
    ensures ParseLevel(level, Flatten(t) + (w + y)) == ReduceAll(level, Result(Some(Denoted(t)), y))
    decreases t, 2 * level
  {
    hide Flatten, Pattern, Denoted, ReduceAll, Class, Follows, ParseLevel, Loose, Stands, Broken;
    if t.TBinary? && LevelOf(t.op) == level {
      LastOfChain(t, w, y);
    } else {
      LooseBelow(level, t);
      Parses(level - 1, t, w, y);
      OutcomeIs(t);
      OperandReduces(level, Flatten(t) + (w + y), Denoted(t), w, y);
    }
  }

  lemma OutcomeIs(t: Text)
    ensures !Broken(t) ==> Outcome(t) == Some(Denoted(t))
    ensures Broken(t) ==> Outcome(t) == None
  {
  }

  /** The first operand of a chain is read one level below. */
  lemma OperandReduces(level: nat, s: string, e: Fn, w: string, y: string)
    requires 1 <= level <= LEVELS && Follows(level - 1, w, y) && ParseLevel(level - 1, s) == Result(Some(e), y)
    ensures ParseLevel(level, s) == ReduceAll(level, Result(Some(e), y))
  {
    TrimKept(y);
    hide ReduceAll;
  }

  lemma {:induction false} LastOfChain(t: Text, w: string, y: string)
    requires t.TBinary? && Loose(LevelOf(t.op), t) && Stands(t, w, y) && Follows(LevelOf(t.op) - 1, w, y)
    ensures ParseLevel(LevelOf(t.op), Flatten(t) + (w + y)) == ReduceAll(LevelOf(t.op), Result(Some(Denoted(t)), y))
    decreases t, 0
  {
    hide Flatten, Loose, Stands, Broken, Denoted, ParseLevel, ReduceAll, Pattern, Class, LevelOf, Stops;
    var level, x := LevelOf(t.op), Flatten(t.right) + (w + y);
    var y1 := Pattern(t.op) + (t.w2 + x);
    ChainText(t, w, y);
    BinaryFits(t, w, y);
    assert Tail(w, y) && Trimmed(y) && level - 1 <= TOP_LEVEL && LEVELS <= TOP_LEVEL;
    AtLevel(level - 1, x);
    hide *;
    TextTrims(t.w2, level - 1, t.right, w, y);
    PatternJoins(t.op, t.w2, x);
    PatternFollows(t.op, t.w1, y1);
    Parses(level - 1, t.right, w, y);
    ChainParses(level, t.left, t.w1, y1);
    ChainGrows(t.op, Denoted(t.left), t.w2, x, Denoted(t.right), y);
  }

  lemma BinaryFits(t: Text, w: string, y: string)
    requires t.TBinary? && Loose(LevelOf(t.op), t) && Stands(t, w, y)
    ensures Denoted(t) == Binary(t.op, Denoted(t.left), Denoted(t.right)) && Outcome(t.right) == Some(Denoted(t.right))
    ensures Blank(t.w1) && Snug(t.w2, t.right) && !Broken(t.left) && !Broken(t.right) && !t.right.TNothing?
    ensures Loose(LevelOf(t.op), t.left) && Loose(LevelOf(t.op) - 1, t.right)
    ensures var x := t.w2 + (Flatten(t.right) + (w + y));
            Stands(t.left, t.w1, Pattern(t.op) + x) && Stands(t.right, w, y) && StaysShort(t.op, x)
  {
    hide Blank, StaysShort, Flatten, Pattern;
  }

  lemma PatternFollows(op: Operator, w: string, y: string)
    requires Blank(w) && Trimmed(y) && y != "" && Class(y[0]) == LevelOf(op)
    ensures Follows(LevelOf(op) - 1, w, y)
  {
  }

  lemma AtLevel(level: nat, s: string)
    requires level <= LEVELS
    ensures ParseAt(level, s) == ParseLevel(level, s)
  {
  }

  /** Where the last operator of a chain stands. */
  lemma ChainText(t: Text, w: string, y: string)
    requires t.TBinary?
    ensures Flatten(t) + (w + y) == Flatten(t.left) + (t.w1 + (Pattern(t.op) + (t.w2 + (Flatten(t.right) + (w + y)))))
  {
    Append5(Flatten(t.left), t.w1, Pattern(t.op), t.w2, Flatten(t.right), w + y);
    assert Flatten(t) == Flatten(t.left) + (t.w1 + (Pattern(t.op) + (t.w2 + Flatten(t.right))));
    hide Flatten, Pattern;
  }

  lemma LooseBelow(level: nat, t: Text)
    requires 1 <= level <= TOP_LEVEL && Loose(level, t) && (t.TBinary? ==> LevelOf(t.op) != level)
    requires t.TChoice? || t.TNoColon? ==> level < TOP_LEVEL
    ensures Loose(level - 1, t)
  {
  }

  /** A text, with whatever may follow it, is parsed to what it denotes, or to no function if it is
      broken; the rest of the text is left. */
  lemma {:induction false} Parses(level: nat, t: Text, w: string, y: string)
    requires level <= TOP_LEVEL && Loose(level, t) && Stands(t, w, y) && Follows(level, w, y)
    requires Broken(t) ==> Stops(TOP_LEVEL, y)
    ensures ParseAt(level, Flatten(t) + (w + y)) == Result(Outcome(t), y)
    decreases t, 2 * level + 1
  {
    if level == TOP_LEVEL {
      TopParses(t, w, y);
    } else if level > 0 {
      hide Loose, Stands, Flatten, Denoted, Class, ParseNegation;
      if Broken(t) {
        LooseBelow(level, t);
        Parses(level - 1, t, w, y);
      } else {
        ChainParses(level, t, w, y);
        NothingToReduce(level, 0, Result(Some(Denoted(t)), y));
      }
    } else {
      OperandParses(t, w, y);
    }
  }

  lemma {:induction false} OperandParses(t: Text, w: string, y: string)
    requires Loose(0, t) && Stands(t, w, y) && Follows(0, w, y) && (Broken(t) ==> Stops(TOP_LEVEL, y))
    ensures ParseLevel(0, Flatten(t) + (w + y)) == Result(Outcome(t), y)
    decreases t, 0
  {
    match t
    case TIdentity => IdentityParses(w, y);
    case TNumber(digits) => NumberParses(digits, w, y);
    case TParens(_, _, _) => ParensParse(t, w, y);
    case TNot(_, _) => NotParses(t, w, y);
    case TMissing =>
      assert "" + (w + y) == y;
      MissingParses(y);
    case TSigned(minus, digits) => SignedParses(minus, digits, w, y);
    case TNothing => assert "" + (w + y) == "" && ParseNegation("") == Result(None, "");
    case TOpen(_, _) => OpenParses(t, w, y);
  }

  lemma IdentityParses(w: string, y: string)
    requires Follows(0, w, y)
    ensures ParseLevel(0, "n" + (w + y)) == Result(Some(Identity), y)
  {
    var s := "n" + (w + y);
    assert s[1..] == w + y;
    TrimBlank(w, y);
    AtomicParses(s);
  }

  lemma {:induction false} TopParses(t: Text, w: string, y: string)
    requires Loose(TOP_LEVEL, t) && Stands(t, w, y) && Follows(TOP_LEVEL, w, y)
    ensures ParseTernary(Flatten(t) + (w + y)) == Result(Outcome(t), y)
    decreases t, 2 * TOP_LEVEL
  {
    hide Flatten, Denoted, Loose, Stands, Broken, ParseLevel, Outcome, ParseTernary;
    if t.TChoice? {
      ChoiceParses(t, w, y);
    } else if t.TNoColon? {
      NoColonParses(t, w, y);
    } else {
      LooseBelow(TOP_LEVEL, t);
      Parses(LEVELS, t, w, y);
      NoQuestion(Flatten(t) + (w + y), y);
    }
  }

  lemma NoQuestion(s: string, y: string)
    requires Stops(TOP_LEVEL, y) && ParseLevel(LEVELS, s).second == y
    ensures ParseTernary(s) == ParseLevel(LEVELS, s)
  {
    hide ParseLevel;
  }

  lemma {:induction false} NotParses(t: Text, w: string, y: string)
    requires t.TNot? && Loose(0, t) && Stands(t, w, y) && Follows(0, w, y) && (Broken(t) ==> Stops(TOP_LEVEL, y))
    ensures ParseLevel(0, Flatten(t) + (w + y)) == Result(Outcome(t), y)
    decreases t, 0, 0
  {
    var x := Flatten(t.arg) + (w + y);
    var s := "!" + (t.w1 + x);
    Append3("!", t.w1, Flatten(t.arg), w + y);
    assert s[1..] == t.w1 + x;
    TextTrims(t.w1, 0, t.arg, w, y);
    Parses(0, t.arg, w, y);
    assert ParseNegation(x) == ParseLevel(0, x);
    assert ParseNegation(s) == Result(Outcome(t), y);
  }

  lemma {:induction false} ParensParse(t: Text, w: string, y: string)
    requires t.TParens? && Loose(0, t) && Stands(t, w, y) && Follows(0, w, y)
    ensures ParseLevel(0, Flatten(t) + (w + y)) == Result(Some(Denoted(t)), y)
    decreases t, 0, 0
  {
    var close := ")" + (w + y);
    var x := Flatten(t.inner) + (t.w2 + close);
    Append5("(", t.w1, Flatten(t.inner), t.w2, ")", w + y);
    var s := "(" + (t.w1 + x);
    assert Flatten(t) + (w + y) == s && Denoted(t) == Denoted(t.inner);
    assert [')'] == ")" && s[0] == '(' && s[1..] == t.w1 + x;
    SignJoins(')', w, y);
    assert Follows(TOP_LEVEL, t.w2, close);
    TextTrims(t.w1, TOP_LEVEL, t.inner, t.w2, close);
    OutcomeIs(t.inner);
    hide Flatten, Denoted, Class, ReduceAll, Follows, Trim, Trimmed, ParseLevel, ParseTernary, Stops, Outcome;
    Parses(TOP_LEVEL, t.inner, t.w2, close);
    ParensUnfold(s, x, Denoted(t.inner), close, y);
  }

  lemma ParensUnfold(s: string, x: string, f: Fn, close: string, y: string)
    requires s != "" && s[0] == '(' && Trim(s[1..]) == x && ParseTernary(x) == Result(Some(f), close)
    requires close != "" && close[0] == ')' && Trim(close[1..]) == y
    ensures ParseLevel(0, s) == Result(Some(f), y)
  {
    hide Trim, ParseTernary;
    assert ParseExpr(s[1..]) == Result(Some(f), close);
    assert ParseParenthesized(s) == Result(Some(f), y);
    assert ParseNegation(s) == ParseParenthesized(s);
  }

  lemma {:induction false} OpenParses(t: Text, w: string, y: string)
    requires t.TOpen? && Loose(0, t) && Stands(t, w, y) && Follows(TOP_LEVEL, w, y)
    ensures ParseLevel(0, Flatten(t) + (w + y)) == Result(None, y)
    decreases t, 0, 0
  {
    var x := Flatten(t.inner) + (w + y);
    var s := "(" + (t.w1 + x);
    Append3("(", t.w1, Flatten(t.inner), w + y);
    assert Flatten(t) + (w + y) == s && s[0] == '(' && s[1..] == t.w1 + x;
    TextTrims(t.w1, TOP_LEVEL, t.inner, w, y);
    Parses(TOP_LEVEL, t.inner, w, y);
    OutcomeIs(t.inner);
    assert Broken(t.inner) || y == "" || y[0] != ')';
    hide Flatten, Denoted, Follows, Trim, Trimmed, ParseLevel, ParseTernary, Stops, Outcome, Broken, Stands;
    OpenUnfolds(s, x, Outcome(t.inner), y);
  }

  lemma OpenUnfolds(s: string, x: string, f: Option<Fn>, y: string)
    requires s != "" && s[0] == '(' && Trim(s[1..]) == x && ParseTernary(x) == Result(f, y)
    requires f.None? || y == "" || y[0] != ')'
    ensures ParseLevel(0, s) == Result(None, y)
  {
    hide Trim, ParseTernary;
    assert ParseExpr(s[1..]) == Result(f, y);
    assert ParseParenthesized(s) == Result(None, y);
    assert ParseNegation(s) == ParseParenthesized(s);
  }

  lemma {:induction false} ChoiceParses(t: Text, w: string, y: string)
    requires t.TChoice? && Loose(TOP_LEVEL, t) && Stands(t, w, y) && Follows(TOP_LEVEL, w, y)
    ensures ParseTernary(Flatten(t) + (w + y)) == Result(Outcome(t), y)
    decreases t, 0
  {
    var alt := Flatten(t.alt) + (w + y);
    var colon := ":" + (t.w4 + alt);
    var val := Flatten(t.val) + (t.w3 + colon);
    var question := "?" + (t.w2 + val);
    ChoiceText(t, w + y);
    ChoiceFits(t, w, y);
    assert [':'] == ":" && ['?'] == "?" && !Space(':') && !Space('?') && Tail(w, y) && Stops(TOP_LEVEL, y);
    AtLevels(Flatten(t) + (w + y));
    AtLevels(val);
    AtLevels(alt);
    assert LEVELS <= TOP_LEVEL;
    hide *;
    TextTrims(t.w4, TOP_LEVEL, t.alt, w, y);
    SignJoins(':', t.w4, alt);
    ColonFollows(t.w3, colon);
    TextTrims(t.w2, TOP_LEVEL, t.val, t.w3, colon);
    SignJoins('?', t.w2, val);
    QuestionFollows(t.w1, question);
    Parses(LEVELS, t.cond, t.w1, question);
    Parses(TOP_LEVEL, t.val, t.w3, colon);
    Parses(TOP_LEVEL, t.alt, w, y);
    ChoiceUnfolds(Flatten(t) + (w + y), Denoted(t.cond), question, val, Outcome(t.val), colon, alt, Outcome(t.alt), y);
  }

  lemma AtLevels(s: string)
    ensures ParseAt(TOP_LEVEL, s) == ParseTernary(s) && ParseAt(LEVELS, s) == ParseLevel(LEVELS, s)
  {
  }

  lemma ColonFollows(w: string, colon: string)
    requires Blank(w) && Trimmed(colon) && colon != "" && colon[0] == ':'
    ensures Tail(w, colon) && Stops(TOP_LEVEL, colon) && Follows(TOP_LEVEL, w, colon)
  {
  }

  lemma QuestionFollows(w: string, question: string)
    requires Blank(w) && Trimmed(question) && question != "" && question[0] == '?'
    ensures Follows(LEVELS, w, question) && AtQuestion(question)
  {
  }

  lemma ChoiceFits(t: Text, w: string, y: string)
    requires t.TChoice? && Loose(TOP_LEVEL, t) && Stands(t, w, y)
    ensures Outcome(t) == Some(Choice(Denoted(t.cond), Outcome(t.val), Outcome(t.alt))) && Outcome(t.cond) == Some(Denoted(t.cond))
    ensures Blank(t.w1) && Snug(t.w2, t.val) && Blank(t.w3) && Snug(t.w4, t.alt) && !Broken(t.cond)
    ensures Loose(LEVELS, t.cond) && Loose(TOP_LEVEL, t.val) && Loose(TOP_LEVEL, t.alt)
    ensures var colon := ":" + (t.w4 + (Flatten(t.alt) + (w + y)));
            && Stands(t.cond, t.w1, "?" + (t.w2 + (Flatten(t.val) + (t.w3 + colon))))
            && Stands(t.val, t.w3, colon) && Stands(t.alt, w, y)
  {
    hide Snug, Blank;
  }

  lemma ChoiceUnfolds(s: string, c: Fn, question: string, val: string, v: Option<Fn>, colon: string, alt: string, a: Option<Fn>,
                      y: string)
    requires ParseLevel(LEVELS, s) == Result(Some(c), question) && AtQuestion(question) && Trim(question[1..]) == val
    requires ParseTernary(val) == Result(v, colon) && colon != "" && colon[0] == ':' && Trim(colon[1..]) == alt
    requires ParseTernary(alt) == Result(a, y)
    ensures ParseTernary(s) == Result(Some(Choice(c, v, a)), y)
  {
    hide ParseLevel, Trim;
  }

  lemma {:induction false} NoColonParses(t: Text, w: string, y: string)
    requires t.TNoColon? && Loose(TOP_LEVEL, t) && Stands(t, w, y) && Follows(TOP_LEVEL, w, y)
    ensures ParseTernary(Flatten(t) + (w + y)) == Result(Outcome(t), y)
    decreases t, 0
  {
    var val := Flatten(t.val) + (w + y);
    var question := "?" + (t.w2 + val);
    NoChoiceText(Flatten(t.cond), t.w1, t.w2, Flatten(t.val), w + y);
    NoColonFits(t, w, y);
    assert ['?'] == "?" && !Space('?') && Tail(w, y) && Stops(TOP_LEVEL, y);
    AtLevels(Flatten(t) + (w + y));
    AtLevels(val);
    assert LEVELS <= TOP_LEVEL;
    hide *;
    TextTrims(t.w2, TOP_LEVEL, t.val, w, y);
    SignJoins('?', t.w2, val);
    QuestionFollows(t.w1, question);
    Parses(LEVELS, t.cond, t.w1, question);
    Parses(TOP_LEVEL, t.val, w, y);
    NoColonUnfolds(Flatten(t) + (w + y), Denoted(t.cond), question, val, Outcome(t.val), y);
  }

  lemma NoColonFits(t: Text, w: string, y: string)
    requires t.TNoColon? && Loose(TOP_LEVEL, t) && Stands(t, w, y)
    ensures Flatten(t) == Flatten(t.cond) + (t.w1 + ("?" + (t.w2 + Flatten(t.val))))
    ensures Outcome(t) == None && Outcome(t.cond) == Some(Denoted(t.cond)) && !Broken(t.cond)
    ensures Blank(t.w1) && Snug(t.w2, t.val) && Loose(LEVELS, t.cond) && Loose(TOP_LEVEL, t.val)
    ensures Stands(t.cond, t.w1, "?" + (t.w2 + (Flatten(t.val) + (w + y)))) && Stands(t.val, w, y) && (y == "" || y[0] != ':')
  {
    hide Snug, Blank;
  }

  lemma NoColonUnfolds(s: string, c: Fn, question: string, val: string, v: Option<Fn>, y: string)
    requires ParseLevel(LEVELS, s) == Result(Some(c), question) && AtQuestion(question) && Trim(question[1..]) == val
    requires ParseTernary(val) == Result(v, y) && (y == "" || y[0] != ':')
    ensures ParseTernary(s) == Result(None, y)
  {
    hide ParseLevel, Trim;
  }

  // ----- formulas -----

  predicate StartsOperand(s: string) {
    s != "" && (s[0] == 'n' || Digit(s[0]) || s[0] == '(' || s[0] == '!')
  }

  lemma {:induction false} FormulaStarts(level: nat, t: Text, z: string)
    requires Fits(level, t)
    ensures StartsOperand(Flatten(t) + z)
    decreases t
  {
    match t
    case TIdentity =>
    case TNumber(digits) => assert Digit(digits[0]);
    case TParens(_, _, _) =>
    case TNot(_, _) =>
    case TBinary(left, w1, op, w2, right) =>
      var rest := w1 + (Pattern(op) + (w2 + Flatten(right)));
      FormulaStarts(LevelOf(op), left, rest + z);
      assert (Flatten(left) + rest) + z == Flatten(left) + (rest + z);
    case TChoice(cond, w1, w2, val, w3, w4, alt) =>
      var rest := w1 + ("?" + (w2 + (Flatten(val) + (w3 + (":" + (w4 + Flatten(alt)))))));
      FormulaStarts(LEVELS, cond, rest + z);
      assert (Flatten(cond) + rest) + z == Flatten(cond) + (rest + z);
  }

  /** A formula is read as it is written, whatever follows. */
  lemma {:induction false} FormulaStands(level: nat, t: Text, w: string, y: string)
    requires Fits(level, t)
    ensures Loose(level, t) && !Broken(t) && Stands(t, w, y)
    decreases t
  {
    match t
    case TIdentity =>
    case TNumber(_) =>
    case TParens(w1, inner, w2) => FormulaStands(TOP_LEVEL, inner, w2, ")" + (w + y));
    case TNot(w1, arg) => FormulaStands(0, arg, w, y);
    case TBinary(left, w1, op, w2, right) =>
      FormulaStands(LevelOf(op), left, w1, Pattern(op) + (w2 + (Flatten(right) + (w + y))));
      FormulaStands(LevelOf(op) - 1, right, w, y);
      BinaryStands(t, level, w, y);
    case TChoice(cond, w1, w2, val, w3, w4, alt) =>
      var colon := ":" + (w4 + (Flatten(alt) + (w + y)));
      FormulaStands(LEVELS, cond, w1, "?" + (w2 + (Flatten(val) + (w3 + colon))));
      FormulaStands(TOP_LEVEL, val, w3, colon);
      FormulaStands(TOP_LEVEL, alt, w, y);
  }

  lemma BinaryStands(t: Text, level: nat, w: string, y: string)
    requires t.TBinary? && Fits(level, t)
    requires var x := t.w2 + (Flatten(t.right) + (w + y));
             Stands(t.left, t.w1, Pattern(t.op) + x) && Stands(t.right, w, y)
    requires Loose(LevelOf(t.op), t.left) && Loose(LevelOf(t.op) - 1, t.right) && !Broken(t.left) && !Broken(t.right)
    ensures Loose(level, t) && !Broken(t) && Stands(t, w, y)
  {
    hide Flatten;
    var x := Flatten(t.right) + (w + y);
    FormulaStarts(LevelOf(t.op) - 1, t.right, w + y);
    assert (t.w2 + x)[0] == if t.w2 == "" then x[0] else t.w2[0];
  }

  /** Every text that stands by itself is accepted whole, with blanks around it, and gives the function
      it denotes. */
  lemma TextIsAccepted(t: Text, before: string, after: string)
    requires Loose(TOP_LEVEL, t) && !Broken(t) && Stands(t, "", "") && Blank(before) && Blank(after)
    ensures Parse(before + (Flatten(t) + after)) == Some(Denoted(t))
  {
    TextTrimmed(TOP_LEVEL, t, "", "");
    assert Flatten(t) + ("" + "") == Flatten(t);
    TrimBoth(before, Flatten(t), after);
    Parses(TOP_LEVEL, t, "", "");
    OutcomeIs(t);
  }

  /** The text of any formula is accepted whole, with blanks around it, and gives the function that
      computes its meaning. */
  lemma FormulaIsParsed(t: Text, before: string, after: string, n: Num)
    requires Fits(TOP_LEVEL, t) && Blank(before) && Blank(after)
    ensures var f := Parse(before + (Flatten(t) + after));
            f == Some(Denoted(t)) && Eval(f.value, n) == Some(Meaning(t, n))
  {
    DenotedMeans(t, n);
    FormulaIsWhole(t, TOP_LEVEL, n);
    FormulaStands(TOP_LEVEL, t, "", "");
    TextIsAccepted(t, before, after);
  }

  lemma TrimBoth(before: string, s: string, after: string)
    requires Blank(before) && Blank(after) && s != "" && Trimmed(s)
    ensures Trim(before + (s + after)) == s
  {
    FrontGone(before, s + after);
    BackGone(s, after);
  }

  lemma {:induction false} FrontGone(w: string, s: string)
    requires Blank(w) && s != "" && !Space(s[0])
    ensures TrimFront(w + s) == s
  {
    if w == "" {
      assert w + s == s;
    } else {
      assert (w + s)[1..] == w[1..] + s;
      FrontGone(w[1..], s);
    }
  }

  lemma {:induction false} BackGone(s: string, w: string)
    requires Blank(w) && EndsInked(s)
    ensures TrimBack(s + w) == s
  {
    if w == "" {
      assert s + w == s;
    } else {
      assert (s + w)[..|s + w| - 1] == s + w[..|w| - 1];
      BackGone(s, w[..|w| - 1]);
    }
  }

  // ----- printing a function -----

  function Digits(v: nat): (d: string)
    ensures d != "" && forall i :: 0 <= i < |d| ==> Digit(d[i])
  {
    var last := ['0' + (v % 10) as char];
    if v < 10 then last else Digits(v / 10) + last
  }

  lemma {:induction false} DigitsRead(v: nat)
    ensures DecimalValue(Digits(v)) == v
  {
    var d := Digits(v);
    assert DigitValue(d[|d| - 1]) == v % 10;
    if v < 10 {
      assert d[..0] == "";
      assert DecimalValue(d) == 10 * DecimalValue(d[..0]) + DigitValue(d[0]);
    } else {
      DigitsRead(v / 10);
      assert d[..|d| - 1] == Digits(v / 10);
    }
  }

  /** The text of a function, with parentheses only where a part binds less tightly than its place
      demands. */
  function Printed(f: Fn, level: nat): Text
    requires Complete(f) && level <= TOP_LEVEL
    decreases f, TOP_LEVEL - level
  {
    match f
    case Identity => TIdentity
    case Const(v) => TNumber(Digits(v))
    case Not(g) => TNot("", Printed(g, 0))
    case Binary(op, g, h) =>
      var t := TBinary(Printed(g, LevelOf(op)), "", op, "", Printed(h, LevelOf(op) - 1));
      if LevelOf(op) <= level then t else TParens("", t, "")
    case Choice(c, v, a) =>
      var t := TChoice(Printed(c, LEVELS), "", "", Printed(v.value, TOP_LEVEL), "", "", Printed(a.value, TOP_LEVEL));
      if level == TOP_LEVEL then t else TParens("", t, "")
  }

  lemma {:induction false} PrintedDenotes(f: Fn, level: nat)
    requires Complete(f) && level <= TOP_LEVEL
    ensures Fits(level, Printed(f, level)) && Denoted(Printed(f, level)) == f
    decreases f
  {
    match f
    case Identity =>
    case Const(v) => DigitsRead(v);
    case Not(g) => PrintedDenotes(g, 0);
    case Binary(op, g, h) =>
      BinaryDenotes(f, level);
    case Choice(c, v, a) =>
      ChoiceDenotes(f, level);
  }

  lemma {:induction false} BinaryDenotes(f: Fn, level: nat)
    requires f.Binary? && Complete(f) && level <= TOP_LEVEL
    ensures Fits(level, Printed(f, level)) && Denoted(Printed(f, level)) == f
    decreases f, 0
  {
    hide Digits;
    PrintedDenotes(f.left, LevelOf(f.op));
    PrintedDenotes(f.right, LevelOf(f.op) - 1);
  }

  lemma {:induction false} ChoiceDenotes(f: Fn, level: nat)
    requires f.Choice? && Complete(f) && level <= TOP_LEVEL
    ensures Fits(level, Printed(f, level)) && Denoted(Printed(f, level)) == f
    decreases f, 0
  {
    var v, a := f.val.value, f.alt.value;
    PrintedDenotes(f.cond, LEVELS);
    PrintedDenotes(v, TOP_LEVEL);
    PrintedDenotes(a, TOP_LEVEL);
    ChoiceFormula(Printed(f.cond, LEVELS), Printed(v, TOP_LEVEL), Printed(a, TOP_LEVEL), level);
    assert f == Choice(f.cond, Some(v), Some(a));
    hide Denoted, Fits, Digits;
  }

  /** A choice without blanks, in parentheses unless its place takes a choice. */
  lemma ChoiceFormula(cond: Text, val: Text, alt: Text, level: nat)
    requires Fits(LEVELS, cond) && Fits(TOP_LEVEL, val) && Fits(TOP_LEVEL, alt)
    ensures var t := TChoice(cond, "", "", val, "", "", alt);
            var f := Choice(Denoted(cond), Some(Denoted(val)), Some(Denoted(alt)));
            && Fits(TOP_LEVEL, t) && Denoted(t) == f
            && Fits(level, TParens("", t, "")) && Denoted(TParens("", t, "")) == f
  {
    FormulaIsWhole(val, TOP_LEVEL, 0);
    FormulaIsWhole(alt, TOP_LEVEL, 0);
    hide Broken;
  }

  /** Parsing undoes printing. */
  lemma PrintedIsParsed(f: Fn)
    requires Complete(f)
    ensures Parse(Flatten(Printed(f, TOP_LEVEL))) == Some(f)
  {
    PrintedDenotes(f, TOP_LEVEL);
    var t := Printed(f, TOP_LEVEL);
    FormulaIsParsed(t, "", "", 0);
    assert "" + (Flatten(t) + "") == Flatten(t);
  }

  // ----- symbols and numbers -----

  /** The text is accepted, and its function gives for `n` what C makes of `n`, the operator and `y`. */
  ghost predicate Computes(s: string, op: Operator, n: Num, y: Num) {
    && Parse(s).Some? && Eval(Parse(s).value, n).Some?
    && IsValueOf(op, n, y, Eval(Parse(s).value, n).value)
  }

  /** The thirteen operators are written as in C. */
  lemma SymbolsOfC(n: Num, y: Num)
    ensures Computes("n*" + Digits(y), Mul, n, y) && Computes("n/" + Digits(y), Div, n, y) && Computes("n%" + Digits(y), Mod, n, y)
    ensures Computes("n+" + Digits(y), Add, n, y) && Computes("n-" + Digits(y), Sub, n, y)
    ensures Computes("n<=" + Digits(y), Le, n, y) && Computes("n>=" + Digits(y), Ge, n, y)
    ensures Computes("n<" + Digits(y), Lt, n, y) && Computes("n>" + Digits(y), Gt, n, y)
    ensures Computes("n==" + Digits(y), Eq, n, y) && Computes("n!=" + Digits(y), Ne, n, y)
    ensures Computes("n&&" + Digits(y), And, n, y) && Computes("n||" + Digits(y), Or, n, y)
  {
    forall op: Operator
      ensures Computes(("n" + Pattern(op)) + Digits(y), op, n, y)
    {
      SymbolText(op, n, y);
    }
    SymbolStrings();
    hide Computes, Pattern, Digits;
  }

  lemma SymbolStrings()
    ensures "n" + Pattern(Mul) == "n*" && "n" + Pattern(Div) == "n/" && "n" + Pattern(Mod) == "n%"
    ensures "n" + Pattern(Add) == "n+" && "n" + Pattern(Sub) == "n-"
    ensures "n" + Pattern(Le) == "n<=" && "n" + Pattern(Ge) == "n>=" && "n" + Pattern(Lt) == "n<" && "n" + Pattern(Gt) == "n>"
    ensures "n" + Pattern(Eq) == "n==" && "n" + Pattern(Ne) == "n!="
    ensures "n" + Pattern(And) == "n&&" && "n" + Pattern(Or) == "n||"
  {
  }

  lemma SymbolText(op: Operator, n: Num, y: Num)
    ensures Computes(("n" + Pattern(op)) + Digits(y), op, n, y)
  {
    hide Parse, Eval, Fits, Meaning, Flatten, Digits, Pattern, IsValueOf, Denoted;
    var t := TBinary(TIdentity, "", op, "", TNumber(Digits(y)));
    SymbolFormula(op, n, y);
    MeaningIsC(t, n);
    FormulaIsParsed(t, "", "", n);
    Unpadded(Flatten(t));
  }

  lemma SymbolFormula(op: Operator, n: Num, y: Num)
    ensures var t := TBinary(TIdentity, "", op, "", TNumber(Digits(y)));
            && Fits(TOP_LEVEL, t) && Flatten(t) == ("n" + Pattern(op)) + Digits(y)
            && Meaning(TIdentity, n) == n && Meaning(TNumber(Digits(y)), n) == y
  {
    hide Digits, Pattern, DecimalValue;
    DigitsRead(y);
    assert Flatten(TIdentity) == "n" && Flatten(TNumber(Digits(y))) == Digits(y);
    Append3("n", Pattern(op), "", Digits(y));
    hide Flatten;
  }

  lemma Unpadded(s: string)
    ensures "" + (s + "") == s
  {
  }

  /** Numbers are decimal; too large a one is the largest there is, and a smaller one behind a minus is
      its complement. */
  lemma NumbersRead(v: nat)
    ensures var largest := 0xFFFF_FFFF_FFFF_FFFF;
            && Parse(Digits(v)) == Parse("+" + Digits(v)) == Some(Const(if v < largest then v else largest))
            && Parse("-" + Digits(v)) == Some(Const(if v == 0 then 0 else if v > largest then largest else largest + 1 - v))
  {
    hide Parse, Digits, NumberOf, Loose, Flatten, Stands, Denoted;
    var d := Digits(v);
    NumberValues(v);
    DigitsStand(v, false);
    DigitsStand(v, true);
    Accepted(TNumber(d), d);
    Accepted(TSigned(false, d), "+" + d);
    Accepted(TSigned(true, d), "-" + d);
  }

  lemma NumberValues(v: nat)
    ensures var d, largest := Digits(v), 0xFFFF_FFFF_FFFF_FFFF;
            && NumberOf(d, false) == (if v < largest then v else largest)
            && NumberOf(d, true) == if v == 0 then 0 else if v > largest then largest else largest + 1 - v
  {
    hide Digits, DecimalValue;
    DigitsRead(v);
  }

  lemma DigitsStand(v: nat, minus: bool)
    ensures var t, u := TNumber(Digits(v)), TSigned(minus, Digits(v));
            && Loose(TOP_LEVEL, t) && Stands(t, "", "") && Flatten(t) == Digits(v) && Denoted(t) == Const(NumberOf(Digits(v), false))
            && Loose(TOP_LEVEL, u) && Stands(u, "", "") && Denoted(u) == Const(NumberOf(Digits(v), minus))
            && Flatten(u) == (if minus then "-" else "+") + Digits(v)
  {
    hide Digits, NumberOf;
  }

  /** Exactly the blanks of ASCII may stand around a formula unseen. */
  lemma BlanksAreTrimmed(c: char)
    ensures c == ' ' || 9 <= c as int <= 13 ==> Parse([c, 'n', c]) == Some(Identity)
    ensures !(c == ' ' || 9 <= c as int <= 13) ==> Trim([c, 'n', c]) == [c, 'n', c]
  {
    if c == ' ' || 9 <= c as int <= 13 {
      assert Blank([c]) && [c] + (Flatten(TIdentity) + [c]) == [c, 'n', c];
      hide Parse;
      TextIsAccepted(TIdentity, [c], [c]);
    }
  }

  // ----- whatever is accepted is such a text -----

  predicate EndClear(s: string) {
    s == "" || !Space(s[|s| - 1])
  }

  lemma BlankGrows(c: char, w: string)
    requires Space(c) && Blank(w)
    ensures Blank([c] + w)
  {
  }

  lemma {:induction false} CutFront(s: string) returns (w: string)
    ensures Blank(w) && s == w + TrimFront(s)
  {
    if s != "" && Space(s[0]) {
      var v := CutFront(s[1..]);
      w := [s[0]] + v;
      BlankGrows(s[0], v);
      assert TrimFront(s) == TrimFront(s[1..]) && s == [s[0]] + s[1..];
      hide *;
      Associates([s[0]], v, TrimFront(s));
    } else {
      w := "";
    }
  }

  lemma TrimmedOff(s: string) returns (w: string)
    requires EndClear(s)
    ensures s == w + Trim(s) && Tail(w, Trim(s))
  {
    w := CutFront(s);
    var x := TrimFront(s);
    if x == "" {
      assert s == w;
    } else {
      assert s[|s| - 1] == x[|x| - 1];
    }
    assert TrimBack(x) == x;
    hide TrimFront, TrimBack;
  }

  /** Taking the first character and the blanks after it off a trimmed text leaves a trimmed text. */
  lemma HeadOff(s: string) returns (w: string)
    requires Trimmed(s) && s != ""
    ensures s == [s[0]] + (w + Trim(s[1..])) && Tail(w, Trim(s[1..])) && |Trim(s[1..])| < |s|
  {
    assert s == [s[0]] + s[1..];
    RestIsClear([s[0]], s[1..]);
    hide Trim, Trimmed, EndClear;
    w := TrimmedOff(s[1..]);
  }

  /** What is left of a trimmed text after some of it has been parsed. */
  lemma RestIsClear(head: string, rest: string)
    requires Trimmed(head + rest)
    ensures EndClear(rest)
  {
    if rest != "" {
      assert (head + rest)[|head + rest| - 1] == rest[|rest| - 1];
    }
  }

  lemma CutOff(s: string) returns (before: string, after: string)
    ensures Trimmed(Trim(s)) && Blank(before) && Blank(after) && s == before + (Trim(s) + after)
  {
    before := CutFront(s);
    after := CutBack(TrimFront(s));
  }

  lemma {:induction false} CutBack(s: string) returns (w: string)
    requires s == "" || !Space(s[0])
    ensures Blank(w) && s == TrimBack(s) + w && Trimmed(TrimBack(s))
  {
    if s != "" && Space(s[|s| - 1]) {
      var v := CutBack(s[..|s| - 1]);
      w := v + [s[|s| - 1]];
      assert s == s[..|s| - 1] + [s[|s| - 1]];
    } else {
      w := "";
    }
  }

  lemma TrimHead(s: string)
    requires s != "" && !Space(s[0])
    ensures Trim(s) != "" && Trim(s)[0] == s[0]
  {
    BackKeepsHead(s);
  }

  lemma {:induction false} BackKeepsHead(s: string)
    requires s != "" && !Space(s[0])
    ensures TrimBack(s) != "" && TrimBack(s)[0] == s[0]
  {
    if Space(s[|s| - 1]) {
      BackKeepsHead(s[..|s| - 1]);
    }
  }

  lemma TrimTwice(s: string)
    ensures Trim(Trim(s)) == Trim(s) && Trimmed(Trim(s))
  {
    var before, after := CutOff(s);
    TrimKept(Trim(s));
  }

  /** `t` and blanks `w` are what has been parsed of `s`, and `r` is the result. */
  predicate Reads(level: nat, s: string, t: Text, w: string, r: Result) {
    Loose(level, t) && Tail(w, r.second) && r.first == Outcome(t) && s == Flatten(t) + (w + r.second) && Stands(t, w, r.second)
  }

  /** The rest is one that the parser can go on with: no expression of the level goes on there. */
  predicate StopsAt(level: nat, r: Result) {
    Stops(level, Trim(r.second)) && (r.first.None? ==> Stops(TOP_LEVEL, Trim(r.second)))
  }

  lemma LooseAbove(level: nat, above: nat, t: Text)
    requires Loose(level, t) && level <= above
    ensures Loose(above, t)
  {
  }

  lemma ReadsAbove(level: nat, above: nat, s: string, t: Text, w: string, r: Result)
    requires Reads(level, s, t, w, r) && level <= above
    ensures Reads(above, s, t, w, r)
  {
    LooseAbove(level, above, t);
    hide Loose, Stands, Flatten, Outcome, Tail;
  }

  lemma AtomicReads(s: string) returns (t: Text, w: string)
    requires Trimmed(s) && s != "" && s[0] != '!' && s[0] != '(' && StopsAt(0, ParseAtomic(s))
    ensures Reads(0, s, t, w, ParseAtomic(s))
  {
    if s[0] == 'n' {
      t, w := IdentityReads(s);
    } else if ReadNumber(s).1 == 0 {
      t, w := MissingReads(s);
    } else {
      t, w := NumberReads(s);
    }
    hide *;
  }

  lemma IdentityReads(s: string) returns (t: Text, w: string)
    requires Trimmed(s) && s != "" && s[0] == 'n'
    ensures Reads(0, s, t, w, ParseAtomic(s))
  {
    t := TIdentity;
    assert s == "n" + s[1..];
    RestIsClear("n", s[1..]);
    hide Trim, Trimmed, EndClear;
    w := TrimmedOff(s[1..]);
  }

  lemma MissingReads(s: string) returns (t: Text, w: string)
    requires Trimmed(s) && s != "" && s[0] != 'n' && s[0] != '!' && s[0] != '(' && ReadNumber(s).1 == 0 && StopsAt(0, ParseAtomic(s))
    ensures Reads(0, s, t, w, ParseAtomic(s))
  {
    hide Trim, Trimmed, ReadNumber, MayMiss, ParseAtomic, Stops;
    t, w := TMissing, "";
    TrimKept(s);
    NothingRead(s);
    NothingParsed(s);
    NoDigits(s);
    assert s == "" + ("" + s);
  }

  lemma NothingParsed(s: string)
    requires s != "" && s[0] != 'n' && ReadNumber(s) == (0, 0)
    ensures ParseAtomic(s) == Result(Some(Const(0)), Trim(s))
  {
    assert s[0..] == s;
    hide ReadNumber, Trim;
  }

  lemma NothingRead(s: string)
    requires s != "" && ReadNumber(s).1 == 0
    ensures ReadNumber(s) == (0, 0)
  {
  }

  lemma NumberReads(s: string) returns (t: Text, w: string)
    requires Trimmed(s) && s != "" && s[0] != 'n' && s[0] != '!' && s[0] != '(' && ReadNumber(s).1 > 0
    ensures Reads(0, s, t, w, ParseAtomic(s))
  {
    var used := ReadNumber(s).1;
    t := NumberRead(s);
    assert s == s[..used] + s[used..];
    RestIsClear(s[..used], s[used..]);
    hide Trim, Trimmed, EndClear, ReadNumber, Loose, Stands, Flatten, Denoted, Broken;
    w := TrimmedOff(s[used..]);
    assert s == s[..used] + (w + Trim(s[used..]));
  }

  lemma NoDigits(s: string)
    requires s != "" && s[0] != 'n' && s[0] != '!' && s[0] != '(' && ReadNumber(s) == (0, 0) && Stops(0, s)
    ensures MayMiss(s)
  {
    var sign := if s[0] == '+' || s[0] == '-' then 1 else 0;
    assert DigitCount(s[sign..]) == 0;
    if sign == 1 && |s| > 1 {
      assert s[1..][0] == s[1];
      assert !Digit(s[1]);
    }
  }

  lemma NumberRead(s: string) returns (t: Text)
    requires s != "" && ReadNumber(s).1 > 0
    ensures Loose(0, t) && Flatten(t) == s[..ReadNumber(s).1] && !Broken(t) && Denoted(t) == Const(ReadNumber(s).0)
    ensures forall w, y :: Stands(t, w, y)
  {
    var sign := if s[0] == '+' || s[0] == '-' then 1 else 0;
    var count := DigitCount(s[sign..]);
    var digits := s[sign..][..count];
    if sign == 1 {
      t := TSigned(s[0] == '-', digits);
      assert s[..1 + count] == [s[0]] + digits;
    } else {
      t := TNumber(digits);
      assert s[..count] == digits;
    }
  }

  lemma {:induction false} NegationReads(s: string) returns (t: Text, w: string)
    requires Trimmed(s) && StopsAt(0, ParseNegation(s))
    ensures Reads(0, s, t, w, ParseNegation(s))
    decreases |s|, 1
  {
    if s == "" {
      t, w := TNothing, "";
      assert s == "" + ("" + "");
    } else if s[0] == '!' {
      t, w := NotReads(s);
    } else if s[0] == '(' {
      t, w := ParensRead(s);
    } else {
      AtomicParses(s);
      assert ParseNegation(s) == ParseAtomic(s);
      t, w := AtomicReads(s);
    }
  }

  lemma {:induction false} NotReads(s: string) returns (t: Text, w: string)
    requires Trimmed(s) && s != "" && s[0] == '!' && StopsAt(0, ParseNegation(s))
    ensures Reads(0, s, t, w, ParseNegation(s))
    decreases |s|, 0
  {
    var w1 := HeadOff(s);
    var x := Trim(s[1..]);
    var r := ParseNegation(x);
    assert ParseNegation(s) == if r.first.None? then r else Result(Some(Not(r.first.value)), r.second);
    TrimTwice(s[1..]);
    hide ParseNegation, Trim, Trimmed, Flatten, Denoted, Loose;
    var arg;
    arg, w := NegationReads(x);
    t := TNot(w1, arg);
    NotJoins(s, w1, arg, w, r);
  }

  lemma NotJoins(s: string, w1: string, arg: Text, w: string, r: Result)
    requires s != "" && s[0] == '!'
    requires var x := Trim(s[1..]); Reads(0, x, arg, w, r) && s == [s[0]] + (w1 + x) && Tail(w1, x)
    ensures Reads(0, s, TNot(w1, arg), w, if r.first.None? then r else Result(Some(Not(r.first.value)), r.second))
  {
    var t := TNot(w1, arg);
    OnlyNothing(arg, w, r.second);
    NotStands(t, w, r.second);
    Append3("!", w1, Flatten(arg), w + r.second);
    assert [s[0]] == "!";
    hide Flatten, Trim, Trimmed, Denoted, Loose, Stands, Broken;
  }

  lemma NotStands(t: Text, w: string, y: string)
    requires t.TNot? && Snug(t.w1, t.arg) && Loose(0, t.arg) && Stands(t.arg, w, y)
    ensures Loose(0, t) && Stands(t, w, y) && Flatten(t) == "!" + (t.w1 + Flatten(t.arg))
    ensures Denoted(t) == Not(Denoted(t.arg)) && Broken(t) == Broken(t.arg)
  {
  }

  lemma OnlyNothing(t: Text, w: string, y: string)
    requires Stands(t, w, y)
    ensures t.TNothing? ==> Flatten(t) + (w + y) == ""
  {
  }

  lemma {:induction false} ParensRead(s: string) returns (t: Text, w: string)
    requires Trimmed(s) && s != "" && s[0] == '(' && StopsAt(0, ParseNegation(s))
    ensures Reads(0, s, t, w, ParseNegation(s))
    decreases |s|, 0
  {
    var w1 := HeadOff(s);
    var x := Trim(s[1..]);
    var r := ParseTernary(x);
    ParensCases(s, x, r);
    TrimTwice(s[1..]);
    hide ParseTernary, ParseParenthesized, ParseNegation, ParseExpr, Trim, Trimmed, Flatten, Denoted, Loose;
    if r.first.Some? && r.second != "" && r.second[0] == ')' {
      Closes(r.second);
      var inner, w2 := TernaryReads(x);
      ReadsTail(TOP_LEVEL, x, inner, w2, r);
      w := HeadOff(r.second);
      t := TParens(w1, inner, w2);
      ParensJoin(s, w1, x, inner, w2, r, w);
    } else {
      var inner;
      inner, w := TernaryReads(x);
      t := TOpen(w1, inner);
      OpenJoins(s, w1, x, inner, w, r);
    }
  }

  lemma Closes(s: string)
    requires s != "" && (s[0] == ')' || s[0] == ':')
    ensures Stops(TOP_LEVEL, Trim(s))
  {
    TrimHead(s);
  }

  lemma ParensCases(s: string, x: string, r: Result)
    requires s != "" && s[0] == '(' && x == Trim(s[1..]) && r == ParseTernary(x)
    ensures r.first.Some? && r.second != "" && r.second[0] == ')' ==> ParseNegation(s) == Result(r.first, Trim(r.second[1..]))
    ensures r.first.None? || r.second == "" || r.second[0] != ')' ==> ParseNegation(s) == Result(None, r.second)
  {
    assert ParseExpr(s[1..]) == r;
    assert ParseNegation(s) == ParseParenthesized(s);
    hide ParseTernary, Trim;
  }

  lemma ReadsTail(level: nat, s: string, t: Text, w: string, r: Result)
    requires Reads(level, s, t, w, r)
    ensures Trimmed(r.second)
  {
  }

  lemma ParensJoin(s: string, w1: string, x: string, inner: Text, w2: string, r: Result, w: string)
    requires s != "" && s[0] == '(' && Tail(w1, x) && s == [s[0]] + (w1 + x) && Reads(TOP_LEVEL, x, inner, w2, r) && r.first.Some?
    requires r.second != "" && r.second[0] == ')' && Tail(w, Trim(r.second[1..]))
    requires r.second == [r.second[0]] + (w + Trim(r.second[1..]))
    ensures Reads(0, s, TParens(w1, inner, w2), w, Result(r.first, Trim(r.second[1..])))
  {
    hide Flatten, Trim, Trimmed, Loose, Stands, Broken, Denoted, Blank;
    var y := Trim(r.second[1..]);
    assert [s[0]] == "(" && [r.second[0]] == ")";
    OutcomeIs(inner);
    ParensStands(TParens(w1, inner, w2), w, y);
    Append5("(", w1, Flatten(inner), w2, ")", w + y);
  }

  lemma ParensStands(t: Text, w: string, y: string)
    requires t.TParens? && Blank(t.w1) && Blank(t.w2) && Loose(TOP_LEVEL, t.inner) && !Broken(t.inner)
    requires Stands(t.inner, t.w2, ")" + (w + y))
    ensures Loose(0, t) && Stands(t, w, y) && Outcome(t) == Some(Denoted(t.inner))
    ensures Flatten(t) == "(" + (t.w1 + (Flatten(t.inner) + (t.w2 + ")")))
  {
    hide Blank;
  }

  lemma OpenJoins(s: string, w1: string, x: string, inner: Text, w: string, r: Result)
    requires s != "" && s[0] == '(' && Tail(w1, x) && s == [s[0]] + (w1 + x) && Reads(TOP_LEVEL, x, inner, w, r)
    requires r.first.None? || r.second == "" || r.second[0] != ')'
    ensures Reads(0, s, TOpen(w1, inner), w, Result(None, r.second))
  {
    hide Flatten, Trim, Trimmed, Blank, Loose, Stands, Broken;
    var t := TOpen(w1, inner);
    assert [s[0]] == "(";
    OnlyNothing(inner, w, r.second);
    Append3("(", w1, Flatten(inner), w + r.second);
    OutcomeIs(inner);
    OpenStands(t, w, r.second);
  }

  lemma OpenStands(t: Text, w: string, y: string)
    requires t.TOpen? && Snug(t.w1, t.inner) && Loose(TOP_LEVEL, t.inner) && Stands(t.inner, w, y)
    requires Broken(t.inner) || y == "" || y[0] != ')'
    ensures Loose(0, t) && Broken(t) && Stands(t, w, y) && Flatten(t) == "(" + (t.w1 + Flatten(t.inner))
  {
    hide Blank, Snug;
  }

  /** A successful reduction takes in an operator of the level and its operand; '<' and '>' only where
      there is no longer operator. */
  lemma {:induction false} WhatWasReduced(level: nat, i: nat, res: Result) returns (op: Operator, x: string, g: Fn)
    requires 1 <= level <= LEVELS && res.first.Some? && i <= |Operators(level)| && Reduce(level, i, res).first.Some?
    ensures op in Operators(level)[i..]
    ensures LevelOf(op) == level && StartsWith(res.second, Pattern(op)) && x == Trim(res.second[|Pattern(op)|..])
    ensures forall j: nat :: i <= j < |Operators(level)| && Operators(level)[j] == op ==>
              forall m: nat :: i <= m < j ==> !StartsWith(res.second, Pattern(Operators(level)[m]))
    ensures ParseLevel(level - 1, x).first == Some(g)
    ensures Reduce(level, i, res) == Result(Some(Binary(op, res.first.value, g)), Trim(ParseLevel(level - 1, x).second))
    decreases |Operators(level)| - i
  {
    hide ParseLevel, Trim, Pattern, LevelOf;
    op := Operators(level)[i];
    OperatorsOfLevel(level, i);
    OperatorsDiffer(level);
    var next := ReduceSingle(level, op, res);
    if next.first.Some? {
      x := Trim(res.second[|Pattern(op)|..]);
      g := ParseLevel(level - 1, x).first.value;
    } else {
      FailedReduction(level, i, res);
      op, x, g := WhatWasReduced(level, i + 1, res);
    }
  }

  lemma OperatorsDiffer(level: nat)
    requires 1 <= level <= LEVELS
    ensures forall i, j :: 0 <= i < j < |Operators(level)| ==> Operators(level)[i] != Operators(level)[j]
  {
  }

  /** The next operator is tried only if this one is not there. */
  lemma FailedReduction(level: nat, i: nat, res: Result)
    requires 1 <= level <= LEVELS && res.first.Some? && i < |Operators(level)|
    requires ReduceSingle(level, Operators(level)[i], res).first.None? && Reduce(level, i, res).first.Some?
    ensures Reduce(level, i, res) == Reduce(level, i + 1, res) && !StartsWith(res.second, Pattern(Operators(level)[i]))
  {
    var op := Operators(level)[i];
    SingleShrinks(level, op, res);
    hide ParseLevel, Trim, StartsWith, Pattern;
  }

  /** Where the operator is, it is left behind, also when no operand follows. */
  lemma SingleShrinks(level: nat, op: Operator, res: Result)
    requires 1 <= level <= LEVELS && res.first.Some?
    ensures StartsWith(res.second, Pattern(op)) ==> |ReduceSingle(level, op, res).second| < |res.second|
    ensures !StartsWith(res.second, Pattern(op)) ==> ReduceSingle(level, op, res) == Result(None, res.second)
  {
    PatternClass(op);
    hide ParseLevel;
  }

  /** The operator that was taken in is not the beginning of a longer one. */
  lemma TakenShort(level: nat, res: Result, op: Operator)
    requires 1 <= level <= LEVELS && op in Operators(level) && StartsWith(res.second, Pattern(op))
    requires forall j: nat :: j < |Operators(level)| && Operators(level)[j] == op ==>
               forall m: nat :: m < j ==> !StartsWith(res.second, Pattern(Operators(level)[m]))
    ensures StaysShort(op, res.second[|Pattern(op)|..])
  {
    LongerStarts(res.second, op);
    if op.Lt? {
      assert Operators(level)[2] == op && Operators(level)[0] == Le;
    } else if op.Gt? {
      assert Operators(level)[3] == op && Operators(level)[1] == Ge;
    }
    hide StartsWith, Pattern;
  }

  lemma LongerStarts(s: string, op: Operator)
    requires StartsWith(s, Pattern(op))
    ensures op.Lt? && !StartsWith(s, Pattern(Le)) ==> StaysShort(op, s[|Pattern(op)|..])
    ensures op.Gt? && !StartsWith(s, Pattern(Ge)) ==> StaysShort(op, s[|Pattern(op)|..])
  {
    if |s| > 1 {
      assert s[..2] == [s[0], s[1]] && s[..1] == [s[0]];
    }
  }

  lemma {:induction false} LevelReads(level: nat, s: string) returns (t: Text, w: string)
    requires level <= LEVELS && Trimmed(s) && StopsAt(level, ParseLevel(level, s))
    ensures Reads(level, s, t, w, ParseLevel(level, s))
    decreases |s|, 3 * level + 2
  {
    hide Reads, Loose, Stands, Flatten, Denoted, Outcome, Trim, Trimmed, Tail, ParseNegation, ReduceAll, Class;
    if level == 0 {
      t, w := NegationReads(s);
    } else {
      var r := ParseLevel(level - 1, s);
      if r.first.None? {
        t, w := LevelReads(level - 1, s);
        ReadsAbove(level - 1, level, s, t, w, r);
      } else {
        var res := Result(r.first, Trim(r.second));
        TrimTwice(r.second);
        ChainStops(level, res);
        assert StopsAt(level - 1, r);
        t, w := LevelReads(level - 1, s);
        ReadsTail(level - 1, s, t, w, r);
        TrimKept(r.second);
        ReadsAbove(level - 1, level, s, t, w, res);
        t, w := ChainReads(level, s, t, w, res);
      }
    }
  }

  /** Wherever a chain of operators has got to, no expression of a lower level goes on. */
  lemma ChainStops(level: nat, res: Result)
    requires 1 <= level <= LEVELS && res.first.Some? && Trimmed(res.second) && StopsAt(level, ReduceAll(level, res))
    ensures Stops(level - 1, res.second)
  {
    if res.second != "" {
      TrimKept(res.second);
      if Reduce(level, 0, res).first.Some? {
        var op, x, g := WhatWasReduced(level, 0, res);
        PatternClass(op);
        FirstCharacters(res.second, Pattern(op));
      }
    }
    hide Reduce, ParseLevel, Trim, Class;
  }

  lemma {:induction false} ChainReads(level: nat, s: string, t0: Text, w0: string, res: Result) returns (t: Text, w: string)
    requires 1 <= level <= LEVELS && Trimmed(s) && Reads(level, s, t0, w0, res) && res.first.Some?
    requires StopsAt(level, ReduceAll(level, res))
    ensures Reads(level, s, t, w, ReduceAll(level, res))
    decreases |s|, 3 * level + 1, |res.second|
  {
    t, w := t0, w0;
    if res.second != "" {
      var next := Reduce(level, 0, res);
      if next.first.Some? {
        assert ReduceAll(level, res) == ReduceAll(level, Result(next.first, Trim(next.second)));
        TrimTwice(next.second);
        ChainStops(level, Result(next.first, Trim(next.second)));
        hide ReduceAll, Trim, Trimmed, Flatten, Denoted, Loose, Stands;
        t, w := OperandReads(level, s, t0, w0, res);
        ReadsTail(level, s, t, w, next);
        TrimKept(next.second);
        t, w := ChainReads(level, s, t, w, next);
      }
    }
  }

  lemma {:induction false} OperandReads(level: nat, s: string, t0: Text, w0: string, res: Result) returns (t: Text, w: string)
    requires 1 <= level <= LEVELS && Trimmed(s) && Reads(level, s, t0, w0, res) && res.first.Some? && res.second != ""
    requires Reduce(level, 0, res).first.Some? && Stops(level - 1, Trim(Reduce(level, 0, res).second))
    ensures Reads(level, s, t, w, Reduce(level, 0, res))
    decreases |s|, 3 * level
  {
    var op, x, g := WhatWasReduced(level, 0, res);
    assert Operators(level)[0..] == Operators(level);
    TakenShort(level, res, op);
    TrimTwice(ParseLevel(level - 1, x).second);
    hide Reduce, ParseLevel, Trim, Trimmed, Flatten, Denoted, Loose, Pattern, Reads, StaysShort;
    t, w := OneOperandReads(level, s, t0, w0, res, op, x);
  }

  lemma {:induction false} OneOperandReads(level: nat, s: string, t0: Text, w0: string, res: Result, op: Operator, x: string)
    returns (t: Text, w: string)
    requires 1 <= level <= LEVELS && Trimmed(s) && Reads(level, s, t0, w0, res) && res.first.Some? && LevelOf(op) == level
    requires StartsWith(res.second, Pattern(op)) && x == Trim(res.second[|Pattern(op)|..])
    requires StaysShort(op, res.second[|Pattern(op)|..])
    requires ParseLevel(level - 1, x).first.Some? && Stops(level - 1, Trim(ParseLevel(level - 1, x).second))
    ensures var r := ParseLevel(level - 1, x);
            Reads(level, s, t, w, Result(Some(Binary(op, res.first.value, r.first.value)), Trim(r.second)))
    decreases |s|, 3 * level - 1
  {
    hide ParseLevel, Trim, Trimmed, Flatten, Denoted, Loose, Pattern, LevelOf, Stands, StaysShort, Reads, Tail, Stops, Broken, Outcome;
    ReadsTail(level, s, t0, w0, res);
    TrimTwice(res.second[|Pattern(op)|..]);
    assert |Pattern(op)| <= |res.second|;
    var w2 := OperatorOff(op, res.second);
    assert res.second == Pattern(op) + (w2 + x) && res.second[|Pattern(op)|..] == w2 + x;
    hide StartsWith;
    OperandShorter(level, s, t0, w0, res, op);
    var r := ParseLevel(level - 1, x);
    assert StopsAt(level - 1, r);
    var right;
    right, w := LevelReads(level - 1, x);
    ReadsTail(level - 1, x, right, w, r);
    TrimKept(r.second);
    t := TBinary(t0, w0, op, w2, right);
    OperandJoins(level, s, t0, w0, res, op, w2, x, right, w, r);
  }

  lemma OperatorOff(op: Operator, s: string) returns (w: string)
    requires Trimmed(s) && StartsWith(s, Pattern(op))
    ensures var rest := s[|Pattern(op)|..];
            s == Pattern(op) + (w + Trim(rest)) && rest == w + Trim(rest) && Tail(w, Trim(rest))
  {
    var rest := s[|Pattern(op)|..];
    assert s == Pattern(op) + rest;
    RestIsClear(Pattern(op), rest);
    hide Trim, Trimmed, EndClear, Pattern;
    w := TrimmedOff(rest);
  }

  lemma OperandShorter(level: nat, s: string, t0: Text, w0: string, res: Result, op: Operator)
    requires Reads(level, s, t0, w0, res) && StartsWith(res.second, Pattern(op))
    ensures |Trim(res.second[|Pattern(op)|..])| < |s|
  {
    PatternClass(op);
    hide Flatten, Denoted, Loose, Trimmed, Stands;
  }

  lemma OperandJoins(level: nat, s: string, t0: Text, w0: string, res: Result, op: Operator, w2: string, x: string,
                     right: Text, w: string, r: Result)
    requires Reads(level, s, t0, w0, res) && res.first.Some? && LevelOf(op) == level && Tail(w2, x)
    requires res.second == Pattern(op) + (w2 + x) && StaysShort(op, w2 + x)
    requires level >= 1 && Reads(level - 1, x, right, w, r) && r.first.Some?
    ensures Reads(level, s, TBinary(t0, w0, op, w2, right), w, Result(Some(Binary(op, res.first.value, r.first.value)), r.second))
  {
    var t := TBinary(t0, w0, op, w2, right);
    Append5(Flatten(t0), w0, Pattern(op), w2, Flatten(right), w + r.second);
    assert Flatten(t) == Flatten(t0) + (w0 + (Pattern(op) + (w2 + Flatten(right))));
    assert Loose(level, t) && Outcome(t) == Some(Binary(op, Denoted(t0), Denoted(right)));
    assert Stands(t, w, r.second);
    hide Flatten, Trimmed, Loose, Denoted, Pattern, Stands, StaysShort;
  }

  lemma {:induction false} TernaryReads(s: string) returns (t: Text, w: string)
    requires Trimmed(s) && Stops(TOP_LEVEL, Trim(ParseTernary(s).second))
    ensures Reads(TOP_LEVEL, s, t, w, ParseTernary(s))
    decreases |s|, 30
  {
    var cond := ParseLevel(LEVELS, s);
    if AtQuestion(cond.second) {
      t, w := ChoiceReads(s);
    } else {
      assert ParseTernary(s) == cond;
      hide ParseTernary, ParseLevel, Flatten, Denoted, Loose, Trimmed, Stands, Trim;
      t, w := LevelReads(LEVELS, s);
      ReadsAbove(LEVELS, TOP_LEVEL, s, t, w, cond);
    }
  }

  lemma {:induction false} ChoiceReads(s: string) returns (t: Text, w: string)
    requires Trimmed(s) && Stops(TOP_LEVEL, Trim(ParseTernary(s).second)) && AtQuestion(ParseLevel(LEVELS, s).second)
    ensures Reads(TOP_LEVEL, s, t, w, ParseTernary(s))
    decreases |s|, 29
  {
    hide ParseTernary, ParseLevel, Trim, Trimmed, Flatten, Denoted, Loose, Stands, Outcome, Reads, Tail;
    var cond := ParseLevel(LEVELS, s);
    var x := Trim(cond.second[1..]);
    var val := ParseTernary(x);
    ChoiceCases(s, cond, x, val);
    TrimHead(cond.second);
    TrimTwice(cond.second[1..]);
    assert StopsAt(LEVELS, cond);
    hide Class;
    var c, w1 := LevelReads(LEVELS, s);
    ReadsTail(LEVELS, s, c, w1, cond);
    ReadsShorter(LEVELS, s, c, w1, cond);
    var w2 := HeadOff(cond.second);
    if val.second != "" && val.second[0] == ':' {
      Closes(val.second);
      var v, w3 := TernaryReads(x);
      ReadsTail(TOP_LEVEL, x, v, w3, val);
      ReadsShorter(TOP_LEVEL, x, v, w3, val);
      var w4 := HeadOff(val.second);
      TrimTwice(val.second[1..]);
      var alt := ParseTernary(Trim(val.second[1..]));
      var a;
      a, w := TernaryReads(Trim(val.second[1..]));
      t := TChoice(c, w1, w2, v, w3, w4, a);
      ChoiceJoins(s, c, w1, cond, w2, v, w3, val, w4, a, w, alt);
    } else {
      var v;
      v, w := TernaryReads(x);
      t := TNoColon(c, w1, w2, v);
      NoColonJoins(s, c, w1, cond, w2, v, w, val);
    }
  }

  lemma ReadsShorter(level: nat, s: string, t: Text, w: string, r: Result)
    requires Reads(level, s, t, w, r)
    ensures |r.second| <= |s|
  {
    hide Flatten, Stands, Loose, Denoted, Trimmed;
  }

  lemma ChoiceCases(s: string, cond: Result, x: string, val: Result)
    requires cond == ParseLevel(LEVELS, s) && AtQuestion(cond.second) && x == Trim(cond.second[1..]) && val == ParseTernary(x)
    ensures cond.first.Some?
    ensures val.second != "" && val.second[0] == ':' ==>
              var alt := ParseTernary(Trim(val.second[1..]));
              ParseTernary(s) == Result(Some(Choice(cond.first.value, val.first, alt.first)), alt.second)
    ensures val.second == "" || val.second[0] != ':' ==> ParseTernary(s) == Result(None, val.second)
  {
    hide ParseLevel, Trim;
  }

  lemma ChoiceJoins(s: string, c: Text, w1: string, cond: Result, w2: string, v: Text, w3: string, val: Result, w4: string,
                    a: Text, w: string, alt: Result)
    requires Reads(LEVELS, s, c, w1, cond) && cond.first.Some? && AtQuestion(cond.second)
    requires var x := Trim(cond.second[1..]); Tail(w2, x) && cond.second == [cond.second[0]] + (w2 + x) && Reads(TOP_LEVEL, x, v, w3, val)
    requires val.second != "" && val.second[0] == ':'
    requires var z := Trim(val.second[1..]); Tail(w4, z) && val.second == [val.second[0]] + (w4 + z) && Reads(TOP_LEVEL, z, a, w, alt)
    ensures Reads(TOP_LEVEL, s, TChoice(c, w1, w2, v, w3, w4, a), w,
                  Result(Some(Choice(cond.first.value, val.first, alt.first)), alt.second))
  {
    var t := TChoice(c, w1, w2, v, w3, w4, a);
    hide Flatten, Trim, Trimmed, Loose, Denoted, Blank, Stands, Outcome, Broken;
    OutcomeIs(c);
    OnlyNothing(v, w3, val.second);
    OnlyNothing(a, w, alt.second);
    assert [cond.second[0]] == "?" && [val.second[0]] == ":";
    ChoiceText(t, w + alt.second);
    ChoiceStands(t, w, alt.second, cond.second, val.second);
    PartsAreLoose(t);
  }

  lemma PartsAreLoose(t: Text)
    requires t.TChoice? && Blank(t.w1) && Snug(t.w2, t.val) && Blank(t.w3) && Snug(t.w4, t.alt) && !Broken(t.cond)
    requires Loose(LEVELS, t.cond) && Loose(TOP_LEVEL, t.val) && Loose(TOP_LEVEL, t.alt)
    ensures Loose(TOP_LEVEL, t) && Outcome(t) == Some(Choice(Denoted(t.cond), Outcome(t.val), Outcome(t.alt)))
  {
    hide Blank, Snug;
  }

  lemma ChoiceStands(t: Text, w: string, y: string, question: string, colon: string)
    requires t.TChoice? && Stands(t.cond, t.w1, question) && Stands(t.val, t.w3, colon) && Stands(t.alt, w, y)
    requires colon == ":" + (t.w4 + (Flatten(t.alt) + (w + y))) && question == "?" + (t.w2 + (Flatten(t.val) + (t.w3 + colon)))
    ensures Stands(t, w, y)
  {
    hide Flatten;
  }

  lemma NoColonJoins(s: string, c: Text, w1: string, cond: Result, w2: string, v: Text, w: string, val: Result)
    requires Reads(LEVELS, s, c, w1, cond) && cond.first.Some? && AtQuestion(cond.second)
    requires var x := Trim(cond.second[1..]); Tail(w2, x) && cond.second == [cond.second[0]] + (w2 + x) && Reads(TOP_LEVEL, x, v, w, val)
    requires val.second == "" || val.second[0] != ':'
    ensures Reads(TOP_LEVEL, s, TNoColon(c, w1, w2, v), w, Result(None, val.second))
  {
    hide Flatten, Trim, Trimmed, Loose, Denoted, Blank, Stands, Outcome, Broken;
    var t := TNoColon(c, w1, w2, v);
    OutcomeIs(c);
    OnlyNothing(v, w, val.second);
    assert [cond.second[0]] == "?";
    NoChoiceText(Flatten(c), w1, w2, Flatten(v), w + val.second);
    NoColonStands(t, w, cond.second, val.second);
  }

  lemma NoColonStands(t: Text, w: string, question: string, y: string)
    requires t.TNoColon? && Blank(t.w1) && Snug(t.w2, t.val) && !Broken(t.cond)
    requires Loose(LEVELS, t.cond) && Loose(TOP_LEVEL, t.val) && (y == "" || y[0] != ':')
    requires Stands(t.cond, t.w1, question) && Stands(t.val, w, y) && question == "?" + (t.w2 + (Flatten(t.val) + (w + y)))
    ensures Flatten(t) == Flatten(t.cond) + (t.w1 + ("?" + (t.w2 + Flatten(t.val))))
    ensures Loose(TOP_LEVEL, t) && Outcome(t) == None && Stands(t, w, y)
  {
    hide Blank, Snug;
  }

  /** Every accepted text is one that stands by itself, with blanks around it, and gives the function
      it denotes. */
  lemma AcceptedIsText(s: string) returns (t: Text, before: string, after: string)
    requires Parse(s).Some?
    ensures Loose(TOP_LEVEL, t) && !Broken(t) && Stands(t, "", "") && Blank(before) && Blank(after)
    ensures s == before + (Flatten(t) + after) && Parse(s) == Some(Denoted(t))
  {
    var x := Trim(s);
    before, after := CutOff(s);
    TrimKept("");
    var w;
    t, w := TernaryReads(x);
    assert Flatten(t) + ("" + "") == Flatten(t);
    assert ParseTernary(x).second == "" && w == "";
  }

  /** The text of a formula in the wider sense: with blanks around it, it is read as it is written. */
  ghost predicate IsText(s: string) {
    exists t, before, after :: Loose(TOP_LEVEL, t) && !Broken(t) && Stands(t, "", "") && Blank(before) && Blank(after) &&
                               s == before + (Flatten(t) + after)
  }

  /** What the parser accepts is exactly that. */
  lemma AcceptedExactly(s: string)
    ensures Parse(s).Some? <==> IsText(s)
  {
    if Parse(s).Some? {
      var t, before, after := AcceptedIsText(s);
    }
    if IsText(s) {
      var t, before, after :| Loose(TOP_LEVEL, t) && !Broken(t) && Stands(t, "", "") && Blank(before) && Blank(after) &&
                              s == before + (Flatten(t) + after);
      TextIsAccepted(t, before, after);
    }
    hide Parse, Loose, Stands, Flatten, Broken, Denoted;
  }

  /** An accepted text cannot be evaluated for `n` exactly if evaluation comes to a broken branch; else
      its function computes its meaning. */
  lemma AcceptedMeans(s: string, n: Num) returns (t: Text, before: string, after: string)
    requires Parse(s).Some?
    ensures Loose(TOP_LEVEL, t) && !Broken(t) && Stands(t, "", "") && Blank(before) && Blank(after)
    ensures s == before + (Flatten(t) + after) && Parse(s) == Some(Denoted(t))
    ensures Eval(Parse(s).value, n) == None <==> Reaches(t, n)
    ensures !Reaches(t, n) ==> Eval(Parse(s).value, n) == Some(Meaning(t, n))
  {
    t, before, after := AcceptedIsText(s);
    DenotedMeans(t, n);
    hide *;
  }

  // ----- texts that are accepted but are no formulas -----

  lemma Accepted(t: Text, s: string)
    requires Loose(TOP_LEVEL, t) && !Broken(t) && Stands(t, "", "") && Flatten(t) == s
    ensures Parse(s) == Some(Denoted(t))
  {
    TextIsAccepted(t, "", "");
    assert "" + (s + "") == s;
    hide Parse, Flatten, Loose, Stands, Broken, Denoted;
  }

  /** A missing operand is 0. */
  lemma NothingInParentheses()
    ensures Parse("()") == Some(Const(0))
  {
    var t := TParens("", TMissing, "");
    assert Stands(TMissing, "", ")" + ("" + "")) && Loose(TOP_LEVEL, TMissing) && Denoted(TMissing) == Const(0);
    assert Flatten(TMissing) == "" && "(" + ("" + ("" + ("" + ")"))) == "()";
    Accepted(t, "()");
  }

  /** A number may have a sign. */
  lemma NumberWithSign()
    ensures Parse("-1") == Some(Const(MODULUS - 1))
  {
    OneRead();
    assert ['-'] + "1" == "-1";
    hide *;
    Accepted(TSigned(true, "1"), "-1");
  }

  lemma OneRead()
    ensures var t := TSigned(true, "1");
            Denoted(t) == Const(MODULUS - 1) && Loose(TOP_LEVEL, t) && !Broken(t) && Stands(t, "", "") && Flatten(t) == ['-'] + "1"
  {
    assert "1"[..0] == "" && DecimalValue("") == 0;
    assert DecimalValue("1") == 10 * DecimalValue("1"[..0]) + DigitValue('1') == 1;
    assert forall i :: 0 <= i < |"1"| ==> Digit("1"[i]);
    assert NumberOf("1", true) == SignedValue(1, true);
  }

  lemma ChoiceAccepted(v: Text, a: Text, sv: string, sa: string)
    requires Loose(TOP_LEVEL, v) && Loose(TOP_LEVEL, a) && !v.TNothing? && sv == Flatten(v) && sa == Flatten(a)
    requires Stands(v, "", ":" + ("" + (sa + ("" + "")))) && Stands(a, "", "")
    ensures Parse("n?" + (sv + (":" + sa))) == Some(Choice(Identity, Outcome(v), Outcome(a)))
  {
    var t := TChoice(TIdentity, "", "", v, "", "", a);
    ChoiceIsLoose(v, a);
    NoBlanks(sv, sa);
    hide *;
    Accepted(t, "n?" + (sv + (":" + sa)));
  }

  lemma ChoiceIsLoose(v: Text, a: Text)
    requires Loose(TOP_LEVEL, v) && Loose(TOP_LEVEL, a) && !v.TNothing?
    requires Stands(v, "", ":" + ("" + (Flatten(a) + ("" + "")))) && Stands(a, "", "")
    ensures var t := TChoice(TIdentity, "", "", v, "", "", a);
            && Loose(TOP_LEVEL, t) && !Broken(t) && Stands(t, "", "") && Denoted(t) == Choice(Identity, Outcome(v), Outcome(a))
            && Flatten(t) == "n" + ("" + ("?" + ("" + (Flatten(v) + ("" + (":" + ("" + Flatten(a))))))))
  {
    assert Denoted(TIdentity) == Identity && Flatten(TIdentity) == "n" && Loose(LEVELS, TIdentity);
  }

  lemma NoBlanks(sv: string, sa: string)
    ensures "n" + ("" + ("?" + ("" + (sv + ("" + (":" + ("" + sa))))))) == "n?" + (sv + (":" + sa))
  {
    assert "n" + ("" + ("?" + ("" + (sv + ("" + (":" + ("" + sa))))))) == ("n" + "?") + (sv + (":" + sa));
  }

  /** Branches may be missing: the alternative, by the end of the text, by a group that is not closed
      or by a choice without its colon, and also the value. */
  lemma MissingAlternative()
    ensures Parse("n?n:") == Some(Choice(Identity, Some(Identity), None))
    ensures Parse("n?n:(n") == Some(Choice(Identity, Some(Identity), None))
    ensures Parse("n?n:n?n") == Some(Choice(Identity, Some(Identity), None))
  {
    hide Parse;
    assert "n?" + ("n" + (":" + "")) == "n?n:" && Flatten(TNothing) == "" && Flatten(TIdentity) == "n";
    ChoiceAccepted(TIdentity, TNothing, "n", "");
    OpenGroup("");
    assert "n?" + ("n" + (":" + "(n")) == "n?n:(n";
    ChoiceAccepted(TIdentity, TOpen("", TIdentity), "n", "(n");
    OpenChoice();
    assert "n?" + ("n" + (":" + "n?n")) == "n?n:n?n";
    ChoiceAccepted(TIdentity, TNoColon(TIdentity, "", "", TIdentity), "n", "n?n");
  }

  lemma OpenChoice()
    ensures var t := TNoColon(TIdentity, "", "", TIdentity);
            Flatten(t) == "n?n" && Loose(TOP_LEVEL, t) && Outcome(t) == None && Stands(t, "", "")
  {
    assert Flatten(TIdentity) == "n";
    assert "n" + ("" + ("?" + ("" + "n"))) == "n?n";
  }

  lemma OpenGroup(y: string)
    requires y == "" || y[0] != ')'
    ensures var t := TOpen("", TIdentity);
            Flatten(t) == "(n" && Loose(TOP_LEVEL, t) && Outcome(t) == None && Stands(t, "", y)
  {
    assert "(" + ("" + "n") == "(n";
  }

  lemma MissingValue()
    ensures Parse("n?(n:n") == Some(Choice(Identity, None, Some(Identity)))
  {
    hide Parse;
    OpenGroup(":" + ("" + ("n" + ("" + ""))));
    assert "n?" + ("(n" + (":" + "n")) == "n?(n:n" && Flatten(TIdentity) == "n";
    ChoiceAccepted(TOpen("", TIdentity), TIdentity, "(n", "n");
  }

  /** There are numbers for which such a function cannot be evaluated. */
  lemma MissingBranchFails()
    ensures Eval(Choice(Identity, Some(Identity), None), 0) == None && Eval(Choice(Identity, None, Some(Identity)), 5) == None
  {
    assert Eval(Identity, 0) == Some(0) && Eval(Identity, 5) == Some(5);
  }
}
