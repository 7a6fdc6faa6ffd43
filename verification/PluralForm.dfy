/** The parser for the plural formulas of message catalogues. */
module PluralForm {
  import opened Characters
  import opened Wrappers

  // ----- numbers and functions -----

  /** Numbers are unsigned and wrap around. */
  const MODULUS := 0x1_0000_0000_0000_0000

  type Num = n: nat | n < MODULUS

  datatype Operator = Mul | Div | Mod | Add | Sub | Le | Ge | Lt | Gt | Eq | Ne | And | Or

  /** The functions that the parser builds. The branches of a choice may be missing. */
  datatype Fn =
    | Identity
    | Const(value: Num)
    | Not(arg: Fn)
    | Binary(op: Operator, left: Fn, right: Fn)
    | Choice(cond: Fn, val: Option<Fn>, alt: Option<Fn>)

  function Truth(b: bool): Num {
    if b then 1 else 0
  }

  function Apply(op: Operator, x: Num, y: Num): Num {
    match op
    case Mul => (x * y) % MODULUS
    case Div => if y == 0 then 0 else Quotient(x, y)
    case Mod => if y == 0 then 0 else x % y
    case Add => (x + y) % MODULUS
    case Sub => (x - y) % MODULUS
    case Le => Truth(x <= y)
    case Ge => Truth(x >= y)
    case Lt => Truth(x < y)
    case Gt => Truth(x > y)
    case Eq => Truth(x == y)
    case Ne => Truth(x != y)
    case And => Truth(x != 0 && y != 0)
    case Or => Truth(x != 0 || y != 0)
  }

  function Quotient(x: Num, y: Num): Num
    requires y != 0
  {
    QuotientFits(x, y);
    x / y
  }

  lemma QuotientFits(x: nat, y: nat)
    requires y != 0
    ensures 0 <= x / y <= x
  {
    var q := x / y;
    assert x == q * y + x % y;
    TimesAtLeast(q, y);
  }

  lemma {:induction false} TimesAtLeast(q: int, y: nat)
    requires y >= 1
    ensures q >= 0 ==> q * y >= q
    ensures q < 0 ==> q * y <= q
  {
    if y > 1 {
      TimesAtLeast(q, y - 1);
      assert q * y == q * (y - 1) + q;
    }
  }

  /** What the function returns for `n`; None when it calls a missing branch, which is an error. */
  function Eval(f: Fn, n: Num): Option<Num> {
    match f
    case Identity => Some(n)
    case Const(v) => Some(v)
    case Not(g) => var x := Eval(g, n); if x.None? then None else Some(Truth(x.value == 0))
    case Binary(op, g, h) =>
      var x, y := Eval(g, n), Eval(h, n);
      if x.None? || y.None? then None else Some(Apply(op, x.value, y.value))
    case Choice(c, v, a) =>
      var x := Eval(c, n);
      if x.None? then None
      else if x.value != 0 then (if v.None? then None else Eval(v.value, n))
      else (if a.None? then None else Eval(a.value, n))
  }

  /** They differ by a multiple of 2^64. */
  ghost predicate Congruent(a: int, r: int) {
    exists k: int :: a == k * 0x1_0000_0000_0000_0000 + r
  }

  ghost predicate IsOne(r: int, b: bool) {
    r == if b then 1 else 0
  }

  /** `r` is what C makes of two unsigned 64-bit numbers; dividing by 0 gives 0. */
  ghost predicate IsValueOf(op: Operator, x: int, y: int, r: int) {
    && 0 <= r < 0x1_0000_0000_0000_0000
    && match op
       case Mul => Congruent(x * y, r)
       case Add => Congruent(x + y, r)
       case Sub => Congruent(x - y, r)
       case Div => if y == 0 then r == 0 else r * y <= x < r * y + y
       case Mod => if y == 0 then r == 0 else r < y && exists q: int :: x == q * y + r
       case Le => IsOne(r, x <= y)
       case Ge => IsOne(r, y <= x)
       case Lt => IsOne(r, x < y)
       case Gt => IsOne(r, y < x)
       case Eq => IsOne(r, x == y)
       case Ne => IsOne(r, x < y || y < x)
       case And => IsOne(r, x > 0 && y > 0)
       case Or => IsOne(r, x + y > 0)
  }

  /** Every operator computes what C does. */
  lemma EvalIsC(op: Operator, f: Fn, g: Fn, n: Num)
    requires Eval(f, n).Some? && Eval(g, n).Some?
    ensures Eval(Binary(op, f, g), n).Some?
    ensures IsValueOf(op, Eval(f, n).value, Eval(g, n).value, Eval(Binary(op, f, g), n).value)
  {
    ApplyIsC(op, Eval(f, n).value, Eval(g, n).value);
    hide Apply, IsValueOf;
  }

  lemma ApplyIsC(op: Operator, x: Num, y: Num)
    ensures IsValueOf(op, x, y, Apply(op, x, y))
  {
    match op
    case Mul => Wraps(x * y);
    case Add => Wraps(x + y);
    case Sub => Wraps(x - y);
    case Div => if y != 0 { Divides(x, y); }
    case Mod => if y != 0 { Divides(x, y); }
    case _ =>
  }

  lemma Wraps(a: int)
    ensures Congruent(a, a % MODULUS)
  {
    assert a == (a / MODULUS) * 0x1_0000_0000_0000_0000 + a % MODULUS;
  }

  lemma Divides(x: nat, y: nat)
    requires y != 0
    ensures (x / y) * y <= x < (x / y) * y + y && x % y < y && x == (x / y) * y + x % y
  {
  }

  /** No branch is missing. */
  predicate Complete(f: Fn) {
    match f
    case Identity => true
    case Const(_) => true
    case Not(g) => Complete(g)
    case Binary(_, g, h) => Complete(g) && Complete(h)
    case Choice(c, v, a) => Complete(c) && v.Some? && a.Some? && Complete(v.value) && Complete(a.value)
  }

  // ----- strings -----

  predicate Digit(c: char) {
    '0' <= c <= '9'
  }

  function TrimFront(s: string): (r: string)
    ensures |r| <= |s| && (r != "" ==> !Space(r[0]))
  {
    if s != "" && Space(s[0]) then TrimFront(s[1..]) else s
  }

  function TrimBack(s: string): (r: string)
    ensures |r| <= |s|
  {
    if s != "" && Space(s[|s| - 1]) then TrimBack(s[..|s| - 1]) else s
  }

  function Trim(s: string): (r: string)
    ensures |r| <= |s|
  {
    TrimBack(TrimFront(s))
  }

  predicate StartsWith(s: string, p: string) {
    |p| <= |s| && s[..|p|] == p
  }

  /** How many digits the string starts with. */
  function DigitCount(s: string): (n: nat)
    ensures n <= |s| && forall i :: 0 <= i < n ==> Digit(s[i])
  {
    if s != "" && Digit(s[0]) then 1 + DigitCount(s[1..]) else 0
  }

  function DigitValue(c: char): nat
    requires Digit(c)
  {
    c as int - '0' as int
  }

  function DecimalValue(digits: string): nat
    requires forall i :: 0 <= i < |digits| ==> Digit(digits[i])
  {
    if digits == "" then 0 else 10 * DecimalValue(digits[..|digits| - 1]) + DigitValue(digits[|digits| - 1])
  }

  function SignedValue(value: nat, minus: bool): Num {
    if value >= MODULUS then MODULUS - 1 else if minus then (MODULUS - value) % MODULUS else value
  }

  /** A number with an optional sign: its value, and how many characters it takes (none when there is
      no digit). Too large a number is the largest one; a negative one wraps around. */
  function ReadNumber(s: string): (r: (Num, nat))
    requires s != ""
    ensures r.1 <= |s|
  {
    var sign := if s[0] == '+' || s[0] == '-' then 1 else 0;
    var count := DigitCount(s[sign..]);
    if count == 0 then (0, 0) else
      var value := DecimalValue(s[sign..][..count]);
      (SignedValue(value, s[0] == '-'), sign + count)
  }

  // ----- the parser -----

  /** A function, or None, and the rest of the text. */
  datatype Result = Result(first: Option<Fn>, second: string)

  function Pattern(op: Operator): string {
    match op
    case Mul => "*" case Div => "/" case Mod => "%" case Add => "+" case Sub => "-"
    case Le => "<=" case Ge => ">=" case Lt => "<" case Gt => ">" case Eq => "==" case Ne => "!="
    case And => "&&" case Or => "||"
  }

  const LEVELS := 6

  /** The operators of one precedence level, in the order in which they are tried. */
  function Operators(level: nat): seq<Operator>
    requires 1 <= level <= LEVELS
  {
    if level == 1 then [Mul, Div, Mod]
    else if level == 2 then [Add, Sub]
    else if level == 3 then [Le, Ge, Lt, Gt]
    else if level == 4 then [Eq, Ne]
    else if level == 5 then [And]
    else [Or]
  }

  predicate AtQuestion(s: string) {
    s != "" && s[0] == '?'
  }

  function ParseAtomic(s: string): (r: Result)
    ensures |r.second| <= |s|
  {
    if s == "" then Result(None, s)
    else if s[0] == 'n' then Result(Some(Identity), Trim(s[1..]))
    else
      var (val, used) := ReadNumber(s);
      Result(Some(Const(val)), Trim(s[used..]))
  }

  function ParseParenthesized(s: string): (r: Result)
    ensures |r.second| <= |s| && (r.first.None? ==> !AtQuestion(r.second))
    decreases |s|, 0
  {
    if s == "" then Result(None, s)
    else if s[0] != '(' then ParseAtomic(s)
    else
      var result := ParseExpr(s[1..]);
      if result.first.None? then result
      else if result.second == "" || result.second[0] != ')' then Result(None, result.second)
      else Result(result.first, Trim(result.second[1..]))
  }

  function ParseNegation(s: string): (r: Result)
    ensures |r.second| <= |s| && (r.first.None? ==> !AtQuestion(r.second))
    decreases |s|, 1
  {
    if s == "" then Result(None, s)
    else if s[0] != '!' then ParseParenthesized(s)
    else
      var result := ParseNegation(Trim(s[1..]));
      if result.first.None? then result else Result(Some(Not(result.first.value)), result.second)
  }

  /** Tries one operator after what has been parsed. */
  function ReduceSingle(level: nat, op: Operator, res: Result): (r: Result)
    requires 1 <= level <= LEVELS && res.first.Some?
    ensures |r.second| <= |res.second| && (r.first.Some? ==> |r.second| < |res.second|)
    decreases |res.second|, 3 * level, 0
  {
    if !StartsWith(res.second, Pattern(op)) then Result(None, res.second)
    else
      var next := ParseLevel(level - 1, Trim(res.second[|Pattern(op)|..]));
      if next.first.None? then next else Result(Some(Binary(op, res.first.value, next.first.value)), Trim(next.second))
  }

  /** Tries the operators of a level from number `i` on. */
  function Reduce(level: nat, i: nat, res: Result): (r: Result)
    requires 1 <= level <= LEVELS && res.first.Some? && i <= |Operators(level)|
    ensures |r.second| <= |res.second| && (r.first.Some? ==> |r.second| < |res.second|)
    decreases |res.second|, 3 * level, 1 + |Operators(level)| - i
  {
    if i == |Operators(level)| then Result(None, res.second)
    else
      var next := ReduceSingle(level, Operators(level)[i], res);
      if next.first.Some? || next.second != res.second then next else Reduce(level, i + 1, res)
  }

  /** Takes in operators of a level for as long as there are any. */
  function ReduceAll(level: nat, res: Result): (r: Result)
    requires 1 <= level <= LEVELS && res.first.Some?
    ensures |r.second| <= |res.second| && r.first.Some?
    decreases |res.second|, 3 * level + 1
  {
    if res.second == "" then res
    else
      var next := Reduce(level, 0, res);
      if next.first.None? then res else ReduceAll(level, Result(next.first, Trim(next.second)))
  }

  /** Parses an expression of operators of this level or of levels that bind more tightly. */
  function ParseLevel(level: nat, s: string): (r: Result)
    requires level <= LEVELS
    ensures |r.second| <= |s| && (r.first.None? ==> !AtQuestion(r.second))
    decreases |s|, 3 * level + 2
  {
    if level == 0 then ParseNegation(s)
    else
      var res := ParseLevel(level - 1, s);
      if res.first.None? then res else ReduceAll(level, Result(res.first, Trim(res.second)))
  }

  function ParseTernary(s: string): (r: Result)
    ensures |r.second| <= |s| && !AtQuestion(r.second)
    decreases |s|, 30
  {
    var cond := ParseLevel(LEVELS, s);
    if !AtQuestion(cond.second) then cond
    else
      var val := ParseTernary(Trim(cond.second[1..]));
      if val.second == "" || val.second[0] != ':' then Result(None, val.second)
      else
        var alt := ParseTernary(Trim(val.second[1..]));
        Result(Some(Choice(cond.first.value, val.first, alt.first)), alt.second)
  }

  function ParseExpr(s: string): (r: Result)
    ensures |r.second| <= |s| && !AtQuestion(r.second)
    decreases |s|, 31
  {
    ParseTernary(Trim(s))
  }

  function Parse(s: string): Option<Fn> {
    var result := ParseExpr(s);
    if result.second != "" then None else result.first
  }

  /** The loop over the operators of a level. */
  method ParseLtr(level: nat, s: string) returns (pres: Result)
    requires 1 <= level <= LEVELS
    ensures pres == ParseLevel(level, s)
  {
    pres := ParseLevel(level - 1, s);
    if pres.first.None? {
      return;
    }
    pres := Result(pres.first, Trim(pres.second));
    while pres.second != ""
      invariant pres.first.Some? && ReduceAll(level, pres) == ParseLevel(level, s)
      decreases |pres.second|
    {
      var next := Reduce(level, 0, pres);
      if next.first.None? {
        return;
      }
      pres := Result(next.first, Trim(next.second));
    }
  }
}
