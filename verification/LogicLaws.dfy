/** The boolean simplifier of veriflow/logic_laws.py.

`Simplify` rewrites terms it has just built (De Morgan, double negation), so structural recursion does not
terminate it; `Weight` does.  The lemmas say that the rewriting keeps the truth value under every assignment,
that its results are exactly the terms `IsNormal` describes, and that negation is an involution on them. */
module LogicLaws {

  datatype Expr =
    | BoolConst(value: bool)
    | Symbol(name: string)
    | Not(expr: Expr)
    | And(left: Expr, right: Expr)
    | Or(left: Expr, right: Expr)

  const T := BoolConst(true)
  const F := BoolConst(false)

  // ----- Termination measure -----

  // Doubling under a negation pays for De Morgan's step: 2(a + b + 1) > 2a + 2b + 1.
  function Weight(e: Expr): (w: nat)
    ensures w >= 1
  {
    match e
    case BoolConst(_) => 1
    case Symbol(_) => 1
    case Not(a) => 2 * Weight(a)
    case And(a, b) => Weight(a) + Weight(b) + 1
    case Or(a, b) => Weight(a) + Weight(b) + 1
  }

  lemma DeMorganIsLighter(a: Expr, b: Expr)
    ensures Weight(Or(Not(a), Not(b))) < Weight(Not(And(a, b)))
    ensures Weight(And(Not(a), Not(b))) < Weight(Not(Or(a, b)))
  {
    assert Weight(Not(a)) == 2 * Weight(a) && Weight(Not(b)) == 2 * Weight(b);
  }

  // ----- The simplifier -----

  // The tail of the conjunction case, once both operands are simplified.
  function JoinAnd(left: Expr, right: Expr): (r: Expr)
    ensures Weight(r) <= Weight(left) + Weight(right) + 1
  {
    if left == right then left
    else if left == T then right
    else if right == T then left
    else if left == F || right == F then F
    else if right.Or? && right.left == left then left
    else if left.Or? && left.left == right then right
    else And(left, right)
  }

  function JoinOr(left: Expr, right: Expr): (r: Expr)
    ensures Weight(r) <= Weight(left) + Weight(right) + 1
  {
    if left == right then left
    else if left == F then right
    else if right == F then left
    else if left == T || right == T then T
    else if right.And? && right.left == left then left
    else if left.And? && left.left == right then right
    else Or(left, right)
  }

  function Simplify(e: Expr): (r: Expr)
    ensures Weight(r) <= Weight(e)
    decreases Weight(e)
  {
    match e
    case BoolConst(_) => e
    case Symbol(_) => e
    case Not(a) =>
      var inner := Simplify(a);
      match inner {
        case BoolConst(v) => BoolConst(!v)
        case Not(b) => Simplify(b)
        case And(b, c) =>
          DeMorganIsLighter(b, c);
          Simplify(Or(Not(b), Not(c)))
        case Or(b, c) =>
          DeMorganIsLighter(b, c);
          Simplify(And(Not(b), Not(c)))
        case Symbol(_) => Not(inner)
      }
    case And(a, b) => JoinAnd(Simplify(a), Simplify(b))
    case Or(a, b) => JoinOr(Simplify(a), Simplify(b))
  }

  // ----- Meaning -----

  type Assignment = string -> bool

  function Eval(e: Expr, env: Assignment): bool {
    match e
    case BoolConst(v) => v
    case Symbol(n) => env(n)
    case Not(a) => !Eval(a, env)
    case And(a, b) => Eval(a, env) && Eval(b, env)
    case Or(a, b) => Eval(a, env) || Eval(b, env)
  }

  lemma JoinMeaning(a: Expr, b: Expr, env: Assignment)
    ensures Eval(JoinAnd(a, b), env) == (Eval(a, env) && Eval(b, env))
    ensures Eval(JoinOr(a, b), env) == (Eval(a, env) || Eval(b, env))
  {
  }

  // Simplification never changes the truth value, whatever the symbols stand for.
  lemma {:induction false} SimplifyPreservesMeaning(e: Expr, env: Assignment)
    ensures Eval(Simplify(e), env) == Eval(e, env)
    decreases Weight(e)
  {
    match e
    case BoolConst(_) =>
    case Symbol(_) =>
    case Not(a) =>
      var inner := Simplify(a);
      SimplifyPreservesMeaning(a, env);
      match inner {
        case Not(b) => SimplifyPreservesMeaning(b, env);
        case And(b, c) =>
          DeMorganIsLighter(b, c);
          SimplifyPreservesMeaning(Or(Not(b), Not(c)), env);
        case Or(b, c) =>
          DeMorganIsLighter(b, c);
          SimplifyPreservesMeaning(And(Not(b), Not(c)), env);
        case BoolConst(_) =>
        case Symbol(_) =>
      }
    case And(a, b) =>
      SimplifyPreservesMeaning(a, env); SimplifyPreservesMeaning(b, env);
      JoinMeaning(Simplify(a), Simplify(b), env);
    case Or(a, b) =>
      SimplifyPreservesMeaning(a, env); SimplifyPreservesMeaning(b, env);
      JoinMeaning(Simplify(a), Simplify(b), env);
  }

  // ----- Normal forms -----

  // No constant, negation on symbols only, no operand pair that idempotence or left absorption would remove.
  predicate IsReduced(e: Expr) {
    match e
    case BoolConst(_) => false
    case Symbol(_) => true
    case Not(a) => a.Symbol?
    case And(a, b) =>
      IsReduced(a) && IsReduced(b) && a != b && !(b.Or? && b.left == a) && !(a.Or? && a.left == b)
    case Or(a, b) =>
      IsReduced(a) && IsReduced(b) && a != b && !(b.And? && b.left == a) && !(a.And? && a.left == b)
  }

  predicate IsNormal(e: Expr) {
    e.BoolConst? || IsReduced(e)
  }

  lemma {:induction false} SimplifyReachesNormalForm(e: Expr)
    ensures IsNormal(Simplify(e))
    decreases Weight(e)
  {
    match e
    case BoolConst(_) =>
    case Symbol(_) =>
    case Not(a) =>
      var inner := Simplify(a);
      SimplifyReachesNormalForm(a);
      match inner {
        case Not(b) => SimplifyReachesNormalForm(b);
        case And(b, c) =>
          DeMorganIsLighter(b, c);
          SimplifyReachesNormalForm(Or(Not(b), Not(c)));
        case Or(b, c) =>
          DeMorganIsLighter(b, c);
          SimplifyReachesNormalForm(And(Not(b), Not(c)));
        case BoolConst(_) =>
        case Symbol(_) =>
      }
    case And(a, b) => SimplifyReachesNormalForm(a); SimplifyReachesNormalForm(b);
    case Or(a, b) => SimplifyReachesNormalForm(a); SimplifyReachesNormalForm(b);
  }

  lemma {:induction false} ReducedIsFixed(e: Expr)
    requires IsReduced(e)
    ensures Simplify(e) == e
  {
    match e
    case Symbol(_) =>
    case Not(a) => assert Simplify(a) == a;
    case And(a, b) => ReducedIsFixed(a); ReducedIsFixed(b);
    case Or(a, b) => ReducedIsFixed(a); ReducedIsFixed(b);
  }

  // The normal forms are exactly the terms simplification leaves alone.
  lemma {:induction false} FixedIffNormal(e: Expr)
    ensures Simplify(e) == e <==> IsNormal(e)
  {
    SimplifyReachesNormalForm(e);
    if IsReduced(e) { ReducedIsFixed(e); }
  }

  lemma SimplifyIsIdempotent(e: Expr)
    ensures Simplify(Simplify(e)) == Simplify(e)
  {
    SimplifyReachesNormalForm(e);
    FixedIffNormal(Simplify(e));
  }

  // ----- Size and vocabulary -----

  function Symbols(e: Expr): set<string> {
    match e
    case BoolConst(_) => {}
    case Symbol(n) => {n}
    case Not(a) => Symbols(a)
    case And(a, b) => Symbols(a) + Symbols(b)
    case Or(a, b) => Symbols(a) + Symbols(b)
  }

  function Leaves(e: Expr): (n: nat)
    ensures n >= 1
  {
    match e
    case BoolConst(_) => 1
    case Symbol(_) => 1
    case Not(a) => Leaves(a)
    case And(a, b) => Leaves(a) + Leaves(b)
    case Or(a, b) => Leaves(a) + Leaves(b)
  }

  lemma {:induction false} SimplifyAddsNoSymbol(e: Expr)
    ensures Symbols(Simplify(e)) <= Symbols(e)
    decreases Weight(e)
  {
    match e
    case BoolConst(_) =>
    case Symbol(_) =>
    case Not(a) =>
      var inner := Simplify(a);
      SimplifyAddsNoSymbol(a);
      match inner {
        case Not(b) => SimplifyAddsNoSymbol(b);
        case And(b, c) =>
          DeMorganIsLighter(b, c);
          SimplifyAddsNoSymbol(Or(Not(b), Not(c)));
        case Or(b, c) =>
          DeMorganIsLighter(b, c);
          SimplifyAddsNoSymbol(And(Not(b), Not(c)));
        case BoolConst(_) =>
        case Symbol(_) =>
      }
    case And(a, b) => SimplifyAddsNoSymbol(a); SimplifyAddsNoSymbol(b);
    case Or(a, b) => SimplifyAddsNoSymbol(a); SimplifyAddsNoSymbol(b);
  }

  lemma JoinLeaves(a: Expr, b: Expr)
    ensures Leaves(JoinAnd(a, b)) <= Leaves(a) + Leaves(b)
    ensures Leaves(JoinOr(a, b)) <= Leaves(a) + Leaves(b)
  {
  }

  lemma {:induction false} SimplifyAddsNoLeaf(e: Expr)
    ensures Leaves(Simplify(e)) <= Leaves(e)
    decreases Weight(e)
  {
    match e
    case BoolConst(_) =>
    case Symbol(_) =>
    case Not(a) =>
      var inner := Simplify(a);
      SimplifyAddsNoLeaf(a);
      match inner {
        case Not(b) => SimplifyAddsNoLeaf(b);
        case And(b, c) =>
          DeMorganIsLighter(b, c);
          SimplifyAddsNoLeaf(Or(Not(b), Not(c)));
        case Or(b, c) =>
          DeMorganIsLighter(b, c);
          SimplifyAddsNoLeaf(And(Not(b), Not(c)));
        case BoolConst(_) =>
        case Symbol(_) =>
      }
    case And(a, b) =>
      SimplifyAddsNoLeaf(a); SimplifyAddsNoLeaf(b);
      JoinLeaves(Simplify(a), Simplify(b));
    case Or(a, b) =>
      SimplifyAddsNoLeaf(a); SimplifyAddsNoLeaf(b);
      JoinLeaves(Simplify(a), Simplify(b));
  }

  // ----- Negation as duality -----

  // The De Morgan dual with every literal complemented: what negating a normal form must produce.
  function Complement(e: Expr): Expr {
    match e
    case BoolConst(v) => BoolConst(!v)
    case Symbol(_) => Not(e)
    case Not(a) => a
    case And(a, b) => Or(Complement(a), Complement(b))
    case Or(a, b) => And(Complement(a), Complement(b))
  }

  lemma {:induction false} ComplementTwice(e: Expr)
    requires IsReduced(e)
    ensures IsReduced(Complement(e)) && Complement(Complement(e)) == e
  {
    match e
    case Symbol(_) =>
    case Not(a) =>
    case And(a, b) => ComplementTwice(a); ComplementTwice(b);
    case Or(a, b) => ComplementTwice(a); ComplementTwice(b);
  }

  // One De Morgan step on a normal form, for either connective.
  lemma {:induction false} NegationSplitsAnd(a: Expr, b: Expr)
    requires IsReduced(And(a, b))
    ensures Simplify(Not(And(a, b))) == JoinOr(Simplify(Not(a)), Simplify(Not(b)))
  {
    ReducedIsFixed(And(a, b));
    assert Simplify(Not(And(a, b))) == Simplify(Or(Not(a), Not(b)));
  }

  lemma NegationSplitsOr(a: Expr, b: Expr)
    requires IsReduced(Or(a, b))
    ensures Simplify(Not(Or(a, b))) == JoinAnd(Simplify(Not(a)), Simplify(Not(b)))
  {
    ReducedIsFixed(Or(a, b));
    assert Simplify(Not(Or(a, b))) == Simplify(And(Not(a), Not(b)));
  }

  lemma NegationOfLiteral(e: Expr)
    requires IsReduced(e) && (e.Symbol? || e.Not?)
    ensures Simplify(Not(e)) == Complement(e)
  {
    if e.Not? {
      assert Simplify(e.expr) == e.expr;
      assert Simplify(e) == e;
    }
  }

  // Negating a normal form neither collapses nor reorders it.
  lemma {:induction false} NegationIsComplement(e: Expr)
    requires IsReduced(e)
    ensures Simplify(Not(e)) == Complement(e)
  {
    if e.And? {
      NegationIsComplement(e.left); NegationIsComplement(e.right);
      NegationSplitsAnd(e.left, e.right);
      ComplementTwice(e);
      ReducedJoinIsPlain(Complement(e.left), Complement(e.right));
    } else if e.Or? {
      NegationIsComplement(e.left); NegationIsComplement(e.right);
      NegationSplitsOr(e.left, e.right);
      ComplementTwice(e);
      ReducedJoinIsPlain(Complement(e.left), Complement(e.right));
    } else {
      NegationOfLiteral(e);
    }
  }

  lemma ReducedJoinIsPlain(a: Expr, b: Expr)
    ensures IsReduced(Or(a, b)) ==> JoinOr(a, b) == Or(a, b)
    ensures IsReduced(And(a, b)) ==> JoinAnd(a, b) == And(a, b)
  {
    assert !IsReduced(T) && !IsReduced(F);
  }

  // Two equal negated inner results give one negated result.
  lemma {:induction false} NegationDependsOnSimplified(e: Expr)
    ensures Simplify(Not(e)) == Simplify(Not(Simplify(e)))
  {
    SimplifyIsIdempotent(e);
  }

  // A double negation costs nothing: the result is the very same term, not just an equivalent one.
  lemma DoubleNegationVanishes(e: Expr)
    ensures Simplify(Not(Not(e))) == Simplify(e)
  {
    var n := Simplify(e);
    SimplifyReachesNormalForm(e);
    NegationDependsOnSimplified(e);
    NegationDependsOnSimplified(Not(e));
    if !n.BoolConst? {
      ComplementTwice(n);
      NegationIsComplement(n);
      NegationIsComplement(Complement(n));
    }
  }
}
