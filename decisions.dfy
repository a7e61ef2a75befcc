/**
 * The decision engine that if and case share (LiquidDecisionBlock in
 * lib/standardtags.php): arrays count as true in comparisons, the word
 * "empty" compares an array's size with zero, a null operand has rules of
 * its own, and the rest is PHP 7's loose comparison of scalars.
 */
module Decisions {
  import opened Wrappers
  import opened Values
  import opened Contexts

  /** string_value: an array stands for true; a scalar is itself. */
  function StringValue(v: Value): (r: Value)
    ensures IsScalar(r)
    ensures IsArray(v) ==> r == Bool(true)
    ensures IsScalar(v) ==> r == v
  {
    if IsArray(v) then Bool(true) else v
  }

  /** equal_variables: both sides resolved, arrays made true, and compared with `==`. */
  predicate EqualVariables(scopes: seq<Scope>, left: string, right: string) {
    LooseEq(StringValue(Get(scopes, Some(left))), StringValue(Get(scopes, Some(right))))
  }

  /**
   * The two operands of a comparison: when the raw right operand is "empty"
   * and the left resolves to an array, the array's count against 0; the
   * mirror image for a raw left "empty"; otherwise both resolved, arrays
   * made true.
   */
  function Operands(scopes: seq<Scope>, left: string, right: Option<string>): (r: (Value, Value))
    ensures IsScalar(r.0) && IsScalar(r.1)
  {
    var l := Get(scopes, Some(left));
    var rv := Get(scopes, right);
    if right == Some("empty") && IsArray(l) then (Num(Count(l)), Num(0))
    else if left == "empty" && IsArray(rv) then (Num(0), Num(Count(rv)))
    else (StringValue(l), StringValue(rv))
  }

  /** The six operators the switch of interpret_condition knows. */
  predicate IsKnownOperator(op: string) {
    op == "==" || op == "!=" || op == ">" || op == "<" || op == ">=" || op == "<="
  }

  /**
   * interpret_condition. Without an operator: the left operand, arrays made
   * true. With one and a null operand: true for "==", true for "!=" unless
   * both are null, false otherwise. Else the operator on the two scalars;
   * an unknown operator is a notice and null.
   */
  function InterpretCondition(scopes: seq<Scope>, left: string, op: Option<string>, right: Option<string>): (r: Value)
    ensures op.None? ==> r == StringValue(Get(scopes, Some(left)))
    ensures op.Some? ==> r.Bool? || (r == Null && !IsKnownOperator(op.value))
  {
    match op
    case None => StringValue(Get(scopes, Some(left)))
    case Some(o) => ApplyOperator(o, Operands(scopes, left, right))
  }

  /** The operator on the two resolved operands: the null rules first, then the switch. */
  function ApplyOperator(o: string, operands: (Value, Value)): (r: Value)
    requires IsScalar(operands.0) && IsScalar(operands.1)
    ensures r.Bool? || (r == Null && !IsKnownOperator(o))
  {
    var (l, rv) := operands;
    if l == Null || rv == Null then
      Bool(o == "==" || (o == "!=" && (l != Null || rv != Null)))
    else if o == "==" then Bool(LooseEq(l, rv))
    else if o == "!=" then Bool(!LooseEq(l, rv))
    else if o == ">" then Bool(Compare(l, rv) == 1)
    else if o == "<" then Bool(Compare(l, rv) == -1)
    else if o == ">=" then Bool(Compare(l, rv) != -1)
    else if o == "<=" then Bool(Compare(l, rv) != 1)
    else Null
  }

  /** Whether if takes its true list. */
  predicate Holds(scopes: seq<Scope>, left: string, op: Option<string>, right: Option<string>) {
    Truthy(InterpretCondition(scopes, left, op, right))
  }

  /** The condition depends on the scopes only through the two names it resolves. */
  lemma SameOperandsSameCondition(s1: seq<Scope>, s2: seq<Scope>, left: string, op: Option<string>, right: Option<string>)
    requires Get(s1, Some(left)) == Get(s2, Some(left)) && Get(s1, right) == Get(s2, right)
    ensures InterpretCondition(s1, left, op, right) == InterpretCondition(s2, left, op, right)
  {
    assert Operands(s1, left, right) == Operands(s2, left, right);
  }

  /** `{% if xs %}` on an array holds even when the array is empty. */
  lemma ArrayIsTrue(scopes: seq<Scope>, left: string)
    requires IsArray(Get(scopes, Some(left)))
    ensures Holds(scopes, left, None, None)
  {
  }

  /** `{% if xs == empty %}` on an array holds exactly when it has no elements. */
  lemma EmptyMeansNoElements(scopes: seq<Scope>, left: string)
    requires IsArray(Get(scopes, Some(left)))
    ensures Holds(scopes, left, Some("=="), Some("empty")) <==> Count(Get(scopes, Some(left))) == 0
    ensures Holds(scopes, left, Some("!="), Some("empty")) <==> Count(Get(scopes, Some(left))) != 0
  {
  }

  /** A null operand: "==" always holds, "!=" holds unless both are null, and no other operator holds. */
  lemma NullOperandRules(scopes: seq<Scope>, left: string, op: string, right: string)
    requires right != "empty" && left != "empty"
    requires Get(scopes, Some(left)) == Null || Get(scopes, Some(right)) == Null
    ensures op == "==" ==> Holds(scopes, left, Some(op), Some(right))
    ensures op == "!=" ==> (Holds(scopes, left, Some(op), Some(right)) <==> !(Get(scopes, Some(left)) == Null && Get(scopes, Some(right)) == Null))
    ensures op != "==" && op != "!=" ==> !Holds(scopes, left, Some(op), Some(right))
  {
  }

  /** An operator outside the six never holds. */
  lemma UnknownOperatorFails(scopes: seq<Scope>, left: string, op: string, right: Option<string>)
    requires !IsKnownOperator(op)
    ensures !Holds(scopes, left, Some(op), right)
  {
  }

  /** "!=" holds exactly when "==" does not, once neither operand is null. */
  lemma NotEqualIsNegation(scopes: seq<Scope>, left: string, right: Option<string>)
    requires Operands(scopes, left, right).0 != Null && Operands(scopes, left, right).1 != Null
    ensures Holds(scopes, left, Some("!="), right) <==> !Holds(scopes, left, Some("=="), right)
  {
  }

  /**
   * Swapping the operands mirrors "<" and ">", "<=" and ">=", and keeps "=="
   * and "!="; the one exception is both operands being the word "empty".
   */
  lemma {:induction false} OperatorsMirror(scopes: seq<Scope>, left: string, right: string, op: string, mirrored: string)
    requires !(left == "empty" && right == "empty")
    requires (op, mirrored) in {("<", ">"), (">", "<"), ("<=", ">="), (">=", "<="), ("==", "=="), ("!=", "!=")}
    ensures Holds(scopes, left, Some(op), Some(right)) <==> Holds(scopes, right, Some(mirrored), Some(left))
  {
    var (l, r) := Operands(scopes, left, Some(right));
    var (l2, r2) := Operands(scopes, right, Some(left));
    assert l2 == r && r2 == l;
    if l != Null && r != Null {
      CompareAntisymmetric(l, r);
      LooseEqIsCompareZero(l, r);
      LooseEqIsCompareZero(r, l);
    }
  }

  /** ">=" is "not <" and "<=" is "not >" on non-null operands. */
  lemma {:induction false} OrderComplements(scopes: seq<Scope>, left: string, right: Option<string>)
    requires Operands(scopes, left, right).0 != Null && Operands(scopes, left, right).1 != Null
    ensures Holds(scopes, left, Some(">="), right) <==> !Holds(scopes, left, Some("<"), right)
    ensures Holds(scopes, left, Some("<="), right) <==> !Holds(scopes, left, Some(">"), right)
  {
  }

  /** A when value equal to the case value under `==` selects its branch: equal_variables is the condition "==" minus the null and empty rules. */
  lemma {:induction false} EqualVariablesIsLooseEquality(scopes: seq<Scope>, left: string, right: string)
    requires right != "empty" && left != "empty"
    requires Get(scopes, Some(left)) != Null && Get(scopes, Some(right)) != Null
    ensures EqualVariables(scopes, left, right) <==> Holds(scopes, left, Some("=="), Some(right))
  {
    var l := Get(scopes, Some(left));
    var r := Get(scopes, Some(right));
    assert StringValue(l) != Null && StringValue(r) != Null;
  }
}
