/**
 * The regular expressions with which the block parser and the standard tags
 * read their tokens and markup (lib/block.php, lib/standardtags.php), each
 * written as a scanner that returns what PCRE's preg_match captures: the
 * leftmost match, alternatives in order, greedy repetition that gives back
 * only when the rest of the expression fails.
 */
module Markup {
  import opened Wrappers
  import opened Grammar
  import opened Variables
  import opened Nodes

  /**
   * Where the closer a b must start for `ab$` to match at the end of t: at
   * |t|-2, or at |t|-3 when a final newline follows it (PCRE's `$`).
   */
  function ClosingAt(t: string, a: char, b: char): (r: Option<nat>)
    ensures r.Some? ==> r.value + 2 <= |t| && t[r.value] == a && t[r.value + 1] == b
    ensures r.Some? ==> r.value + 2 == |t| || (r.value + 3 == |t| && t[|t| - 1] == '\n')
    ensures r.None? ==> !(|t| >= 2 && t[|t| - 2] == a && t[|t| - 1] == b)
  {
    if |t| >= 2 && t[|t| - 2] == a && t[|t| - 1] == b then Some(|t| - 2)
    else if |t| >= 3 && t[|t| - 3] == a && t[|t| - 2] == b && t[|t| - 1] == '\n' then Some(|t| - 3)
    else None
  }

  /**
   * `^{%\s*(\w+)\s*(.*)?%}$` on a token that starts with "{%": the tag name
   * and the markup after it. The markup holds no newline, since `.` does not
   * match one.
   */
  function TagScan(t: string): (r: Option<(string, string)>)
    requires StartsWith(t, TagStart)
    ensures r.Some? ==> |r.value.0| > 0 && forall i | 0 <= i < |r.value.0| :: IsWordChar(r.value.0[i])
    ensures r.Some? ==> '\n' !in r.value.1
  {
    var a := SkipSpaces(t, 2);
    var w := RunEnd(t, a, IsWordChar);
    var c := SkipSpaces(t, w);
    match ClosingAt(t, '%', '}')
    case None => None
    case Some(e) => if w > a && c <= e && '\n' !in t[c..e] then Some((t[a..w], t[c..e])) else None
  }

  /** `^{{(.*)}}$` on a token that starts with "{{": the markup between the delimiters. */
  function VariableScan(t: string): (r: Option<string>)
    requires StartsWith(t, VariableStart)
    ensures r.Some? ==> '\n' !in r.value
    ensures r.Some? ==> t == VariableStart + r.value + VariableEnd || t == VariableStart + r.value + VariableEnd + "\n"
  {
    match ClosingAt(t, '}', '}')
    case None => None
    case Some(e) =>
      if 2 <= e && '\n' !in t[2..e] then
        assert t == t[..2] + t[2..e] + t[e..];
        Some(t[2..e])
      else None
  }

  /**
   * What preg_match does with a pattern it tries at each start position in
   * turn: the match at the first position from `from` to `last` where the
   * pattern matches, or none.
   */
  function FirstMatch<T>(at: nat -> Option<T>, from: nat, last: nat): (r: Option<T>)
    ensures r.Some? ==> exists p | from <= p <= last :: at(p) == r
    ensures r.None? ==> forall p | from <= p <= last :: at(p).None?
    decreases last - from
  {
    if from > last then None
    else if at(from).Some? then at(from)
    else FirstMatch(at, from + 1, last)
  }

  /** The first position that matches decides the match. */
  lemma {:induction false} FirstMatchLeftmost<T>(at: nat -> Option<T>, from: nat, last: nat, p: nat)
    requires from <= p <= last && at(p).Some?
    requires forall q | from <= q < p :: at(q).None?
    ensures FirstMatch(at, from, last) == at(p)
    decreases p - from
  {
    if from < p {
      FirstMatchLeftmost(at, from + 1, last, p);
    }
  }

  /** `(\w+)\s*=\s*([a-zA-Z_.-]+)` anchored at p. */
  function AssignAt(s: string, p: nat): (r: Option<(string, string)>)
    requires p <= |s|
    ensures r.Some? ==> |r.value.0| > 0 && |r.value.1| > 0
    ensures r.Some? ==> forall i | 0 <= i < |r.value.1| :: IsVariableChar(r.value.1[i])
  {
    var w := RunEnd(s, p, IsWordChar);
    var q := SkipSpaces(s, w);
    if w == p || q == |s| || s[q] != '=' then None
    else
      var v := SkipSpaces(s, q + 1);
      var e := RunEnd(s, v, IsVariableChar);
      if e == v then None else Some((s[p..w], s[v..e]))
  }

  /** The leftmost match of the assign expression at or after from. */
  function AssignSearch(s: string, from: nat): (r: Option<(string, string)>)
    requires from <= |s|
    ensures r.Some? ==> exists p | from <= p <= |s| :: AssignAt(s, p) == r
    ensures r.None? ==> forall p | from <= p <= |s| :: AssignAt(s, p).None?
  {
    var at := (p: nat) => if p <= |s| then AssignAt(s, p) else None;
    assert forall p | from <= p <= |s| :: at(p) == AssignAt(s, p);
    FirstMatch(at, from, |s|)
  }

  /** The search returns the leftmost match: the one at the first position where the syntax matches. */
  lemma AssignSearchLeftmost(s: string, from: nat, p: nat)
    requires from <= p <= |s| && AssignAt(s, p).Some?
    requires forall q | from <= q < p :: AssignAt(s, q).None?
    ensures AssignSearch(s, from) == AssignAt(s, p)
  {
    var at := (p: nat) => if p <= |s| then AssignAt(s, p) else None;
    FirstMatchLeftmost(at, from, |s|, p);
  }

  /** `(\w+)\s+in\s+([a-zA-Z_.-]+)` anchored at p: the item name and the collection name. */
  function ForAt(s: string, p: nat): (r: Option<(string, string)>)
    requires p <= |s|
    ensures r.Some? ==> |r.value.0| > 0 && |r.value.1| > 0
  {
    var w := RunEnd(s, p, IsWordChar);
    var i := SkipSpaces(s, w);
    if w == p || i == w || i + 2 > |s| || s[i..i + 2] != "in" then None
    else
      var v := SkipSpaces(s, i + 2);
      var e := RunEnd(s, v, IsVariableChar);
      if v == i + 2 || e == v then None else Some((s[p..w], s[v..e]))
  }

  function ForSearch(s: string, from: nat): (r: Option<(string, string)>)
    requires from <= |s|
    ensures r.Some? ==> exists p | from <= p <= |s| :: ForAt(s, p) == r
    ensures r.None? ==> forall p | from <= p <= |s| :: ForAt(s, p).None?
  {
    var at := (p: nat) => if p <= |s| then ForAt(s, p) else None;
    assert forall p | from <= p <= |s| :: at(p) == ForAt(s, p);
    FirstMatch(at, from, |s|)
  }

  /** The search returns the leftmost match: the one at the first position where the syntax matches. */
  lemma ForSearchLeftmost(s: string, from: nat, p: nat)
    requires from <= p <= |s| && ForAt(s, p).Some?
    requires forall q | from <= q < p :: ForAt(s, q).None?
    ensures ForSearch(s, from) == ForAt(s, p)
  {
    var at := (p: nat) => if p <= |s| then ForAt(s, p) else None;
    FirstMatchLeftmost(at, from, |s|, p);
  }

  predicate IsOperatorChar(c: char) {
    c == '=' || c == '!' || c == '<' || c == '>'
  }

  /**
   * `(QF)\s*([=!<>]+)?\s*(QF)?` for if: the left operand, then the operator
   * and the right operand. PHP leaves out trailing groups that did not take
   * part (null) and gives "" for a missing middle one, so an operand without
   * an operator comes with the operator "".
   */
  function IfScan(s: string): (r: Option<(string, Option<string>, Option<string>)>)
    ensures r.Some? <==> FirstFragment(s).Some?
    ensures r.Some? ==> r.value.0 == FirstFragment(s).value
    ensures r.Some? && r.value.1.None? ==> r.value.2.None?
    ensures r.Some? && r.value.1.Some? ==> forall k | 0 <= k < |r.value.1.value| :: IsOperatorChar(r.value.1.value[k])
    ensures r.Some? ==>
      var i := SkipSpaces(s, FragmentSearch(s, 0).value.1);
      var o := RunEnd(s, i, IsOperatorChar);
      && (o > i ==> r.value.1 == Some(s[i..o]) && r.value.2 == OperandAt(s, SkipSpaces(s, o)))
      && (o == i && FragmentAt(s, i).Some? ==> r.value.1 == Some("") && r.value.2 == OperandAt(s, i))
      && (o == i && FragmentAt(s, i).None? ==> r.value.1.None?)
  {
    match FragmentSearch(s, 0)
    case None => None
    case Some((b, l)) =>
      var i := SkipSpaces(s, l);
      var o := RunEnd(s, i, IsOperatorChar);
      if o > i then
        Some((s[b..l], Some(s[i..o]), OperandAt(s, SkipSpaces(s, o))))
      else
        match FragmentAt(s, i)
        case Some(e) => Some((s[b..l], Some(""), Some(s[i..e])))
        case None => Some((s[b..l], None, None))
  }

  /** The quoted fragment anchored at j, if one starts there. */
  function OperandAt(s: string, j: nat): (r: Option<string>)
    requires j <= |s|
    ensures r.Some? <==> FragmentAt(s, j).Some?
    ensures r.Some? ==> r.value == s[j..FragmentAt(s, j).value] && |r.value| > 0
  {
    match FragmentAt(s, j)
    case Some(e) => Some(s[j..e])
    case None => None
  }

  /** 'x == y': the left operand, the operator run and the right operand after its spaces. */
  lemma IfScanComparison(s: string)
    requires s == "x == y"
    ensures IfScan(s) == Some(("x", Some("=="), Some("y")))
  {
    RunEndIs(s, 0, 1, IsFragmentChar);
    assert FragmentAt(s, 0) == Some(1);
    assert FragmentSearch(s, 0) == Some((0, 1));
    RunEndIs(s, 1, 2, IsSpace);
    RunEndIs(s, 2, 4, IsOperatorChar);
    RunEndIs(s, 4, 5, IsSpace);
    RunEndIs(s, 5, 6, IsFragmentChar);
    assert FragmentAt(s, 5) == Some(6);
    assert s[0..1] == "x" && s[2..4] == "==" && s[5..6] == "y";
  }

  /** 'x y': no operator between two operands, which PHP reports as the empty operator. */
  lemma IfScanNoOperator(s: string)
    requires s == "x y"
    ensures IfScan(s) == Some(("x", Some(""), Some("y")))
  {
    RunEndIs(s, 0, 1, IsFragmentChar);
    assert FragmentAt(s, 0) == Some(1);
    assert FragmentSearch(s, 0) == Some((0, 1));
    RunEndIs(s, 1, 2, IsSpace);
    RunEndIs(s, 2, 2, IsOperatorChar);
    RunEndIs(s, 2, 3, IsFragmentChar);
    assert FragmentAt(s, 2) == Some(3);
    assert s[0..1] == "x" && s[2..3] == "y";
  }

  /** `\s*(.*)` after position c: spaces (newlines included) skipped, then the rest of that line. */
  function RestOfLine(s: string, c: nat): (r: string)
    requires c <= |s|
    ensures '\n' !in r
  {
    var v := SkipSpaces(s, c);
    var e := match IndexOf(s, v, '\n') case Some(j) => j case None => |s|;
    s[v..e]
  }

  /** `\s*\:` after position e: the index of the colon. */
  function ColonAfter(s: string, e: nat): (r: Option<nat>)
    requires e <= |s|
    ensures r.Some? ==> e <= r.value < |s| && s[r.value] == FilterArgumentSeparator
  {
    var c := SkipSpaces(s, e);
    if c < |s| && s[c] == FilterArgumentSeparator then Some(c) else None
  }

  /** The bare alternative of the cycle name, giving back characters from e down to p + 1 until a colon follows. */
  function BareNamed(s: string, p: nat, e: nat): (r: Option<(string, string)>)
    requires p <= e <= |s|
    decreases e
  {
    if e <= p then None
    else match ColonAfter(s, e)
      case Some(c) => Some((s[p..e], RestOfLine(s, c + 1)))
      case None => BareNamed(s, p, e - 1)
  }

  /** `(QF)\s*\:\s*(.*)` anchored at p: the name and the text of the values. */
  function NamedAt(s: string, p: nat): (r: Option<(string, string)>)
    requires p <= |s|
    ensures r.Some? ==> p < |s| && IsFragmentChar(s[p])
  {
    if p == |s| || !IsFragmentChar(s[p]) then None
    else
      var quoted := if IsQuote(s[p]) then QuotedEnd(s, p) else None;
      var colon := if quoted.Some? then ColonAfter(s, quoted.value) else None;
      if colon.Some? then Some((s[p..quoted.value], RestOfLine(s, colon.value + 1)))
      else BareNamed(s, p, RunEnd(s, p, IsFragmentChar))
  }

  function NamedSearch(s: string, from: nat): (r: Option<(string, string)>)
    requires from <= |s|
    ensures r.Some? ==> exists p | from <= p < |s| :: NamedAt(s, p) == r
    ensures r.None? ==> forall p | from <= p <= |s| :: NamedAt(s, p).None?
  {
    var at := (p: nat) => if p <= |s| then NamedAt(s, p) else None;
    assert forall p | from <= p <= |s| :: at(p) == NamedAt(s, p);
    FirstMatch(at, from, |s|)
  }

  /** The search returns the leftmost match: the one at the first position where the syntax matches. */
  lemma NamedSearchLeftmost(s: string, from: nat, p: nat)
    requires from <= p <= |s| && NamedAt(s, p).Some?
    requires forall q | from <= q < p :: NamedAt(s, q).None?
    ensures NamedSearch(s, from) == NamedAt(s, p)
  {
    var at := (p: nat) => if p <= |s| then NamedAt(s, p) else None;
    FirstMatchLeftmost(at, from, |s|, p);
  }

  /**
   * variables_from_string: the markup exploded on commas, each piece read to
   * its first quoted fragment; a piece without one, or whose fragment is
   * "0" (PHP's falsy string), is dropped.
   */
  function ValuesOf(parts: seq<string>): (r: seq<string>)
    requires forall i | 0 <= i < |parts| :: ArgumentSeparator !in parts[i]
    ensures |r| <= |parts|
    ensures forall i | 0 <= i < |r| :: r[i] != "" && r[i] != "0" && ArgumentSeparator !in r[i]
  {
    if parts == [] then []
    else
      var f := FirstFragment(parts[0]);
      var rest := ValuesOf(parts[1..]);
      if f.Some? && f.value != "0" then
        FirstFragmentIn(parts[0]);
        [f.value] + rest
      else rest
  }

  /** A fragment is a slice of the text it was found in, so it holds no character the text lacks. */
  lemma FirstFragmentIn(s: string)
    requires FirstFragment(s).Some?
    ensures forall c | c in FirstFragment(s).value :: c in s
  {
    var (b, e) := FragmentSearch(s, 0).value;
    assert FirstFragment(s).value == s[b..e];
    forall c | c in s[b..e]
      ensures c in s
    {
      var i :| 0 <= i < e - b && s[b..e][i] == c;
      assert s[b + i] == c;
    }
  }

  /** Each piece contributes its own first fragment, unless it has none or it is "0". */
  lemma ValuesOfPiece(piece: string)
    requires ArgumentSeparator !in piece
    ensures ValuesOf([piece]) == if FirstFragment(piece).Some? && FirstFragment(piece).value != "0" then [FirstFragment(piece).value] else []
  {
  }

  /** The pieces are read one by one and in order: the values of a + b are those of a, then those of b. */
  lemma {:induction false} ValuesOfConcat(a: seq<string>, b: seq<string>)
    requires forall i | 0 <= i < |a| :: ArgumentSeparator !in a[i]
    requires forall i | 0 <= i < |b| :: ArgumentSeparator !in b[i]
    ensures ValuesOf(a + b) == ValuesOf(a) + ValuesOf(b)
  {
    if a == [] {
      assert a + b == b;
    } else {
      assert (a + b)[1..] == a[1..] + b;
      ValuesOfConcat(a[1..], b);
    }
  }

  function VariablesFromString(markup: string): seq<string> {
    ValuesOf(Split(markup, ArgumentSeparator))
  }

  /**
   * The cycle tag's constructor: the named syntax first, then the simple one
   * (whose name is the values joined and quoted), else a notice and a cycle
   * with neither name nor values.
   */
  function CycleOf(markup: string): (n: Node)
    ensures n.Cycle?
    ensures NamedSearch(markup, 0).None? && FirstFragment(markup).Some? ==>
      n.values == VariablesFromString(markup) && n.cycleName == Some("'" + Concat(n.values) + "'")
    ensures NamedSearch(markup, 0).Some? ==>
      n == Cycle(Some(NamedSearch(markup, 0).value.0), VariablesFromString(NamedSearch(markup, 0).value.1))
    ensures NamedSearch(markup, 0).None? && FirstFragment(markup).None? ==> n == Cycle(None, [])
  {
    match NamedSearch(markup, 0)
    case Some((name, rest)) => Cycle(Some(name), VariablesFromString(rest))
    case None =>
      if FirstFragment(markup).Some? then
        var values := VariablesFromString(markup);
        Cycle(Some("'" + Concat(values) + "'"), values)
      else Cycle(None, [])
  }

  /** The leftmost quoted literal `"[^"]+"|'[^']+'` at or after from, as (start, end). */
  function QuotedSearch(s: string, from: nat): (r: Option<(nat, nat)>)
    requires from <= |s|
    ensures r.Some? ==> from <= r.value.0 < |s| && IsQuote(s[r.value.0]) && QuotedEnd(s, r.value.0) == Some(r.value.1)
    ensures r.Some? ==> forall q | from <= q < r.value.0 :: IsQuote(s[q]) ==> QuotedEnd(s, q).None?
    ensures r.None? ==> forall p | from <= p < |s| :: IsQuote(s[p]) ==> QuotedEnd(s, p).None?
    decreases |s| - from
  {
    if from == |s| then None
    else if IsQuote(s[from]) && QuotedEnd(s, from).Some? then Some((from, QuotedEnd(s, from).value))
    else QuotedSearch(s, from + 1)
  }

  /**
   * `\s+kw\s+(QF)` at e: spaces, the keyword, spaces and a quoted fragment.
   * The include pattern appends `+` to the unbracketed fragment constant,
   * which makes its last alternative the possessive `[^\s,|]++`, so the
   * variable is exactly one fragment.
   */
  predicate KeywordTail(s: string, e: nat, kw: string)
    requires e <= |s|
  {
    var b := SkipSpaces(s, e);
    && e < b && b + |kw| <= |s| && s[b..b + |kw|] == kw
    && var c := SkipSpaces(s, b + |kw|);
    && b + |kw| < c && FragmentAt(s, c).Some?
  }

  /** `\s+(with|for)\s+(QF)` after the template name, at e: whether the keyword is for, and the variable's bounds. */
  function IncludeTail(s: string, e: nat): (r: Option<(bool, nat, nat)>)
    requires e <= |s|
    ensures r.Some? ==> e < r.value.1 < r.value.2 <= |s|
    ensures r.Some? && !r.value.0 ==>
      KeywordTail(s, e, "with") && r.value.1 == SkipSpaces(s, SkipSpaces(s, e) + 4) && FragmentAt(s, r.value.1) == Some(r.value.2)
    ensures r.Some? && r.value.0 ==>
      KeywordTail(s, e, "for") && r.value.1 == SkipSpaces(s, SkipSpaces(s, e) + 3) && FragmentAt(s, r.value.1) == Some(r.value.2)
    ensures KeywordTail(s, e, "with") ==> r.Some? && !r.value.0
    ensures KeywordTail(s, e, "for") ==> r.Some? && r.value.0
  {
    // `(with|for)` tries with first; a with that fails later cannot be a for.
    if KeywordTail(s, e, "with") then
      var c := SkipSpaces(s, SkipSpaces(s, e) + 4);
      Some((false, c, FragmentAt(s, c).value))
    else if KeywordTail(s, e, "for") then
      var c := SkipSpaces(s, SkipSpaces(s, e) + 3);
      Some((true, c, FragmentAt(s, c).value))
    else None
  }

  /**
   * The include tag's expression: the template name inside the first
   * complete quoted literal, whether the keyword was for, and the raw
   * variable after with or for.
   */
  function IncludeScan(s: string): (r: Option<(string, bool, Option<string>)>)
    ensures r.Some? <==> QuotedSearch(s, 0).Some?
    ensures r.Some? && r.value.2.None? ==> !r.value.1
    ensures r.Some? ==>
      var (p, e) := QuotedSearch(s, 0).value;
      && |r.value.0| >= 1 && r.value.0 == s[p + 1..e - 1]
      && (IncludeTail(s, e).None? ==> !r.value.1 && r.value.2.None?)
      && (IncludeTail(s, e).Some? ==>
            && r.value.1 == IncludeTail(s, e).value.0
            && r.value.2 == Some(s[IncludeTail(s, e).value.1..IncludeTail(s, e).value.2]))
  {
    match QuotedSearch(s, 0)
    case None => None
    case Some((p, e)) =>
      var name := s[p + 1..e - 1];
      match IncludeTail(s, e)
      case None => Some((name, false, None))
      case Some((isFor, c, f)) => Some((name, isFor, Some(s[c..f])))
  }

  /** A markup opening with `'foo'` has that literal as its first quoted one. */
  lemma QuotedFoo(s: string)
    requires |s| >= 5 && s[..5] == "'foo'"
    ensures QuotedSearch(s, 0) == Some((0, 5)) && s[1..4] == "foo"
  {
    assert s[0] == '\'' && s[4] == '\'' && s[1] == 'f' && s[2] == 'o' && s[3] == 'o';
    assert IndexOf(s, 1, '\'') == Some(4);
  }

  /** `'foo' with bar` names the template foo and passes it the variable bar. */
  lemma IncludeWithVariable(s: string)
    requires s == "'foo' with bar"
    ensures IncludeScan(s) == Some(("foo", false, Some("bar")))
  {
    QuotedFoo(s);
    RunEndIs(s, 5, 6, IsSpace);
    assert s[6..10] == "with";
    RunEndIs(s, 10, 11, IsSpace);
    RunEndIs(s, 11, 14, IsFragmentChar);
    assert FragmentAt(s, 11) == Some(14);
    assert KeywordTail(s, 5, "with");
    assert s[11..14] == "bar";
  }

  /** `'foo' for xs` names the template foo and iterates it over xs. */
  lemma IncludeForCollection(s: string)
    requires s == "'foo' for xs"
    ensures IncludeScan(s) == Some(("foo", true, Some("xs")))
  {
    QuotedFoo(s);
    RunEndIs(s, 5, 6, IsSpace);
    assert s[6..10] != "with" && s[6..9] == "for";
    RunEndIs(s, 9, 10, IsSpace);
    RunEndIs(s, 10, 12, IsFragmentChar);
    assert FragmentAt(s, 10) == Some(12);
    assert !KeywordTail(s, 5, "with") && KeywordTail(s, 5, "for");
    assert s[10..12] == "xs";
  }

  /** `'foo'` alone names the template and passes no variable. */
  lemma IncludeNameOnly(s: string)
    requires s == "'foo'"
    ensures IncludeScan(s) == Some(("foo", false, None))
  {
    QuotedFoo(s);
    RunEndIs(s, 5, 5, IsSpace);
    assert !KeywordTail(s, 5, "with") && !KeywordTail(s, 5, "for");
  }
}
