/**
 * LiquidTemplate::tokenize (lib/template.php): the source is split around
 * every match of the tokenization expression of liquid.php,
 *   ({%.*?%}|{{.*?}})
 * with the delimiters kept and empty pieces dropped. `.` does not match a
 * newline, so a span never crosses a line break, and `.*?` makes each span
 * end at the first closing delimiter.
 */
module Tokenizer {
  import opened Wrappers
  import opened Grammar

  /**
   * The shortest `.*?` followed by the two characters a b, starting at q: the
   * index just past the closer, or None when a newline or the end comes first.
   */
  function CloseFrom(s: string, q: nat, a: char, b: char): (r: Option<nat>)
    requires q <= |s|
    ensures r.Some? ==> q + 2 <= r.value <= |s| && s[r.value - 2] == a && s[r.value - 1] == b
    ensures r.Some? ==> forall i | q <= i < r.value - 2 :: s[i] != '\n'
    decreases |s| - q
  {
    if q + 1 >= |s| then None
    else if s[q] == a && s[q + 1] == b then Some(q + 2)
    else if s[q] == '\n' then None
    else CloseFrom(s, q + 1, a, b)
  }

  /** The span of the tokenization expression that starts at p, as its end index. */
  function SpanAt(s: string, p: nat): (r: Option<nat>)
    requires p <= |s|
    ensures r.Some? ==> p + 4 <= r.value <= |s|
  {
    if p + 2 <= |s| && s[p] == '{' && s[p + 1] == '%' then CloseFrom(s, p + 2, '%', '}')
    else if p + 2 <= |s| && s[p] == '{' && s[p + 1] == '{' then CloseFrom(s, p + 2, '}', '}')
    else None
  }

  /** The leftmost span at or after from, as (start, end). */
  function NextSpan(s: string, from: nat): (r: Option<(nat, nat)>)
    requires from <= |s|
    ensures r.Some? ==> from <= r.value.0 <= |s| && SpanAt(s, r.value.0) == Some(r.value.1)
    ensures r.Some? ==> forall p | from <= p < r.value.0 :: SpanAt(s, p).None?
    ensures r.None? ==> forall p | from <= p <= |s| :: SpanAt(s, p).None?
    decreases |s| - from
  {
    if SpanAt(s, from).Some? then Some((from, SpanAt(s, from).value))
    else if from == |s| then None
    else NextSpan(s, from + 1)
  }

  /** The pieces of s[from..]: the text before each span, the span itself, and the text after the last one. */
  function SplitFrom(s: string, from: nat): (r: seq<string>)
    requires from <= |s|
    ensures Concat(r) == s[from..]
    ensures forall i | 0 <= i < |r| :: r[i] != []
    decreases |s| - from
  {
    match NextSpan(s, from)
    case None => if from < |s| then [s[from..]] else []
    case Some((m, e)) =>
      var rest := SplitFrom(s, e);
      var head := if from < m then [s[from..m], s[m..e]] else [s[m..e]];
      SplitStep(s, from, m, e, head, rest);
      head + rest
  }

  lemma SplitStep(s: string, from: nat, m: nat, e: nat, head: seq<string>, rest: seq<string>)
    requires from <= m <= e <= |s| && Concat(rest) == s[e..]
    requires head == if from < m then [s[from..m], s[m..e]] else [s[m..e]]
    ensures Concat(head + rest) == s[from..]
  {
    ConcatAppend(head, rest);
    if from < m {
      assert Concat(head) == s[from..m] + (s[m..e] + Concat([]));
    } else {
      assert Concat(head) == s[m..e] + Concat([]);
    }
    assert s[from..] == s[from..m] + s[m..e] + s[e..];
  }

  /** tokenize: a falsy source ("" or "0") gives no tokens at all. */
  function Tokenize(source: string): (tokens: seq<string>)
    ensures source == "" || source == "0" ==> tokens == []
    ensures source != "0" ==> Concat(tokens) == source
    ensures forall i | 0 <= i < |tokens| :: tokens[i] != ""
  {
    if source == "" || source == "0" then [] else SplitFrom(source, 0)
  }

  /** A token that is one whole span of the tokenization expression. */
  predicate IsSpanToken(t: string) {
    SpanAt(t, 0) == Some(|t|)
  }

  /** A token in which the tokenization expression matches nowhere. */
  predicate IsLiteralToken(t: string) {
    NextSpan(t, 0).None?
  }

  /** Scanning for a closer inside s[m..n] gives the same answer as scanning s, for closers that end by n. */
  lemma {:induction false} CloseFromSlice(s: string, m: nat, n: nat, q: nat, a: char, b: char)
    requires m <= q <= n <= |s|
    ensures CloseFrom(s[m..n], q - m, a, b).Some? ==> CloseFrom(s, q, a, b) == Some(CloseFrom(s[m..n], q - m, a, b).value + m)
    ensures CloseFrom(s, q, a, b).Some? && CloseFrom(s, q, a, b).value <= n ==>
      CloseFrom(s[m..n], q - m, a, b) == Some(CloseFrom(s, q, a, b).value - m)
    decreases n - q
  {
    var t := s[m..n];
    if q + 1 < n {
      assert t[q - m] == s[q] && t[q - m + 1] == s[q + 1];
      if !(s[q] == a && s[q + 1] == b) && s[q] != '\n' {
        CloseFromSlice(s, m, n, q + 1, a, b);
      }
    }
  }

  lemma SpanAtSlice(s: string, m: nat, n: nat, p: nat)
    requires m <= p <= n <= |s|
    ensures SpanAt(s[m..n], p - m).Some? ==> SpanAt(s, p) == Some(SpanAt(s[m..n], p - m).value + m)
    ensures SpanAt(s, p).Some? && SpanAt(s, p).value <= n ==> SpanAt(s[m..n], p - m) == Some(SpanAt(s, p).value - m)
  {
    var t := s[m..n];
    if p + 2 <= n {
      assert t[p - m] == s[p] && t[p - m + 1] == s[p + 1];
      if s[p] == '{' && s[p + 1] == '%' {
        assert SpanAt(t, p - m) == CloseFrom(t, p - m + 2, '%', '}');
        assert SpanAt(s, p) == CloseFrom(s, p + 2, '%', '}');
        CloseFromSlice(s, m, n, p + 2, '%', '}');
      } else if s[p] == '{' && s[p + 1] == '{' {
        assert SpanAt(t, p - m) == CloseFrom(t, p - m + 2, '}', '}');
        assert SpanAt(s, p) == CloseFrom(s, p + 2, '}', '}');
        CloseFromSlice(s, m, n, p + 2, '}', '}');
      }
    }
  }

  /** Every piece the split produces is either one whole span or text in which no span starts. */
  lemma {:induction false} SplitFromTokens(s: string, from: nat)
    requires from <= |s|
    ensures forall i | 0 <= i < |SplitFrom(s, from)| :: IsSpanToken(SplitFrom(s, from)[i]) || IsLiteralToken(SplitFrom(s, from)[i])
    decreases |s| - from
  {
    var r := SplitFrom(s, from);
    match NextSpan(s, from)
    case None =>
      if from < |s| {
        LiteralSlice(s, from, |s|);
        assert s[from..|s|] == s[from..];
      }
    case Some((m, e)) =>
      SplitFromTokens(s, e);
      SpanAtSlice(s, m, e, m);
      assert IsSpanToken(s[m..e]);
      if from < m {
        LiteralSlice(s, from, m);
      }
  }

  /** Text between from and n, none of whose positions starts a span of s, holds no span of its own. */
  lemma LiteralSlice(s: string, from: nat, n: nat)
    requires from <= n <= |s|
    requires forall p | from <= p < n :: SpanAt(s, p).None?
    ensures IsLiteralToken(s[from..n])
  {
    var t := s[from..n];
    forall p | 0 <= p <= |t|
      ensures SpanAt(t, p).None?
    {
      if p < |t| {
        SpanAtSlice(s, from, n, from + p);
      }
    }
  }

  /** Every token is either one complete {%...%} or {{...}} span, or literal text containing none. */
  lemma TokensAreSpansOrLiterals(source: string)
    ensures forall i | 0 <= i < |Tokenize(source)| :: IsSpanToken(Tokenize(source)[i]) || IsLiteralToken(Tokenize(source)[i])
  {
    if source != "" && source != "0" {
      SplitFromTokens(source, 0);
    }
  }

  /** Source in which no span starts is a single token equal to the source. */
  lemma NoSpanSingleToken(source: string)
    requires source != "" && source != "0"
    requires IsLiteralToken(source)
    ensures Tokenize(source) == [source]
  {
    assert source[0..] == source;
  }

  /** Two literal tokens are never adjacent: literal text is split only where a span starts. */
  lemma {:induction false} SplitFromNoAdjacentLiterals(s: string, from: nat)
    requires from <= |s|
    ensures forall i | 0 <= i < |SplitFrom(s, from)| - 1 ::
      IsSpanToken(SplitFrom(s, from)[i]) || IsSpanToken(SplitFrom(s, from)[i + 1])
    decreases |s| - from
  {
    match NextSpan(s, from)
    case None =>
    case Some((m, e)) =>
      SplitFromNoAdjacentLiterals(s, e);
      SpanAtSlice(s, m, e, m);
  }

  lemma NoAdjacentLiteralTokens(source: string)
    ensures forall i | 0 <= i < |Tokenize(source)| - 1 ::
      IsSpanToken(Tokenize(source)[i]) || IsSpanToken(Tokenize(source)[i + 1])
  {
    if source != "" && source != "0" {
      SplitFromNoAdjacentLiterals(source, 0);
    }
  }

  /** A span token starts with a tag or variable delimiter and ends with the matching closer. */
  lemma SpanTokenShape(t: string)
    requires IsSpanToken(t)
    ensures |t| >= 4 && t[0] == '{'
    ensures (t[1] == '%' && t[|t| - 2] == '%' && t[|t| - 1] == '}') || (t[1] == '{' && t[|t| - 2] == '}' && t[|t| - 1] == '}')
    ensures forall i | 2 <= i < |t| - 2 :: t[i] != '\n'
  {
  }

  lemma TokenizeVariables()
    ensures Tokenize(" {{funk}} ") == [" ", "{{funk}}", " "]
  {
    var s := " {{funk}} ";
    assert CloseFrom(s, 7, '}', '}') == Some(9);
    assert CloseFrom(s, 5, '}', '}') == Some(9);
    assert CloseFrom(s, 3, '}', '}') == Some(9);
    assert SpanAt(s, 1) == Some(9);
    assert NextSpan(s, 0) == Some((1, 9));
    assert NextSpan(s, 9).None?;
    assert SplitFrom(s, 9) == [" "];
    assert SplitFrom(s, 0) == [s[0..1], s[1..9]] + SplitFrom(s, 9);
    assert s[0..1] == " " && s[1..9] == "{{funk}}";
  }

  lemma TokenizeBlocksTail(s: string)
    requires s == "{%if a%}b{%endif%}"
    ensures SplitFrom(s, 8) == ["b", "{%endif%}"]
  {
    assert CloseFrom(s, 16, '%', '}') == Some(18);
    assert CloseFrom(s, 14, '%', '}') == Some(18);
    assert CloseFrom(s, 12, '%', '}') == Some(18);
    assert CloseFrom(s, 11, '%', '}') == Some(18);
    assert SpanAt(s, 9) == Some(18);
    assert NextSpan(s, 8) == Some((9, 18));
    assert NextSpan(s, 18).None?;
    assert SplitFrom(s, 18) == [];
    assert SplitFrom(s, 8) == [s[8..9], s[9..18]] + SplitFrom(s, 18);
    assert s[8..9] == "b" && s[9..18] == "{%endif%}";
  }

  lemma TokenizeBlocksHead(s: string)
    requires s == "{%if a%}b{%endif%}"
    ensures SplitFrom(s, 0) == ["{%if a%}", "b", "{%endif%}"]
  {
    assert CloseFrom(s, 6, '%', '}') == Some(8);
    assert CloseFrom(s, 4, '%', '}') == Some(8);
    assert CloseFrom(s, 2, '%', '}') == Some(8);
    assert NextSpan(s, 0) == Some((0, 8));
    TokenizeBlocksTail(s);
    assert SplitFrom(s, 0) == [s[0..8]] + SplitFrom(s, 8);
    assert s[0..8] == "{%if a%}";
  }

  lemma TokenizeBlocks()
    ensures Tokenize("{%if a%}b{%endif%}") == ["{%if a%}", "b", "{%endif%}"]
  {
    TokenizeBlocksHead("{%if a%}b{%endif%}");
  }
}
