/**
 * LiquidVariable (lib/variable.php): the markup between `{{` and `}}` is
 * read into a name (the first quoted fragment) and a chain of filters, each
 * a filter name and the raw text of its arguments; rendering resolves the
 * name and pipes the value through the filters in order.
 */
module Variables {
  import opened Wrappers
  import opened Grammar
  import opened Values
  import opened Contexts

  /** One filter of the chain: its name (absent when the piece has no word) and its raw arguments. */
  datatype Filter = Filter(name: Option<string>, args: seq<string>)

  datatype Variable = Variable(markup: string, name: Option<string>, filters: seq<Filter>)

  /**
   * `\|\s*(.*)`: the text after the first `|`, leading whitespace skipped,
   * up to the next newline.
   */
  function FilterSection(markup: string): (r: Option<string>)
    ensures r.Some? <==> FilterSeparator in markup
  {
    match IndexOf(markup, 0, FilterSeparator)
    case None => None
    case Some(k) =>
      var v := SkipSpaces(markup, k + 1);
      var e := match IndexOf(markup, v, '\n') case Some(j) => j case None => |markup|;
      Some(markup[v..e])
  }

  /**
   * The argument pattern anchored at the start of u: a colon or a comma,
   * spaces, and a quoted fragment, given as the fragment's (start, end).
   */
  function ArgumentAtStart(u: string): (r: Option<(nat, nat)>)
    requires |u| > 0
    ensures r.Some? <==> (u[0] == FilterArgumentSeparator || u[0] == ArgumentSeparator) && FragmentAt(u, SkipSpaces(u, 1)).Some?
    ensures r.Some? ==> r.value.0 == SkipSpaces(u, 1) && Some(r.value.1) == FragmentAt(u, r.value.0)
    ensures r.Some? ==> 0 < r.value.0 < r.value.1 <= |u|
  {
    if u[0] == FilterArgumentSeparator || u[0] == ArgumentSeparator then
      var v := SkipSpaces(u, 1);
      match FragmentAt(u, v)
      case Some(e) => Some((v, e))
      case None => None
    else None
  }

  /**
   * preg_match_all of `(?::|,)\s*(QF)` over u: every argument introduced by
   * a colon or a comma, left to right, each scan resuming after the previous
   * match.
   */
  function Arguments(u: string): (r: seq<string>)
    ensures forall i | 0 <= i < |r| :: |r[i]| > 0
    decreases |u|
  {
    if u == [] then []
    else
      match ArgumentAtStart(u)
      case Some((v, e)) => [u[v..e]] + Arguments(u[e..])
      case None => Arguments(u[1..])
  }

  /** One piece of the split chain: `\s*(\w+)` names it, and its arguments follow. */
  function FilterOf(piece: string): Filter {
    Filter(FirstWord(piece), Arguments(piece))
  }

  function FiltersOf(pieces: seq<string>): (r: seq<Filter>)
    ensures |r| == |pieces|
    ensures forall i | 0 <= i < |pieces| :: r[i] == FilterOf(pieces[i])
  {
    if pieces == [] then [] else [FilterOf(pieces[0])] + FiltersOf(pieces[1..])
  }

  /** The variable the constructor builds from its markup. */
  function VariableOf(markup: string): (v: Variable)
    ensures v.markup == markup
    ensures v.name == FirstFragment(markup)
    ensures FilterSeparator !in markup ==> v.filters == []
    ensures FilterSection(markup).Some? ==>
      var pieces := Split(FilterSection(markup).value, FilterSeparator);
      |v.filters| == |pieces| && forall i | 0 <= i < |pieces| :: v.filters[i] == FilterOf(pieces[i])
  {
    var filters := match FilterSection(markup)
      case None => []
      case Some(section) => FiltersOf(Split(section, FilterSeparator));
    Variable(markup, FirstFragment(markup), filters)
  }

  /** The constructor: the filter pieces are read one by one into the chain. */
  method ParseVariable(markup: string) returns (v: Variable)
    ensures v == VariableOf(markup)
  {
    var name := FirstFragment(markup);
    var filters: seq<Filter> := [];
    var section := FilterSection(markup);
    if section.Some? {
      var pieces := Split(section.value, FilterSeparator);
      var i := 0;
      while i < |pieces|
        invariant 0 <= i <= |pieces|
        invariant filters == FiltersOf(pieces[..i])
      {
        assert pieces[..i + 1] == pieces[..i] + [pieces[i]];
        FiltersOfAppend(pieces[..i], pieces[i]);
        filters := filters + [FilterOf(pieces[i])];
        i := i + 1;
      }
      assert pieces[..|pieces|] == pieces;
    }
    v := Variable(markup, name, filters);
  }

  lemma FiltersOfAppend(pieces: seq<string>, p: string)
    ensures FiltersOf(pieces + [p]) == FiltersOf(pieces) + [FilterOf(p)]
  {
  }

  /** The resolved arguments of a filter. */
  function ArgumentValues(scopes: seq<Scope>, args: seq<string>): (r: seq<Value>)
    ensures |r| == |args|
    ensures forall i | 0 <= i < |args| :: r[i] == Get(scopes, Some(args[i]))
  {
    if args == [] then [] else [Get(scopes, Some(args[0]))] + ArgumentValues(scopes, args[1..])
  }

  /** The value after the first |chain| filters: each gets the previous output and its resolved arguments. */
  function ApplyFilters(filters: seq<FilterSet>, scopes: seq<Scope>, chain: seq<Filter>, input: Value): Value {
    if chain == [] then input
    else
      var last := chain[|chain| - 1];
      Invoke(filters, last.name, ApplyFilters(filters, scopes, chain[..|chain| - 1], input), ArgumentValues(scopes, last.args))
  }

  /** render: get(name), then every filter of the chain, left to right. */
  function VariableValue(v: Variable, scopes: seq<Scope>, filters: seq<FilterSet>): Value {
    ApplyFilters(filters, scopes, v.filters, Get(scopes, v.name))
  }

  /** The render loop: the output is reassigned for each filter in turn. */
  method RenderVariable(ctx: Context, v: Variable) returns (output: Value)
    ensures output == VariableValue(v, ctx.scopes, ctx.filters)
  {
    output := ctx.GetVar(v.name);
    var i := 0;
    while i < |v.filters|
      invariant 0 <= i <= |v.filters|
      invariant output == ApplyFilters(ctx.filters, ctx.scopes, v.filters[..i], Get(ctx.scopes, v.name))
    {
      var args := ResolveArguments(ctx, v.filters[i].args);
      ApplyFiltersStep(ctx.filters, ctx.scopes, v.filters, i, Get(ctx.scopes, v.name));
      output := Invoke(ctx.filters, v.filters[i].name, output, args);
      i := i + 1;
    }
    assert v.filters[..|v.filters|] == v.filters;
  }

  /** The inner loop: each raw argument looked up in the context, in order. */
  method ResolveArguments(ctx: Context, raw: seq<string>) returns (args: seq<Value>)
    ensures args == ArgumentValues(ctx.scopes, raw)
  {
    args := [];
    var j := 0;
    while j < |raw|
      invariant 0 <= j <= |raw|
      invariant args == ArgumentValues(ctx.scopes, raw[..j])
    {
      ArgumentValuesAppend(ctx.scopes, raw[..j], raw[j]);
      assert raw[..j + 1] == raw[..j] + [raw[j]];
      var a := ctx.GetVar(Some(raw[j]));
      args := args + [a];
      j := j + 1;
    }
    assert raw[..|raw|] == raw;
  }

  /** One more filter of the chain: the previous output goes through filter i. */
  lemma ApplyFiltersStep(filters: seq<FilterSet>, scopes: seq<Scope>, chain: seq<Filter>, i: nat, input: Value)
    requires i < |chain|
    ensures ApplyFilters(filters, scopes, chain[..i + 1], input)
      == Invoke(filters, chain[i].name, ApplyFilters(filters, scopes, chain[..i], input), ArgumentValues(scopes, chain[i].args))
  {
    assert chain[..i + 1][..i] == chain[..i];
  }

  lemma ArgumentValuesAppend(scopes: seq<Scope>, args: seq<string>, a: string)
    ensures ArgumentValues(scopes, args + [a]) == ArgumentValues(scopes, args) + [Get(scopes, Some(a))]
  {
  }

  /** Filters compose: running a chain a + b is running b on the output of a. */
  lemma {:induction false} ApplyFiltersAppend(filters: seq<FilterSet>, scopes: seq<Scope>, a: seq<Filter>, b: seq<Filter>, input: Value)
    ensures ApplyFilters(filters, scopes, a + b, input) == ApplyFilters(filters, scopes, b, ApplyFilters(filters, scopes, a, input))
    decreases |b|
  {
    if b == [] {
      assert a + b == a;
    } else {
      assert (a + b)[..|a + b| - 1] == a + b[..|b| - 1];
      assert (a + b)[|a + b| - 1] == b[|b| - 1];
      ApplyFiltersAppend(filters, scopes, a, b[..|b| - 1], input);
    }
  }

  /** With no filters the output is get(name). */
  lemma NoFiltersIsGet(v: Variable, scopes: seq<Scope>, filters: seq<FilterSet>)
    requires v.filters == []
    ensures VariableValue(v, scopes, filters) == Get(scopes, v.name)
  {
  }

  /** A chain of filters no set provides leaves the value untouched. */
  lemma {:induction false} UnknownFiltersAreIdentity(filters: seq<FilterSet>, scopes: seq<Scope>, chain: seq<Filter>, input: Value)
    requires forall i, j | 0 <= i < |chain| && 0 <= j < |filters| :: chain[i].name.Some? ==> chain[i].name.value !in filters[j]
    ensures ApplyFilters(filters, scopes, chain, input) == input
    decreases |chain|
  {
    if chain != [] {
      var last := chain[|chain| - 1];
      UnknownFiltersAreIdentity(filters, scopes, chain[..|chain| - 1], input);
      if last.name.Some? {
        InvokeUnknown(filters, last.name.value, input, ArgumentValues(scopes, last.args));
      }
    }
  }

  /** Whitespace after u does not change the argument pattern anchored at its start. */
  lemma ArgumentAtStartExtend(u: string, w: string)
    requires |u| > 0
    requires forall i | 0 <= i < |w| :: IsSpace(w[i])
    ensures ArgumentAtStart(u + w) == ArgumentAtStart(u)
  {
    var t := u + w;
    assert t[0] == u[0];
    var v := SkipSpaces(u, 1);
    RunEndConcat(u, w, 1, IsSpace);
    RunEndIs(w, 0, |w|, IsSpace);
    if v < |u| {
      FragmentAtExtend(u, w, v);
    } else {
      assert SkipSpaces(t, 1) == |t|;
    }
  }

  /** Whitespace after u adds no argument and changes none. */
  lemma {:induction false} ArgumentsExtend(u: string, w: string)
    requires forall i | 0 <= i < |w| :: IsSpace(w[i])
    ensures Arguments(u + w) == Arguments(u)
    decreases |u|
  {
    var t := u + w;
    if u == [] {
      assert t == w;
      NoArguments(w);
    } else {
      ArgumentAtStartExtend(u, w);
      match ArgumentAtStart(u)
      case Some((v, e)) =>
        assert t[v..e] == u[v..e];
        assert t[e..] == u[e..] + w;
        ArgumentsExtend(u[e..], w);
      case None =>
        assert t[1..] == u[1..] + w;
        ArgumentsExtend(u[1..], w);
    }
  }

  /** A space before a piece does not change its first word. */
  lemma FirstWordSpaceFirst(c: char, p: string)
    requires IsSpace(c)
    ensures FirstWord([c] + p) == FirstWord(p)
  {
    assert ([c] + p)[0] == c;
    IndexWhereShift([c], p, 0, IsWordChar);
    match IndexWhere(p, 0, IsWordChar)
    case Some(q) => WordShift(c, p, q);
    case None =>
  }

  /** The word found at q in p is the word found at q + 1 in [c] + p. */
  lemma WordShift(c: char, p: string, q: nat)
    requires q < |p|
    ensures RunEnd([c] + p, q + 1, IsWordChar) == RunEnd(p, q, IsWordChar) + 1
    ensures ([c] + p)[q + 1..RunEnd(p, q, IsWordChar) + 1] == p[q..RunEnd(p, q, IsWordChar)]
  {
    RunEndShift([c], p, q, IsWordChar);
  }

  /** A space after a piece does not change its first word. */
  lemma FirstWordSpaceLast(p: string, c: char)
    requires IsSpace(c)
    ensures FirstWord(p + [c]) == FirstWord(p)
  {
    var t := p + [c];
    IndexWhereExtend(p, [c], 0, IsWordChar);
    match IndexWhere(p, 0, IsWordChar)
    case Some(q) =>
      RunEndConcat(p, [c], q, IsWordChar);
      assert RunEnd([c], 0, IsWordChar) == 0;
      assert t[q..RunEnd(p, q, IsWordChar)] == p[q..RunEnd(p, q, IsWordChar)];
    case None =>
  }

  /** A space before a piece changes neither its filter name nor its arguments. */
  lemma FilterOfSpaceFirst(c: char, p: string)
    requires IsSpace(c)
    ensures FilterOf([c] + p) == FilterOf(p)
  {
    FirstWordSpaceFirst(c, p);
    assert ([c] + p)[1..] == p;
  }

  /** A space after a piece changes neither its filter name nor its arguments. */
  lemma FilterOfSpaceLast(p: string, c: char)
    requires IsSpace(c)
    ensures FilterOf(p + [c]) == FilterOf(p)
  {
    FirstWordSpaceLast(p, c);
    ArgumentsExtend(p, [c]);
  }

  /** Whitespace around a filter piece, as around each `|`, does not change the filter. */
  lemma {:induction false} FilterOfTrim(p: string)
    ensures FilterOf(p) == FilterOf(TrimSpaces(p))
    decreases |p|
  {
    if p != [] && IsSpace(p[0]) {
      assert p == [p[0]] + p[1..];
      FilterOfSpaceFirst(p[0], p[1..]);
      FilterOfTrim(p[1..]);
    } else if p != [] && IsSpace(p[|p| - 1]) {
      assert p == p[..|p| - 1] + [p[|p| - 1]];
      FilterOfSpaceLast(p[..|p| - 1], p[|p| - 1]);
      FilterOfTrim(p[..|p| - 1]);
    }
  }

  /** Two filter chains whose pieces differ only in surrounding whitespace are the same chain. */
  lemma FiltersIgnoreSpacing(a: seq<string>, b: seq<string>)
    requires |a| == |b|
    requires forall i | 0 <= i < |a| :: TrimSpaces(a[i]) == TrimSpaces(b[i])
    ensures FiltersOf(a) == FiltersOf(b)
  {
    forall i | 0 <= i < |a|
      ensures FilterOf(a[i]) == FilterOf(b[i])
    {
      FilterOfTrim(a[i]);
      FilterOfTrim(b[i]);
    }
  }

  /** 'hello | textileze | paragraph': the name, then two filters without arguments, in written order. */
  lemma TwoFilters(m: string)
    requires m == "hello | textileze | paragraph"
    ensures VariableOf(m).name == Some("hello")
    ensures VariableOf(m).filters == [Filter(Some("textileze"), []), Filter(Some("paragraph"), [])]
  {
    TwoFiltersName(m);
    TwoFiltersSection(m);
    var pieces := TwoFiltersSplit();
    TwoFiltersChain(pieces);
  }

  lemma TwoFiltersChain(pieces: seq<string>)
    requires pieces == ["textileze ", " paragraph"]
    ensures FiltersOf(pieces) == [Filter(Some("textileze"), []), Filter(Some("paragraph"), [])]
  {
    FirstPiece(pieces[0]);
    SecondPiece(pieces[1]);
    assert FiltersOf(pieces) == [FilterOf(pieces[0]), FilterOf(pieces[1])];
  }

  lemma TwoFiltersSplit() returns (pieces: seq<string>)
    ensures Split("textileze " + ['|'] + " paragraph", '|') == pieces
    ensures pieces == ["textileze ", " paragraph"]
  {
    TwoFiltersBars();
    SplitCons("textileze ", '|', " paragraph");
    SplitNone(" paragraph", '|');
    pieces := ["textileze ", " paragraph"];
  }

  lemma TwoFiltersBars()
    ensures '|' !in "textileze " && '|' !in " paragraph"
  {
  }

  /** 'hello|textileze|paragraph': without the spaces around each `|`, the same name and the same chain. */
  lemma FiltersWithoutWhitespace(m: string)
    requires m == "hello|textileze|paragraph"
    ensures VariableOf(m).name == Some("hello")
    ensures VariableOf(m).filters == VariableOf("hello | textileze | paragraph").filters
    ensures VariableOf(m).filters == [Filter(Some("textileze"), []), Filter(Some("paragraph"), [])]
  {
    TightName(m);
    TightSection(m);
    var pieces := TightSplit();
    TightTrims();
    FiltersIgnoreSpacing(pieces, ["textileze ", " paragraph"]);
    TwoFilters("hello | textileze | paragraph");
    var spaced := TwoFiltersSplit();
    TwoFiltersChain(spaced);
  }

  lemma TightName(m: string)
    requires m == "hello|textileze|paragraph"
    ensures FirstFragment(m) == Some("hello")
  {
    RunEndIs(m, 0, 5, IsFragmentChar);
    assert FragmentSearch(m, 0) == Some((0, 5));
    assert m[0..5] == "hello";
  }

  lemma TightSection(m: string)
    requires m == "hello|textileze|paragraph"
    ensures FilterSection(m) == Some("textileze" + ['|'] + "paragraph")
  {
    IndexOfIs(m, 0, 5, '|');
    RunEndIs(m, 6, 6, IsSpace);
    IndexOfAbsent(m, 6, '\n');
    TightRest(m);
  }

  lemma TightRest(m: string)
    requires m == "hello|textileze|paragraph"
    ensures m[6..|m|] == "textileze" + ['|'] + "paragraph"
  {
  }

  lemma TightSplit() returns (pieces: seq<string>)
    ensures Split("textileze" + ['|'] + "paragraph", '|') == pieces
    ensures pieces == ["textileze", "paragraph"]
  {
    TightBars();
    SplitCons("textileze", '|', "paragraph");
    SplitNone("paragraph", '|');
    pieces := ["textileze", "paragraph"];
  }

  lemma TightBars()
    ensures '|' !in "textileze" && '|' !in "paragraph"
  {
  }

  lemma TightTrims()
    ensures TrimSpaces("textileze") == TrimSpaces("textileze ") == "textileze"
    ensures TrimSpaces("paragraph") == TrimSpaces(" paragraph") == "paragraph"
  {
    assert "textileze "[..9] == "textileze";
    assert " paragraph"[1..] == "paragraph";
  }

  lemma FirstPiece(p: string)
    requires p == "textileze "
    ensures FilterOf(p) == Filter(Some("textileze"), [])
  {
    WordPiece(p, 0, 9);
    TwoFiltersWords();
  }

  lemma SecondPiece(p: string)
    requires p == " paragraph"
    ensures FilterOf(p) == Filter(Some("paragraph"), [])
  {
    WordPiece(p, 1, 10);
    TwoFiltersWords();
  }

  lemma TwoFiltersName(m: string)
    requires m == "hello | textileze | paragraph"
    ensures FirstFragment(m) == Some("hello")
  {
    RunEndIs(m, 0, 5, IsFragmentChar);
    assert FragmentSearch(m, 0) == Some((0, 5));
    assert m[0..5] == "hello";
  }

  lemma TwoFiltersSection(m: string)
    requires m == "hello | textileze | paragraph"
    ensures FilterSection(m) == Some("textileze " + ['|'] + " paragraph")
  {
    IndexOfIs(m, 0, 6, '|');
    RunEndIs(m, 7, 8, IsSpace);
    IndexOfAbsent(m, 8, '\n');
    TwoFiltersRest(m);
  }

  lemma TwoFiltersRest(m: string)
    requires m == "hello | textileze | paragraph"
    ensures m[8..|m|] == "textileze " + ['|'] + " paragraph"
  {
  }

  lemma TwoFiltersWords()
    ensures "textileze "[0..9] == "textileze" && " paragraph"[1..10] == "paragraph"
  {
  }

  /** A piece made of spaces and one word, with no colon or comma, names a filter without arguments. */
  lemma WordPiece(piece: string, b: nat, e: nat)
    requires b < e <= |piece|
    requires forall i | 0 <= i < b :: piece[i] == ' '
    requires forall i | b <= i < e :: IsWordChar(piece[i])
    requires forall i | e <= i < |piece| :: piece[i] == ' '
    ensures FilterOf(piece) == Filter(Some(piece[b..e]), [])
  {
    NoWordBefore(piece, 0, b);
    WordRun(piece, b, e);
    NoArguments(piece);
  }

  lemma {:induction false} NoWordBefore(piece: string, i: nat, b: nat)
    requires i <= b < |piece|
    requires forall j | 0 <= j < b :: piece[j] == ' '
    requires IsWordChar(piece[b])
    ensures IndexWhere(piece, i, IsWordChar) == Some(b)
    decreases b - i
  {
    if i < b {
      NoWordBefore(piece, i + 1, b);
    }
  }

  lemma {:induction false} WordRun(piece: string, i: nat, e: nat)
    requires i <= e <= |piece|
    requires forall j | i <= j < e :: IsWordChar(piece[j])
    requires e == |piece| || piece[e] == ' '
    ensures RunEnd(piece, i, IsWordChar) == e
    decreases e - i
  {
    if i < e {
      WordRun(piece, i + 1, e);
    }
  }

  lemma {:induction false} NoArguments(s: string)
    requires forall i | 0 <= i < |s| :: s[i] != FilterArgumentSeparator && s[i] != ArgumentSeparator
    ensures Arguments(s) == []
    decreases |s|
  {
    if s != [] {
      NoArguments(s[1..]);
    }
  }

  /** A comma inside a quoted argument does not split it. */
  lemma QuotedCommaArgument(s: string)
    requires s == " strftime: '%Y, okay?'"
    ensures Arguments(s) == ["'%Y, okay?'"]
  {
    NoArgumentBefore(s, 9);
    QuotedCommaTail(s);
    QuotedCommaMatch(s[9..]);
  }

  lemma QuotedCommaTail(s: string)
    requires s == " strftime: '%Y, okay?'"
    ensures s[9..] == ": '%Y, okay?'"
  {
  }

  lemma QuotedCommaMatch(u: string)
    requires u == ": '%Y, okay?'"
    ensures Arguments(u) == ["'%Y, okay?'"]
  {
    QuotedCommaFragment(u);
    assert u[2..13] == "'%Y, okay?'" && u[13..] == [];
  }

  lemma QuotedCommaFragment(u: string)
    requires u == ": '%Y, okay?'"
    ensures SkipSpaces(u, 1) == 2 && FragmentAt(u, 2) == Some(13)
  {
    RunEndIs(u, 1, 2, IsSpace);
    IndexOfIs(u, 3, 12, '\'');
    assert QuotedEnd(u, 2) == Some(13);
  }

  lemma {:induction false} NoArgumentBefore(s: string, k: nat)
    requires k <= |s|
    requires forall i | 0 <= i < k :: s[i] != FilterArgumentSeparator && s[i] != ArgumentSeparator
    ensures Arguments(s) == Arguments(s[k..])
    decreases k
  {
    if k > 0 {
      NoArgumentBefore(s[1..], k - 1);
      assert s[1..][k - 1..] == s[k..];
    }
  }
}
