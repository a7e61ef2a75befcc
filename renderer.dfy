/**
 * The render methods themselves (render_all in lib/block.php and the tags'
 * render methods in lib/standardtags.php), working on a Context object in
 * place: they push, set and pop its scopes and write its registers step by
 * step, and each one is proved to produce exactly the output, the new state
 * and the error that the render functions of module Render describe.
 */
module Renderer {
  import opened Wrappers
  import opened Errors
  import opened Values
  import opened Contexts
  import opened Variables
  import opened Nodes
  import opened Grammar
  import opened Decisions
  import opened Render
  import opened RenderProperties

  /** The method's result and the context's state are what the render function says. */
  ghost predicate Produced(ctx: Context, spec: Outcome, r: Result<string, Error>)
    reads ctx
  {
    match spec
    case Ok((out, st)) => r == Ok(out) && ctx.St() == st
    case Err(e) => r == Err(e)
  }

  /** render_all: each node rendered in turn on the shared context, the outputs concatenated. */
  method RenderList(ns: seq<Node>, ctx: Context) returns (r: Result<string, Error>)
    requires ctx.Valid()
    modifies ctx
    decreases ns, 0
    ensures ctx.filters == old(ctx.filters)
    ensures Produced(ctx, RenderSeq(ns, old(ctx.St()), old(ctx.filters)), r)
  {
    ghost var st0 := ctx.St();
    var result := "";
    var i := 0;
    while i < |ns|
      invariant 0 <= i <= |ns|
      invariant ctx.filters == old(ctx.filters) && ctx.Valid()
      invariant RenderSeq(ns[..i], st0, ctx.filters) == Ok((result, ctx.St()))
    {
      assert ns[..i + 1][..i] == ns[..i] && ns[..i + 1][i] == ns[i];
      var o := RenderToken(ns[i], ctx);
      if o.Err? {
        assert RenderSeq(ns[..i + 1], st0, ctx.filters) == Err(o.error);
        RenderSeqAppend(ns[..i + 1], ns[i + 1..], st0, ctx.filters);
        assert ns[..i + 1] + ns[i + 1..] == ns;
        return Err(o.error);
      }
      result := result + o.value;
      i := i + 1;
    }
    assert ns[..|ns|] == ns;
    r := Ok(result);
  }

  /** A node's render: a text token is appended as it is, a variable or tag renders itself. */
  method RenderToken(n: Node, ctx: Context) returns (r: Result<string, Error>)
    requires ctx.Valid()
    modifies ctx
    decreases n, 3
    ensures ctx.filters == old(ctx.filters)
    ensures Produced(ctx, RenderNode(n, old(ctx.St()), old(ctx.filters)), r)
  {
    match n
    case Text(t) =>
      r := Ok(t);
    case Output(v) =>
      var value := RenderVariable(ctx, v);
      r := Ok(ToText(value));
    case Missing =>
      r := Ok("");
    case Assign(binding) =>
      match binding {
        case None =>
          ctx.SetVar("", Null);
        case Some((to, from)) =>
          var value := ctx.GetVar(Some(from));
          ctx.SetVar(to, value);
      }
      r := Ok("");
    case Capture(to, body) =>
      if to.None? {
        return Err(NotANodeList);
      }
      var output := RenderList(body, ctx);
      if output.Err? {
        return Err(output.error);
      }
      ctx.SetVar(to.value, Str(output.value));
      r := Ok("");
    case Comment(_) =>
      r := Ok("");
    case Cycle(name, values) =>
      var output := RenderCycleTag(name, values, ctx);
      r := Ok(output);
    case For(_, _, _, _) =>
      r := RenderForTag(n, ctx);
    case If(_, _, _, _, _) =>
      r := RenderIfTag(n, ctx);
    case Case(_, _, _) =>
      r := RenderCaseTag(n, ctx);
    case Include(_, _, _, _, _) =>
      r := RenderIncludeTag(n, ctx);
  }

  /**
   * cycle: push; the key is the value of the name; the stored iteration (0
   * when none) picks the value; the iteration moves on and wraps; pop.
   */
  method RenderCycleTag(name: Option<string>, values: seq<string>, ctx: Context) returns (out: string)
    requires ctx.Valid()
    modifies ctx
    ensures ctx.Valid() && ctx.filters == old(ctx.filters)
    ensures (out, ctx.St()) == RenderCycle(name, values, old(ctx.St()))
  {
    ctx.PushScope();
    var key := RegisterKey(ctx.GetVar(name));
    var iteration := 0;
    if key.Some? && "cycle" in ctx.registers && key.value in ctx.registers["cycle"] {
      iteration := ctx.registers["cycle"][key.value];
    }
    var result := if 0 <= iteration < |values| then ctx.GetVar(Some(values[iteration])) else Null;
    iteration := iteration + 1;
    if iteration >= |values| {
      iteration := 0;
    }
    if key.Some? {
      ctx.SetRegister("cycle", key.value, iteration);
    }
    ctx.PopScope();
    out := ToText(result);
  }

  /** A failure in the first k items of a loop is the failure of the whole loop. */
  lemma {:induction false} ForItemsFailure(n: Node, segment: seq<(Value, Value)>, k: nat, j: nat, st: State, filters: seq<FilterSet>)
    requires n.For? && |st.scopes| >= 1 && k <= j <= |segment|
    requires ScalarKeys(segment)
    requires RenderForItems(n, segment, k, st, filters).Err?
    ensures RenderForItems(n, segment, j, st, filters) == RenderForItems(n, segment, k, st, filters)
    decreases j
  {
    if j > k {
      ForItemsFailure(n, segment, k, j - 1, st, filters);
    }
  }

  /**
   * for: the collection, the range and its register as RenderFor computes
   * them; then, in a pushed scope, a loop that binds the item and forloop
   * and renders the body for each element of the segment.
   */
  method RenderForTag(n: Node, ctx: Context) returns (r: Result<string, Error>)
    requires n.For? && ctx.Valid()
    modifies ctx
    decreases n, 2
    ensures ctx.filters == old(ctx.filters)
    ensures Produced(ctx, RenderFor(n, old(ctx.St()), old(ctx.filters)), r)
  {
    ghost var st0 := ctx.St();
    ctx.TouchRegisters("for");
    var collection := ctx.GetVar(Some(n.collectionName));
    if collection == Null || Count(collection) == 0 {
      return Ok("");
    }
    var range := ApplyForRange(n, Count(collection), ctx);
    if range.Err? {
      return Err(range.error);
    }
    var offset := range.value.0;
    var length := range.value.1;
    var segment := Segment(collection, offset, length);
    if segment == [] {
      return Ok("");
    }
    ctx.PushScope();
    r := RenderForItemsLoop(n, segment, ctx);
    if r.Ok? {
      PushPopRestores(st0.scopes, ctx.scopes);
      ctx.PopScope();
    }
  }

  /** The range of a for loop as ForRange computes it, with offset plus length written to the register when offset or limit is given. */
  method ApplyForRange(n: Node, count: nat, ctx: Context) returns (range: Result<(int, int, Registers), Error>)
    requires n.For?
    modifies ctx
    ensures range == ForRange(n.attributes, ForName(n), count, old(ctx.scopes), old(ctx.registers))
    ensures ctx.registers == if range.Ok? then range.value.2 else old(ctx.registers)
    ensures ctx.scopes == old(ctx.scopes) && ctx.filters == old(ctx.filters)
  {
    range := ForRange(n.attributes, ForName(n), count, ctx.scopes, ctx.registers);
    if range.Ok? && (AttributeValue(n.attributes, "offset").Some? || AttributeValue(n.attributes, "limit").Some?) {
      ctx.SetRegister("for", ForName(n), range.value.0 + range.value.1);
    }
  }

  /** The foreach of for over the segment: the item and forloop set, then the body, for each element. */
  method RenderForItemsLoop(n: Node, segment: seq<(Value, Value)>, ctx: Context) returns (r: Result<string, Error>)
    requires n.For? && ctx.Valid()
    requires ScalarKeys(segment)
    modifies ctx
    decreases n, 1
    ensures ctx.filters == old(ctx.filters)
    ensures Produced(ctx, RenderForItems(n, segment, |segment|, old(ctx.St()), old(ctx.filters)), r)
  {
    ghost var inner := ctx.St();
    var result := "";
    var i := 0;
    while i < |segment|
      invariant 0 <= i <= |segment|
      invariant ctx.filters == old(ctx.filters) && ctx.Valid()
      invariant RenderForItems(n, segment, i, inner, ctx.filters) == Ok((result, ctx.St()))
    {
      ctx.SetVar(n.item, segment[i].1);
      ctx.SetVar("forloop", Forloop(ForName(n), |segment|, segment[i].0));
      var o := RenderList(n.body, ctx);
      if o.Err? {
        ForItemsFailure(n, segment, i + 1, |segment|, inner, ctx.filters);
        return Err(o.error);
      }
      result := result + o.value;
      i := i + 1;
    }
    r := Ok(result);
  }


  /** if: push, the list the condition picks, pop. */
  method RenderIfTag(n: Node, ctx: Context) returns (r: Result<string, Error>)
    requires n.If? && ctx.Valid()
    modifies ctx
    decreases n, 2
    ensures ctx.filters == old(ctx.filters)
    ensures Produced(ctx, RenderIf(n, old(ctx.St()), old(ctx.filters)), r)
  {
    ghost var st0 := ctx.St();
    ctx.PushScope();
    var result;
    if Holds(ctx.scopes, n.left, n.op, n.right) {
      result := RenderList(n.whenTrue, ctx);
    } else {
      result := RenderList(n.whenFalse, ctx);
    }
    if result.Err? {
      return Err(result.error);
    }
    PushPopRestores(st0.scopes, ctx.scopes);
    ctx.PopScope();
    r := result;
  }

  /** A node list rendered between a push and a pop. */
  method RenderInScope(ns: seq<Node>, ctx: Context) returns (r: Result<string, Error>)
    requires ctx.Valid()
    modifies ctx
    decreases ns, 1
    ensures ctx.filters == old(ctx.filters)
    ensures Produced(ctx, RenderScoped(ns, old(ctx.St()), old(ctx.filters)), r)
  {
    ghost var st0 := ctx.St();
    ctx.PushScope();
    r := RenderList(ns, ctx);
    if r.Ok? {
      PushPopRestores(st0.scopes, ctx.scopes);
      ctx.PopScope();
    }
  }

  /** A failure in the first k when-branches is the failure of all of them. */
  lemma {:induction false} WhensFailure(n: Node, k: nat, j: nat, st: State, filters: seq<FilterSet>)
    requires n.Case? && k <= j <= |n.whens| && |st.scopes| >= 1
    requires RenderWhens(n, k, st, filters).Err?
    ensures RenderWhens(n, j, st, filters).Err? && RenderWhens(n, j, st, filters).error == RenderWhens(n, k, st, filters).error
    decreases j
  {
    if j > k {
      WhensFailure(n, k, j - 1, st, filters);
    }
  }

  /**
   * case: every when-branch whose value equals the case value renders in a
   * scope of its own and clears the run-else flag; the else list renders
   * when the flag is still set.
   */
  method RenderCaseTag(n: Node, ctx: Context) returns (r: Result<string, Error>)
    requires n.Case? && ctx.Valid()
    modifies ctx
    decreases n, 2
    ensures ctx.filters == old(ctx.filters)
    ensures Produced(ctx, RenderCase(n, old(ctx.St()), old(ctx.filters)), r)
  {
    ghost var st0 := ctx.St();
    var output := "";
    var runElse := true;
    var i := 0;
    while i < |n.whens|
      invariant 0 <= i <= |n.whens|
      invariant ctx.filters == old(ctx.filters) && ctx.Valid()
      invariant RenderWhens(n, i, st0, ctx.filters) == Ok((output, !runElse, ctx.St()))
    {
      if EqualVariables(ctx.scopes, n.left, n.whens[i].right) {
        runElse := false;
        var o := RenderInScope(n.whens[i].body, ctx);
        if o.Err? {
          WhensFailure(n, i + 1, |n.whens|, st0, ctx.filters);
          return Err(o.error);
        }
        output := output + o.value;
      }
      i := i + 1;
    }
    if runElse {
      var o := RenderInScope(n.otherwise, ctx);
      if o.Err? {
        return Err(o.error);
      }
      output := output + o.value;
    }
    r := Ok(output);
  }

  /** A failure in the first k items of an include-for is the failure of the whole loop. */
  lemma {:induction false} IncludeItemsFailure(n: Node, items: seq<Value>, k: nat, j: nat, st: State, filters: seq<FilterSet>)
    requires n.Include? && |st.scopes| >= 1 && k <= j <= |items|
    requires RenderIncludeItems(n, items, k, st, filters).Err?
    ensures RenderIncludeItems(n, items, j, st, filters) == RenderIncludeItems(n, items, k, st, filters)
    decreases j
  {
    if j > k {
      IncludeItemsFailure(n, items, k, j - 1, st, filters);
    }
  }

  /**
   * include: the variable is read, a scope is pushed and the attributes are
   * set in it one by one; then the document renders once per item, or once.
   */
  method RenderIncludeTag(n: Node, ctx: Context) returns (r: Result<string, Error>)
    requires n.Include? && ctx.Valid()
    modifies ctx
    decreases n, 2
    ensures ctx.filters == old(ctx.filters)
    ensures Produced(ctx, RenderInclude(n, old(ctx.St()), old(ctx.filters)), r)
  {
    ghost var st0 := ctx.St();
    var variable := ctx.GetVar(n.target);
    ctx.PushScope();
    SetAttributes(n.attributes, ctx);
    if n.forEach {
      r := RenderIncludeItemsLoop(n, Items(variable), ctx);
    } else {
      if n.target.Some? {
        ctx.SetVar(n.templateName, variable);
      }
      r := RenderList(n.document, ctx);
    }
    if r.Ok? {
      PushPopRestores(st0.scopes, ctx.scopes);
      ctx.PopScope();
    }
  }

  /** The foreach over the attributes: each name set to the value of its expression. */
  method SetAttributes(attributes: seq<(string, string)>, ctx: Context)
    requires ctx.Valid()
    modifies ctx
    ensures ctx.Valid() && ctx.filters == old(ctx.filters) && ctx.registers == old(ctx.registers)
    ensures ctx.scopes == BindAttributes(old(ctx.scopes), attributes)
  {
    ghost var scopes0 := ctx.scopes;
    var a := 0;
    while a < |attributes|
      invariant 0 <= a <= |attributes|
      invariant ctx.filters == old(ctx.filters) && ctx.registers == old(ctx.registers)
      invariant ctx.scopes == BindAttributes(scopes0, attributes[..a])
    {
      assert attributes[..a + 1][..a] == attributes[..a];
      var value := ctx.GetVar(Some(attributes[a].1));
      ctx.SetVar(attributes[a].0, value);
      a := a + 1;
    }
    assert attributes[..|attributes|] == attributes;
  }

  /** The foreach of an include-for: the template name set to each item, then the document. */
  method RenderIncludeItemsLoop(n: Node, items: seq<Value>, ctx: Context) returns (r: Result<string, Error>)
    requires n.Include? && ctx.Valid()
    modifies ctx
    decreases n, 1
    ensures ctx.filters == old(ctx.filters)
    ensures Produced(ctx, RenderIncludeItems(n, items, |items|, old(ctx.St()), old(ctx.filters)), r)
  {
    ghost var inner := ctx.St();
    var result := "";
    var i := 0;
    while i < |items|
      invariant 0 <= i <= |items|
      invariant ctx.filters == old(ctx.filters) && ctx.Valid()
      invariant RenderIncludeItems(n, items, i, inner, ctx.filters) == Ok((result, ctx.St()))
    {
      ctx.SetVar(n.templateName, items[i]);
      var o := RenderList(n.document, ctx);
      if o.Err? {
        IncludeItemsFailure(n, items, i + 1, |items|, inner, ctx.filters);
        return Err(o.error);
      }
      result := result + o.value;
      i := i + 1;
    }
    r := Ok(result);
  }

}
