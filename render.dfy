/**
 * What rendering a node list produces (render_all in lib/block.php and the
 * render methods of lib/standardtags.php), stated as functions of the
 * nodes, the context's state and its filter sets: the output text, the new
 * state, or the fatal error that stops the render. A render never changes
 * any scope but the innermost, and a tag that pushes a scope pops it again,
 * so the scopes after it are exactly the scopes before it.
 */
module Render {
  import opened Wrappers
  import opened Errors
  import opened Values
  import opened Contexts
  import opened Variables
  import opened Nodes
  import opened Grammar
  import opened Decisions

  type Outcome = Result<(string, State), Error>

  /** Same depth, and every scope but the innermost unchanged. */
  predicate KeepsOuter(before: seq<Scope>, after: seq<Scope>) {
    |before| >= 1 && |after| == |before| && after[..|after| - 1] == before[..|before| - 1]
  }

  /** A render that succeeds keeps the outer scopes. */
  predicate Renders(st: State, r: Outcome) {
    r.Ok? ==> KeepsOuter(st.scopes, r.value.1.scopes)
  }

  /** Pushing, rendering in the pushed scope and popping gives back the scopes that were there. */
  lemma PushPopRestores(scopes: seq<Scope>, inner: seq<Scope>)
    requires |scopes| >= 1 && KeepsOuter(Push(scopes), inner)
    ensures |inner| >= 2 && Pop(inner) == scopes
  {
  }

  /** render_all: the nodes rendered in order, their outputs concatenated. */
  function RenderSeq(ns: seq<Node>, st: State, filters: seq<FilterSet>): (r: Outcome)
    requires |st.scopes| >= 1
    ensures Renders(st, r)
    decreases ns, 0
  {
    if ns == [] then Ok(("", st))
    else
      match RenderSeq(ns[..|ns| - 1], st, filters)
      case Err(e) => Err(e)
      case Ok((out, st1)) =>
        match RenderNode(ns[|ns| - 1], st1, filters)
        case Err(e) => Err(e)
        case Ok((o, st2)) => Ok((out + o, st2))
  }

  /**
   * One node's render: text is itself, a variable is its value as text,
   * assign and capture bind in the innermost scope and print nothing, a
   * comment prints nothing, and the other tags as below. A capture whose
   * markup named no target has no node list, which render_all refuses.
   */
  function RenderNode(n: Node, st: State, filters: seq<FilterSet>): (r: Outcome)
    requires |st.scopes| >= 1
    ensures Renders(st, r)
    ensures r.Ok? && (n.Cycle? || n.For? || n.If? || n.Case? || n.Include?) ==> r.value.1.scopes == st.scopes
    decreases n, 3
  {
    match n
    case Text(t) => Ok((t, st))
    case Output(v) => Ok((ToText(VariableValue(v, st.scopes, filters)), st))
    case Missing => Ok(("", st))
    case Assign(binding) => Ok(("", st.(scopes := AssignScopes(st.scopes, binding))))
    case Capture(to, body) =>
      if to.None? then Err(NotANodeList)
      else
        (match RenderSeq(body, st, filters)
         case Err(e) => Err(e)
         case Ok((out, st1)) => Ok(("", st1.(scopes := Set(st1.scopes, to.value, Str(out))))))
    case Comment(_) => Ok(("", st))
    case Cycle(name, values) => Ok(RenderCycle(name, values, st))
    case For(_, _, _, _) => RenderFor(n, st, filters)
    case If(_, _, _, _, _) => RenderIf(n, st, filters)
    case Case(_, _, _) => RenderCase(n, st, filters)
    case Include(_, _, _, _, _) => RenderInclude(n, st, filters)
  }

  /** assign: set(to, get(from)); when the markup did not match, both are null: the empty key is set to null. */
  function AssignScopes(scopes: seq<Scope>, binding: Option<(string, string)>): (r: seq<Scope>)
    requires |scopes| >= 1
    ensures KeepsOuter(scopes, r)
    ensures binding.Some? ==> r[|r| - 1] == scopes[|scopes| - 1][binding.value.0 := Get(scopes, Some(binding.value.1))]
  {
    match binding
    case None => Set(scopes, "", Null)
    case Some((to, from)) => Set(scopes, to, Get(scopes, Some(from)))
  }

  /** The position a cycle resumes at: what its key holds in the cycle registers, 0 when nothing (or an array key). */
  function CycleIndex(regs: Registers, key: Option<string>): int {
    match key
    case None => 0
    case Some(k) => match RegisterGet(regs, "cycle", k) case Some(x) => x case None => 0
  }

  /**
   * cycle: in a pushed scope, the key is the value of the cycle's name; the
   * value at the stored position is printed (null past the end) and the
   * position moves on, back to 0 after the last value. An array key is
   * illegal, so nothing is stored for it.
   */
  function RenderCycle(name: Option<string>, values: seq<string>, st: State): (r: (string, State))
    requires |st.scopes| >= 1
    ensures r.1.scopes == st.scopes
  {
    var pushed := Push(st.scopes);
    var key := RegisterKey(Get(pushed, name));
    var i := CycleIndex(st.registers, key);
    var result := if 0 <= i < |values| then Get(pushed, Some(values[i])) else Null;
    var next := if i + 1 >= |values| then 0 else i + 1;
    var regs := if key.Some? then RegisterPut(st.registers, "cycle", key.value, next) else st.registers;
    (ToText(result), State(Pop(pushed), regs))
  }

  /** The loop's name, "item-collection", which keys its offset register. */
  function ForName(n: Node): string
    requires n.For?
  {
    n.item + "-" + n.collectionName
  }

  /**
   * The for loop's offset before it is made an integer: 0 without an offset
   * attribute; for "continue", the position the last loop of that name
   * stopped at (null when none did); otherwise the resolved value.
   */
  function ForOffset(attributes: seq<(string, string)>, name: string, scopes: seq<Scope>, regs: Registers): Value {
    match AttributeValue(attributes, "offset")
    case None => Num(0)
    case Some(o) =>
      if o == "continue" then (match RegisterGet(regs, "for", name) case Some(x) => Num(x) case None => Null)
      else Get(scopes, Some(o))
  }

  /**
   * The range a for loop takes, as (offset, length) and the registers after.
   * Without limit and offset: all of it. Otherwise the offset is ForOffset
   * made an integer; the length is the truthy limit, or what lies past the
   * offset; and offset plus length is stored for the next "continue". PHP
   * refuses arithmetic on an array operand, which is an error here.
   * ForRangeResolves in RenderProperties states the offset and the length.
   */
  function ForRange(attributes: seq<(string, string)>, name: string, count: nat, scopes: seq<Scope>, regs: Registers): (r: Result<(int, int, Registers), Error>)
    ensures AttributeValue(attributes, "offset").None? && AttributeValue(attributes, "limit").None? ==> r == Ok((0, count, regs))
    ensures r.Ok? && (AttributeValue(attributes, "offset").Some? || AttributeValue(attributes, "limit").Some?) ==>
      r.value.2 == RegisterPut(regs, "for", name, r.value.0 + r.value.1)
    ensures r.Err? ==> r.error == UnsupportedOperand
  {
    var offsetRaw := AttributeValue(attributes, "offset");
    var limitRaw := AttributeValue(attributes, "limit");
    if offsetRaw.None? && limitRaw.None? then Ok((0, count, regs))
    else
      var offset := ForOffset(attributes, name, scopes, regs);
      var limit := Get(scopes, limitRaw);
      if IsArray(offset) || (Truthy(limit) && IsArray(limit)) then Err(UnsupportedOperand)
      else
        var length := if Truthy(limit) then ToInt(limit) else count - ToInt(offset);
        Ok((ToInt(offset), length, RegisterPut(regs, "for", name, length + ToInt(offset))))
  }

  /**
   * array_slice's bounds on n elements, as (start, count): a negative
   * offset counts from the end, an offset past the end takes nothing, a
   * negative length stops that many before the end, and a length past the
   * end stops at the end.
   */
  function SliceBounds(n: nat, offset: int, length: int): (r: (nat, nat))
    ensures r.0 + r.1 <= n
  {
    if offset > n then (n, 0)
    else
      var o: nat := if offset < 0 then (if n + offset < 0 then 0 else n + offset) else offset;
      var len := if length < 0 then n - o + length else if o + length > n then n - o else length;
      if len <= 0 then (o, 0) else (o, len)
  }

  /**
   * The segment a loop runs over, as (key, item) pairs: array_slice renumbers
   * a list from 0 and keeps a mapping's string keys; it gives nothing for a
   * scalar.
   */
  function Segment(collection: Value, offset: int, length: int): (r: seq<(Value, Value)>)
    ensures forall i | 0 <= i < |r| :: IsScalar(r[i].0)
    ensures collection.List? ==> var (s, k) := SliceBounds(|collection.items|, offset, length);
      |r| == k && forall i | 0 <= i < k :: r[i] == (Num(i), collection.items[s + i])
    ensures collection.Dict? ==> var (s, k) := SliceBounds(|collection.entries|, offset, length);
      |r| == k && forall i | 0 <= i < k :: r[i] == (Str(collection.entries[s + i].0), collection.entries[s + i].1)
    ensures IsScalar(collection) ==> r == []
  {
    match collection
    case List(xs) =>
      var (s, k) := SliceBounds(|xs|, offset, length);
      seq(k, i requires 0 <= i < k => (Num(i), xs[s + i]))
    case Dict(es) =>
      var (s, k) := SliceBounds(|es|, offset, length);
      seq(k, i requires 0 <= i < k => (Str(es[s + i].0), es[s + i].1))
    case _ => []
  }

  /** The forloop variable for the item with the given key, in a segment of the given length. */
  function Forloop(name: string, length: int, key: Value): (r: Value)
    requires IsScalar(key)
    ensures r.Dict?
  {
    var index := ToInt(key);
    Dict([
      ("name", Str(name)),
      ("length", Num(length)),
      ("index", Num(index + 1)),
      ("index0", key),
      ("rindex", Num(length - index)),
      ("rindex0", Num(length - index - 1)),
      ("first", Num(if LooseEq(key, Num(0)) then 1 else 0)),
      ("last", Num(if LooseEq(key, Num(length - 1)) then 1 else 0))
    ])
  }

  /**
   * for: nothing for a null or empty collection; nothing when the segment
   * is empty; otherwise, in a pushed scope, the body once per item with the
   * item and forloop bound, the outputs concatenated.
   */
  function RenderFor(n: Node, st: State, filters: seq<FilterSet>): (r: Outcome)
    requires n.For? && |st.scopes| >= 1
    ensures r.Ok? ==> r.value.1.scopes == st.scopes
    decreases n, 2
  {
    var regs := RegisterTouch(st.registers, "for");
    var collection := Get(st.scopes, Some(n.collectionName));
    if collection == Null || Count(collection) == 0 then Ok(("", st.(registers := regs)))
    else
      match ForRange(n.attributes, ForName(n), Count(collection), st.scopes, regs)
      case Err(e) => Err(e)
      case Ok((offset, length, regs2)) =>
        var segment := Segment(collection, offset, length);
        if segment == [] then Ok(("", State(st.scopes, regs2)))
        else
          match RenderForItems(n, segment, |segment|, State(Push(st.scopes), regs2), filters)
          case Err(e) => Err(e)
          case Ok((out, st2)) =>
            PushPopRestores(st.scopes, st2.scopes);
            Ok((out, State(Pop(st2.scopes), st2.registers)))
  }

  /** Every key of a segment is a scalar: a list index or a mapping's string key. */
  predicate ScalarKeys(segment: seq<(Value, Value)>) {
    forall i | 0 <= i < |segment| :: IsScalar(segment[i].0)
  }

  /** The first k items of the segment, each with the item and forloop bound before the body renders. */
  function RenderForItems(n: Node, segment: seq<(Value, Value)>, k: nat, st: State, filters: seq<FilterSet>): (r: Outcome)
    requires n.For? && |st.scopes| >= 1 && k <= |segment|
    requires ScalarKeys(segment)
    ensures Renders(st, r)
    decreases n, 1, k
  {
    if k == 0 then Ok(("", st))
    else
      match RenderForItems(n, segment, k - 1, st, filters)
      case Err(e) => Err(e)
      case Ok((out, st1)) =>
        var scopes := Set(Set(st1.scopes, n.item, segment[k - 1].1), "forloop", Forloop(ForName(n), |segment|, segment[k - 1].0));
        match RenderSeq(n.body, State(scopes, st1.registers), filters)
        case Err(e) => Err(e)
        case Ok((o, st2)) => Ok((out + o, st2))
  }

  /** if: in a pushed scope, the true list when the condition holds, the false list otherwise. */
  function RenderIf(n: Node, st: State, filters: seq<FilterSet>): (r: Outcome)
    requires n.If? && |st.scopes| >= 1
    ensures r.Ok? ==> r.value.1.scopes == st.scopes
    decreases n, 2
  {
    var inner := State(Push(st.scopes), st.registers);
    var body :=
      if Holds(inner.scopes, n.left, n.op, n.right) then RenderSeq(n.whenTrue, inner, filters)
      else RenderSeq(n.whenFalse, inner, filters);
    match body
    case Err(e) => Err(e)
    case Ok((out, st1)) =>
      PushPopRestores(st.scopes, st1.scopes);
      Ok((out, State(Pop(st1.scopes), st1.registers)))
  }

  /** A node list rendered in a pushed scope, which is popped after. */
  function RenderScoped(ns: seq<Node>, st: State, filters: seq<FilterSet>): (r: Outcome)
    requires |st.scopes| >= 1
    ensures r.Ok? ==> r.value.1.scopes == st.scopes
    decreases ns, 1
  {
    match RenderSeq(ns, State(Push(st.scopes), st.registers), filters)
    case Err(e) => Err(e)
    case Ok((out, st1)) =>
      PushPopRestores(st.scopes, st1.scopes);
      Ok((out, State(Pop(st1.scopes), st1.registers)))
  }

  /**
   * The first k when-branches of a case: each whose value equals the case
   * value renders in a pushed scope, in order; the flag says whether any did.
   */
  function RenderWhens(n: Node, k: nat, st: State, filters: seq<FilterSet>): (r: Result<(string, bool, State), Error>)
    requires n.Case? && k <= |n.whens| && |st.scopes| >= 1
    ensures r.Ok? ==> r.value.2.scopes == st.scopes
    decreases n, 1, k
  {
    if k == 0 then Ok(("", false, st))
    else
      match RenderWhens(n, k - 1, st, filters)
      case Err(e) => Err(e)
      case Ok((out, matched, st1)) =>
        if EqualVariables(st1.scopes, n.left, n.whens[k - 1].right) then
          match RenderScoped(n.whens[k - 1].body, st1, filters)
          case Err(e) => Err(e)
          case Ok((o, st2)) => Ok((out + o, true, st2))
        else Ok((out, matched, st1))
  }

  /** case: every matching branch, then the else list only when none matched. */
  function RenderCase(n: Node, st: State, filters: seq<FilterSet>): (r: Outcome)
    requires n.Case? && |st.scopes| >= 1
    ensures r.Ok? ==> r.value.1.scopes == st.scopes
    decreases n, 2
  {
    match RenderWhens(n, |n.whens|, st, filters)
    case Err(e) => Err(e)
    case Ok((out, matched, st1)) =>
      if matched then Ok((out, st1))
      else
        match RenderScoped(n.otherwise, st1, filters)
        case Err(e) => Err(e)
        case Ok((o, st2)) => Ok((out + o, st2))
  }

  /** The attributes bound in order, each value resolved after the bindings before it. */
  function BindAttributes(scopes: seq<Scope>, attributes: seq<(string, string)>): (r: seq<Scope>)
    requires |scopes| >= 1
    ensures KeepsOuter(scopes, r)
    decreases |attributes|
  {
    if attributes == [] then scopes
    else
      var before := BindAttributes(scopes, attributes[..|attributes| - 1]);
      var (key, value) := attributes[|attributes| - 1];
      Set(before, key, Get(before, Some(value)))
  }

  /** What foreach visits: a list's items, a mapping's values, nothing for a scalar. */
  function Items(v: Value): (r: seq<Value>)
    ensures v.List? ==> r == v.items
    ensures v.Dict? ==> |r| == |v.entries| && forall i | 0 <= i < |r| :: r[i] == v.entries[i].1
    ensures IsScalar(v) ==> r == []
  {
    match v
    case List(xs) => xs
    case Dict(es) => seq(|es|, i requires 0 <= i < |es| => es[i].1)
    case _ => []
  }

  /**
   * include: the variable is resolved before the push; in the pushed scope
   * the attributes are bound; then with for, the document once per item
   * with the template name bound to it; otherwise once, with the name bound
   * to the variable when there is one.
   */
  function RenderInclude(n: Node, st: State, filters: seq<FilterSet>): (r: Outcome)
    requires n.Include? && |st.scopes| >= 1
    ensures r.Ok? ==> r.value.1.scopes == st.scopes
    decreases n, 2
  {
    var variable := Get(st.scopes, n.target);
    var bound := BindAttributes(Push(st.scopes), n.attributes);
    var body :=
      if n.forEach then
        var items := Items(variable);
        RenderIncludeItems(n, items, |items|, State(bound, st.registers), filters)
      else
        var scopes := if n.target.Some? then Set(bound, n.templateName, variable) else bound;
        RenderSeq(n.document, State(scopes, st.registers), filters);
    match body
    case Err(e) => Err(e)
    case Ok((out, st1)) =>
      PushPopRestores(st.scopes, st1.scopes);
      Ok((out, State(Pop(st1.scopes), st1.registers)))
  }

  /** The first k items of an include-for, each bound to the template name before the document renders. */
  function RenderIncludeItems(n: Node, items: seq<Value>, k: nat, st: State, filters: seq<FilterSet>): (r: Outcome)
    requires n.Include? && |st.scopes| >= 1 && k <= |items|
    ensures Renders(st, r)
    decreases n, 1, k
  {
    if k == 0 then Ok(("", st))
    else
      match RenderIncludeItems(n, items, k - 1, st, filters)
      case Err(e) => Err(e)
      case Ok((out, st1)) =>
        match RenderSeq(n.document, State(Set(st1.scopes, n.templateName, items[k - 1]), st1.registers), filters)
        case Err(e) => Err(e)
        case Ok((o, st2)) => Ok((out + o, st2))
  }
}
