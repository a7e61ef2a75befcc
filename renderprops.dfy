/**
 * Properties of rendering: how render_all composes, what each tag binds
 * and prints, how cycle and for keep their registers, and which lists if
 * and case choose.
 */
module RenderProperties {
  import opened Wrappers
  import opened Values
  import opened Contexts
  import opened Nodes
  import opened Grammar
  import opened Decisions
  import opened Render

  /** Rendering a then b: a from the state given, b from the state a left; the outputs concatenated. */
  function Then(first: Outcome, b: seq<Node>, filters: seq<FilterSet>): Outcome
    requires first.Ok? ==> |first.value.1.scopes| >= 1
  {
    match first
    case Err(e) => Err(e)
    case Ok((o1, st1)) =>
      match RenderSeq(b, st1, filters)
      case Err(e) => Err(e)
      case Ok((o2, st2)) => Ok((o1 + o2, st2))
  }

  /** render_all of a concatenation is the render of the first part followed by the second. */
  lemma {:induction false} RenderSeqAppend(a: seq<Node>, b: seq<Node>, st: State, filters: seq<FilterSet>)
    requires |st.scopes| >= 1
    ensures RenderSeq(a + b, st, filters) == Then(RenderSeq(a, st, filters), b, filters)
    decreases |b|
  {
    if b == [] {
      assert a + b == a;
      match RenderSeq(a, st, filters)
      case Err(_) =>
      case Ok((o1, st1)) => assert o1 + "" == o1;
    } else {
      var b' := b[..|b| - 1];
      var x := b[|b| - 1];
      assert (a + b)[..|a + b| - 1] == a + b';
      assert (a + b)[|a + b| - 1] == x;
      RenderSeqAppend(a, b', st, filters);
      match RenderSeq(a, st, filters)
      case Err(_) =>
      case Ok((o1, st1)) =>
        match RenderSeq(b', st1, filters)
        case Err(_) =>
        case Ok((o2, st2)) =>
          match RenderNode(x, st2, filters)
          case Err(_) =>
          case Ok((o3, st3)) => assert o1 + o2 + o3 == o1 + (o2 + o3);
    }
  }

  predicate AllText(ns: seq<Node>) {
    forall i | 0 <= i < |ns| :: ns[i].Text?
  }

  /** The texts of text nodes, concatenated. */
  function Texts(ns: seq<Node>): string
    requires AllText(ns)
  {
    if ns == [] then "" else Texts(ns[..|ns| - 1]) + ns[|ns| - 1].text
  }

  /** Text nodes render as their texts in order and change nothing. */
  lemma {:induction false} TextRendersVerbatim(ns: seq<Node>, st: State, filters: seq<FilterSet>)
    requires |st.scopes| >= 1 && AllText(ns)
    ensures RenderSeq(ns, st, filters) == Ok((Texts(ns), st))
    decreases |ns|
  {
    if ns != [] {
      TextRendersVerbatim(ns[..|ns| - 1], st, filters);
    }
  }

  /** After assign to = from, to holds what from held. */
  lemma AssignBinds(to: string, from: string, st: State, filters: seq<FilterSet>)
    requires |st.scopes| >= 1 && IsPlainName(to)
    ensures RenderNode(Assign(Some((to, from))), st, filters).Ok?
    ensures var (out, st1) := RenderNode(Assign(Some((to, from))), st, filters).value;
      out == "" && Get(st1.scopes, Some(to)) == Get(st.scopes, Some(from)) && st1.registers == st.registers
  {
    GetAfterSet(st.scopes, to, Get(st.scopes, Some(from)));
  }

  /** capture prints nothing and binds its target to what its body printed. */
  lemma CaptureBindsOutput(to: string, body: seq<Node>, st: State, filters: seq<FilterSet>)
    requires |st.scopes| >= 1 && IsPlainName(to)
    requires RenderSeq(body, st, filters).Ok?
    ensures var r := RenderNode(Capture(Some(to), body), st, filters);
      r.Ok? && r.value.0 == "" && Get(r.value.1.scopes, Some(to)) == Str(RenderSeq(body, st, filters).value.0)
  {
    var (out, st1) := RenderSeq(body, st, filters).value;
    GetAfterSet(st1.scopes, to, Str(out));
  }

  /**
   * A cycle at a stored position i in range prints the value there and
   * stores the next position, (i + 1) mod the number of values: it wraps to
   * 0 after the last. RegisterPut leaves every other register as it was.
   */
  lemma CycleRotates(name: Option<string>, values: seq<string>, st: State, key: string, i: int)
    requires |st.scopes| >= 1
    requires RegisterKey(Get(st.scopes, name)) == Some(key)
    requires CycleIndex(st.registers, Some(key)) == i && 0 <= i < |values|
    ensures RenderCycle(name, values, st).0 == ToText(Get(st.scopes, Some(values[i])))
    ensures RenderCycle(name, values, st).1 == State(st.scopes, RegisterPut(st.registers, "cycle", key, (i + 1) % |values|))
    ensures 0 <= (i + 1) % |values| < |values|
  {
    GetPushed(st.scopes, name);
    GetPushed(st.scopes, Some(values[i]));
    NextPosition(i, |values|);
  }

  /** The position after i among n values, wrapping to 0, is (i + 1) mod n. */
  lemma NextPosition(i: int, n: int)
    requires 0 <= i < n
    ensures (if i + 1 >= n then 0 else i + 1) == (i + 1) % n
    ensures 0 <= (i + 1) % n < n
  {
    if i + 1 == n {
      assert (i + 1) % n == 0;
    }
  }

  /** A cycle whose name resolves to an array cannot be keyed: it prints its first value and stores nothing. */
  lemma CycleArrayKey(name: Option<string>, values: seq<string>, st: State)
    requires |st.scopes| >= 1 && |values| >= 1
    requires IsArray(Get(st.scopes, name))
    ensures RenderCycle(name, values, st) == (ToText(Get(st.scopes, Some(values[0]))), st)
  {
    GetPushed(st.scopes, name);
    GetPushed(st.scopes, Some(values[0]));
  }

  /** {% cycle 'one', 'two' %} three times: "one", "two", "one". */
  lemma CycleExample(st: State)
    requires st.scopes == [map[]] && st.registers == map[]
    ensures var name := Some("''one''two''");
      var values := ["'one'", "'two'"];
      var (o1, st1) := RenderCycle(name, values, st);
      var (o2, st2) := RenderCycle(name, values, st1);
      var (o3, _) := RenderCycle(name, values, st2);
      o1 == "one" && o2 == "two" && o3 == "one"
  {
    var name := Some("''one''two''");
    var values := ["'one'", "'two'"];
    var key := "'one''two'";
    assert Get(st.scopes, name) == Str(key);
    assert Get(st.scopes, Some(values[0])) == Str("one");
    assert Get(st.scopes, Some(values[1])) == Str("two");
    CycleRotates(name, values, st, key, 0);
    var (_, st1) := RenderCycle(name, values, st);
    CycleRotates(name, values, st1, key, 1);
    var (_, st2) := RenderCycle(name, values, st1);
    CycleRotates(name, values, st2, key, 0);
  }

  /** The forloop of the item at position i of a segment: index counts from 1. */
  lemma ForloopIndexes(name: string, length: int, i: nat)
    ensures var f := Forloop(name, length, Num(i)).entries;
      && EntryOf(f, "length") == Some(Num(length))
      && EntryOf(f, "index") == Some(Num(i + 1))
      && EntryOf(f, "index0") == Some(Num(i))
  {
    var f := Forloop(name, length, Num(i)).entries;
    assert f[0].0 == "name" && f[1].0 == "length" && f[2].0 == "index" && f[3].0 == "index0";
    EntryAt(f, "length", 1);
    EntryAt(f, "index", 2);
    EntryAt(f, "index0", 3);
  }

  /** rindex counts down to 1, rindex0 to 0. */
  lemma ForloopReverseIndexes(name: string, length: int, i: nat)
    ensures var f := Forloop(name, length, Num(i)).entries;
      && EntryOf(f, "rindex") == Some(Num(length - i))
      && EntryOf(f, "rindex0") == Some(Num(length - i - 1))
  {
    var f := Forloop(name, length, Num(i)).entries;
    assert f[0].0 == "name" && f[1].0 == "length" && f[2].0 == "index" && f[3].0 == "index0" && f[4].0 == "rindex" && f[5].0 == "rindex0";
    EntryAt(f, "rindex", 4);
    EntryAt(f, "rindex0", 5);
  }

  /** first is 1 only for the item at 0, last only for the item at length - 1. */
  lemma ForloopEnds(name: string, length: int, i: nat)
    ensures var f := Forloop(name, length, Num(i)).entries;
      && (EntryOf(f, "first") == Some(Num(1)) <==> i == 0)
      && (EntryOf(f, "last") == Some(Num(1)) <==> i == length - 1)
  {
    var f := Forloop(name, length, Num(i)).entries;
    assert f[0].0 == "name" && f[1].0 == "length" && f[2].0 == "index" && f[3].0 == "index0" && f[4].0 == "rindex" && f[5].0 == "rindex0" && f[6].0 == "first" && f[7].0 == "last";
    EntryAt(f, "first", 6);
    EntryAt(f, "last", 7);
  }

  /** A list segment is numbered from 0, so its items get the forloop of their position. */
  lemma ListSegmentKeys(xs: seq<Value>, offset: int, length: int, i: nat)
    requires i < |Segment(List(xs), offset, length)|
    ensures Segment(List(xs), offset, length)[i].0 == Num(i)
  {
  }

  /** The first entry with a key is the one EntryOf finds. */
  lemma {:induction false} EntryAt(entries: seq<(string, Value)>, key: string, j: nat)
    requires j < |entries| && entries[j].0 == key
    requires forall i | 0 <= i < j :: entries[i].0 != key
    ensures EntryOf(entries, key) == Some(entries[j].1)
    decreases j
  {
    if j > 0 {
      EntryAt(entries[1..], key, j - 1);
    }
  }

  /** Within bounds, array_slice starts at the offset and takes the length, clipped at the end. */
  lemma SliceInBounds(n: nat, offset: nat, length: nat)
    requires offset <= n
    ensures SliceBounds(n, offset, length) == (offset, if offset + length > n then n - offset else length)
  {
  }

  /** A negative offset counts back from the end. */
  lemma SliceFromEnd(n: nat, back: nat, length: nat)
    requires 1 <= back <= n
    ensures SliceBounds(n, 0 - back as int, length).0 == n - back
  {
  }

  /** A loop without limit and offset runs over the whole collection, numbered from 0 for a list. */
  lemma ForWithoutRangeRunsAll(attributes: seq<(string, string)>, name: string, xs: seq<Value>, scopes: seq<Scope>, regs: Registers)
    requires AttributeValue(attributes, "offset").None? && AttributeValue(attributes, "limit").None?
    ensures ForRange(attributes, name, |xs|, scopes, regs) == Ok((0, |xs|, regs))
    ensures var segment := Segment(List(xs), 0, |xs|);
      |segment| == |xs| && forall i | 0 <= i < |xs| :: segment[i] == (Num(i), xs[i])
  {
    SliceInBounds(|xs|, 0, |xs|);
  }

  /**
   * With offset or limit given, the range starts at the integer value of
   * the offset (0 when only limit is given, the stored position for
   * "continue") and is as long as a truthy limit says, else it runs to the
   * end; an array operand is the only error. This restates ForRange's
   * resolution case by case, as lib/standardtags.php:347-363 reads; what
   * the resolved range does to the loop is stated on its own by
   * SliceInBounds, SliceFromEnd, ForOverList and ContinueResumes.
   */
  lemma ForRangeResolves(attributes: seq<(string, string)>, name: string, count: nat, scopes: seq<Scope>, regs: Registers)
    requires AttributeValue(attributes, "offset").Some? || AttributeValue(attributes, "limit").Some?
    ensures var offset := ForOffset(attributes, name, scopes, regs);
      var limit := Get(scopes, AttributeValue(attributes, "limit"));
      var r := ForRange(attributes, name, count, scopes, regs);
      && (r.Err? <==> IsArray(offset) || (Truthy(limit) && IsArray(limit)))
      && (r.Ok? ==> r.value.0 == ToInt(offset))
      && (r.Ok? ==> r.value.1 == if Truthy(limit) then ToInt(limit) else count - r.value.0)
  {
  }

  /** A for loop over a missing, null or empty collection prints nothing; it only creates the "for" register namespace. */
  lemma ForEmptyRendersNothing(n: Node, st: State, filters: seq<FilterSet>)
    requires n.For? && |st.scopes| >= 1
    requires Get(st.scopes, Some(n.collectionName)) == Null || Count(Get(st.scopes, Some(n.collectionName))) == 0
    ensures RenderFor(n, st, filters) == Ok(("", st.(registers := RegisterTouch(st.registers, "for"))))
  {
  }

  /**
   * A for loop over a list renders its body over exactly the slice that
   * offset and limit select, in order and keyed 0, 1, ...: the items
   * xs[start], ..., xs[start + k - 1] with (start, k) the bounds array_slice
   * takes; the loop's scope is dropped afterwards.
   */
  lemma ForOverList(n: Node, st: State, xs: seq<Value>, filters: seq<FilterSet>)
    requires n.For? && |st.scopes| >= 1
    requires Get(st.scopes, Some(n.collectionName)) == List(xs) && xs != []
    requires ForRange(n.attributes, ForName(n), |xs|, st.scopes, RegisterTouch(st.registers, "for")).Ok?
    ensures var (offset, length, regs) := ForRange(n.attributes, ForName(n), |xs|, st.scopes, RegisterTouch(st.registers, "for")).value;
      var (start, k) := SliceBounds(|xs|, offset, length);
      var items := seq(k, i requires 0 <= i < k => (Num(i), xs[start + i]));
      var loop := RenderForItems(n, items, k, State(Push(st.scopes), regs), filters);
      && (k == 0 ==> RenderFor(n, st, filters) == Ok(("", State(st.scopes, regs))))
      && (k > 0 ==> (RenderFor(n, st, filters).Ok? <==> loop.Ok?))
      && (k > 0 && loop.Ok? ==> RenderFor(n, st, filters) == Ok((loop.value.0, State(st.scopes, loop.value.1.registers))))
  {
    var (offset, length, regs) := ForRange(n.attributes, ForName(n), |xs|, st.scopes, RegisterTouch(st.registers, "for")).value;
    var (start, k) := SliceBounds(|xs|, offset, length);
    var items := seq(k, i requires 0 <= i < k => (Num(i), xs[start + i]));
    assert Segment(List(xs), offset, length) == items;
  }

  /**
   * The k-th pass of a for loop renders the body once more, after the first
   * k - 1, in a scope where the item name is bound to the k-th value of the
   * segment and forloop to that pass's counters; the outer scopes are the
   * loop's own.
   */
  lemma ForItemBinds(n: Node, segment: seq<(Value, Value)>, k: nat, st: State, filters: seq<FilterSet>)
    requires n.For? && |st.scopes| >= 1 && 1 <= k <= |segment| && ScalarKeys(segment)
    requires IsPlainName(n.item) && n.item != "forloop"
    requires RenderForItems(n, segment, k - 1, st, filters).Ok?
    ensures var (out, st1) := RenderForItems(n, segment, k - 1, st, filters).value;
      exists scopes: seq<Scope> | |scopes| == |st.scopes| && scopes[..|scopes| - 1] == st.scopes[..|st.scopes| - 1] ::
        && Get(scopes, Some(n.item)) == segment[k - 1].1
        && Get(scopes, Some("forloop")) == Forloop(ForName(n), |segment|, segment[k - 1].0)
        && RenderForItems(n, segment, k, st, filters) == Then(Ok((out, State(scopes, st1.registers))), n.body, filters)
  {
    var (out, st1) := RenderForItems(n, segment, k - 1, st, filters).value;
    var forloop := Forloop(ForName(n), |segment|, segment[k - 1].0);
    var bound := Set(st1.scopes, n.item, segment[k - 1].1);
    var scopes := Set(bound, "forloop", forloop);
    GetAfterOtherSet(st1.scopes, n.item, segment[k - 1].1, "forloop", forloop);
    GetAfterSet(bound, "forloop", forloop);
    assert scopes[..|scopes| - 1] == st.scopes[..|st.scopes| - 1];
    assert RenderForItems(n, segment, k, st, filters) == Then(Ok((out, State(scopes, st1.registers))), n.body, filters);
  }

  /**
   * offset:continue resumes where the last loop of the same name stopped:
   * after a loop that took limit items from offset on, the next starts at
   * offset + limit.
   */
  lemma ContinueResumes(first: seq<(string, string)>, second: seq<(string, string)>, name: string, count: nat, count2: nat, scopes: seq<Scope>, regs: Registers)
    requires AttributeValue(first, "offset").Some? || AttributeValue(first, "limit").Some?
    requires ForRange(first, name, count, scopes, regs).Ok?
    requires AttributeValue(second, "offset") == Some("continue")
    requires !IsArray(Get(scopes, AttributeValue(second, "limit")))
    ensures var range := ForRange(first, name, count, scopes, regs).value;
      var r := ForRange(second, name, count2, scopes, range.2);
      r.Ok? && r.value.0 == range.0 + range.1
  {
    var range := ForRange(first, name, count, scopes, regs).value;
    ForRangeStores(first, name, count, scopes, regs);
    ContinueStartsAt(second, name, count2, scopes, range.2, range.0 + range.1);
  }

  lemma ForRangeStores(attributes: seq<(string, string)>, name: string, count: nat, scopes: seq<Scope>, regs: Registers)
    requires AttributeValue(attributes, "offset").Some? || AttributeValue(attributes, "limit").Some?
    requires ForRange(attributes, name, count, scopes, regs).Ok?
    ensures var range := ForRange(attributes, name, count, scopes, regs).value;
      RegisterGet(range.2, "for", name) == Some(range.0 + range.1)
  {
  }

  lemma ContinueStartsAt(attributes: seq<(string, string)>, name: string, count: nat, scopes: seq<Scope>, regs: Registers, x: int)
    requires AttributeValue(attributes, "offset") == Some("continue") && RegisterGet(regs, "for", name) == Some(x)
    requires !IsArray(Get(scopes, AttributeValue(attributes, "limit")))
    ensures ForRange(attributes, name, count, scopes, regs).Ok? && ForRange(attributes, name, count, scopes, regs).value.0 == x
  {
    assert ForOffset(attributes, name, scopes, regs) == Num(x);
    ForRangeResolves(attributes, name, count, scopes, regs);
  }

  /** The condition of if is the same in the pushed scope as outside it. */
  lemma {:induction false} HoldsPushed(scopes: seq<Scope>, left: string, op: Option<string>, right: Option<string>)
    ensures Holds(Push(scopes), left, op, right) == Holds(scopes, left, op, right)
  {
    GetPushed(scopes, Some(left));
    GetPushed(scopes, right);
    SameOperandsSameCondition(Push(scopes), scopes, left, op, right);
  }

  /** if renders exactly one of its lists, in a scope of its own: the true list when the condition holds. */
  lemma IfRendersOneList(n: Node, st: State, filters: seq<FilterSet>)
    requires n.If? && |st.scopes| >= 1
    ensures RenderNode(n, st, filters) ==
      if Holds(st.scopes, n.left, n.op, n.right) then RenderScoped(n.whenTrue, st, filters) else RenderScoped(n.whenFalse, st, filters)
  {
    HoldsPushed(st.scopes, n.left, n.op, n.right);
  }

  /** Whether any of the first k branches matches the case value. */
  predicate AnyMatch(n: Node, k: nat, scopes: seq<Scope>)
    requires n.Case? && k <= |n.whens|
  {
    exists i | 0 <= i < k :: EqualVariables(scopes, n.left, n.whens[i].right)
  }

  lemma AnyMatchStep(n: Node, k: nat, scopes: seq<Scope>)
    requires n.Case? && 1 <= k <= |n.whens|
    ensures AnyMatch(n, k, scopes) <==> AnyMatch(n, k - 1, scopes) || EqualVariables(scopes, n.left, n.whens[k - 1].right)
  {
    if EqualVariables(scopes, n.left, n.whens[k - 1].right) {
      assert AnyMatch(n, k, scopes);
    }
  }

  /** The else list runs exactly when no branch matched: the flag is the disjunction of the matches. */
  lemma {:induction false} WhensMatchFlag(n: Node, k: nat, st: State, filters: seq<FilterSet>)
    requires n.Case? && k <= |n.whens| && |st.scopes| >= 1
    requires RenderWhens(n, k, st, filters).Ok?
    ensures RenderWhens(n, k, st, filters).value.1 <==> AnyMatch(n, k, st.scopes)
    decreases k
  {
    if k > 0 {
      WhensMatchFlag(n, k - 1, st, filters);
      AnyMatchStep(n, k, st.scopes);
    }
  }

  /** Branches that do not match render nothing and change nothing. */
  lemma {:induction false} NoMatchRendersNothing(n: Node, k: nat, st: State, filters: seq<FilterSet>)
    requires n.Case? && k <= |n.whens| && |st.scopes| >= 1
    requires !AnyMatch(n, k, st.scopes)
    ensures RenderWhens(n, k, st, filters) == Ok(("", false, st))
    decreases k
  {
    if k > 0 {
      assert !AnyMatch(n, k - 1, st.scopes);
      NoMatchRendersNothing(n, k - 1, st, filters);
      assert !EqualVariables(st.scopes, n.left, n.whens[k - 1].right);
    }
  }

  /** A case whose branches all fail renders its else list, in a scope of its own. */
  lemma CaseFallsToElse(n: Node, st: State, filters: seq<FilterSet>)
    requires n.Case? && |st.scopes| >= 1
    requires !AnyMatch(n, |n.whens|, st.scopes)
    ensures RenderNode(n, st, filters) == RenderScoped(n.otherwise, st, filters)
  {
    NoMatchRendersNothing(n, |n.whens|, st, filters);
    match RenderScoped(n.otherwise, st, filters)
    case Err(_) =>
    case Ok((o, _)) => assert "" + o == o;
  }

  /** A case some branch of which matches never renders its else list. */
  lemma CaseSkipsElse(n: Node, st: State, filters: seq<FilterSet>)
    requires n.Case? && |st.scopes| >= 1
    requires AnyMatch(n, |n.whens|, st.scopes)
    requires RenderWhens(n, |n.whens|, st, filters).Ok?
    ensures var w := RenderWhens(n, |n.whens|, st, filters).value;
      RenderNode(n, st, filters) == Ok((w.0, w.2))
  {
    WhensMatchFlag(n, |n.whens|, st, filters);
  }

  /** k copies of t. */
  function Repeat(t: string, k: nat): (r: string)
    ensures |r| == |t| * k
  {
    if k == 0 then "" else Repeat(t, k - 1) + t
  }

  /** include for over k items of a static document prints the document k times and leaves the registers alone. */
  lemma {:induction false} IncludeForRepeats(n: Node, items: seq<Value>, k: nat, st: State, filters: seq<FilterSet>)
    requires n.Include? && AllText(n.document) && |st.scopes| >= 1 && k <= |items|
    ensures RenderIncludeItems(n, items, k, st, filters).Ok?
    ensures RenderIncludeItems(n, items, k, st, filters).value.0 == Repeat(Texts(n.document), k)
    ensures RenderIncludeItems(n, items, k, st, filters).value.1.registers == st.registers
    decreases k
  {
    if k > 0 {
      IncludeForRepeats(n, items, k - 1, st, filters);
      var (_, st1) := RenderIncludeItems(n, items, k - 1, st, filters).value;
      TextRendersVerbatim(n.document, State(Set(st1.scopes, n.templateName, items[k - 1]), st1.registers), filters);
    }
  }

  /**
   * The k-th pass of include for renders the document once more, after the
   * first k - 1, in a scope where the template's name is bound to the k-th
   * item; the outer scopes are the include's own.
   */
  lemma IncludeItemBinds(n: Node, items: seq<Value>, k: nat, st: State, filters: seq<FilterSet>)
    requires n.Include? && |st.scopes| >= 1 && 1 <= k <= |items| && IsPlainName(n.templateName)
    requires RenderIncludeItems(n, items, k - 1, st, filters).Ok?
    ensures var (out, st1) := RenderIncludeItems(n, items, k - 1, st, filters).value;
      exists scopes: seq<Scope> | |scopes| == |st.scopes| && scopes[..|scopes| - 1] == st.scopes[..|st.scopes| - 1] ::
        && Get(scopes, Some(n.templateName)) == items[k - 1]
        && RenderIncludeItems(n, items, k, st, filters) == Then(Ok((out, State(scopes, st1.registers))), n.document, filters)
  {
    var (out, st1) := RenderIncludeItems(n, items, k - 1, st, filters).value;
    var scopes := Set(st1.scopes, n.templateName, items[k - 1]);
    GetAfterSet(st1.scopes, n.templateName, items[k - 1]);
    assert scopes[..|scopes| - 1] == st.scopes[..|st.scopes| - 1];
    assert RenderIncludeItems(n, items, k, st, filters) == Then(Ok((out, State(scopes, st1.registers))), n.document, filters);
  }

  /** Leaving a scope pushed for a body: the body's output kept and its innermost scope dropped. */
  function Leave(body: Outcome): Outcome
    requires body.Ok? ==> |body.value.1.scopes| >= 2
  {
    match body
    case Err(e) => Err(e)
    case Ok((out, st1)) => Ok((out, State(Pop(st1.scopes), st1.registers)))
  }

  /**
   * include with a variable renders the document once, in the include's
   * own scope, where the template's name is bound to the variable's value
   * as read before the scope was pushed.
   */
  lemma IncludeWithBinds(n: Node, st: State, filters: seq<FilterSet>)
    requires n.Include? && !n.forEach && n.target.Some? && |st.scopes| >= 1 && IsPlainName(n.templateName)
    ensures exists scopes: seq<Scope> | KeepsOuter(Push(st.scopes), scopes) ::
      && Get(scopes, Some(n.templateName)) == Get(st.scopes, n.target)
      && RenderNode(n, st, filters) == Leave(RenderSeq(n.document, State(scopes, st.registers), filters))
  {
    var variable := Get(st.scopes, n.target);
    var scopes := Set(BindAttributes(Push(st.scopes), n.attributes), n.templateName, variable);
    GetAfterSet(BindAttributes(Push(st.scopes), n.attributes), n.templateName, variable);
    assert KeepsOuter(Push(st.scopes), scopes);
    assert RenderNode(n, st, filters) == Leave(RenderSeq(n.document, State(scopes, st.registers), filters));
  }

  /**
   * include without a variable binds nothing but its attributes: the
   * document renders once over them, and with no attributes it renders as
   * in a fresh scope of its own.
   */
  lemma IncludeWithoutVariable(n: Node, st: State, filters: seq<FilterSet>)
    requires n.Include? && !n.forEach && n.target.None? && |st.scopes| >= 1
    ensures RenderNode(n, st, filters) ==
      Leave(RenderSeq(n.document, State(BindAttributes(Push(st.scopes), n.attributes), st.registers), filters))
    ensures n.attributes == [] ==> RenderNode(n, st, filters) == RenderScoped(n.document, st, filters)
  {
  }

  /** include for over a scalar or null visits nothing: it prints nothing. */
  lemma IncludeForScalar(n: Node, st: State, filters: seq<FilterSet>)
    requires n.Include? && n.forEach && |st.scopes| >= 1
    requires IsScalar(Get(st.scopes, n.target))
    ensures RenderNode(n, st, filters) == Ok(("", st))
  {
    var bound := BindAttributes(Push(st.scopes), n.attributes);
    PushPopRestores(st.scopes, bound);
    assert Items(Get(st.scopes, n.target)) == [];
    assert RenderIncludeItems(n, [], 0, State(bound, st.registers), filters) == Ok(("", State(bound, st.registers)));
  }

  /** Attributes are bound in the innermost scope only, each resolved after those before it. */
  lemma {:induction false} LastAttributeBound(scopes: seq<Scope>, attributes: seq<(string, string)>)
    requires |scopes| >= 1 && |attributes| >= 1 && IsPlainName(attributes[|attributes| - 1].0)
    ensures var before := BindAttributes(scopes, attributes[..|attributes| - 1]);
      Get(BindAttributes(scopes, attributes), Some(attributes[|attributes| - 1].0)) == Get(before, Some(attributes[|attributes| - 1].1))
  {
    var before := BindAttributes(scopes, attributes[..|attributes| - 1]);
    var (key, value) := attributes[|attributes| - 1];
    GetAfterSet(before, key, Get(before, Some(value)));
  }
}
