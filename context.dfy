/**
 * The evaluation environment a render runs in. lib/context.php is not part
 * of this model; what follows is the minimal context the tags rely on: a
 * stack of scopes (innermost last) that `set` writes at the top, `push`
 * and `pop`, named registers (namespace to key to integer), a list of
 * filter sets, and a `get` that resolves literals before looking a dotted
 * name up innermost-first.
 */
module Contexts {
  import opened Wrappers
  import opened Grammar
  import opened Values

  type Scope = map<string, Value>

  /** Registers: namespace ("cycle", "for") to key to the integer stored there. */
  type Registers = map<string, map<string, int>>

  /** A filter: the value piped in and the resolved arguments give the new value. */
  type FilterFn = (Value, seq<Value>) -> Value

  /** One filter provider, as add_filters receives it: filter names to functions. */
  type FilterSet = map<string, FilterFn>

  /** The part of a context that rendering changes. */
  datatype State = State(scopes: seq<Scope>, registers: Registers)

  /** A quoted literal: the same quote character at both ends. */
  predicate IsQuotedLiteral(k: string) {
    |k| >= 2 && IsQuote(k[0]) && k[|k| - 1] == k[0]
  }

  predicate IsDigits(k: string) {
    |k| >= 1 && forall i | 0 <= i < |k| :: IsDigit(k[i])
  }

  /** The value of name in the innermost scope that binds it. */
  function Lookup(scopes: seq<Scope>, name: string): (r: Option<Value>)
    ensures r.Some? <==> exists i | 0 <= i < |scopes| :: name in scopes[i]
    ensures r.Some? ==> exists i | 0 <= i < |scopes| ::
      && name in scopes[i] && scopes[i][name] == r.value
      && forall j | i < j < |scopes| :: name !in scopes[j]
  {
    if scopes == [] then None
    else if name in scopes[|scopes| - 1] then Some(scopes[|scopes| - 1][name])
    else
      var r := Lookup(scopes[..|scopes| - 1], name);
      assert forall i | 0 <= i < |scopes| - 1 :: scopes[..|scopes| - 1][i] == scopes[i];
      r
  }

  /** The first entry of a mapping with the given key. */
  function EntryOf(entries: seq<(string, Value)>, key: string): (r: Option<Value>)
    ensures r.Some? <==> exists i | 0 <= i < |entries| :: entries[i].0 == key
  {
    if entries == [] then None
    else if entries[0].0 == key then Some(entries[0].1)
    else
      var r := EntryOf(entries[1..], key);
      assert forall i | 1 <= i < |entries| :: entries[i] == entries[1..][i - 1];
      r
  }

  /** Follows the path segments after the head: a key of a mapping, an index of a list; anything else is absent. */
  function Drill(v: Value, segments: seq<string>): Value
    decreases |segments|
  {
    if segments == [] then v
    else
      var next :=
        match v
        case Dict(es) => (match EntryOf(es, segments[0]) case Some(x) => x case None => Null)
        case List(xs) =>
          if IsDigits(segments[0]) && DigitsValue(segments[0]) < |xs| then xs[DigitsValue(segments[0])] else Null
        case _ => Null;
      Drill(next, segments[1..])
  }

  /** get: null, a quoted literal, a run of digits, true/false, or a dotted name. */
  function Get(scopes: seq<Scope>, name: Option<string>): (r: Value)
    ensures name.None? ==> r == Null
    ensures name.Some? && IsQuotedLiteral(name.value) ==> r == Str(name.value[1..|name.value| - 1])
  {
    match name
    case None => Null
    case Some(k) =>
      if IsQuotedLiteral(k) then Str(k[1..|k| - 1])
      else if IsDigits(k) then Num(DigitsValue(k))
      else if k == "true" then Bool(true)
      else if k == "false" then Bool(false)
      else
        var path := Split(k, AttributeSeparator);
        match Lookup(scopes, path[0])
        case None => Null
        case Some(v) => Drill(v, path[1..])
  }

  /** set: binds in the innermost scope only. */
  function Set(scopes: seq<Scope>, name: string, v: Value): (r: seq<Scope>)
    requires |scopes| >= 1
    ensures |r| == |scopes| && r[..|r| - 1] == scopes[..|scopes| - 1]
    ensures r[|r| - 1] == scopes[|scopes| - 1][name := v]
  {
    scopes[..|scopes| - 1] + [scopes[|scopes| - 1][name := v]]
  }

  function Push(scopes: seq<Scope>): (r: seq<Scope>)
    ensures |r| == |scopes| + 1 && r[..|scopes|] == scopes && r[|scopes|] == map[]
  {
    scopes + [map[]]
  }

  function Pop(scopes: seq<Scope>): (r: seq<Scope>)
    requires |scopes| >= 2
    ensures |r| == |scopes| - 1 && r == scopes[..|scopes| - 1]
  {
    scopes[..|scopes| - 1]
  }

  /** A name without a dot that is not a literal resolves to its innermost binding. */
  predicate IsPlainName(k: string) {
    !IsQuotedLiteral(k) && !IsDigits(k) && k != "true" && k != "false" && AttributeSeparator !in k
  }

  /** After set(k, v), get(k) is v. */
  lemma {:induction false} GetAfterSet(scopes: seq<Scope>, k: string, v: Value)
    requires |scopes| >= 1
    requires IsPlainName(k)
    ensures Get(Set(scopes, k, v), Some(k)) == v
  {
    var path := Split(k, AttributeSeparator);
    assert IndexOf(k, 0, AttributeSeparator).None?;
    assert path == [k];
  }

  /** Setting another name in the same scope leaves get(k) as it was set. */
  lemma {:induction false} GetAfterOtherSet(scopes: seq<Scope>, k: string, v: Value, other: string, w: Value)
    requires |scopes| >= 1
    requires IsPlainName(k) && other != k
    ensures Get(Set(Set(scopes, k, v), other, w), Some(k)) == v
  {
    var path := Split(k, AttributeSeparator);
    assert IndexOf(k, 0, AttributeSeparator).None?;
    assert path == [k];
  }

  /** Whatever a pushed scope binds is gone after the pop: the scopes are as before the push. */
  lemma PushSetPop(scopes: seq<Scope>, k: string, v: Value)
    requires |scopes| >= 1
    ensures Pop(Set(Push(scopes), k, v)) == scopes
  {
  }

  /** A pushed scope is empty, so get sees through it. */
  lemma GetPushed(scopes: seq<Scope>, name: Option<string>)
    ensures Get(Push(scopes), name) == Get(scopes, name)
  {
    if name.Some? {
      var k := Split(name.value, AttributeSeparator)[0];
      assert Push(scopes)[..|scopes|] == scopes;
      assert Lookup(Push(scopes), k) == Lookup(scopes, k);
    }
  }

  /**
   * invoke: the most recently added filter set that provides the name
   * decides; when none does, the receiver comes back unchanged.
   */
  function Invoke(filters: seq<FilterSet>, name: Option<string>, receiver: Value, args: seq<Value>): (r: Value)
    ensures name.None? ==> r == receiver
    decreases |filters|
  {
    if name.None? || filters == [] then receiver
    else if name.value in filters[|filters| - 1] then filters[|filters| - 1][name.value](receiver, args)
    else Invoke(filters[..|filters| - 1], name, receiver, args)
  }

  /** A filter name no set provides leaves the value unchanged. */
  lemma {:induction false} InvokeUnknown(filters: seq<FilterSet>, name: string, receiver: Value, args: seq<Value>)
    requires forall i | 0 <= i < |filters| :: name !in filters[i]
    ensures Invoke(filters, Some(name), receiver, args) == receiver
    decreases |filters|
  {
    if filters != [] {
      InvokeUnknown(filters[..|filters| - 1], name, receiver, args);
    }
  }

  /** Adding a set that provides the name shadows every earlier provider. */
  lemma LaterFilterWins(filters: seq<FilterSet>, f: FilterSet, name: string, receiver: Value, args: seq<Value>)
    requires name in f
    ensures Invoke(filters + [f], Some(name), receiver, args) == f[name](receiver, args)
  {
  }

  /** Adding a set that lacks the name changes nothing for it. */
  lemma UnrelatedFilterSet(filters: seq<FilterSet>, f: FilterSet, name: string, receiver: Value, args: seq<Value>)
    requires name !in f
    ensures Invoke(filters + [f], Some(name), receiver, args) == Invoke(filters, Some(name), receiver, args)
  {
    assert (filters + [f])[..|filters|] == filters;
  }

  /**
   * The array key PHP makes of a value: null is "", false "0", true "1",
   * a number its decimal text; an array is an illegal key.
   */
  function RegisterKey(v: Value): (r: Option<string>)
    ensures r.None? <==> IsArray(v)
  {
    match v
    case Null => Some("")
    case Bool(b) => Some(if b then "1" else "0")
    case Num(n) => Some(IntToString(n))
    case Str(s) => Some(s)
    case _ => None
  }

  /** The integer stored under namespace and key, when there is one. */
  function RegisterGet(regs: Registers, namespace: string, key: string): Option<int> {
    if namespace in regs && key in regs[namespace] then Some(regs[namespace][key]) else None
  }

  function RegisterPut(regs: Registers, namespace: string, key: string, x: int): (r: Registers)
    ensures RegisterGet(r, namespace, key) == Some(x)
    ensures forall n, k | n != namespace || k != key :: RegisterGet(r, n, k) == RegisterGet(regs, n, k)
  {
    var inner := if namespace in regs then regs[namespace] else map[];
    regs[namespace := inner[key := x]]
  }

  /** `if (!isset(registers[ns])) registers[ns] = array()`: the namespace exists, and no stored value changes. */
  function RegisterTouch(regs: Registers, namespace: string): (r: Registers)
    ensures namespace in r
    ensures forall n, k :: RegisterGet(r, n, k) == RegisterGet(regs, n, k)
  {
    if namespace in regs then regs else regs[namespace := map[]]
  }

  /**
   * The context object: the scope stack, the registers and the filter sets
   * it was given. Its methods change it in place as the tags' renders do.
   */
  class Context {
    var scopes: seq<Scope>
    var registers: Registers
    var filters: seq<FilterSet>

    ghost predicate Valid()
      reads this
    {
      |scopes| >= 1
    }

    function St(): State
      reads this
    {
      State(scopes, registers)
    }

    /** A fresh context: the assigns are the outermost scope. */
    constructor (assigns: Scope, regs: Registers)
      ensures Valid()
      ensures scopes == [assigns] && registers == regs && filters == []
    {
      scopes := [assigns];
      registers := regs;
      filters := [];
    }

    method AddFilters(f: FilterSet)
      modifies this
      ensures scopes == old(scopes) && registers == old(registers)
      ensures filters == old(filters) + [f]
    {
      filters := filters + [f];
    }

    method PushScope()
      requires Valid()
      modifies this
      ensures Valid()
      ensures scopes == Push(old(scopes)) && registers == old(registers) && filters == old(filters)
    {
      scopes := scopes + [map[]];
    }

    method PopScope()
      requires |scopes| >= 2
      modifies this
      ensures Valid()
      ensures scopes == Pop(old(scopes)) && registers == old(registers) && filters == old(filters)
    {
      scopes := scopes[..|scopes| - 1];
    }

    method SetVar(name: string, v: Value)
      requires Valid()
      modifies this
      ensures Valid()
      ensures scopes == Set(old(scopes), name, v) && registers == old(registers) && filters == old(filters)
    {
      scopes := scopes[..|scopes| - 1] + [scopes[|scopes| - 1][name := v]];
    }

    method SetRegister(namespace: string, key: string, x: int)
      modifies this
      ensures scopes == old(scopes) && filters == old(filters)
      ensures registers == RegisterPut(old(registers), namespace, key, x)
    {
      var inner := if namespace in registers then registers[namespace] else map[];
      registers := registers[namespace := inner[key := x]];
    }

    method TouchRegisters(namespace: string)
      modifies this
      ensures scopes == old(scopes) && filters == old(filters)
      ensures registers == RegisterTouch(old(registers), namespace)
    {
      if namespace !in registers {
        registers := registers[namespace := map[]];
      }
    }

    function GetVar(name: Option<string>): Value
      reads this
    {
      Get(scopes, name)
    }
  }
}
