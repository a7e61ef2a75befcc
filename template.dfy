/**
 * LiquidTemplate (lib/template.php): the object a caller parses a source
 * into and renders with assigns, filters and registers. It keeps the root
 * node list, the file system includes read through, and the filter sets
 * registered on it.
 */
module Templates {
  import opened Wrappers
  import opened Errors
  import opened Values
  import opened Grammar
  import opened Contexts
  import opened Nodes
  import opened FileSystems
  import opened Tokenizer
  import opened Parser
  import opened Render
  import opened RenderProperties
  import opened Renderer

  /** How deep includes may nest before the parse gives up. */
  const MaxIncludeDepth: nat := 32

  /** render's filters argument: absent, one provider, or an array of providers. */
  datatype FilterArgument = NoFilters | OneProvider(provider: FilterSet) | ProviderList(providers: seq<FilterSet>)

  /**
   * The template's filter sets once render has handled its filters
   * argument, as written: one provider is appended for good, but an array
   * goes to an array_merge whose result is thrown away.
   */
  function FiltersAfterAsWritten(registered: seq<FilterSet>, arg: FilterArgument): (r: seq<FilterSet>)
    ensures arg.ProviderList? || arg.NoFilters? ==> r == registered
    ensures arg.OneProvider? ==> r == registered + [arg.provider]
  {
    match arg
    case NoFilters => registered
    case OneProvider(f) => registered + [f]
    case ProviderList(_) => registered
  }

  /**
   * As evidently intended: an array of providers is merged into the
   * template's filter sets, after the ones already there.
   */
  function FiltersAfter(registered: seq<FilterSet>, arg: FilterArgument): (r: seq<FilterSet>)
    ensures registered <= r
    ensures |r| == |registered| + (match arg case NoFilters => 0 case OneProvider(_) => 1 case ProviderList(fs) => |fs|)
    ensures forall i | |registered| <= i < |r| :: r[i] in (match arg case NoFilters => [] case OneProvider(f) => [f] case ProviderList(fs) => fs)
  {
    match arg
    case NoFilters => registered
    case OneProvider(f) => registered + [f]
    case ProviderList(fs) => registered + fs
  }

  /**
   * A filter passed in an array is never applied as written: the variable
   * comes out as it went in. With the merge kept it is applied.
   */
  lemma ListFilterIgnored(f: FilterSet, name: string, v: Value)
    requires name in f && f[name](v, []) != v
    ensures Invoke(FiltersAfterAsWritten([], ProviderList([f])), Some(name), v, []) == v
    ensures Invoke(FiltersAfter([], ProviderList([f])), Some(name), v, []) == f[name](v, []) != v
  {
    assert [] + [f] == [f];
  }

  /** Filters passed to render shadow the ones registered before, for the names they provide. */
  lemma PassedFilterWins(registered: seq<FilterSet>, f: FilterSet, name: string, v: Value, args: seq<Value>)
    requires name in f
    ensures Invoke(FiltersAfter(registered, OneProvider(f)), Some(name), v, args) == f[name](v, args)
    ensures Invoke(FiltersAfter(registered, ProviderList([f])), Some(name), v, args) == f[name](v, args)
  {
  }

  /**
   * What rendering a template gives: the root list rendered on a fresh
   * context whose only scope is the assigns (none: an empty one); the state
   * it leaves is dropped. A template that was never parsed has no root.
   */
  function RenderTemplate(root: Option<seq<Node>>, assigns: Option<Scope>, filters: seq<FilterSet>, registers: Registers): (r: Result<string, Error>)
    ensures root.None? ==> r == Err(NotParsed)
    ensures root.Some? ==> (r.Ok? <==> RenderSeq(root.value, State([if assigns.Some? then assigns.value else map[]], registers), filters).Ok?)
  {
    match root
    case None => Err(NotParsed)
    case Some(ns) =>
      match RenderSeq(ns, State([if assigns.Some? then assigns.value else map[]], registers), filters)
      case Err(e) => Err(e)
      case Ok((out, _)) => Ok(out)
  }

  /** Source without any tag or variable parses to one text node and renders as itself. */
  lemma {:induction false} TextTemplateRendersVerbatim(fs: FileSystem, source: string, assigns: Option<Scope>, filters: seq<FilterSet>, registers: Registers)
    requires source != "" && source != "0"
    requires IsLiteralToken(source) && !StartsWith(source, TagStart) && !StartsWith(source, VariableStart)
    ensures ParseDocument(fs, Tokenize(source), MaxIncludeDepth) == Ok([Text(source)])
    ensures RenderTemplate(Some([Text(source)]), assigns, filters, registers) == Ok(source)
  {
    NoSpanSingleToken(source);
    PlainDocument(fs, [source], MaxIncludeDepth);
    assert PlainNodes([source]) == [Text(source)];
    var st := State([if assigns.Some? then assigns.value else map[]], registers);
    var ns := [Text(source)];
    assert AllText(ns) && ns[..0] == [];
    TextRendersVerbatim(ns, st, filters);
    assert Texts(ns) == Texts([]) + source == source;
  }

  class Template {
    /** The root node list; None until a parse succeeds. */
    var root: Option<seq<Node>>
    var fileSystem: FileSystem
    var filters: seq<FilterSet>

    /** A new template reads includes through the blank file system and has no filters. */
    constructor ()
      ensures root.None? && fileSystem == BlankFileSystem && filters == []
    {
      root := None;
      fileSystem := BlankFileSystem;
      filters := [];
    }

    /** register_filter: one more filter set, after the others. */
    method RegisterFilter(f: FilterSet)
      modifies this
      ensures filters == old(filters) + [f]
      ensures root == old(root) && fileSystem == old(fileSystem)
    {
      filters := filters + [f];
    }

    /** parse: the source tokenized and parsed as a document, which becomes the root. */
    method Parse(source: string) returns (r: Result<seq<Node>, Error>)
      modifies this
      ensures r == ParseDocument(old(fileSystem), Tokenize(source), MaxIncludeDepth)
      ensures root == (if r.Ok? then Some(r.value) else old(root))
      ensures fileSystem == old(fileSystem) && filters == old(filters)
    {
      r := ParseDocumentNodes(fileSystem, Tokenize(source), MaxIncludeDepth);
      if r.Ok? {
        root := Some(r.value);
      }
    }

    /**
     * render: a context over the assigns and registers; the filters
     * argument added to the template's own filter sets, which are then
     * handed to the context in order; and the root rendered on it.
     */
    method Render(assigns: Option<Scope>, filterArg: FilterArgument, registers: Registers) returns (r: Result<string, Error>)
      modifies this
      ensures filters == FiltersAfter(old(filters), filterArg)
      ensures root == old(root) && fileSystem == old(fileSystem)
      ensures r == RenderTemplate(root, assigns, filters, registers)
    {
      var scope := if assigns.Some? then assigns.value else map[];
      var ctx := new Context(scope, registers);
      match filterArg {
        case NoFilters =>
        case OneProvider(f) =>
          filters := filters + [f];
        case ProviderList(fs) =>
          filters := filters + fs;
      }
      var i := 0;
      while i < |filters|
        invariant 0 <= i <= |filters|
        invariant ctx.Valid() && ctx.scopes == [scope] && ctx.registers == registers
        invariant ctx.filters == filters[..i]
        invariant filters == FiltersAfter(old(filters), filterArg)
        invariant root == old(root) && fileSystem == old(fileSystem)
      {
        assert filters[..i + 1] == filters[..i] + [filters[i]];
        ctx.AddFilters(filters[i]);
        i := i + 1;
      }
      assert filters[..|filters|] == filters;
      if root.None? {
        return Err(NotParsed);
      }
      r := RenderList(root.value, ctx);
    }
  }
}
