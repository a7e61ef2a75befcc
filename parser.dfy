/**
 * LiquidBlock::parse and the tag constructors (lib/block.php,
 * lib/standardtags.php). A block takes tokens off the front of one shared
 * token list until it meets its own end tag; a block tag met on the way
 * parses its body from the same list, so the enclosing block resumes after
 * that body's end tag. ParseBody and ParseTag state the parse as functions;
 * the class TokenStream and the methods ParseBlock and ParseTagNode do it
 * the way the source does, shifting tokens off a list held by reference.
 */
module Parser {
  import opened Wrappers
  import opened Grammar
  import opened Errors
  import opened Variables
  import opened Nodes
  import opened Markup
  import opened Tokenizer
  import opened FileSystems

  /** The collector has the lists its block kind keeps. */
  predicate Shaped(kind: BlockKind, c: Collector) {
    (kind == IfBlock <==> c.IfLists?) && (kind == CaseBlock <==> c.CaseLists?)
  }

  /** b ends with a: what is left of a list after some tokens were taken off its front. */
  predicate IsSuffix(a: seq<string>, b: seq<string>) {
    |a| <= |b| && b[|b| - |a|..] == a
  }

  lemma SuffixTransitive(a: seq<string>, b: seq<string>, c: seq<string>)
    requires IsSuffix(a, b) && IsSuffix(b, c)
    ensures IsSuffix(a, c)
  {
    assert c[|c| - |a|..] == c[|c| - |b|..][|b| - |a|..];
  }

  /** create_variable: a variable from the text between the delimiters, or a notice and no node. */
  function CreateVariable(t: string): (n: Node)
    requires StartsWith(t, VariableStart)
    ensures n.Output? || n == Missing
    ensures n.Output? ==> t == VariableStart + n.variable.markup + VariableEnd || t == VariableStart + n.variable.markup + VariableEnd + "\n"
    ensures n.Output? ==> n.variable == VariableOf(n.variable.markup)
  {
    match VariableScan(t)
    case Some(markup) => Output(VariableOf(markup))
    case None => Missing
  }

  /** The base unknown_tag: else, the bare word end, and any other name are fatal. */
  function BaseUnknownTag(kind: BlockKind, tag: string): (e: Error)
    ensures tag == "else" ==> e == UnexpectedElse(BlockName(kind))
    ensures tag == "end" ==> e == BadEndTag(BlockName(kind), Delimiter(kind))
    ensures tag != "else" && tag != "end" ==> e == UnknownTag(tag)
  {
    if tag == "else" then UnexpectedElse(BlockName(kind))
    else if tag == "end" then BadEndTag(BlockName(kind), Delimiter(kind))
    else UnknownTag(tag)
  }

  /**
   * unknown_tag of each block: if takes else (the false list becomes
   * current and is emptied); case takes when (a quoted fragment is required)
   * and else; every other name goes to the base handler.
   */
  function UnknownTagOf(kind: BlockKind, c: Collector, tag: string, params: string): (r: Result<Collector, Error>)
    requires Shaped(kind, c)
    ensures r.Ok? ==> Shaped(kind, r.value)
    ensures kind != IfBlock && kind != CaseBlock ==> r == Err(BaseUnknownTag(kind, tag))
    ensures kind == IfBlock && tag == "else" ==> r == Ok(IfLists(c.whenTrue, [], true))
    ensures kind == IfBlock && tag != "else" ==> r == Err(BaseUnknownTag(kind, tag))
    ensures kind == CaseBlock && tag == "when" && FirstFragment(params).None? ==> r == Err(TagSyntax("case"))
    ensures kind == CaseBlock && tag == "when" && FirstFragment(params).Some? ==>
      r == Ok(CaseLists(PushNodelist(c).whens, FirstFragment(params), [], c.elseIsCurrent))
    ensures kind == CaseBlock && tag == "else" ==> r == Ok(CaseLists(PushNodelist(c).whens, None, [], true))
    ensures kind == CaseBlock && tag != "when" && tag != "else" ==> r == Err(BaseUnknownTag(kind, tag))
  {
    match c
    case IfLists(t, _, _) =>
      if tag == "else" then Ok(IfLists(t, [], true)) else Err(BaseUnknownTag(kind, tag))
    case CaseLists(_, _, _, e) =>
      if tag == "when" then
        match FirstFragment(params)
        case None => Err(TagSyntax("case"))
        case Some(v) => Ok(CaseLists(PushNodelist(c).whens, Some(v), [], e))
      else if tag == "else" then
        Ok(CaseLists(PushNodelist(c).whens, None, [], true))
      else Err(BaseUnknownTag(kind, tag))
    case Plain(_) => Err(BaseUnknownTag(kind, tag))
  }

  /** A falsy token ("" or "0") or the end of the list stops the while loop of parse. */
  predicate StopsLoop(tokens: seq<string>) {
    tokens == [] || tokens[0] == "" || tokens[0] == "0"
  }

  /** The node of a token that is no tag: a variable for "{{", the literal text otherwise. */
  function PlainNode(t: string): (n: Node)
    ensures !StartsWith(t, VariableStart) ==> n == Text(t)
    ensures StartsWith(t, VariableStart) ==> n.Output? || n == Missing
  {
    if StartsWith(t, VariableStart) then CreateVariable(t) else Text(t)
  }

  /**
   * parse, from collector c on: the collector at the block's end tag and the
   * tokens after it. Only the document may run out of tokens; a falsy token
   * is taken off the list and ends the document there.
   */
  function ParseBody(fs: FileSystem, kind: BlockKind, c: Collector, tokens: seq<string>, fuel: nat): (r: Result<(Collector, seq<string>), Error>)
    requires Shaped(kind, c)
    ensures r.Ok? ==> Shaped(kind, r.value.0)
    ensures r.Ok? ==> IsSuffix(r.value.1, tokens) && (tokens != [] ==> |r.value.1| < |tokens|)
    ensures StopsLoop(tokens) && kind != DocumentBlock ==> r == Err(NeverClosed(BlockName(kind)))
    decreases fuel, |tokens|, 1
  {
    if StopsLoop(tokens) then
      if kind == DocumentBlock then Ok((c, if tokens == [] then [] else tokens[1..])) else Err(NeverClosed(BlockName(kind)))
    else if !StartsWith(tokens[0], TagStart) then
      var r := ParseBody(fs, kind, Append(c, PlainNode(tokens[0])), tokens[1..], fuel);
      if r.Ok? then (SuffixTransitive(r.value.1, tokens[1..], tokens); r) else r
    else
      ParseTagToken(fs, kind, c, tokens[0], tokens[1..], fuel)
  }

  /** parse at a tag token t: the end tag, a registered tag, or unknown_tag; then the rest of the body. */
  function ParseTagToken(fs: FileSystem, kind: BlockKind, c: Collector, t: string, rest: seq<string>, fuel: nat): (r: Result<(Collector, seq<string>), Error>)
    requires Shaped(kind, c) && StartsWith(t, TagStart)
    ensures r.Ok? ==> Shaped(kind, r.value.0)
    ensures r.Ok? ==> IsSuffix(r.value.1, rest)
    decreases fuel, |rest| + 1, 0
  {
    assert IsSuffix(rest, rest);
    match TagScan(t)
    case None => Err(TagNotTerminated(t))
    case Some((name, markup)) =>
      if name == Delimiter(kind) then Ok((EndTag(c), rest))
      else if IsRegistered(ToLower(name)) then
        match ParseTag(fs, ToLower(name), markup, rest, fuel)
        case Err(e) => Err(e)
        case Ok((n, rest2)) =>
          var r := ParseBody(fs, kind, Append(c, n), rest2, fuel);
          if r.Ok? then (SuffixTransitive(r.value.1, rest2, rest); r) else r
      else
        match UnknownTagOf(kind, c, name, markup)
        case Err(e) => Err(e)
        case Ok(c2) => ParseBody(fs, kind, c2, rest, fuel)
  }

  /** The block a registered block tag parses. */
  function TagBlock(name: string): BlockKind {
    if name == "capture" then CaptureBlock
    else if name == "comment" then CommentBlock
    else if name == "for" then ForBlock
    else if name == "if" then IfBlock
    else CaseBlock
  }

  /**
   * The constructor of a registered tag, given its lower-case name, its
   * markup and the tokens after it: the node and the tokens it leaves.
   * capture without a target word parses no body.
   */
  function ParseTag(fs: FileSystem, name: string, markup: string, tokens: seq<string>, fuel: nat): (r: Result<(Node, seq<string>), Error>)
    requires IsRegistered(name)
    ensures r.Ok? ==> IsSuffix(r.value.1, tokens)
    ensures (name == "assign" || name == "cycle" || name == "include") && r.Ok? ==> r.value.1 == tokens
    decreases fuel, |tokens|, 3
  {
    assert IsSuffix(tokens, tokens);
    if name == "assign" then Ok((Assign(AssignSearch(markup, 0)), tokens))
    else if name == "cycle" then Ok((CycleOf(markup), tokens))
    else if name == "include" then ParseInclude(fs, markup, tokens, fuel)
    else if name == "capture" && FirstWord(markup).None? then Ok((Capture(None, []), tokens))
    else ParseBlockTag(fs, TagBlock(name), markup, tokens, fuel)
  }

  /**
   * The node of a block tag from its finished lists. A block tag parses its
   * body first and checks its markup after, so a syntax error in the markup
   * is raised only once the body has parsed.
   */
  function BlockNode(kind: BlockKind, markup: string, c: Collector): (r: Result<Node, Error>)
    requires kind != DocumentBlock && Shaped(kind, c)
    ensures kind == CaptureBlock || kind == CommentBlock ==> r.Ok?
    ensures kind == ForBlock ==> (r.Ok? <==> ForSearch(markup, 0).Some?)
    ensures kind == IfBlock ==> (r.Ok? <==> IfScan(markup).Some?)
    ensures kind == CaseBlock ==> (r.Ok? <==> FirstFragment(markup).Some?)
    ensures r.Err? ==> r.error == TagSyntax(BlockName(kind))
  {
    match kind
    case CaptureBlock => Ok(Capture(FirstWord(markup), c.nodes))
    case CommentBlock => Ok(Comment(c.nodes))
    case ForBlock =>
      (match ForSearch(markup, 0)
       case None => Err(TagSyntax("for"))
       case Some((item, collection)) => Ok(For(item, collection, Attributes(markup), c.nodes)))
    case IfBlock =>
      (match IfScan(markup)
       case None => Err(TagSyntax("if"))
       case Some((left, op, right)) => Ok(If(left, op, right, c.whenTrue, c.whenFalse)))
    case CaseBlock =>
      (match FirstFragment(markup)
       case None => Err(TagSyntax("case"))
       case Some(left) => Ok(Case(left, c.whens, ElseList(c))))
  }

  /** A block tag: its body up to its end tag, then its node. */
  function ParseBlockTag(fs: FileSystem, kind: BlockKind, markup: string, tokens: seq<string>, fuel: nat): (r: Result<(Node, seq<string>), Error>)
    requires kind != DocumentBlock
    ensures r.Ok? ==> IsSuffix(r.value.1, tokens)
    decreases fuel, |tokens|, 2
  {
    match ParseBody(fs, kind, Initial(kind), tokens, fuel)
    case Err(e) => Err(e)
    case Ok((c, rest)) =>
      match BlockNode(kind, markup, c)
      case Err(e) => Err(e)
      case Ok(n) => Ok((n, rest))
  }

  /**
   * What include reads before it parses: the markup scanned, the nesting
   * bound checked, and the named template's source read through the file
   * system.
   */
  function IncludeSource(fs: FileSystem, markup: string, fuel: nat): (r: Result<string, Error>)
    ensures IncludeScan(markup).None? ==> r == Err(TagSyntax("include"))
    ensures IncludeScan(markup).Some? && fs.BlankFileSystem? ==> r == Err(if fuel == 0 then IncludeTooDeep else IncludesNotAllowed)
    ensures IncludeScan(markup).Some? && fuel > 0 ==> r == ReadTemplateFile(fs, IncludeScan(markup).value.0)
  {
    match IncludeScan(markup)
    case None => Err(TagSyntax("include"))
    case Some((template, _, _)) =>
      if fuel == 0 then Err(IncludeTooDeep) else ReadTemplateFile(fs, template)
  }

  /** The include node of well-formed markup over the included document's nodes. */
  function IncludeNodeOf(markup: string, nodes: seq<Node>): (n: Node)
    requires IncludeScan(markup).Some?
    ensures n.Include? && n.document == nodes && n.attributes == Attributes(markup)
    ensures (n.templateName, n.forEach, n.target) == IncludeScan(markup).value
  {
    var (template, forEach, target) := IncludeScan(markup).value;
    Include(template, forEach, target, Attributes(markup), nodes)
  }

  /**
   * include: the markup is checked first; the template is read and parsed
   * into a document of its own (fuel bounds how deep includes nest), and
   * the shared tokens are left alone.
   */
  function ParseInclude(fs: FileSystem, markup: string, tokens: seq<string>, fuel: nat): (r: Result<(Node, seq<string>), Error>)
    ensures r.Ok? ==> r.value.1 == tokens && r.value.0.Include?
    ensures IncludeScan(markup).None? ==> r == Err(TagSyntax("include"))
    ensures IncludeScan(markup).Some? && fs.BlankFileSystem? ==> r == Err(if fuel == 0 then IncludeTooDeep else IncludesNotAllowed)
    decreases fuel, |tokens|, 2
  {
    match IncludeSource(fs, markup, fuel)
    case Err(e) => Err(e)
    case Ok(source) =>
      match ParseDocument(fs, Tokenize(source), fuel - 1)
      case Err(e) => Err(e)
      case Ok(nodes) => Ok((IncludeNodeOf(markup, nodes), tokens))
  }

  /** An include whose source was read parses to the node made of that source's document, or fails as the document does. */
  lemma IncludeOutcome(fs: FileSystem, markup: string, tokens: seq<string>, fuel: nat, source: string, document: Result<seq<Node>, Error>)
    requires IncludeSource(fs, markup, fuel) == Ok(source)
    requires document == ParseDocument(fs, Tokenize(source), fuel - 1)
    ensures document.Err? ==> ParseInclude(fs, markup, tokens, fuel) == Err(document.error)
    ensures document.Ok? ==> ParseInclude(fs, markup, tokens, fuel) == Ok((IncludeNodeOf(markup, document.value), tokens))
  { }

  /** new LiquidDocument(tokens): the document's node list. */
  function ParseDocument(fs: FileSystem, tokens: seq<string>, fuel: nat): (r: Result<seq<Node>, Error>)
    ensures tokens == [] ==> r == Ok([])
    decreases fuel, |tokens|, 2
  {
    match ParseBody(fs, DocumentBlock, Initial(DocumentBlock), tokens, fuel)
    case Err(e) => Err(e)
    case Ok((c, _)) => Ok(c.nodes)
  }

  /** A token that is neither a tag, nor falsy: literal text or a variable. */
  predicate IsPlainToken(t: string) {
    t != "" && t != "0" && !StartsWith(t, TagStart)
  }

  /** The nodes the parse makes of plain tokens, one each, in order. */
  function PlainNodes(tokens: seq<string>): (r: seq<Node>)
    requires forall i | 0 <= i < |tokens| :: IsPlainToken(tokens[i])
    ensures |r| == |tokens|
  {
    if tokens == [] then []
    else [PlainNode(tokens[0])] + PlainNodes(tokens[1..])
  }

  /** Plain tokens go, in order, to the current list, whatever the block. */
  lemma {:induction false} PlainTokensAppend(fs: FileSystem, kind: BlockKind, c: Collector, pre: seq<string>, post: seq<string>, fuel: nat)
    requires Shaped(kind, c)
    requires forall i | 0 <= i < |pre| :: IsPlainToken(pre[i])
    ensures AppendAll(c, PlainNodes(pre)).IfLists? == c.IfLists? && AppendAll(c, PlainNodes(pre)).CaseLists? == c.CaseLists?
    ensures ParseBody(fs, kind, c, pre + post, fuel) == ParseBody(fs, kind, AppendAll(c, PlainNodes(pre)), post, fuel)
    decreases |pre|
  {
    if pre != [] {
      assert (pre + post)[0] == pre[0] && (pre + post)[1..] == pre[1..] + post;
      var ns := PlainNodes(pre);
      assert ns[0] == PlainNode(pre[0]) && ns[1..] == PlainNodes(pre[1..]);
      PlainTokensAppend(fs, kind, Append(c, PlainNode(pre[0])), pre[1..], post, fuel);
      assert !StopsLoop(pre + post) && !StartsWith((pre + post)[0], TagStart);
      assert ParseBody(fs, kind, c, pre + post, fuel) == ParseBody(fs, kind, Append(c, PlainNode(pre[0])), pre[1..] + post, fuel);
      assert AppendAll(c, ns) == AppendAll(Append(c, PlainNode(pre[0])), PlainNodes(pre[1..]));
    } else {
      assert pre + post == post;
    }
  }

  /** The nodes appended one by one. */
  function AppendAll(c: Collector, ns: seq<Node>): (r: Collector)
    ensures Current(r) == Current(c) + ns
    ensures r.Plain? == c.Plain? && r.IfLists? == c.IfLists? && r.CaseLists? == c.CaseLists?
    ensures r.IfLists? ==> r.inElse == c.inElse && (if c.inElse then r.whenTrue == c.whenTrue else r.whenFalse == c.whenFalse)
    ensures r.CaseLists? ==> r.whens == c.whens && r.right == c.right && r.elseIsCurrent == c.elseIsCurrent
    decreases |ns|
  {
    if ns == [] then c
    else
      var r := AppendAll(Append(c, ns[0]), ns[1..]);
      assert Current(c) + ns == Current(c) + [ns[0]] + ns[1..];
      r
  }

  /** A document of plain tokens is their nodes in source order, text verbatim. */
  lemma PlainDocument(fs: FileSystem, tokens: seq<string>, fuel: nat)
    requires forall i | 0 <= i < |tokens| :: IsPlainToken(tokens[i])
    ensures ParseDocument(fs, tokens, fuel) == Ok(PlainNodes(tokens))
    ensures forall i | 0 <= i < |tokens| :: !StartsWith(tokens[i], VariableStart) ==> PlainNodes(tokens)[i] == Text(tokens[i])
  {
    PlainTokensAppend(fs, DocumentBlock, Plain([]), tokens, [], fuel);
    assert tokens + [] == tokens;
    var c := AppendAll(Plain([]), PlainNodes(tokens));
    assert c.Plain? && c.nodes == PlainNodes(tokens);
    assert ParseBody(fs, DocumentBlock, c, [], fuel) == Ok((c, []));
    PlainNodesAt(tokens);
  }

  lemma {:induction false} PlainNodesAt(tokens: seq<string>)
    requires forall i | 0 <= i < |tokens| :: IsPlainToken(tokens[i])
    ensures forall i | 0 <= i < |tokens| :: PlainNodes(tokens)[i] == PlainNode(tokens[i])
    decreases |tokens|
  {
    if tokens != [] {
      PlainNodesAt(tokens[1..]);
    }
  }

  /** A block other than the document that meets no tag before the tokens run out is never closed. */
  lemma NeverClosedWithoutTags(fs: FileSystem, kind: BlockKind, tokens: seq<string>, fuel: nat)
    requires kind != DocumentBlock
    requires forall i | 0 <= i < |tokens| :: IsPlainToken(tokens[i])
    ensures ParseBody(fs, kind, Initial(kind), tokens, fuel) == Err(NeverClosed(BlockName(kind)))
  {
    PlainTokensAppend(fs, kind, Initial(kind), tokens, [], fuel);
    assert tokens + [] == tokens;
  }

  /** At a "0" token the document ends with the nodes so far; the token is consumed. */
  lemma ZeroTokenStops(fs: FileSystem, c: Collector, tail: seq<string>, fuel: nat)
    requires c.Plain? && tail != [] && tail[0] == "0"
    ensures ParseBody(fs, DocumentBlock, c, tail, fuel) == Ok((c, tail[1..]))
  {
  }

  /** A "0" token ends the document: the tokens after it are never parsed. */
  lemma ZeroTokenEndsDocument(fs: FileSystem, tokens: seq<string>, pre: seq<string>, post: seq<string>, fuel: nat)
    requires forall i | 0 <= i < |pre| :: IsPlainToken(pre[i])
    requires tokens == pre + ["0"] + post
    ensures ParseDocument(fs, tokens, fuel) == Ok(PlainNodes(pre))
  {
    var c := ZeroTokenBody(fs, tokens, pre, post, fuel);
    DocumentOfBody(fs, tokens, fuel, c, post);
  }

  /** The body parse of such a document: the plain nodes, and the tokens after the "0". */
  lemma ZeroTokenBody(fs: FileSystem, tokens: seq<string>, pre: seq<string>, post: seq<string>, fuel: nat) returns (c: Collector)
    requires forall i | 0 <= i < |pre| :: IsPlainToken(pre[i])
    requires tokens == pre + ["0"] + post
    ensures c.Plain? && c.nodes == PlainNodes(pre)
    ensures ParseBody(fs, DocumentBlock, Initial(DocumentBlock), tokens, fuel) == Ok((c, post))
  {
    var tail := ["0"] + post;
    assert tokens == pre + tail;
    PlainTokensAppend(fs, DocumentBlock, Plain([]), pre, tail, fuel);
    c := AppendAll(Plain([]), PlainNodes(pre));
    assert c.Plain? && c.nodes == PlainNodes(pre);
    ZeroTokenStops(fs, c, tail, fuel);
    assert tail[1..] == post;
  }

  /** The document is the node list the body parse ends with. */
  lemma DocumentOfBody(fs: FileSystem, tokens: seq<string>, fuel: nat, c: Collector, rest: seq<string>)
    requires ParseBody(fs, DocumentBlock, Initial(DocumentBlock), tokens, fuel) == Ok((c, rest))
    ensures ParseDocument(fs, tokens, fuel) == Ok(c.nodes)
  { }


  /** A tag token that is the block's own end tag closes it; the next token is the enclosing block's. */
  lemma EndTagCloses(fs: FileSystem, kind: BlockKind, c: Collector, t: string, markup: string, rest: seq<string>, fuel: nat)
    requires Shaped(kind, c)
    requires StartsWith(t, TagStart) && TagScan(t) == Some((Delimiter(kind), markup))
    ensures ParseBody(fs, kind, c, [t] + rest, fuel) == Ok((EndTag(c), rest))
  {
    assert ([t] + rest)[1..] == rest;
    assert t != "" && t != "0";
  }

  /** In an if block, an else tag keeps the nodes so far as the true list and starts an empty false list. */
  lemma ElseSwitchesLists(fs: FileSystem, t: string, markup: string, whenTrue: seq<Node>, whenFalse: seq<Node>, inElse: bool, rest: seq<string>, fuel: nat)
    requires StartsWith(t, TagStart) && TagScan(t) == Some(("else", markup))
    ensures ParseBody(fs, IfBlock, IfLists(whenTrue, whenFalse, inElse), [t] + rest, fuel)
         == ParseBody(fs, IfBlock, IfLists(whenTrue, [], true), rest, fuel)
  {
    assert ([t] + rest)[1..] == rest;
    assert t != "" && t != "0";
    TagNamesLowerCase();
  }

  /** The names case handles itself are lower case, and neither is a registered tag. */
  lemma CaseTagNames()
    ensures ToLower("when") == "when" && ToLower("else") == "else"
    ensures !IsRegistered("when") && !IsRegistered("else")
  {
    LowerCaseUnchanged("when");
    LowerCaseUnchanged("else");
  }

  /** A tag token that does not stop the loop is handed to ParseTagToken. */
  lemma TagTokenStep(fs: FileSystem, kind: BlockKind, c: Collector, t: string, rest: seq<string>, fuel: nat)
    requires Shaped(kind, c) && StartsWith(t, TagStart)
    ensures ParseBody(fs, kind, c, [t] + rest, fuel) == ParseTagToken(fs, kind, c, t, rest, fuel)
  {
    assert ([t] + rest)[1..] == rest;
    assert t != "" && t != "0";
  }

  /** A tag that neither ends the block nor is registered goes to unknown_tag, and the parse goes on from its lists. */
  lemma UnknownTagStep(fs: FileSystem, kind: BlockKind, c: Collector, t: string, name: string, markup: string, rest: seq<string>, fuel: nat)
    requires Shaped(kind, c) && StartsWith(t, TagStart)
    requires TagScan(t) == Some((name, markup)) && name != Delimiter(kind) && !IsRegistered(ToLower(name))
    ensures UnknownTagOf(kind, c, name, markup).Err? ==>
      ParseTagToken(fs, kind, c, t, rest, fuel) == Err(UnknownTagOf(kind, c, name, markup).error)
    ensures UnknownTagOf(kind, c, name, markup).Ok? ==>
      ParseTagToken(fs, kind, c, t, rest, fuel) == ParseBody(fs, kind, UnknownTagOf(kind, c, name, markup).value, rest, fuel)
  {
  }

  /**
   * In a case, `when v` closes the pending branch with the nodes collected
   * for it and opens a new, empty one under v; the parse goes on from there.
   */
  lemma CaseWhenStarts(fs: FileSystem, c: Collector, t: string, markup: string, v: string, rest: seq<string>, fuel: nat)
    requires c.CaseLists?
    requires StartsWith(t, TagStart) && TagScan(t) == Some(("when", markup))
    requires FirstFragment(markup) == Some(v)
    ensures ParseBody(fs, CaseBlock, c, [t] + rest, fuel)
         == ParseBody(fs, CaseBlock, CaseLists(PushNodelist(c).whens, Some(v), [], c.elseIsCurrent), rest, fuel)
  {
    CaseTagNames();
    TagTokenStep(fs, CaseBlock, c, t, rest, fuel);
    UnknownTagStep(fs, CaseBlock, c, t, "when", markup, rest, fuel);
  }

  /** In a case, `when` without a quoted fragment is a syntax error. */
  lemma CaseWhenNeedsValue(fs: FileSystem, c: Collector, t: string, markup: string, rest: seq<string>, fuel: nat)
    requires c.CaseLists?
    requires StartsWith(t, TagStart) && TagScan(t) == Some(("when", markup))
    requires FirstFragment(markup).None?
    ensures ParseBody(fs, CaseBlock, c, [t] + rest, fuel) == Err(TagSyntax("case"))
  {
    CaseTagNames();
    TagTokenStep(fs, CaseBlock, c, t, rest, fuel);
    UnknownTagStep(fs, CaseBlock, c, t, "when", markup, rest, fuel);
  }

  /**
   * In a case, else closes the pending branch and makes the list that
   * follows the else list (no value is pending any more).
   */
  lemma CaseElseStarts(fs: FileSystem, c: Collector, t: string, markup: string, rest: seq<string>, fuel: nat)
    requires c.CaseLists?
    requires StartsWith(t, TagStart) && TagScan(t) == Some(("else", markup))
    ensures ParseBody(fs, CaseBlock, c, [t] + rest, fuel)
         == ParseBody(fs, CaseBlock, CaseLists(PushNodelist(c).whens, None, [], true), rest, fuel)
  {
    CaseTagNames();
    TagTokenStep(fs, CaseBlock, c, t, rest, fuel);
    UnknownTagStep(fs, CaseBlock, c, t, "else", markup, rest, fuel);
  }

  /**
   * The nodes a case collects before its first when belong to no branch:
   * the first when starts from no branches and an empty list, whatever was
   * collected.
   */
  lemma CaseDropsLeadingNodes(fs: FileSystem, leading: seq<Node>, t: string, markup: string, v: string, rest: seq<string>, fuel: nat)
    requires StartsWith(t, TagStart) && TagScan(t) == Some(("when", markup))
    requires FirstFragment(markup) == Some(v)
    ensures ParseBody(fs, CaseBlock, CaseLists([], None, leading, false), [t] + rest, fuel)
         == ParseBody(fs, CaseBlock, CaseLists([], Some(v), [], false), rest, fuel)
  {
    CaseWhenStarts(fs, CaseLists([], None, leading, false), t, markup, v, rest, fuel);
  }

  /** A token that starts like a tag but is no complete tag is fatal. */
  lemma UnterminatedTagFails(fs: FileSystem, kind: BlockKind, c: Collector, t: string, rest: seq<string>, fuel: nat)
    requires Shaped(kind, c)
    requires StartsWith(t, TagStart) && TagScan(t).None?
    ensures ParseBody(fs, kind, c, [t] + rest, fuel) == Err(TagNotTerminated(t))
  {
    assert ([t] + rest)[0] == t;
    assert t != "" && t != "0";
  }

  lemma ScanIfTag(t: string)
    requires t == "{%if a%}"
    ensures TagScan(t) == Some(("if", "a"))
  {
    assert !IsSpace(t[2]) && IsWordChar(t[2]) && IsWordChar(t[3]) && !IsWordChar(t[4]) && IsSpace(t[4]) && !IsSpace(t[5]);
    RunEndIs(t, 2, 4, IsWordChar);
    RunEndIs(t, 4, 5, IsSpace);
    assert ClosingAt(t, '%', '}') == Some(6);
    assert t[2..4] == "if" && t[5..6] == "a";
  }

  lemma ScanEndifTag(t: string)
    requires t == "{%endif%}"
    ensures TagScan(t) == Some(("endif", ""))
  {
    assert !IsSpace(t[2]) && !IsWordChar(t[7]) && !IsSpace(t[7]);
    assert forall i | 2 <= i < 7 :: IsWordChar(t[i]);
    RunEndIs(t, 2, 7, IsWordChar);
    RunEndIs(t, 7, 7, IsSpace);
    assert t[7..7] == "";
    assert ClosingAt(t, '%', '}') == Some(7);
    assert t[2..7] == "endif";
  }

  lemma ScanIfMarkup(m: string)
    requires m == "a"
    ensures IfScan(m) == Some(("a", None, None))
  {
    assert IsFragmentChar(m[0]) && !IsQuote(m[0]);
    RunEndIs(m, 0, 1, IsFragmentChar);
    assert FragmentAt(m, 0) == Some(1);
    assert FragmentSearch(m, 0) == Some((0, 1));
    RunEndIs(m, 1, 1, IsSpace);
    RunEndIs(m, 1, 1, IsOperatorChar);
    assert m[0..1] == "a";
  }

  lemma IfBodyExample(fs: FileSystem, ts: seq<string>, fuel: nat)
    requires ts == ["b", "{%endif%}"]
    ensures ParseBody(fs, IfBlock, IfLists([], [], false), ts, fuel) == Ok((IfLists([Text("b")], [], false), []))
  {
    ScanEndifTag(ts[1]);
    assert Delimiter(IfBlock) == "endif";
    assert !StartsWith("b", TagStart) && !StartsWith("b", VariableStart);
    assert [ts[1]] + [] == ts[1..];
    EndTagCloses(fs, IfBlock, IfLists([Text("b")], [], false), ts[1], "", [], fuel);
    assert PlainNode("b") == Text("b");
    assert Append(IfLists([], [], false), Text("b")) == IfLists([Text("b")], [], false);
    assert ParseBody(fs, IfBlock, IfLists([], [], false), ts, fuel) == ParseBody(fs, IfBlock, IfLists([Text("b")], [], false), ts[1..], fuel);
  }

  lemma IfTagExample(fs: FileSystem, ts: seq<string>, fuel: nat)
    requires ts == ["b", "{%endif%}"]
    ensures ParseTag(fs, "if", "a", ts, fuel) == Ok((If("a", None, None, [Text("b")], []), []))
  {
    IfBodyExample(fs, ts, fuel);
    ScanIfMarkup("a");
    var c := IfLists([Text("b")], [], false);
    assert TagBlock("if") == IfBlock && Initial(IfBlock) == IfLists([], [], false);
    assert BlockNode(IfBlock, "a", c) == Ok(If("a", None, None, [Text("b")], []));
    assert ParseBlockTag(fs, IfBlock, "a", ts, fuel) == Ok((If("a", None, None, [Text("b")], []), []));
  }

  /** "{%if a%}b{%endif%}" parses to one if node whose true list is the text "b". */
  lemma ParseIfExample(fs: FileSystem, fuel: nat)
    ensures ParseDocument(fs, ["{%if a%}", "b", "{%endif%}"], fuel) == Ok([If("a", None, None, [Text("b")], [])])
  {
    var ts := ["{%if a%}", "b", "{%endif%}"];
    ScanIfTag(ts[0]);
    TagNamesLowerCase();
    IfTagExample(fs, ts[1..], fuel);
    var n := If("a", None, None, [Text("b")], []);
    assert "if" != Delimiter(DocumentBlock) && IsRegistered("if");
    assert Append(Plain([]), n) == Plain([n]);
    assert ts == [ts[0]] + ts[1..];
    RegisteredTagAppends(fs, DocumentBlock, Plain([]), ts[0], "if", "a", ts[1..], n, [], fuel);
    assert ParseBody(fs, DocumentBlock, Plain([If("a", None, None, [Text("b")], [])]), [], fuel) == Ok((Plain([If("a", None, None, [Text("b")], [])]), []));
  }

  lemma ScanCommentTag(t: string)
    requires t == "{% comment %}"
    ensures StartsWith(t, TagStart) && TagScan(t) == Some(("comment", ""))
  {
    assert t[..2] == TagStart;
    assert IsSpace(t[2]) && !IsSpace(t[3]) && !IsWordChar(t[10]) && IsSpace(t[10]) && !IsSpace(t[11]);
    assert forall i | 3 <= i < 10 :: IsWordChar(t[i]);
    RunEndIs(t, 2, 3, IsSpace);
    RunEndIs(t, 3, 10, IsWordChar);
    RunEndIs(t, 10, 11, IsSpace);
    assert ClosingAt(t, '%', '}') == Some(11);
    assert t[3..10] == "comment" && t[11..11] == "";
  }

  lemma ScanEndcommentTag(t: string)
    requires t == "{% endcomment %}"
    ensures StartsWith(t, TagStart) && TagScan(t) == Some((Delimiter(CommentBlock), ""))
  {
    EndcommentChars(t);
    RunEndIs(t, 2, 3, IsSpace);
    RunEndIs(t, 3, 13, IsWordChar);
    RunEndIs(t, 13, 14, IsSpace);
    assert ClosingAt(t, '%', '}') == Some(14);
  }

  lemma EndcommentChars(t: string)
    requires t == "{% endcomment %}"
    ensures t[..2] == TagStart && Delimiter(CommentBlock) == "endcomment"
    ensures IsSpace(t[2]) && !IsSpace(t[3]) && !IsWordChar(t[13]) && IsSpace(t[13]) && !IsSpace(t[14])
    ensures forall i | 3 <= i < 13 :: IsWordChar(t[i])
    ensures t[3..13] == "endcomment" && t[14..14] == ""
  {
    assert Delimiter(CommentBlock) == "end" + "comment";
  }

  /** A literal text token is appended to the current list as it is, and the parse goes on after it. */
  lemma TextTokenAppends(fs: FileSystem, kind: BlockKind, c: Collector, t: string, rest: seq<string>, fuel: nat)
    requires Shaped(kind, c) && IsPlainToken(t) && !StartsWith(t, VariableStart)
    ensures ParseBody(fs, kind, c, [t] + rest, fuel) == ParseBody(fs, kind, Append(c, Text(t)), rest, fuel)
  {
    assert ([t] + rest)[0] == t && ([t] + rest)[1..] == rest;
    assert !StopsLoop([t] + rest);
  }

  /** A token that starts with a space is plain text: no tag, no variable, not falsy. */
  lemma SpaceLedText(t: string)
    requires |t| >= 1 && t[0] == ' '
    ensures IsPlainToken(t) && !StartsWith(t, VariableStart)
  {
    assert t != "0" by { assert "0"[0] == '0'; }
    if |t| >= 2 {
      assert t[..2][0] == t[0];
    }
  }

  /** A tag token naming a registered tag other than the block's end tag: its node is appended, and the parse goes on after what the tag took. */
  lemma RegisteredTagAppends(fs: FileSystem, kind: BlockKind, c: Collector, t: string, name: string, markup: string, rest: seq<string>, n: Node, rest2: seq<string>, fuel: nat)
    requires Shaped(kind, c) && StartsWith(t, TagStart) && TagScan(t) == Some((name, markup))
    requires name != Delimiter(kind) && IsRegistered(ToLower(name))
    requires ParseTag(fs, ToLower(name), markup, rest, fuel) == Ok((n, rest2))
    ensures ParseBody(fs, kind, c, [t] + rest, fuel) == ParseBody(fs, kind, Append(c, n), rest2, fuel)
  {
    TagTokenStep(fs, kind, c, t, rest, fuel);
    RegisteredTagStep(fs, kind, c, t, name, markup, rest, n, rest2, fuel);
  }

  lemma RegisteredTagStep(fs: FileSystem, kind: BlockKind, c: Collector, t: string, name: string, markup: string, rest: seq<string>, n: Node, rest2: seq<string>, fuel: nat)
    requires Shaped(kind, c) && StartsWith(t, TagStart) && TagScan(t) == Some((name, markup))
    requires name != Delimiter(kind) && IsRegistered(ToLower(name))
    requires ParseTag(fs, ToLower(name), markup, rest, fuel) == Ok((n, rest2))
    ensures ParseTagToken(fs, kind, c, t, rest, fuel) == ParseBody(fs, kind, Append(c, n), rest2, fuel)
  {
  }

  /** The tag names the examples use are written in lower case already. */
  lemma TagNamesLowerCase()
    ensures ToLower("comment") == "comment" && ToLower("if") == "if" && ToLower("else") == "else"
  {
    LowerCaseUnchanged("comment");
    LowerCaseUnchanged("if");
    LowerCaseUnchanged("else");
  }


  lemma CommentBodyExample(fs: FileSystem, ts: seq<string>, fuel: nat)
    requires ts == ["  ", "{% endcomment %}", " "]
    ensures ParseBody(fs, CommentBlock, Plain([]), ts, fuel) == Ok((Plain([Text("  ")]), [" "]))
  {
    ScanEndcommentTag(ts[1]);
    assert ts == ["  "] + ts[1..] && ts[1..] == [ts[1]] + [" "];
    SpaceLedText("  ");
    TextTokenAppends(fs, CommentBlock, Plain([]), "  ", ts[1..], fuel);
    EndTagCloses(fs, CommentBlock, Plain([Text("  ")]), ts[1], "", [" "], fuel);
    assert Append(Plain([]), Text("  ")) == Plain([Text("  ")]);
  }

  lemma CommentTagExample(fs: FileSystem, ts: seq<string>, fuel: nat)
    requires ts == ["  ", "{% endcomment %}", " "]
    ensures ParseTag(fs, "comment", "", ts, fuel) == Ok((Comment([Text("  ")]), [" "]))
  {
    CommentBodyExample(fs, ts, fuel);
    assert TagBlock("comment") == CommentBlock && Initial(CommentBlock) == Plain([]);
    assert ParseBlockTag(fs, CommentBlock, "", ts, fuel) == Ok((Comment([Text("  ")]), [" "]));
  }

  /** The comment tag of the example, met in the document: its node is appended and the parse resumes after its end tag. */
  lemma CommentTagStep(fs: FileSystem, c: Collector, ts: seq<string>, fuel: nat)
    requires c.Plain? && ts == ["{% comment %}", "  ", "{% endcomment %}", " "]
    ensures ParseBody(fs, DocumentBlock, c, ts, fuel) == ParseBody(fs, DocumentBlock, Append(c, Comment([Text("  ")])), [" "], fuel)
  {
    ScanCommentTag(ts[0]);
    TagNamesLowerCase();
    CommentTagExample(fs, ts[1..], fuel);
    assert "comment" != Delimiter(DocumentBlock) && IsRegistered("comment");
    assert ts == [ts[0]] + ts[1..];
    RegisteredTagAppends(fs, DocumentBlock, c, ts[0], "comment", "", ts[1..], Comment([Text("  ")]), [" "], fuel);
  }

  /** A last text token of one space ends the document with it appended. */
  lemma LastSpaceStep(fs: FileSystem, c: Collector, fuel: nat)
    requires c.Plain?
    ensures ParseBody(fs, DocumentBlock, c, [" "], fuel) == Ok((Append(c, Text(" ")), []))
  {
    assert [" "] == [" "] + [];
    SpaceLedText(" ");
    TextTokenAppends(fs, DocumentBlock, c, " ", [], fuel);
  }

  lemma CommentDocumentTail(fs: FileSystem, ts: seq<string>, fuel: nat)
    requires ts == ["{% comment %}", "  ", "{% endcomment %}", " "]
    ensures ParseBody(fs, DocumentBlock, Plain([Text("  ")]), ts, fuel) == Ok((Plain([Text("  "), Comment([Text("  ")]), Text(" ")]), []))
  {
    CommentTagStep(fs, Plain([Text("  ")]), ts, fuel);
    CommentDocumentLists();
    LastSpaceStep(fs, Plain([Text("  "), Comment([Text("  ")])]), fuel);
  }

  lemma CommentDocumentLists()
    ensures Append(Plain([Text("  ")]), Comment([Text("  ")])) == Plain([Text("  "), Comment([Text("  ")])])
    ensures Append(Plain([Text("  "), Comment([Text("  ")])]), Text(" ")) == Plain([Text("  "), Comment([Text("  ")]), Text(" ")])
  {
  }

  /**
   * A nested block takes its tokens from the shared list, and the document
   * carries on after its end tag: three top-level nodes, the comment in the middle.
   */
  lemma ParseCommentExample(fs: FileSystem, fuel: nat)
    ensures ParseDocument(fs, ["  ", "{% comment %}", "  ", "{% endcomment %}", " "], fuel) == Ok([Text("  "), Comment([Text("  ")]), Text(" ")])
  {
    var ts := ["  ", "{% comment %}", "  ", "{% endcomment %}", " "];
    assert ts == ["  "] + ts[1..];
    SpaceLedText("  ");
    TextTokenAppends(fs, DocumentBlock, Plain([]), "  ", ts[1..], fuel);
    assert Append(Plain([]), Text("  ")) == Plain([Text("  ")]);
    CommentDocumentTail(fs, ts[1..], fuel);
    DocumentOfBody(fs, ts, fuel, Plain([Text("  "), Comment([Text("  ")]), Text(" ")]), []);
  }

  /** The token list a block and the tags in it take tokens from, shared by reference. */
  class TokenStream {
    var tokens: seq<string>

    constructor (tokens: seq<string>)
      ensures this.tokens == tokens
    {
      this.tokens := tokens;
    }

    /** array_shift: the first token, taken off the list; null (None) for an empty list. */
    method Shift() returns (t: Option<string>)
      modifies this
      ensures old(tokens) == [] ==> t.None? && tokens == []
      ensures old(tokens) != [] ==> t == Some(old(tokens)[0]) && tokens == old(tokens)[1..]
    {
      if tokens == [] {
        t := None;
      } else {
        t := Some(tokens[0]);
        tokens := tokens[1..];
      }
    }
  }

  /**
   * parse: the loop that shifts tokens off the stream and appends to the
   * current list, handing a registered tag the same stream. It computes
   * ParseBody from the empty lists and leaves the stream where ParseBody says.
   */
  method ParseBlock(fs: FileSystem, kind: BlockKind, stream: TokenStream, fuel: nat) returns (r: Result<Collector, Error>)
    modifies stream
    decreases fuel, |stream.tokens|, 1
    ensures match ParseBody(fs, kind, Initial(kind), old(stream.tokens), fuel)
      case Ok((c, rest)) => r == Ok(c) && stream.tokens == rest
      case Err(e) => r == Err(e)
  {
    var c := Initial(kind);
    while true
      invariant Shaped(kind, c)
      invariant |stream.tokens| <= old(|stream.tokens|)
      invariant ParseBody(fs, kind, c, stream.tokens, fuel) == ParseBody(fs, kind, Initial(kind), old(stream.tokens), fuel)
      decreases |stream.tokens|
    {
      var next := stream.Shift();
      if next.None? || next.value == "" || next.value == "0" {
        if kind == DocumentBlock {
          return Ok(c);
        }
        return Err(NeverClosed(BlockName(kind)));
      }
      var t := next.value;
      if StartsWith(t, TagStart) {
        var scanned := TagScan(t);
        if scanned.None? {
          return Err(TagNotTerminated(t));
        }
        var name := scanned.value.0;
        var markup := scanned.value.1;
        if name == Delimiter(kind) {
          return Ok(EndTag(c));
        }
        var lower := ToLower(name);
        if IsRegistered(lower) {
          var node := ParseTagNode(fs, lower, markup, stream, fuel);
          if node.Err? {
            return Err(node.error);
          }
          c := Append(c, node.value);
        } else {
          var c2 := UnknownTagOf(kind, c, name, markup);
          if c2.Err? {
            return Err(c2.error);
          }
          c := c2.value;
        }
      } else if StartsWith(t, VariableStart) {
        c := Append(c, CreateVariable(t));
      } else {
        c := Append(c, Text(t));
      }
    }
  }

  /** The constructor of a registered tag, reading its body from the shared stream; it computes ParseTag. */
  method ParseTagNode(fs: FileSystem, name: string, markup: string, stream: TokenStream, fuel: nat) returns (r: Result<Node, Error>)
    requires IsRegistered(name)
    modifies stream
    decreases fuel, |stream.tokens|, 3
    ensures match ParseTag(fs, name, markup, old(stream.tokens), fuel)
      case Ok((n, rest)) => r == Ok(n) && stream.tokens == rest
      case Err(e) => r == Err(e)
  {
    if name == "assign" {
      r := Ok(Assign(AssignSearch(markup, 0)));
    } else if name == "cycle" {
      r := Ok(CycleOf(markup));
    } else if name == "include" {
      r := ParseIncludeNode(fs, markup, stream, fuel);
    } else if name == "capture" && FirstWord(markup).None? {
      r := Ok(Capture(None, []));
    } else {
      r := ParseBlockTagNode(fs, TagBlock(name), markup, stream, fuel);
    }
  }

  /** A block tag: the body from the shared stream, then the node; it computes ParseBlockTag. */
  method ParseBlockTagNode(fs: FileSystem, kind: BlockKind, markup: string, stream: TokenStream, fuel: nat) returns (r: Result<Node, Error>)
    requires kind != DocumentBlock
    modifies stream
    decreases fuel, |stream.tokens|, 2
    ensures match ParseBlockTag(fs, kind, markup, old(stream.tokens), fuel)
      case Ok((n, rest)) => r == Ok(n) && stream.tokens == rest
      case Err(e) => r == Err(e)
  {
    var body := ParseBlock(fs, kind, stream, fuel);
    if body.Err? {
      return Err(body.error);
    }
    r := BlockNode(kind, markup, body.value);
  }

  /** include: the template is parsed from a stream of its own; the shared stream is left alone. */
  method ParseIncludeNode(fs: FileSystem, markup: string, stream: TokenStream, fuel: nat) returns (r: Result<Node, Error>)
    decreases fuel, |stream.tokens|, 2
    ensures match ParseInclude(fs, markup, stream.tokens, fuel)
      case Ok((n, _)) => r == Ok(n)
      case Err(e) => r == Err(e)
  {
    var source := IncludeSource(fs, markup, fuel);
    if source.Err? {
      return Err(source.error);
    }
    var document := ParseDocumentNodes(fs, Tokenize(source.value), fuel - 1);
    IncludeOutcome(fs, markup, stream.tokens, fuel, source.value, document);
    if document.Err? {
      return Err(document.error);
    }
    r := Ok(IncludeNodeOf(markup, document.value));
  }

  /** new LiquidDocument(tokens): the document parsed from a stream of its own tokens. */
  method ParseDocumentNodes(fs: FileSystem, tokens: seq<string>, fuel: nat) returns (r: Result<seq<Node>, Error>)
    decreases fuel, |tokens|, 2
    ensures r == ParseDocument(fs, tokens, fuel)
  {
    var stream := new TokenStream(tokens);
    var document := ParseBlock(fs, DocumentBlock, stream, fuel);
    if document.Err? {
      return Err(document.error);
    }
    r := Ok(document.value.nodes);
  }


}
