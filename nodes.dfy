/**
 * The node tree a parse produces (lib/block.php, lib/standardtags.php): the
 * node list of a block holds text, variables and tags, and each block tag
 * holds the node lists of its body. The lists a block fills while it parses
 * are kept in a Collector, which makes explicit the "current list" that the
 * source switches by reference in if and case.
 */
module Nodes {
  import opened Wrappers
  import opened Grammar
  import opened Variables

  /** One when-branch of a case: the raw value it compares with and its body. */
  datatype When = When(right: string, body: seq<Node>)

  datatype Node =
    /** a literal token, rendered as itself */
    | Text(text: string)
    /** a {{...}} token */
    | Output(variable: Variable)
    /** a {{ token that is no complete variable: create_variable returned nothing */
    | Missing
    /** assign: (to, from), absent when the markup did not match */
    | Assign(binding: Option<(string, string)>)
    /** capture: the target name, absent when the markup has no word (the body is then never parsed) */
    | Capture(to: Option<string>, body: seq<Node>)
    | Comment(body: seq<Node>)
    /** cycle: the raw name and the raw values; the name is absent when the markup did not match */
    | Cycle(cycleName: Option<string>, values: seq<string>)
    | For(item: string, collectionName: string, attributes: seq<(string, string)>, body: seq<Node>)
    /** if: left operand, operator, right operand, and the lists before and after else */
    | If(left: string, op: Option<string>, right: Option<string>, whenTrue: seq<Node>, whenFalse: seq<Node>)
    | Case(left: string, whens: seq<When>, otherwise: seq<Node>)
    /** include: the template name, whether it loops (for), the raw variable, the attributes and the loaded document */
    | Include(templateName: string, forEach: bool, target: Option<string>, attributes: seq<(string, string)>, document: seq<Node>)

  /** The blocks, each parsing a body up to its own end tag. */
  datatype BlockKind = DocumentBlock | CaptureBlock | CommentBlock | ForBlock | IfBlock | CaseBlock

  /**
   * block_name: the class name lower-cased without "liquidtag"; the document
   * block is the class LiquidDocument, so its name is "liquiddocument".
   */
  function BlockName(kind: BlockKind): (r: string)
    ensures |r| > 0
  {
    match kind
    case DocumentBlock => "liquiddocument"
    case CaptureBlock => "capture"
    case CommentBlock => "comment"
    case ForBlock => "for"
    case IfBlock => "if"
    case CaseBlock => "case"
  }

  /** block_delimiter: "end" followed by the block name. */
  function Delimiter(kind: BlockKind): (r: string)
    ensures StartsWith(r, "end") && r[3..] == BlockName(kind)
  {
    "end" + BlockName(kind)
  }

  /** Different blocks are closed by different end tags. */
  lemma DelimitersDiffer(a: BlockKind, b: BlockKind)
    requires a != b
    ensures Delimiter(a) != Delimiter(b)
  {
    assert Delimiter(a)[3..] == BlockName(a) && Delimiter(b)[3..] == BlockName(b);
  }

  /**
   * The node lists under construction. A plain block has one list; an if
   * block has the true and the false list and which of them is current; a
   * case block has the when-lists pushed so far, the pending when value, the
   * current list, and whether the else list is the current list (after an
   * else tag the two are one array by reference).
   */
  datatype Collector =
    | Plain(nodes: seq<Node>)
    | IfLists(whenTrue: seq<Node>, whenFalse: seq<Node>, inElse: bool)
    | CaseLists(whens: seq<When>, right: Option<string>, current: seq<Node>, elseIsCurrent: bool)

  /** The collector a block starts with: every list empty. */
  function Initial(kind: BlockKind): (c: Collector)
    ensures kind == IfBlock <==> c.IfLists?
    ensures kind == CaseBlock <==> c.CaseLists?
  {
    match kind
    case IfBlock => IfLists([], [], false)
    case CaseBlock => CaseLists([], None, [], false)
    case _ => Plain([])
  }

  /** The list new nodes go to. */
  function Current(c: Collector): seq<Node> {
    match c
    case Plain(ns) => ns
    case IfLists(t, f, inElse) => if inElse then f else t
    case CaseLists(_, _, cur, _) => cur
  }

  /** `$this->nodelist[] = node`: the node is appended to the current list, and nothing else changes. */
  function Append(c: Collector, n: Node): (r: Collector)
    ensures Current(r) == Current(c) + [n]
    ensures r.Plain? == c.Plain? && r.IfLists? == c.IfLists? && r.CaseLists? == c.CaseLists?
    ensures r.IfLists? ==> r.inElse == c.inElse && (if c.inElse then r.whenTrue == c.whenTrue else r.whenFalse == c.whenFalse)
    ensures r.CaseLists? ==> r.whens == c.whens && r.right == c.right && r.elseIsCurrent == c.elseIsCurrent
  {
    match c
    case Plain(ns) => Plain(ns + [n])
    case IfLists(t, f, inElse) => if inElse then IfLists(t, f + [n], inElse) else IfLists(t + [n], f, inElse)
    case CaseLists(ws, right, cur, e) => CaseLists(ws, right, cur + [n], e)
  }

  /** push_nodelist: the current list joins the when-lists under the pending value, if there is one. */
  function PushNodelist(c: Collector): (r: Collector)
    requires c.CaseLists?
    ensures r.CaseLists? && r.right == c.right && r.current == c.current && r.elseIsCurrent == c.elseIsCurrent
    ensures r.whens == (if c.right.Some? then c.whens + [When(c.right.value, c.current)] else c.whens)
  {
    if c.right.Some? then c.(whens := c.whens + [When(c.right.value, c.current)]) else c
  }

  /** end_tag: only case does anything, pushing its last list. */
  function EndTag(c: Collector): (r: Collector)
    ensures c.CaseLists? ==> r == PushNodelist(c)
    ensures !c.CaseLists? ==> r == c
  {
    if c.CaseLists? then PushNodelist(c) else c
  }

  /** The else list of a finished case: the current list if an else tag made it so, otherwise empty. */
  function ElseList(c: Collector): (r: seq<Node>)
    requires c.CaseLists?
    ensures !c.elseIsCurrent ==> r == []
  {
    if c.elseIsCurrent then c.current else []
  }

  /** The tags the standard library defines, by lower-case name (class_exists ignores case). */
  predicate IsRegistered(name: string) {
    name in {"assign", "capture", "comment", "cycle", "for", "if", "case", "include"}
  }
}
