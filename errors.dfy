/**
 * The fatal conditions of the interpreter. The source raises each of them with
 * trigger_error(..., E_USER_ERROR), which stops the script; here each one is a
 * failure value that aborts the parse or the render in progress.
 */
module Errors {

  datatype Error =
    /** a token that starts with the tag start but is no complete tag */
    | TagNotTerminated(token: string)
    /** an else tag in a block that does not expect one */
    | UnexpectedElse(block: string)
    /** the bare word end used as a closing tag */
    | BadEndTag(block: string, delimiter: string)
    /** a tag name that no tag class is registered for */
    | UnknownTag(tag: string)
    /** the tokens ran out before the block's end tag */
    | NeverClosed(block: string)
    /** render_all was handed something that is not a node list */
    | NotANodeList
    /** the markup of a for, if, case, when or include tag does not match its syntax */
    | TagSyntax(tag: string)
    /** the blank file system refuses every include */
    | IncludesNotAllowed
    /** a template name the local file system does not accept */
    | IllegalTemplateName(name: string)
    /** for-loop arithmetic on an array operand, PHP's "Unsupported operand types" */
    | UnsupportedOperand
    /** includes nested deeper than the model's bound (the source overflows its stack) */
    | IncludeTooDeep
    /** render called on a template that was never parsed */
    | NotParsed
}
