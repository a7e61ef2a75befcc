# php-liquid interpreter core in Dafny

A model of the core of php-liquid, a PHP port of the Liquid template
language.

- **Parsing.** A template source is cut into tokens: literal text, `{% tag %}` and `{{ variable }}`. The tokens are parsed into a tree of nodes by the block parser and the standard tags. Those tags are assign, capture, comment, cycle, for, if, case and include.
- **Rendering.** The tree is rendered against a context: a stack of variable scopes, a set of registers that cycle and for keep between calls, and the filter sets registered on the template.

Modules, in dependency order:

- `Wrappers`, `Errors`: the generic `Option`/`Result` types, and the fatal errors of the source (its `trigger_error(..., E_USER_ERROR)` calls), one constructor each.
- `Values`: PHP values restricted to null, booleans, integers, strings, lists and ordered dictionaries, with the PHP coercions the core relies on:
  - loose `==`;
  - the comparison operators;
  - conversion to string, integer and boolean;
  - `count`.
- `Grammar`: the regular expressions of `liquid.php`, each written out as a scanner:
  - the quoted fragment;
  - the tag attribute;
  - `\s`, `\w`;
  - `explode` and `strtolower`.
- `Tokenizer`: `LiquidTemplate::tokenize`, a `preg_split` on the tokenization expression.
- `Markup`: the tag and variable regexes of `lib/block.php`, and the syntax regexes of each standard tag.
- `Nodes`: the parse tree, and the lists a block collects nodes into while it parses.
- `Variables`: `LiquidVariable`, both its constructor (name and filter chain) and its render (lookup, then the filters applied in order).
- `Contexts`: the context's scopes, variable lookup, filter invocation and registers, as functions, plus a `Context` class whose methods change them in place.
- `FileSystems`: the blank file system and `LiquidLocalFileSystem`. The disk is a map from paths to contents.
  - A Dafny `char` is a Unicode character, while the name regex has no `u` modifier and so runs over UTF-8 bytes. The name check therefore also asks for an ASCII first character: a non-ASCII one leaves continuation bytes that `[a-zA-Z0-9_\/]` never matches. The other regexes of the core agree byte-wise and character-wise, because they only use ASCII delimiters, ASCII classes and negated classes that are repeated.
- `Parser`:
  - `LiquidBlock::parse`, `unknown_tag`, `end_tag`, `create_variable` and the tag constructors, all as functions over a token list;
  - the same parse as methods over a `TokenStream` object that every nested block takes tokens from.
- `Decisions`: `LiquidDecisionBlock`'s `string_value`, `equal_variables` and `interpret_condition`.
- `Render`: what `render_all` and each tag's `render` produce: output, new state, or fatal error.
- `RenderProperties`: lemmas about `Render`.
- `Renderer`: the render methods working on a `Context` object step by step.
  - Each is proved to produce what `Render` says.
- `Templates`: `LiquidTemplate` itself:
  - construction;
  - `register_filter`;
  - `parse`;
  - `render`, including its handling of the filters argument.

## Model

| member | source | states |
|---|---|---|
| Tokenizer.CloseFrom | liquid.php:120 | the lazy `.*?` closer search: a found closer is the two closing characters, and no newline lies before it |
| Tokenizer.NextSpan | liquid.php:120 | the leftmost tag or variable span at or after a position; no span starts before it, or none starts at all |
| Tokenizer.SplitFrom | lib/template.php:82 | the pieces concatenate back to the input suffix, and none is empty |
| Tokenizer.SpanAtSlice | liquid.php:120 | a span found in a slice is the span found in the whole string, shifted, and back |
| Tokenizer.Tokenize | lib/template.php:76-86 | a falsy source ("" or "0") gives no tokens; otherwise the tokens concatenate to the source, and none is empty |
| Tokenizer.TokensAreSpansOrLiterals | lib/template.php:82 | every token is one whole `{%...%}`/`{{...}}` span or text in which no span starts |
| Tokenizer.NoSpanSingleToken | lib/template.php:82 | source holding no span is one token, itself |
| Tokenizer.NoAdjacentLiteralTokens | lib/template.php:82 | two literal tokens never follow each other |
| Tokenizer.SpanTokenShape | liquid.php:120 | a span token opens with `{%` or `{{`, closes with the matching `%}` or `}}`, and holds no newline |
| Tokenizer.TokenizeVariables | test/template_test.php:10-17 | `" {{funk}} "` tokenizes to `" "`, `"{{funk}}"`, `" "` |
| Tokenizer.TokenizeBlocks | test/template_test.php:19-24 | `"{%if a%}b{%endif%}"` tokenizes to its three tokens |
| Grammar.RunEnd | liquid.php:108 | the end of the longest run of characters satisfying a predicate from a position |
| Grammar.IndexOf | lib/variable.php:50 | the first occurrence of a character, or its absence, stated both ways |
| Grammar.QuotedEnd | liquid.php:108 | a quoted alternative closes on the same quote, with no such quote inside |
| Grammar.FragmentAt | liquid.php:108 | a quoted fragment starts exactly where a fragment character is, and ends after it |
| Grammar.FragmentSearch | liquid.php:108 | the leftmost fragment; no fragment character lies before it, or none exists |
| Grammar.FirstFragment | lib/variable.php:49-56 | a fragment is found exactly when the string holds a fragment character, and it is never empty |
| Grammar.FirstWord | lib/standardtags.php:98-101 | a word is found exactly when the string has a word character, and it is made of word characters |
| Grammar.AttributeAt | liquid.php:114 | an attribute match has a non-empty name and value and ends after its start |
| Grammar.AttributeValue | lib/standardtags.php:891 | a name has a value exactly when some pair binds it |
| Grammar.Bind | lib/standardtags.php:891 | `$array[key] = value`: the key bound to the value, every other key kept, keys still unique |
| Grammar.AttributeList | lib/standardtags.php:318 | the keys are unique, and a name is bound exactly when some match names it |
| Grammar.LastAttributeWins | lib/standardtags.php:318 | a repeated attribute name takes the value written last |
| Grammar.ToLower | lib/block.php:60 | lower-casing keeps the length, turns each ASCII capital into its small letter and leaves every other character as it was |
| Grammar.LowerCaseUnchanged | lib/block.php:60 | a name without capitals is looked up as it is written |
| Grammar.ToLowerIdempotent | lib/block.php:60 | lower-casing leaves no capital, so lower-casing again changes nothing |
| Grammar.Split | lib/standardtags.php:249 | `explode` gives at least one piece, none holding the separator |
| Grammar.JoinSplit | lib/standardtags.php:249 | joining the pieces of `explode` with the separator gives the input back |
| Markup.ClosingAt | lib/block.php:38 | the `%}` or `}}` a tag token ends with, allowing one trailing newline (PCRE's `$`) |
| Markup.TagScan | lib/block.php:38-51 | a matched tag name is a non-empty run of word characters, and its markup holds no newline |
| Markup.VariableScan | lib/block.php:152-154 | a matched variable token is exactly `{{`, the markup and `}}`, perhaps followed by one newline |
| Markup.AssignSearch | lib/standardtags.php:47-51 | a match found is the assign syntax matched at some position; none is found only when no position matches |
| Markup.AssignSearchLeftmost | lib/standardtags.php:47-51 | the search returns the match at the first position where the assign syntax matches |
| Markup.ForSearch | lib/standardtags.php:311-316 | a match found is `item in collection` matched at some position; none is found only when no position matches |
| Markup.ForSearchLeftmost | lib/standardtags.php:311-316 | the search returns the match at the first position where `item in collection` matches |
| Markup.IfScan | lib/standardtags.php:595-607 | the condition's left operand is the first fragment; a run of `[=!<>]` after its spaces is the operator, and the right operand is the fragment after the operator's spaces; a fragment with no operator before it gives the empty operator; no operator and no fragment means no right operand |
| Markup.IfScanComparison | lib/standardtags.php:595-607 | `x == y` scans to the operands `x` and `y` and the operator `==` |
| Markup.IfScanNoOperator | lib/standardtags.php:595-607 | `x y` scans to the operands `x` and `y` with the empty operator |
| Markup.NamedSearch | lib/standardtags.php:190-194 | a match found is the named-cycle syntax matched at some position; none is found only when no position matches |
| Markup.NamedSearchLeftmost | lib/standardtags.php:190-194 | the search returns the match at the first position where the named-cycle syntax matches |
| Markup.ValuesOf | lib/standardtags.php:247-263 | the cycle values keep only non-falsy pieces, never more than there were |
| Markup.ValuesOfPiece | lib/standardtags.php:253-257 | one piece gives its first fragment, unless it has none or it is "0" |
| Markup.ValuesOfConcat | lib/standardtags.php:252-259 | pieces are read one by one, in order: the values of a + b are those of a followed by those of b |
| Markup.CycleOf | lib/standardtags.php:188-206 | the named syntax gives its name and the values read from the text after the colon; otherwise a cycle with a fragment is named by its values joined and quoted; markup without fragments gives an empty cycle |
| Markup.QuotedSearch | lib/standardtags.php:878 | the leftmost closed quoted literal (no quote before it opens one), or none exists |
| Markup.IncludeTail | lib/standardtags.php:878 | the tail is spaces, `with` or `for`, spaces and one quoted fragment; the flag is set exactly for `for`, and a tail of either keyword is always found |
| Markup.IncludeScan | lib/standardtags.php:877-889 | an include parses exactly when a quoted template name is found; the name is that literal without its quotes; without a tail there is no for and no target, otherwise the for flag and the target fragment are the tail's |
| Markup.IncludeWithVariable | lib/standardtags.php:877-889 | `'foo' with bar` names the template `foo`, with no for, and the target `bar` |
| Markup.IncludeForCollection | lib/standardtags.php:877-889 | `'foo' for xs` names the template `foo`, with for, and the target `xs` |
| Markup.IncludeNameOnly | lib/standardtags.php:877-889 | `'foo'` alone names the template `foo`, with no for and no target |
| Nodes.BlockName | lib/block.php:140-143 | a block's name is never empty |
| Nodes.Delimiter | lib/block.php:129-133 | a block's end tag is `end` followed by its name |
| Nodes.DelimitersDiffer | lib/block.php:129-133 | different blocks have different end tags |
| Nodes.Initial | lib/standardtags.php:597-600 | an if block starts with its two lists, a case block with its branch lists |
| Nodes.Append | lib/block.php:77-81 | a node goes on the end of the current list, and every other list is left as it was |
| Nodes.PushNodelist | lib/standardtags.php:774-781 | the pending when branch is closed with the nodes collected for it |
| Nodes.EndTag | lib/standardtags.php:725-728 | end of a case block closes its last branch; other blocks are left as they are |
| Nodes.ElseList | lib/standardtags.php:754-760 | a case without an else has an empty else list |
| Parser.SuffixTransitive | lib/block.php:47 | tokens left over from a suffix of a suffix are a suffix |
| Parser.CreateVariable | lib/block.php:151-160 | a matched variable token becomes an output node of its markup; an unmatched one becomes a missing node |
| Parser.BaseUnknownTag | lib/block.php:105-121 | `else` and `end` are misplaced-tag errors naming the block; any other tag is unknown |
| Parser.UnknownTagOf | lib/standardtags.php:623-781 | if's `else` (lines 623-632) switches to the false list, and any other tag inside if fails as the base does; case's `when` with a fragment (lines 737-781) closes the pending branch and starts one for that value with an empty list, keeping whether the else list is current; `when` without a fragment is the case syntax error; `else` closes the pending branch and starts the else list; any other tag inside case, and any inside a block without its own handler, fails as the base does |
| Parser.PlainNode | lib/block.php:77-81 | a token that is not a variable becomes text |
| Parser.ParseBody | lib/block.php:35-87 | the parse loop: it eats at least one token, what is left is a suffix, and running out of tokens in a block fails as never closed |
| Parser.ParseTagToken | lib/block.php:49-74 | a tag token's parse leaves a suffix of the tokens |
| Parser.ParseTag | lib/block.php:60-64 | tags without a body (assign, cycle, include) take no tokens from the list |
| Parser.BlockNode | lib/standardtags.php:308-325 | a block's node is built exactly when its syntax matches, else it is that tag's syntax error |
| Parser.ParseBlockTag | lib/block.php:60-64 | a block tag's nested parse leaves a suffix of the tokens |
| Parser.IncludeSource | lib/standardtags.php:907-917 | bad include syntax and the blank file system are errors; otherwise the named template is read through the corrected FileSystems.ReadTemplateFile (see Findings) |
| Parser.IncludeNodeOf | lib/standardtags.php:877-900 | the include node carries the template name, the for flag, the target, the attributes and the included document |
| Parser.ParseInclude | lib/standardtags.php:907-917 | include takes no tokens from the list, and fails on bad syntax and without a file system; the document it parses is the one the corrected FileSystems.ReadTemplateFile returns |
| Parser.IncludeOutcome | lib/standardtags.php:907-917 | a read include is the node over its document, or fails as the document does |
| Parser.ParseDocument | lib/block.php:35-87 | no tokens give an empty document |
| Parser.PlainTokensAppend | lib/block.php:77-81 | plain tokens are appended one node each, in order, then the parse carries on |
| Parser.PlainDocument | lib/block.php:77-81 | a document of plain tokens is their nodes, text kept verbatim |
| Parser.NeverClosedWithoutTags | lib/block.php:86 | a block whose tokens hold no tag is never closed |
| Parser.ZeroTokenStops | lib/block.php:47 | a `"0"` token is falsy and ends the parse loop |
| Parser.ZeroTokenEndsDocument | lib/block.php:47 | the document ends at the first `"0"` token, and what follows is dropped |
| Parser.EndTagCloses | lib/block.php:54-56 | a block's own end tag closes it, and the next token is the enclosing block's |
| Parser.ElseSwitchesLists | lib/standardtags.php:623-632 | `else` inside if starts a fresh false list, keeping the true list |
| Parser.TagTokenStep | lib/block.php:47-49 | a tag token that does not stop the loop is handled as a tag |
| Parser.RegisteredTagStep | lib/block.php:60-64 | a tag registered under its lower-cased name parses as that tag, its node is appended, and the parse goes on after the tokens it took |
| Parser.UnknownTagStep | lib/block.php:51-69 | a tag that neither ends the block nor names a registered class goes to unknown_tag, and the parse goes on from the lists it leaves, or stops with its error |
| Parser.CaseWhenStarts | lib/standardtags.php:741-747 | a `when` token with a fragment lets the parse go on with the pending branch pushed and a new branch for that value |
| Parser.CaseWhenNeedsValue | lib/standardtags.php:748-750 | a `when` token without a fragment ends the parse with the case syntax error |
| Parser.CaseElseStarts | lib/standardtags.php:754-759 | an `else` token lets the parse go on with the pending branch pushed, no value, and the else list current |
| Parser.CaseDropsLeadingNodes | lib/standardtags.php:774-781 | nodes before the first `when` belong to no branch: the parse after that `when` is the one that starts with no branches and an empty list |
| Parser.UnterminatedTagFails | lib/block.php:72-74 | a tag token the tag expression does not match is a fatal error |
| Parser.ParseIfExample | test/template_test.php:19-24 | `{%if a%}b{%endif%}` parses to one if node whose true list is the text `b` |
| Parser.ParseCommentExample | test/block_test.php:60-69 | a nested block takes its tokens from the shared list: text, comment, text |
| Parser.TokenStream.constructor | lib/block.php:35 | the stream holds the token list |
| Parser.TokenStream.Shift | lib/block.php:47 | `array_shift`: the first token is removed and returned |
| Parser.ParseBlock | lib/block.php:35-87 | the parse loop on the shared stream gives what ParseBody gives, and leaves it exactly the tokens ParseBody leaves |
| Parser.ParseTagNode | lib/block.php:60-64 | a tag is built from the shared stream as ParseTag says |
| Parser.ParseBlockTagNode | lib/block.php:60-64 | a block tag parses its body from the shared stream as ParseBlockTag says |
| Parser.ParseIncludeNode | lib/standardtags.php:907-917 | include parses its template from a stream of its own, as ParseInclude says |
| Parser.ParseDocumentNodes | lib/block.php:35-87 | a document parsed from a fresh stream is ParseDocument's result |
| Variables.FilterSection | lib/variable.php:50 | the filter section exists exactly when the markup has a `\|` |
| Variables.ArgumentAtStart | lib/variable.php:53 | the argument pattern matches at the start exactly when a colon or comma is followed, after spaces, by a quoted fragment, and gives that fragment |
| Variables.Arguments | lib/variable.php:66-67 | filter arguments are non-empty fragments |
| Variables.FiltersOf | lib/variable.php:62-71 | one filter per piece, in order |
| Variables.VariableOf | lib/variable.php:46-78 | the name is the first fragment; with no `\|` there are no filters; otherwise there is one filter per piece of the filter section split on `\|`, each as FilterOf reads it, in order |
| Variables.ParseVariable | lib/variable.php:46-78 | the constructor's loop builds the variable VariableOf describes |
| Variables.ArgumentValues | lib/variable.php:92-97 | each argument resolved in the scopes, in order |
| Variables.RenderVariable | lib/variable.php:86-105 | the render loop yields the value looked up and passed through every filter in order |
| Variables.ResolveArguments | lib/variable.php:92-97 | the argument loop yields each argument looked up in the context, in order |
| Variables.ApplyFiltersStep | lib/variable.php:89-101 | one more filter sends the previous output, with its resolved arguments, through that filter |
| Variables.ApplyFiltersAppend | lib/variable.php:89-101 | a chain of filters applies as its first part, then its second |
| Variables.NoFiltersIsGet | lib/variable.php:73-75 | a variable without filters renders as its looked-up value |
| Variables.UnknownFiltersAreIdentity | lib/variable.php:99 | filters no filter set provides leave the value unchanged |
| Variables.TwoFilters | test/variable_test.php:16-18 | `hello \| textileze \| paragraph` has name `hello` and the two filters, in order, without arguments |
| Variables.WordPiece | lib/variable.php:58-60 | a space-padded word is a filter of that name with no arguments |
| Variables.NoArguments | lib/variable.php:66-67 | text without `:` or `,` has no arguments |
| Variables.QuotedCommaArgument | test/variable_test.php:44-46 | a comma inside a quoted argument does not split it |
| Variables.ArgumentsExtend | lib/variable.php:66-67 | spaces after a piece add no argument and change none |
| Variables.FirstWordSpaceFirst | lib/variable.php:52 | a space before a piece does not change its filter name |
| Variables.FirstWordSpaceLast | lib/variable.php:52 | a space after a piece does not change its filter name |
| Variables.FilterOfSpaceFirst | lib/variable.php:62-69 | a space before a piece changes neither its filter name nor its arguments |
| Variables.FilterOfSpaceLast | lib/variable.php:62-69 | a space after a piece changes neither its filter name nor its arguments |
| Variables.FilterOfTrim | lib/variable.php:62-69 | a piece and the piece with its surrounding spaces trimmed are the same filter |
| Variables.FiltersIgnoreSpacing | lib/variable.php:60-69 | two chains whose pieces differ only in surrounding spaces are the same filter chain |
| Variables.FiltersWithoutWhitespace | test/variable_test.php:58-60 | `hello\|textileze\|paragraph` has name `hello` and the same filters as the spaced form |
| Contexts.Lookup | lib/variable.php:87 | a name resolves exactly when some scope binds it, to the innermost binding |
| Contexts.EntryOf | lib/standardtags.php:383-393 | a dictionary key has a value exactly when an entry names it |
| Contexts.Get | lib/variable.php:87 | no name resolves to null; a quoted literal resolves to its text |
| Contexts.Set | lib/standardtags.php:65-68 | only the innermost scope changes, and only at the name |
| Contexts.Push | lib/standardtags.php:377 | a new empty scope on top |
| Contexts.Pop | lib/standardtags.php:399 | the top scope removed |
| Contexts.GetAfterSet | lib/standardtags.php:65-68 | a plain name set is read back as the value set |
| Contexts.GetAfterOtherSet | lib/standardtags.php:382-383 | setting another name afterwards (forloop after the item) leaves the first name's value |
| Contexts.PushSetPop | lib/standardtags.php:377-399 | whatever is set in a pushed scope is gone after the pop |
| Contexts.GetPushed | lib/standardtags.php:640-642 | a new empty scope changes no lookup |
| Contexts.Invoke | lib/variable.php:99 | without a filter name the value is returned unchanged |
| Contexts.InvokeUnknown | lib/variable.php:99 | a filter name no set provides returns the value unchanged |
| Contexts.LaterFilterWins | test/filter_test.php:57-63 | a filter set added later overrides earlier ones for the names it provides |
| Contexts.UnrelatedFilterSet | lib/template.php:123-126 | a filter set without the name does not change what the name does |
| Contexts.RegisterKey | lib/standardtags.php:218-234 | an array value cannot key a register; every other value can |
| Contexts.RegisterPut | lib/standardtags.php:234 | the written register reads back as the value written; every other register is unchanged |
| Contexts.RegisterTouch | lib/standardtags.php:334-337 | the namespace exists afterwards, and every register reads as before |
| Contexts.Context.constructor | lib/template.php:111 | a context over the assigns and registers, with no filters |
| Contexts.Context.AddFilters | lib/template.php:124 | the filter set is appended; scopes and registers unchanged |
| Contexts.Context.PushScope | lib/standardtags.php:377 | the scopes become Push of the old ones; nothing else changes |
| Contexts.Context.PopScope | lib/standardtags.php:399 | the scopes become Pop of the old ones; nothing else changes |
| Contexts.Context.SetVar | lib/standardtags.php:66 | the scopes become Set of the old ones; nothing else changes |
| Contexts.Context.SetRegister | lib/standardtags.php:234 | the registers become RegisterPut of the old ones; nothing else changes |
| Contexts.Context.TouchRegisters | lib/standardtags.php:334-337 | the registers become RegisterTouch of the old ones; nothing else changes |
| FileSystems.TrimSlashesEnd | lib/file_system.php:97-99 | the end of a path with its trailing slashes removed |
| FileSystems.ComponentStart | lib/file_system.php:97-99 | the start of the last path component |
| FileSystems.Basename | lib/file_system.php:97-99 | `basename` never holds a slash |
| FileSystems.FullPath | lib/file_system.php:89-113 | a path exists exactly when the name passes the byte-wise name check (a first character that is ASCII and not `.` or `/`, then at least one of `[a-zA-Z0-9_/]`, with an optional final newline); otherwise it is the illegal-name error |
| FileSystems.ReadTemplateFileAsWritten | lib/file_system.php:71-81 | the code as written: the blank file system refuses, and a good name reads as null, printed `""` |
| FileSystems.ReadTemplateFile | lib/file_system.php:71-81 | the corrected read: an error exactly for a bad name, otherwise the file's contents |
| FileSystems.RejectsDotOrSlash | lib/file_system.php:90-95 | a name starting with `.` or `/` is illegal |
| FileSystems.RejectsShort | lib/file_system.php:90-95 | a name under two characters is illegal |
| FileSystems.AcceptedCharacters | lib/file_system.php:90-95 | an accepted name is made of `[^./][a-zA-Z0-9_/]+` over bytes, so its first character is ASCII, allowing one trailing newline |
| FileSystems.AcceptsCleanNames | lib/file_system.php:90-95 | every name of that shape is accepted: an ASCII first character other than `.` or `/`, then allowed characters |
| FileSystems.RejectsNonAsciiStart | lib/file_system.php:90-95 | a name whose first character is not ASCII is illegal, since its second UTF-8 byte matches no allowed character |
| FileSystems.RejectsAccentedName | lib/file_system.php:90-95 | the name `éa` (bytes C3 A9 61) is illegal |
| FileSystems.LastComponent | lib/file_system.php:100-102 | the last component of a path holds no slash |
| FileSystems.FullPathShape | lib/file_system.php:97-102 | a full path ends in `.liquid`, and its last component starts with `_` |
| FileSystems.FlatName | test/file_system_test.php:20 | a flat name maps to `root_name.liquid` |
| FileSystems.NestedName | test/file_system_test.php:21 | `dir/base` maps to `root dir/_base.liquid` |
| FileSystems.ReadDropsContents | lib/file_system.php:75 | as written, an existing file reads as empty; corrected, it reads as its contents |
| FileSystems.ReadReturnsContents | lib/file_system.php:71-81 | the corrected read returns the contents stored at the full path |
| Values.DigitChar | lib/standardtags.php:355-361 | a digit maps to a digit character |
| Values.NatToString | lib/block.php:204-207 | a number prints as a non-empty run of digits |
| Values.SignEnd | lib/standardtags.php:355-361 | the sign of a numeric string ends within it |
| Values.Count | lib/standardtags.php:341 | an array counts zero exactly when it is falsy |
| Values.LexCmp | lib/standardtags.php:523-540 | string comparison is zero exactly for equal strings, and within -1..1 |
| Values.Compare | lib/standardtags.php:523-540 | PHP comparison of two scalars lies within -1..1 |
| Values.LooseEqIsCompareZero | lib/standardtags.php:523-527 | `==` holds exactly when the comparison is zero |
| Values.LexCmpAntisymmetric | lib/standardtags.php:529-540 | swapping strings negates their comparison |
| Values.CompareAntisymmetric | lib/standardtags.php:529-540 | swapping scalars negates their comparison |
| Values.DigitsValueOfNat | lib/standardtags.php:355-361 | reading back the digits of a number gives the number |
| Values.LeadingIntOfIntToString | lib/standardtags.php:355-361 | an integer printed and read back as a number is itself, and its text is numeric |
| Values.ToTextExamples | lib/block.php:204-207 | `0` prints `"0"`, `-42` prints `"-42"`, true prints `"1"` |
| Values.LooseExamples | lib/standardtags.php:523-540 | PHP 7 loose comparisons: `0 == "a"`, `"1" == "01"`, `"abc" != "ABC"`, `null == false` |
| Decisions.StringValue | lib/standardtags.php:435-454 | an array counts as true; a scalar stays as it is |
| Decisions.Operands | lib/standardtags.php:489-504 | the operands handed to the operator are always scalars |
| Decisions.InterpretCondition | lib/standardtags.php:481-548 | with no operator, the left value itself; otherwise a boolean, or null for an unknown operator |
| Decisions.ApplyOperator | lib/standardtags.php:506-546 | the operator yields a boolean, or null for an unknown operator |
| Decisions.SameOperandsSameCondition | lib/standardtags.php:498-504 | the condition depends on the scopes only through its two operands |
| Decisions.ArrayIsTrue | lib/standardtags.php:483-487 | an array on its own is true, even an empty one |
| Decisions.EmptyMeansNoElements | lib/standardtags.php:489-497 | `== empty` holds exactly when the array has no elements; `!= empty` is the opposite |
| Decisions.NullOperandRules | lib/standardtags.php:506-520 | with a null operand, `==` holds, `!=` holds unless both are null, and every other operator fails |
| Decisions.UnknownOperatorFails | lib/standardtags.php:544-546 | an unknown operator never holds |
| Decisions.NotEqualIsNegation | lib/standardtags.php:523-528 | for non-null operands `!=` is the negation of `==` |
| Decisions.OperatorsMirror | lib/standardtags.php:523-540 | `a < b` is `b > a`, `a <= b` is `b >= a`, and `==`, `!=` are symmetric |
| Decisions.OrderComplements | lib/standardtags.php:529-540 | `>=` is the negation of `<`, and `<=` of `>` |
| Decisions.EqualVariablesIsLooseEquality | lib/standardtags.php:464-470 | equal_variables agrees with the `==` condition on non-null operands |
| Render.PushPopRestores | lib/standardtags.php:377-399 | popping after a render in a pushed scope gives back the scopes that were there |
| Render.RenderSeq | lib/block.php:193-215 | render_all keeps every scope but the innermost |
| Render.RenderNode | lib/block.php:193-215 | every node keeps the outer scopes, and the tags that push a scope leave the scopes as they found them |
| Render.AssignScopes | lib/standardtags.php:65-68 | assign binds the target to the source's value in the innermost scope, and nothing else |
| Render.RenderCycle | lib/standardtags.php:214-239 | cycle leaves the scopes as they were |
| Render.ForRange | lib/standardtags.php:345-367 | without offset and limit, the whole collection and no register written; with them, offset plus length stored under the loop's name; an array operand is the only error |
| RenderProperties.ForRangeResolves | lib/standardtags.php:347-363 | with offset or limit given, the offset is 0, the "continue" register or the resolved value; the length is the truthy limit, else what lies past the offset; it fails exactly on an array operand |
| RenderProperties.ForRangeStores | lib/standardtags.php:365 | with offset or limit given, offset plus length is stored under the loop's name |
| RenderProperties.ContinueStartsAt | lib/standardtags.php:352-353 | offset:continue starts at the stored position |
| Renderer.ApplyForRange | lib/standardtags.php:345-367 | the range on a context as ForRange computes it, the register written as it says |
| Render.SliceBounds | lib/standardtags.php:371 | `array_slice` bounds lie within the collection |
| Render.Segment | lib/standardtags.php:371-377 | the slice's items with their keys: list positions from 0, dictionary keys; nothing for a scalar |
| Render.Forloop | lib/standardtags.php:383-393 | the forloop variable is a dictionary |
| Render.RenderFor | lib/standardtags.php:333-403 | for leaves the scopes as it found them |
| RenderProperties.ForEmptyRendersNothing | lib/standardtags.php:334-343 | a null or empty collection prints nothing and only creates the "for" registers |
| RenderProperties.ForOverList | lib/standardtags.php:345-401 | a list loop renders its body over exactly the `array_slice` segment that offset and limit select, in order, then drops the loop scope |
| Render.RenderForItems | lib/standardtags.php:381-397 | the loop body keeps the outer scopes |
| RenderProperties.ForItemBinds | lib/standardtags.php:381-397 | the k-th pass renders the body once more after the first k - 1, with the item name bound to the k-th segment value and forloop to that pass's counters |
| Render.RenderIf | lib/standardtags.php:639-652 | if leaves the scopes as it found them |
| Render.RenderScoped | lib/standardtags.php:639-652 | a list rendered in a pushed scope leaves the scopes as they were |
| Render.RenderWhens | lib/standardtags.php:794-805 | the when branches leave the scopes as they were |
| Render.RenderCase | lib/standardtags.php:789-816 | case leaves the scopes as it found them |
| Render.BindAttributes | lib/standardtags.php:930-933 | the attributes are bound in the innermost scope only |
| Render.Items | lib/standardtags.php:935-941 | the elements a for-include iterates: a list's items, a dictionary's values, nothing for a scalar |
| Render.RenderInclude | lib/standardtags.php:924-958 | include leaves the scopes as it found them |
| Render.RenderIncludeItems | lib/standardtags.php:935-941 | each item's render keeps the outer scopes |
| RenderProperties.IncludeItemBinds | lib/standardtags.php:935-941 | the k-th pass renders the document once more after the first k - 1, with the template's name bound to the k-th item |
| RenderProperties.RenderSeqAppend | lib/block.php:193-215 | rendering two lists is rendering the first and then the second from the state it left |
| RenderProperties.TextRendersVerbatim | lib/block.php:204-207 | text nodes render as their concatenated text, and the state is unchanged |
| RenderProperties.AssignBinds | lib/standardtags.php:65-68 | assign prints nothing, reads back as the source's value and leaves the registers alone |
| RenderProperties.CaptureBindsOutput | lib/standardtags.php:116-121 | capture prints nothing and binds its target to what its body printed |
| RenderProperties.CycleRotates | lib/standardtags.php:214-239 | a cycle at position i prints value i and stores (i + 1) mod the count; no other register changes |
| RenderProperties.NextPosition | lib/standardtags.php:228-232 | the wrap to 0 after the last value is (i + 1) mod the count |
| RenderProperties.CycleArrayKey | lib/standardtags.php:218-234 | a cycle named by an array prints its first value and stores nothing |
| RenderProperties.CycleExample | lib/standardtags.php:151-161 | `{% cycle 'one', 'two' %}` three times prints one, two, one |
| RenderProperties.ForloopIndexes | lib/standardtags.php:383-393 | forloop's length, index (from 1) and index0 (from 0) |
| RenderProperties.ForloopReverseIndexes | lib/standardtags.php:383-393 | rindex counts down to 1 and rindex0 to 0 |
| RenderProperties.ForloopEnds | lib/standardtags.php:383-393 | first is set only at the first item, last only at the last |
| RenderProperties.ListSegmentKeys | lib/standardtags.php:371-377 | a list slice is numbered from 0 |
| RenderProperties.EntryAt | lib/standardtags.php:383-393 | the first entry carrying a key gives its value |
| RenderProperties.SliceInBounds | lib/standardtags.php:371 | an offset inside the collection starts the slice there, cut at the end |
| RenderProperties.SliceFromEnd | lib/standardtags.php:371 | a negative offset counts from the end |
| RenderProperties.ForWithoutRangeRunsAll | lib/standardtags.php:345 | without offset and limit a list loop visits every item in order, numbered from 0 |
| RenderProperties.ContinueResumes | lib/standardtags.php:345-367 | `offset:continue` starts where the last loop of that name stopped |
| RenderProperties.HoldsPushed | lib/standardtags.php:640-642 | the condition is the same in the pushed scope |
| RenderProperties.IfRendersOneList | lib/standardtags.php:639-652 | if renders the true list when the condition holds and the false list otherwise |
| RenderProperties.WhensMatchFlag | lib/standardtags.php:794-805 | the matched flag is set exactly when some branch's value equals the case value |
| RenderProperties.NoMatchRendersNothing | lib/standardtags.php:794-805 | no matching branch prints nothing and changes nothing |
| RenderProperties.CaseFallsToElse | lib/standardtags.php:807-812 | with no match, case renders its else list |
| RenderProperties.CaseSkipsElse | lib/standardtags.php:807-812 | with a match, the else list is not rendered |
| RenderProperties.Repeat | lib/standardtags.php:935-941 | k copies of a text are k times as long |
| RenderProperties.IncludeForRepeats | lib/standardtags.php:935-941 | a for-include of static text prints it once per item and keeps the registers |
| RenderProperties.IncludeForScalar | lib/standardtags.php:935-941 | a for-include over a scalar prints nothing |
| RenderProperties.IncludeWithBinds | lib/standardtags.php:924-955 | include with a variable renders the document once, in a pushed scope where the template's name is bound to the variable's value read before the push, then pops it |
| RenderProperties.IncludeWithoutVariable | lib/standardtags.php:924-955 | include without a variable renders the document once over its bound attributes only; with no attributes it is the document rendered in a scope of its own |
| RenderProperties.LastAttributeBound | lib/standardtags.php:930-933 | the last attribute is bound to its value as resolved before it |
| Renderer.RenderList | lib/block.php:193-215 | render_all on a context gives RenderSeq's output and new state, or its error |
| Renderer.RenderToken | lib/block.php:197-210 | one node rendered on a context as RenderNode says |
| Renderer.RenderCycleTag | lib/standardtags.php:214-239 | cycle on a context prints and stores what RenderCycle says |
| Renderer.ForItemsFailure | lib/standardtags.php:381-397 | once the for loop fails it keeps that error |
| Renderer.RenderForTag | lib/standardtags.php:333-403 | for on a context as RenderFor says |
| Renderer.RenderForItemsLoop | lib/standardtags.php:381-397 | the loop over the segment as RenderForItems says |
| Renderer.RenderIfTag | lib/standardtags.php:639-652 | if on a context as RenderIf says |
| Renderer.RenderInScope | lib/standardtags.php:640-650 | a list rendered in a pushed scope as RenderScoped says |
| Renderer.WhensFailure | lib/standardtags.php:794-805 | once a when branch fails its error stands |
| Renderer.RenderCaseTag | lib/standardtags.php:789-816 | case on a context as RenderCase says |
| Renderer.IncludeItemsFailure | lib/standardtags.php:935-941 | once an included item fails its error stands |
| Renderer.RenderIncludeTag | lib/standardtags.php:924-958 | include on a context as RenderInclude says |
| Renderer.SetAttributes | lib/standardtags.php:930-933 | the attribute loop binds what BindAttributes says, and changes nothing else |
| Renderer.RenderIncludeItemsLoop | lib/standardtags.php:935-941 | the loop over the items as RenderIncludeItems says |
| Templates.FiltersAfterAsWritten | lib/template.php:113-121 | as written: one provider is appended; an array of providers is dropped |
| Templates.FiltersAfter | lib/template.php:113-121 | corrected: the registered filter sets stay first and the passed ones follow, one each |
| Templates.ListFilterIgnored | lib/template.php:115 | a filter passed in an array is not applied as written, and is applied once corrected |
| Templates.PassedFilterWins | lib/template.php:113-126 | a filter passed to render overrides a registered one of the same name |
| Templates.RenderTemplate | lib/template.php:106-130 | rendering an unparsed template is an error; otherwise it succeeds exactly when the root renders |
| Templates.TextTemplateRendersVerbatim | test/template_test.php:5-8 | source without tags or variables parses to one text node and renders as itself |
| Templates.Template.constructor | lib/template.php:50-53 | a new template has no root, the blank file system and no filters |
| Templates.Template.RegisterFilter | lib/template.php:65-68 | the filter set is appended after the others |
| Templates.Template.Parse | lib/template.php:93-96 | the root becomes the parsed document on success |
| Templates.Template.Render | lib/template.php:106-130 | the filter argument is merged into the filter sets, and the result is RenderTemplate over them |

## Left out

- Floating-point numbers: a value is an integer, string, boolean, null, list or dictionary. The PHP coercions are written for those kinds only.
- Drops, and objects as values, are not modelled.
- `lib/context.php`, `lib/tag.php` and `lib/document.php` are not part of this model.
  - The context's lookup, push/pop and filter invocation are modelled from how the core calls them.
  - Filter bodies are parameters: functions from the value and the arguments to a value.
- `LiquidLocalFileSystem::full_path`'s `realpath` check (lib/file_system.php:105-111) is left out. It compares against a `$root` that is never set, and needs a real disk. Files are a map from full path to contents.
- The htmltags and tablerow tags, and `register_tag` for custom tags, are not part of the core modelled here.
- Parser.ParseDocument: include nesting is bounded by a depth parameter (`Templates.MaxIncludeDepth`, 32). The source recurses until PHP's stack gives out.
- Render.ForRange: an array given as offset or limit is an `UnsupportedOperand` error. PHP's own value for that case is not modelled.
- Render.Segment: `array_slice` with non-numeric offsets is not modelled beyond the integer conversion.
- Dictionary keys are kept as written. PHP's conversion of numeric-string keys to integers is not modelled.
- Contexts.RegisterPut: registers hold integers only, the only kind cycle and for store.
- Render.AssignScopes: an assign whose markup did not match renders as PHP's `set(null, get(null))`, binding the empty name to null. Its syntax notice is not output.
- Templates.Template.Render: a null registers argument is passed as an empty map.
- Templates.Template.Parse: the state left after a fatal error is not specified; the model returns the error and keeps the old root.
- Notices (`trigger_error` without `E_USER_ERROR`) are not output; parsing and rendering carry on past them as the source does.
- Fatal errors are values of `Errors.Error`, not process exits.
- Nodes.BlockName: the document's name is `liquiddocument`, from its class name, on the assumption that `lib/document.php` does not override `block_delimiter`. As modelled, `{% endliquiddocument %}` therefore ends a document, and Parser.ParseDocument drops the tokens after it.

## Findings

| source | as written | input that shows it | evidently intended | confidence | as-written member | corrected member |
|---|---|---|---|---|---|---|
| lib/file_system.php:75 | `read_template_file` calls `file_get_contents` but never returns its result | template name `a1` in root `t/`, with `t/_a1.liquid` holding `hi` | return the file's contents | not executed | FileSystems.ReadTemplateFileAsWritten, FileSystems.ReadDropsContents | FileSystems.ReadTemplateFile, FileSystems.ReadReturnsContents, Parser.IncludeSource, Parser.ParseInclude |
| lib/template.php:115 | `array_merge($this->filters, $filters)` discards its result, so filters passed to render as an array are never registered | render with filters `[f]`, where `f` provides a filter the template uses | append the passed providers to the filter sets | not executed | Templates.FiltersAfterAsWritten, Templates.ListFilterIgnored | Templates.FiltersAfter, Templates.Template.Render |
