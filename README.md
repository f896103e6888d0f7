# CNode and TokenStream in Dafny

This project models two small parts of the cookielang compiler.

- **CNode** is the C code generator's renderer. Each static method turns a
  parsed node (a type, a parameter, a value, an expression) or some
  already-rendered text into C source text. It does so by feeding a
  `CBuilder` an ordered list of pieces.
- **TokenStream** is the parser's cursor over the lexer's tokens. It holds
  one mutable index `i` over a token list that it never changes.

How the renderer is modelled:

- A builder is held abstractly as the list of fragments added to it. A
  fragment is a piece plus the flag passed to `add`.
- Its text is `Join` of that list. `Join` is a left fold: a space goes
  before a fragment exactly when the fragment's flag is set and the text
  so far is non-empty.
- Renderers without a loop (`type`, `arg`, `string`, `fn`, `int`, `value`,
  `expr`, `varDeclare`, `import`) are functions.
- Renderers that loop (`proto`, `block`, `fnCall`) are methods. Each drives
  a `CBuilder` object and is proved against a function that gives its
  fragment list.
- A second, independent definition, `SpaceSeparated` (words joined by
  single spaces, built from the front), gives each rendering its plain
  text form. `JoinSpaced` connects the two definitions.
- The exceptions thrown by `value` and `expr` are `Err` results. When an
  argument of `fnCall` fails, the call fails with that argument's error.

How the token cursor is modelled:

- `TokenStream` is a class with a `const` token list and an `int` index.
- Reading at a position outside the list yields `None`, as JavaScript
  yields `undefined`.
- `skipOver` returns `false` where the source throws. In that case the
  position is left unchanged.

The code and its description disagree in three places. The model follows
the code each time.

- **`proto` parameter order.** The description says each parameter
  renders as identifier then type. The code writes the type, then the
  identifier (src/ccodegen/cnode.ts:18).
- **Commas in `proto`.** The description puts a comma between parameters.
  The code writes none (see Findings).
- **Range of `i`.** The description gives the cursor an invariant
  `0 <= i <= length`. The code enforces no bound: `skip` moves `i` by any
  amount. So the model leaves `i` unconstrained, and every read is
  defined for every position.

## Model

| member | source | states |
|---|---|---|
| `Builder.CBuilder.constructor` | src/ccodegen/cnode.ts:13 | a new builder holds no fragments, so its text is empty |
| `Builder.CBuilder.Add` | src/ccodegen/cnode.ts:13-16 | `add` appends exactly one fragment (the piece and its spacing flag) after those already added; nothing else changes |
| `Builder.JoinSpaced` | src/ccodegen/cnode.ts:13-21 | when every fragment takes the default spacing and the first has text, the builder's text is the fragments' texts separated by single spaces (the reference `SpaceSeparated`) |
| `Builder.JoinExtendsPrefix` | src/ccodegen/cnode.ts:88-95 | the text after more `add` calls extends the text after fewer: what was added is never taken back |
| `CNode.Type` | src/ccodegen/cnode.ts:23-25 | a type renders as its type name, verbatim |
| `CNode.Arg` | src/ccodegen/cnode.ts:26-31 | a parameter renders as its identifier, one space, its type name; with an empty identifier, just the type name |
| `CNode.String` | src/ccodegen/cnode.ts:41-47 | a string literal is its payload between two double quotes, with no space and no escaping |
| `CNode.Fn` | src/ccodegen/cnode.ts:49-54 | a function is its prototype text, one space, its body text; with an empty prototype, just the body |
| `Decimal.Digits` | src/ccodegen/cnode.ts:55-57 | the digits of a natural number have no leading zero, and are "0" exactly for zero |
| `Decimal.DigitsRoundTrip` | src/ccodegen/cnode.ts:55-57 | reading the digits of n back gives n |
| `Decimal.DigitsOfValue` | src/ccodegen/cnode.ts:55-57 | every canonical digit string is the digits of the number it denotes |
| `CNode.Int` | src/ccodegen/cnode.ts:55-57 | an integer literal renders as a canonical decimal text (an optional minus, no leading zero, no "-0") |
| `CNode.IntRoundTrip` | src/ccodegen/cnode.ts:55-57 | the decimal text of an integer reads back as that integer |
| `CNode.IntOfDecimal` | src/ccodegen/cnode.ts:55-57 | every canonical decimal text is the rendering of the integer it denotes, so rendering is a bijection onto canonical texts |
| `CNode.Expr` | src/ccodegen/cnode.ts:71-79 | an expression renders if and only if it is a variable reference, and then as its identifier; every other kind, a function call included, fails with the unknown-expression-type error |
| `CNode.Value` | src/ccodegen/cnode.ts:59-70 | a value renders if and only if it is an integer, a string or a supported expression. An integer gives the canonical decimal text that reads back as the integer. A string gives the quoted payload. An expression gives what `expr` gives. Any other kind fails with the unknown-value-type error |
| `CNode.DeclText` | src/ccodegen/cnode.ts:80-86 | the declaration's fragments read `T id = text ;`, single-spaced |
| `CNode.VarDeclare` | src/ccodegen/cnode.ts:80-86 | a declaration fails exactly when its value fails, with the value's error; otherwise it is the type, the identifier, `=`, the value's text and `;`, single-spaced |
| `CNode.Import` | src/ccodegen/cnode.ts:97-102 | an include is `#include`, one space, then the file name between double quotes |
| `CNode.Proto` | src/ccodegen/cnode.ts:12-22 | the loop leaves the builder holding the return type, the identifier, `(`, each parameter's type then identifier in parameter order, `)`; with a non-empty return type that text is those words single-spaced |
| `CNode.ProtoLayout` | src/ccodegen/cnode.ts:12-22 | a prototype with n parameters has 2n + 4 fragments, gives their exact positions, spaces all of them, and contains no comma |
| `CNode.ProtoText` | src/ccodegen/cnode.ts:12-22 | with a non-empty return type, the prototype's text is its words (return type, identifier, `(`, types and identifiers, `)`) single-spaced |
| `CNode.ProtoTwoParams` | src/ccodegen/cnode.ts:17-19 | with two parameters the prototype reads `T f ( T1 a T2 b )`: nothing separates the parameters |
| `CNode.BlockText` | src/ccodegen/cnode.ts:32-40 | a block's fragments read `{`, the statements in order, `}`, single-spaced |
| `CNode.Block` | src/ccodegen/cnode.ts:32-40 | the loop adds one fragment per statement, in order, between the braces; the result is `{`, the statements, `}`, single-spaced |
| `CNode.RenderAll` | src/ccodegen/cnode.ts:89-93 | when all arguments render, there is exactly one text per argument |
| `CNode.RenderAllOk` | src/ccodegen/cnode.ts:89-93 | the arguments all render if and only if each is supported, and then the k-th text is the k-th argument's rendering |
| `CNode.RenderAllOfTexts` | src/ccodegen/cnode.ts:89-93 | when each argument renders, the list of texts is exactly those renderings in order |
| `CNode.RenderAllFirstError` | src/ccodegen/cnode.ts:89-93 | a failure is always the error of some argument that fails |
| `CNode.RenderAllFailsAt` | src/ccodegen/cnode.ts:89-93 | the error reported is that of the first argument that fails; later arguments do not matter |
| `CNode.RenderAllErrPrefix` | src/ccodegen/cnode.ts:89-93 | once a prefix of the arguments fails, the whole list fails with the same error |
| `CNode.CallLayout` | src/ccodegen/cnode.ts:87-96 | a call with n arguments lays out the identifier, `(`, each argument's text at position 2k + 2, a comma after every argument but the last (n - 1 commas in all), then `)` and `;` |
| `CNode.CallText` | src/ccodegen/cnode.ts:87-96 | with a non-empty identifier, a call is `id (`, the arguments separated by `,`, then `) ;`, all single-spaced |
| `CNode.RenderArgument` | src/ccodegen/cnode.ts:90-92 | rendering the k-th argument either extends the texts of the first k arguments by one, or yields the error the whole argument list fails with |
| `CNode.AddArgument` | src/ccodegen/cnode.ts:92-93 | the loop body adds the argument's text, then a comma exactly when the argument is not the last |
| `CNode.FnCall` | src/ccodegen/cnode.ts:87-96 | the call fails with the first failing argument's error. Otherwise the builder holds the call's fragments, and with a non-empty identifier the text is `id ( a , b ) ;` single-spaced |
| `CNode.SeparatedParamCommas` | src/ccodegen/cnode.ts:17-19 | the corrected parameter list has one comma fewer than parameters, and none without parameters |
| `CNode.SeparatedProtoText` | src/ccodegen/cnode.ts:17-19 | the corrected prototype reads `T f ( T1 a , T2 b )`: types and identifiers in order, with commas between parameters, single-spaced |
| `TokenStreams.TokenStream.constructor` | src/util/tokenStream.ts:5-9 | a new stream holds the given tokens and starts at position 0 |
| `TokenStreams.TokenStream.Next` | src/util/tokenStream.ts:10-13 | `next` moves the position forward by exactly one and returns the token at the new position, not the old one |
| `TokenStreams.TokenStream.Peek` | src/util/tokenStream.ts:14-16 | `peek(l)` returns the token l places ahead, or nothing when that is outside the list; the position stays |
| `TokenStreams.TokenStream.Skip` | src/util/tokenStream.ts:17-19 | `skip(l)` moves the position by exactly l and changes nothing else |
| `TokenStreams.TokenStream.SkipOver` | src/util/tokenStream.ts:20-23 | `skipOver(t)` succeeds exactly when there is a current token and its type is t, and then moves forward by one; on failure the position is unchanged |
| `TokenStreams.TokenStream.Get` | src/util/tokenStream.ts:24-26 | `get` returns the token at the current position, or nothing outside the list; the position stays |
| `TokenStreams.TokenStream.HasNext` | src/util/tokenStream.ts:27-29 | `hasNext` is true exactly when position i + 1 lies inside the token list |
| `TokenStreams.PeekThenNext` | src/util/tokenStream.ts:10-29 | a `peek()` before `next()` sees the token that `next()` returns, and `hasNext()` says beforehand whether there is one |

## Left out

- The builder module (`./builder`) is not part of this model. Its spacing rule is assumed: a space goes before a fragment exactly when its flag is set and the builder already holds text. Its `add` returns the builder for chaining, which the methods express as calls in sequence.
- The constants module (`./consts`) is not part of this model. The C spelling of each symbol is assumed (`(` `)` `{` `}` `"` `=` `;` `,`), as is `#include` for the keyword. A C type is represented by its spelling.
- The parser's node classes (`Type`, `Arg`, `Value`, `Int`, `String`, `Expr`, `VariableRef`) are not part of this model. Only the fields the renderer reads are kept, and a value's or expression's kind is a datatype variant instead of a numeric tag.
- `CNode.Int`: the source prints a JavaScript number. Fractions, exponent notation for very large magnitudes, `NaN`, `Infinity` and `-0` are not modelled: literals are unbounded integers.
- Exception messages (`unknown valuetype`, `unknown ExprType …`) are not modelled. Each exception is an `Err` carrying which renderer threw it.
- `fnCall` iterates with `for … in`, which yields the array's keys as strings, and then compares `parseInt(i)` with the last index. The model iterates over the indices 0 to n - 1, which is what that loop does for a dense array.
- `CNode.VarDeclare`: the plain text is stated only for a non-empty type name. With an empty type the builder adds no leading space, and the contract says only that the result succeeds or fails with the value.
- `CNode.Proto`, `CNode.ProtoText`, `CNode.CallText`, `CNode.FnCall`: the single-spaced text form is stated only when the first word (return type, identifier) is non-empty. The fragment-list form holds for every input.
- `Token.expectType` belongs to the lexer, which is not part of this model. It is assumed to compare the token's type with the expected one and to throw on a mismatch. `skipOver` reports that throw, and the throw on a missing token, as `false`.
- A token's type is an opaque tag. Tokens carry their text, and nothing else about the lexer is modelled.
- `skip(l)` and `peek(l)` take integer offsets. A fractional JavaScript offset is not modelled.
- `hasNext` compares with `undefined`. The model assumes no slot of the token array holds `undefined` (no holes).
- Lexing, parsing, file I/O and the other code generators are outside this model.

## Findings

| source | as written | input that shows it | evidently intended | confidence | as-written member | corrected member |
|---|---|---|---|---|---|---|
| src/ccodegen/cnode.ts:17-19 | the parameter loop adds each parameter's type and identifier and nothing between parameters | return type `int`, parameters `a: int` and `b: char`, identifier `f` renders `int f ( int a char b )`, which is not a valid C prototype | a comma between consecutive parameters: `int f ( int a , char b )` | medium, not executed | `CNode.ProtoTwoParams` | `CNode.SeparatedProtoText` |

`CNode.ProtoLayout` proves that no prototype contains a comma. The
corrected fragment list is `CNode.SeparatedProtoFragments`.
`CNode.SeparatedParamCommas` proves it has one comma fewer than there
are parameters. Nothing else in the model consumes a prototype: `fn`
takes the prototype as text. So `CNode.Proto` keeps the behaviour as
written.
