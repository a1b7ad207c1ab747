# Univer formula function nodes, add-decimal command and cell-edit exit — a Dafny model

This project models three pieces of the Univer spreadsheet:

- **Formula function nodes** (`FunctionNode` module). A formula's AST has function-call nodes. A node takes its async and address flags from the executor it wraps. Executing it passes, in child order, the values of the children that hold one to the executor's `calculate`, and caches the result; the async variant awaits an async result first. The factory gives the node kind its z-index and looks a name up in the function registry, producing an error node of type `#NAME?` when the name is unknown. It also recognises a lexer token as a function call. The token is trimmed and upper-cased. Then one character is cut from its front for each of `-` and `@` that occurs among its first two UTF-16 code units, whatever those first characters are, and prefix nodes are chained as parents. String arguments are rejected.
- **Add-decimal command** (`AddDecimal` module). A first pass takes the largest decimal count among the formatted cells of the selection. A second pass gives unformatted cells, and cells whose pattern is `0.0` up to decimals, one uniform pattern with one more decimal than that maximum. Every other cell gets its own pattern with one more decimal, provided that changes it. `SetNumfmtCommand` is dispatched only when there is at least one update.
- **End-edit controller** (`EndEdit` module). This is a class holding the editor's previous visibility and a three-state "has the user clicked in the open editor" record. Hiding the editor exits the editor context. Unless the key was ESC, it then moves the selection for the key and writes the edited text back into the cell: rich text as a snapshot, a formula into `f`, plain text into `v` and `m`, with the trailing empty-document marker stripped, and nothing when the text equals the cell's value. The write goes through the AFTER_CELL_EDIT interceptor. An arrow-key command moves the cursor inside the editor after a click in it, and is otherwise forwarded to the bridge's `changeVisible`.
- **JavaScript string helpers** (`JsString` module). These are `String.prototype.trim`, with ECMAScript's white-space and line-terminator set, and `toUpperCase` restricted to ASCII letters, as the function-name normalisation uses them.

The services each piece calls are modelled as follows. The function registry is a `map` from name to executor. The number-format store is a `map` from cell to pattern. The pattern helpers, `calculate`, `isFormulaString` and the interceptor chain are function-typed parameters that stay uninterpreted. Commands a method dispatches show up in its result (`HandlerResult`) or in the controller's `trace` of `Effect`s.

## Model

| member | source | states |
|---|---|---|
| JsString.LeadingSpace | packages/engine-formula/src/engine/ast-node/function-node.ts:118 | the count of leading white-space characters: all of them are white space and the next character is not |
| JsString.TrailingSpace | packages/engine-formula/src/engine/ast-node/function-node.ts:118 | the count of trailing white-space characters: all of them are white space and the one before is not |
| JsString.Trim | packages/engine-formula/src/engine/ast-node/function-node.ts:118 | `trim()` returns the infix of the token between its leading and trailing white space, and a non-empty result does not end in white space |
| JsString.TrimSurrounded | packages/engine-formula/src/engine/ast-node/function-node.ts:118 | trimming white space + t + white space gives back t, for any t without white space at either end |
| JsString.TrimIdempotent | packages/engine-formula/src/engine/ast-node/function-node.ts:118 | trimming twice is trimming once |
| JsString.ToUpper | packages/engine-formula/src/engine/ast-node/function-node.ts:118 | ASCII upper-casing: keeps the length and upper-cases ASCII letters character by character |
| JsString.ToUpperUntouched | packages/engine-formula/src/engine/ast-node/function-node.ts:118 | a string without lower-case ASCII letters is its own upper case |
| JsString.ToUpperIdempotent | packages/engine-formula/src/engine/ast-node/function-node.ts:118 | upper-casing twice is upper-casing once |
| FunctionNode.Arguments | packages/engine-formula/src/engine/ast-node/function-node.ts:54-63 | reference definition of the arguments: the present values of the children, in child order; characterised by `ArgumentsAreThePresentValues` |
| FunctionNode.ArgumentsAreThePresentValues | packages/engine-formula/src/engine/ast-node/function-node.ts:54-63 | the argument list is exactly the children's present values, in child order: the k-th argument is the value at the k-th present position, positions strictly increase, every present position appears |
| FunctionNode.ArgumentCount | packages/engine-formula/src/engine/ast-node/function-node.ts:75-84 | there are never more arguments than children, and as many exactly when every child holds a value |
| FunctionNode.ArgumentsWhenAllPresent | packages/engine-formula/src/engine/ast-node/function-node.ts:75-84 | when every child holds a value, argument j is child j's value |
| FunctionNode.ArgumentsOfConcat | packages/engine-formula/src/engine/ast-node/function-node.ts:75-84 | children without a value neither shift nor change the others' arguments (the list splits over a split of the children) |
| FunctionNode.Awaited | packages/engine-formula/src/engine/ast-node/function-node.ts:66-70 | the stored value is never an async object: a plain result is kept, an async one is replaced by what it resolves to |
| FunctionNode.AstNode.Function | packages/engine-formula/src/engine/ast-node/function-node.ts:33-47 | a new function node has the token, the executor, `isAsync`/`isAddress` equal to the executor's, no children, no parent, no value |
| FunctionNode.AstNode.Prefix | packages/engine-formula/src/engine/ast-node/function-node.ts:125-130 | a new prefix node carries its operator and optional executor, with no flags, links or value |
| FunctionNode.AstNode.Error | packages/engine-formula/src/engine/ast-node/function-node.ts:108 | a new error node's value is the given error |
| FunctionNode.AstNode.SetParent | packages/engine-formula/src/engine/ast-node/function-node.ts:133-148 | the parent pointer is set to the given node and nothing else changes |
| FunctionNode.AstNode.CollectVariants | packages/engine-formula/src/engine/ast-node/function-node.ts:75-84 | the loop over the children returns the present values in order, skipping the null ones |
| FunctionNode.AstNode.Execute | packages/engine-formula/src/engine/ast-node/function-node.ts:74-89 | the cached value becomes `calculate` applied to the present child values in child order; nothing else changes |
| FunctionNode.AstNode.ExecuteAsync | packages/engine-formula/src/engine/ast-node/function-node.ts:53-72 | the cached value becomes the awaited result of `calculate` on the present child values, and the status is SUCCESS |
| FunctionNode.Normalize | packages/engine-formula/src/engine/ast-node/function-node.ts:118 | reference definition of `token.trim().toUpperCase()`; a normal-form token is its own normalization (`NormalizeUntouched`) |
| FunctionNode.PrefixWindow | packages/engine-formula/src/engine/ast-node/function-node.ts:121 | `slice(0, 2)` in UTF-16 code units: a prefix of at most two characters, exactly the first character when that one is two units long, else the first two (or fewer) |
| FunctionNode.PrefixLength | packages/engine-formula/src/engine/ast-node/function-node.ts:121-136 | the number of characters cut is at most 2, at most the length of the first-two-character window, and at most the token's length |
| FunctionNode.FunctionNameIsSuffix | packages/engine-formula/src/engine/ast-node/function-node.ts:118-140 | the looked-up name is the normalised token with its first `PrefixLength` characters dropped |
| FunctionNode.FunctionName | packages/engine-formula/src/engine/ast-node/function-node.ts:118-140 | the name looked up is a suffix of the normalised token |
| FunctionNode.PrefixCutIsOneUnitPerCharacter | packages/engine-formula/src/engine/ast-node/function-node.ts:138-140 | every character cut off is one UTF-16 code unit long, so `slice(sliceLength)` in code units cuts exactly `PrefixLength` characters |
| FunctionNode.NormalizeUntouched | packages/engine-formula/src/engine/ast-node/function-node.ts:118 | a token with no white space at its ends and no lower-case ASCII letter is left unchanged by trim-and-upper-case |
| FunctionNode.PrefixedNormalForm | packages/engine-formula/src/engine/ast-node/function-node.ts:118-121 | two non-blank, non-lower-case characters before a normal-form name keep it in normal form; the two-unit window is both characters, or the first alone when it lies outside the Basic Multilingual Plane |
| FunctionNode.BothPrefixesStripped | packages/engine-formula/src/engine/ast-node/function-node.ts:121-140 | for every normal-form name, `-@` + name and `@-` + name both look up name: both prefixes go, in either order |
| FunctionNode.SecondPositionMinusCutsFirstCharacter | packages/engine-formula/src/engine/ast-node/function-node.ts:121-140 | for a first character c other than `@` (blank and lower case excluded) and any normal-form name, c + `-` + name looks up `-` + name when c is one UTF-16 unit long: the minus in second position counts as a prefix but the first character is what is cut, and a doubled minus loses only one; when c is two units long the minus is outside the window and the token is looked up whole |
| FunctionNode.AstralFirstCharacterCutsNothing | packages/engine-formula/src/engine/ast-node/function-node.ts:121-142 | a normal-form token whose first character is two UTF-16 units long is looked up whole: that character fills the window alone |
| FunctionNode.UnprefixedNameUnchanged | packages/engine-formula/src/engine/ast-node/function-node.ts:118-142 | a normal-form token whose first two characters are neither `-` nor `@` is looked up as it is, whatever follows |
| FunctionNode.FunctionNodeFactory.constructor | packages/engine-formula/src/engine/ast-node/function-node.ts:93-98 | the factory works against the given registry |
| FunctionNode.FunctionNodeFactory.ZIndex | packages/engine-formula/src/engine/ast-node/function-node.ts:100-102 | the order map's entry for FUNCTION, or the default z-index when the entry is missing or 0 |
| FunctionNode.FunctionNodeFactory.Create | packages/engine-formula/src/engine/ast-node/function-node.ts:104-111 | an unknown name gives a fresh `#NAME?` error node whose value is that error, with no parent or children; a registered one gives a fresh function node wrapping that executor, with its flags |
| FunctionNode.FunctionNodeFactory.CheckAndCreateNodeType | packages/engine-formula/src/engine/ast-node/function-node.ts:113-153 | a string gives nothing; a token gives a node exactly when its stripped name is registered, and that node is a fresh function node for that name whose parent is the `@` prefix node (itself parented by the `-` node when both prefixes occur), else the `-` node, else none; the `-` node carries the MINUS executor |
| FunctionNode.FunctionNodeFactory.Lookup | packages/engine-formula/src/engine/ast-node/function-node.ts:124 | `getExecutor` finds an executor exactly for registered names, and it is the registered one |
| AddDecimal.SelectedCells | packages/sheets-plugin-numfmt/src/commands/commands/add.decimal.command.ts:28-29 | reference definition of the visiting order: selection by selection, each range row by row; characterised by `SelectedCellsMembership` and `SelectedCellsOfConcat` |
| AddDecimal.MaxDecimals | packages/sheets-plugin-numfmt/src/commands/commands/add.decimal.command.ts:27-37 | reference definition of the first pass as a fold from 0; bounded and attained by `MaxDecimalsBounds` |
| AddDecimal.UniformPattern | packages/sheets-plugin-numfmt/src/commands/commands/add.decimal.command.ts:38-39 | reference definition of the uniform pattern; shown equal to `0.0` set to max + 1 decimals by `UniformDecimalsAboveAll` |
| AddDecimal.UpdateFor | packages/sheets-plugin-numfmt/src/commands/commands/add.decimal.command.ts:44-60 | an unformatted or `0.0`-like cell gets the uniform pattern; any other cell gets its pattern with one more decimal, and no entry exactly when that leaves the pattern unchanged; the entry is at the cell |
| AddDecimal.Updates | packages/sheets-plugin-numfmt/src/commands/commands/add.decimal.command.ts:42-62 | reference definition of the second pass: the per-cell entries in visiting order; characterised by `UpdatesArePerCell` and `UpdatesOfConcat` |
| AddDecimal.ComputeMaxDecimals | packages/sheets-plugin-numfmt/src/commands/commands/add.decimal.command.ts:27-37 | the first-pass loop computes the maximum over all selected cells, in visiting order |
| AddDecimal.MaxDecimalsOverRange | packages/sheets-plugin-numfmt/src/commands/commands/add.decimal.command.ts:29-36 | the row loop over one range continues the maximum over that range's cells |
| AddDecimal.MaxDecimalsOverRow | packages/sheets-plugin-numfmt/src/commands/commands/add.decimal.command.ts:29-36 | the column loop over one row continues the maximum over that row's cells |
| AddDecimal.BuildUpdates | packages/sheets-plugin-numfmt/src/commands/commands/add.decimal.command.ts:40-62 | the second-pass loop builds the per-cell entries of all selected cells, in visiting order |
| AddDecimal.UpdatesOverRange | packages/sheets-plugin-numfmt/src/commands/commands/add.decimal.command.ts:43-61 | the row loop over one range appends that range's entries |
| AddDecimal.UpdatesOverRow | packages/sheets-plugin-numfmt/src/commands/commands/add.decimal.command.ts:43-61 | the column loop over one row appends that row's entries |
| AddDecimal.Handler | packages/sheets-plugin-numfmt/src/commands/commands/add.decimal.command.ts:12-68 | no or empty selection returns false; otherwise `SetNumfmtCommand` is dispatched with the second pass's entries exactly when there are any, else false |
| AddDecimal.MaxDecimalsBounds | packages/sheets-plugin-numfmt/src/commands/commands/add.decimal.command.ts:27-37 | the maximum is never negative, is at least every formatted cell's decimal count, is 0 when no cell is formatted, and otherwise is 0 or some cell's count |
| AddDecimal.UniformDecimalsAboveAll | packages/sheets-plugin-numfmt/src/commands/commands/add.decimal.command.ts:38-39 | the uniform pattern is `0.0` set to a decimal count of at least 1 that exceeds every selected cell's count |
| AddDecimal.RowCellsMembership | packages/sheets-plugin-numfmt/src/commands/commands/add.decimal.command.ts:29 | a row segment visits exactly the cells of that row between the two columns |
| AddDecimal.RangeRowsMembership | packages/sheets-plugin-numfmt/src/commands/commands/add.decimal.command.ts:29 | a range visits exactly the cells inside it |
| AddDecimal.SelectedCellsMembership | packages/sheets-plugin-numfmt/src/commands/commands/add.decimal.command.ts:28-29 | a cell is visited exactly when it lies in some selection's range |
| AddDecimal.SelectedCellsOfConcat | packages/sheets-plugin-numfmt/src/commands/commands/add.decimal.command.ts:28 | selections are visited one after another, in order |
| AddDecimal.UpdatesOfConcat | packages/sheets-plugin-numfmt/src/commands/commands/add.decimal.command.ts:42-62 | the entries follow the visiting order: joined cell lists give joined entry lists |
| AddDecimal.UpdatesArePerCell | packages/sheets-plugin-numfmt/src/commands/commands/add.decimal.command.ts:42-62 | every entry is the per-cell entry of a visited cell, and every visited cell's entry is in the list |
| AddDecimal.HandlerEntries | packages/sheets-plugin-numfmt/src/commands/commands/add.decimal.command.ts:38-62 | every entry lies inside a selection; every unformatted or `0.0`-like selected cell gets the uniform pattern; no other entry leaves its cell's pattern unchanged |
| EndEdit.LastTwo | packages/ui-plugin-sheets/src/controllers/editor/end-edit.controller.ts:158 | `substring(length - 2, length)`: the last two characters, or the whole stream when it is shorter |
| EndEdit.StripEmptyDocumentValue | packages/ui-plugin-sheets/src/controllers/editor/end-edit.controller.ts:157-160 | when the last two characters (start clamped at 0) are `\r\n` the result followed by `\r\n` is the data stream; otherwise it is the data stream |
| EndEdit.StripAfterAppend | packages/ui-plugin-sheets/src/controllers/editor/end-edit.controller.ts:157-160 | stripping the marker from text + marker gives the text back |
| EndEdit.StripRemovesOneMarker | packages/ui-plugin-sheets/src/controllers/editor/end-edit.controller.ts:157-160 | only one trailing marker is removed |
| EndEdit.CellAfterEdit | packages/ui-plugin-sheets/src/controllers/editor/end-edit.controller.ts:154-170 | more than one text run stores the snapshot as `p`; otherwise no write exactly when the stripped text equals `v`, a formula sets only `f`, other text sets `v` and `m` |
| EndEdit.PlainWriteBackSettles | packages/ui-plugin-sheets/src/controllers/editor/end-edit.controller.ts:161-170 | re-deciding on the decided plain-text cell (before the interceptor), with the same document, writes nothing |
| EndEdit.FormulaWriteBackRepeats | packages/ui-plugin-sheets/src/controllers/editor/end-edit.controller.ts:161-167 | re-deciding on the decided formula cell (before the interceptor), with the same document, writes the same cell again, because the unchanged check looks at `v` while the formula went to `f` |
| EndEdit.MoveCursorCommand | packages/ui-plugin-sheets/src/controllers/editor/end-edit.controller.ts:209-247 | a selection move exactly for a present key in the move list; ENTER and TAB use the enter/tab command with the key, other keys the plain move, both in the switch's direction |
| EndEdit.CursorDirection | packages/ui-plugin-sheets/src/controllers/editor/end-edit.controller.ts:214-235 | the `_moveCursor` switch: DOWN exactly for ENTER and ARROW_DOWN, RIGHT exactly for TAB and ARROW_RIGHT, UP exactly for ARROW_UP, LEFT for every other key |
| EndEdit.EditorDirection | packages/ui-plugin-sheets/src/controllers/editor/end-edit.controller.ts:294-303 | the `_moveInEditor` choice: DOWN, RIGHT and UP exactly for the matching arrow, LEFT for every other key |
| EndEdit.DirectionsAgreeExceptEnterTab | packages/ui-plugin-sheets/src/controllers/editor/end-edit.controller.ts:216-236 | the selection direction and the in-editor cursor direction agree for every key except ENTER and TAB |
| EndEdit.ExitEffects | packages/ui-plugin-sheets/src/controllers/editor/end-edit.controller.ts:114-196 | hiding always starts by exiting the editor context and issues at most three commands, with a cell write only as the last one |
| EndEdit.WriteBackEffects | packages/ui-plugin-sheets/src/controllers/editor/end-edit.controller.ts:136-196 | at most one `SetRangeValues`, on the edited cell |
| EndEdit.EscapeOnlyExits | packages/ui-plugin-sheets/src/controllers/editor/end-edit.controller.ts:114-118 | hiding with ESC exits the editor and neither moves the selection nor writes |
| EndEdit.MoveBeforeWrite | packages/ui-plugin-sheets/src/controllers/editor/end-edit.controller.ts:116-140 | a selection move happens only for a non-ESC key in the move list, and comes right after the exit, before the write |
| EndEdit.ExitEffectsThroughWriteBack | packages/ui-plugin-sheets/src/controllers/editor/end-edit.controller.ts:120-196 | once past ESC, the bridge state and the document, hiding is the exit, then the selection move, then the write-back |
| EndEdit.EndEditController.constructor | packages/ui-plugin-sheets/src/controllers/editor/end-edit.controller.ts:55-60 | the editor starts hidden in the initial cursor state, with nothing dispatched; the pointer listener exists only when the editor did |
| EndEdit.EndEditController.OnVisibleChange | packages/ui-plugin-sheets/src/controllers/editor/end-edit.controller.ts:97-198 | a repeated visibility changes nothing; showing records the visibility and sets StartEditor; hiding records it, resets the cursor state and dispatches exactly the exit effects; the cursor state is initial exactly while hidden |
| EndEdit.EndEditController.MoveCursor | packages/ui-plugin-sheets/src/controllers/editor/end-edit.controller.ts:209-247 | appends exactly the selection move `MoveCursorCommand` gives for the key, if any |
| EndEdit.EndEditController.WriteBack | packages/ui-plugin-sheets/src/controllers/editor/end-edit.controller.ts:136-196 | appends exactly the write-back effects: nothing when the sheet or body is missing or the text is unchanged, else one `SetRangeValues` of the intercepted decided cell |
| EndEdit.EndEditController.OnPointerDown | packages/ui-plugin-sheets/src/controllers/editor/end-edit.controller.ts:249-268 | a click right after opening (listener attached) moves StartEditor to CursorChange; in every other case the state is unchanged |
| EndEdit.EndEditController.OnCommandExecuted | packages/ui-plugin-sheets/src/controllers/editor/end-edit.controller.ts:270-307 | an arrow command with a key after a click moves the cursor in the editor in `_moveInEditor`'s direction; any other arrow command is forwarded to `changeVisible`; other commands do nothing |
| EndEdit.ClickThenArrowThenEscape | packages/ui-plugin-sheets/src/controllers/editor/end-edit.controller.ts:97-307 | worked example, no contract of its own: open, click, an arrow moves the cursor in the editor, ESC only exits |

## Left out

- Promises and `await`: `executeAsync` is modelled as a method whose async result is already resolved. The asynchronous handler of the add-decimal command returns what it would dispatch; the result of `SetNumfmtCommand` is not modelled.
- Logging: `console.error` for an unknown function name is left out.
- Infrastructure: dependency injection, rxjs subscriptions, disposal and observer removal are outside the model.
- `BaseAstNode`, `PrefixNode`, `ErrorNode`, `LexerNode` and `IFunctionService` are not part of this model. All nodes are one class with a kind. `setParent` is modelled as setting the parent pointer alone, because the base class is not available. The prefix node's own execution is left out.
- Unseen constants: `NODE_ORDER_MAP` and `DEFAULT_AST_NODE_FACTORY_Z_INDEX` are parameters of `ZIndex`. The minus prefix's registry name is taken to be `MINUS`. The prefix tokens are taken to be `-` and `@`. `DEFAULT_EMPTY_DOCUMENT_VALUE` is taken to be `\r\n`. `MOVE_SELECTION_KEYCODE_LIST` is a parameter set.
- JsString.ToUpper: models `toUpperCase` for ASCII letters only, because Unicode case mapping is not available; JavaScript also maps `é` to `É`, `ſ` to `S` and `ß` to `SS`, which changes the length.
- JsString.ToUpperUntouched: holds of the ASCII model only; in JavaScript a string with non-ASCII lower-case letters is not its own upper case.
- FunctionNode.Normalize: inherits the ASCII-only upper-casing, so a token with non-ASCII lower-case letters (`ſum`, `ß-SUM`) normalises differently here than in the source.
- FunctionNode.FunctionNodeFactory.CheckAndCreateNodeType: for tokens with non-ASCII lower-case letters, the name looked up can differ from the source's, through `Normalize`.
- Strings are sequences of Unicode code points. The UTF-16 code-unit counting of `slice` is modelled only where it matters, in the prefix window and the cut.
- `Range.foreach` is taken to visit a range row by row, each row left to right, both ends inclusive.
- AddDecimal.Handler: the number-format store is the active sheet's, so the workbook and sheet ids are not modelled.
- The bodies of `getDecimalFromPattern`, `setPatternDecimal`, `isPatternEqualWithoutDecimal`, `calculate`, `isFormulaString` and the AFTER_CELL_EDIT interceptors are not part of this model; they are uninterpreted parameters.
- `_exitInput`'s three context flags and the cell-editor `setState` call are collapsed into one `ExitInput` effect.
- What `changeVisible` does afterwards is not modelled. It is recorded as an effect and not fed back as a visibility change.
- `deepClone` of the cell is implicit, because cells are values.
- Key codes are an enumeration of the keys the controller distinguishes plus one catch-all.
- Numbers are `real`; cell values other than text do not affect the write-back except through the equality check.
