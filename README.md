# QuestSL interpreter core, modelled in Dafny

This project models the core of a browser-based emulator for QuestSL. QuestSL is a small, line-numbered, BASIC-like language for interactive fiction. The whole engine lives in `emulator.js`, and the model follows it from the raw script text to the screen:

- **Tokenizer** (`tokenize`): the text becomes rows of tokens, one row per non-blank line.
- **Validator and parser** (`validateTokens`, `parseTokens`, `getPrintAlignment`, `questsl`): every row is checked and turned into an instruction record. The first row that throws aborts the whole parse, and `game` becomes undefined.
- **Values** (`op`, `renderVars`): the variable store, the IF comparison with its FIRST modifier, and the `[name]` interpolation.
- **Engine** (`gameLoop`, `handleCond`, `goto`, `render`, `cls`, `wait`, `input`, `endGame`, `startGame`, the key handlers): a loop over instruction positions. It has:
  - label lookups for GOTO and IF;
  - a single GOSUB return slot;
  - suspension at WAIT (resumed by the space key) and at INPUT (resumed by the Enter key of the input box).

The engine is modelled twice:

- as pure functions of a state value (module `Machine`), with their properties in `MachineProps`;
- as the class `Emulator.Engine`, whose fields are the globals of the source. Its methods update those fields in place, and each method is proved to do exactly what the corresponding `Machine` function says.

Screen output is an append-only log of events: a break line, a span, or the screen being wiped.

The model follows the code wherever the code and the language's design notes disagree:

- GOSUB continues at position `to - 1`, not at the instruction labelled `to`.
- RETURN with an empty slot continues at index 1.
- A GOTO to the label at index 0 runs index 1.
- An IF whose target label is missing reads `game[-1]` and crashes, instead of reporting an invalid jump.
- FIRST is recognised anywhere, but the operator is then always read from the third argument slot. So the modifier only works written as `IF X$ FIRST = "a"`. With FIRST, a numeric IF without quotes stores the operator's number, NaN, as its comparand.
- The validator looks for a token that is exactly `"`. The parser looks for a quote anywhere in the joined row. The two can therefore read different comparands.
- Line number 0 is accepted.
- startGame keeps `paused` and `waitOn` from an earlier run. After a restart, a space pressed while an INPUT box is open closes it and skips the instruction after the INPUT.

Modules, leaves first:

- `Wrappers`: Option and Result.
- `JsText`: the JavaScript string operations the source relies on.
- `Lexer`.
- `Values`.
- `Program`: the instruction records and the label lookups.
- `Parser`, with its properties in `ParserProps`, `ParserRules` and `ParserExamples`.
- `Machine` and `MachineProps`.
- `Emulator`.

## Model

| member | source | states |
|---|---|---|
| JsText.CloseQuoteMeaning | emulator.js:356 | the closing quote found for `/"(.*?)"/` is exactly the first quote after the opening one with no line terminator in between |
| JsText.MatchFromMeaning | emulator.js:387 | the match found from a position is a quoted span, and no quoted span starts earlier from that position; none is found exactly when no span starts there or later |
| JsText.FirstQuotedMeaning | emulator.js:431 | `match(/"(.*?)"/g)[0]` without its quotes is the body of the leftmost quoted span, and there is none exactly when no quoted span exists |
| JsText.RemoveQuotesWrapped | emulator.js:342 | removing every quote from `"text"` gives back a text that holds none |
| Lexer.TokenizeShape | emulator.js:297-307 | every row is non-empty; every token is non-empty and holds no space or newline; rows neither start nor end with white space |
| Lexer.TokenizeRoundTrip | emulator.js:297-307 | re-joining the rows with single spaces and newlines and tokenizing again gives the same rows |
| Lexer.RetokenizeJoined | emulator.js:297-307 | for any well-formed rows, tokenizing their joined text gives back exactly those rows |
| Parser.PrintAlignment | emulator.js:309-320 | the alignment is LEFT, CENTER, RIGHT or JUSTIFY; it differs from JUSTIFY exactly when the token before a trailing `#` colour token (or the last token) is an alignment keyword, and then equals that token |
| Parser.BuildSet | emulator.js:333-345 | a SET record carries the row's line number and names the variable written first |
| Parser.BuildPrint | emulator.js:346-359 | a built PRINT record is a PRINT with the row's line number |
| Parser.BuildExpr | emulator.js:425-435 | a built EXPR record is an EXPR with the row's line number (ParserRules.ExprRecord states its contents) |
| Parser.Build | emulator.js:332-442 | a record built from a validated row carries Number(first token) as its label and the row's command |
| Parser.ParseRow | emulator.js:325-443 | a row yields a record exactly when it validates and builds; the record's label is the row's non-negative line number and its command a known one; an error names the row |
| Parser.ParseTokens | emulator.js:322-446 | the loop pushes records in order and stops at the first throw: its result is the all-or-nothing parse of the rows |
| Parser.Questsl | emulator.js:286-295 | the game is defined exactly when the text parses, and is then the parsed program |
| ParserProps.ParseAllRowForRow | emulator.js:322-446 | a parse succeeds exactly when every row does, and then holds one record per row, in order |
| ParserProps.ParseAllFirstFailure | emulator.js:322-446 | a failed parse reports the error of its first failing row |
| ParserProps.ParseAllLineNumbers | emulator.js:339 | each record's label is the number the first token of its row spells |
| ParserRules.RejectsLineNumberAndCommand | emulator.js:464-471 | a missing, non-numeric or negative line number is reported first; a missing or unknown command second |
| ParserRules.SetRejects | emulator.js:473-496 | SET without `=` as second argument is refused; a `$` variable needs a quote-delimited value token, any other a number without quotes |
| ParserRules.SetValueTyping | emulator.js:333-345 | the record names the variable written first; a `$` variable stores the value tokens joined with spaces and every quote removed, any other the number (or NaN) that joined text spells; a single numeric value token is stored as the number it spells |
| ParserRules.SetStringValue | emulator.js:333-345 | `SET X$ = "text"` with no quote inside the text stores exactly that text |
| ParserRules.InputAccepted | emulator.js:498-518 | INPUT is accepted exactly when its last token is a `$` name declared by some `SET <name>` text in the source; the record names that variable; a name without trailing `$` is refused as not a string |
| ParserRules.ValidIfFacts | emulator.js:520-574 | an accepted IF row has a known operator, numeric THEN (and ELSE) targets, a declared non-empty variable, and a checked comparand that is quote-delimited for a `$` variable and numeric otherwise |
| ParserRules.BuildIfFacts | emulator.js:380-408 | the IF record's FIRST flag, variable, operator slot, THEN target and optional ELSE target are those the row spells; its comparand is the first quoted text of the row (as text for a `$` variable, as the number it spells otherwise); for a numeric variable without quotes and without FIRST it is the number of `rest[2]`, the token after the operator (with FIRST see ParserRules.IfFirstNumericIsNaN) |
| ParserRules.IfAccepted | emulator.js:520-574 | a parsed IF record has passed every check of the validator: known operator, numeric THEN and ELSE targets, a declared variable, a comparand quote-delimited for a `$` variable and numeric otherwise; its FIRST flag, variable, operator and targets are those the row spells |
| ParserRules.IfComparand | emulator.js:384-389 | a parsed IF's comparand: for a `$` variable the first quoted text of the row; for a numeric one the number the first quoted text spells, or, without quotes and without FIRST, the number of `rest[2]`, the very token the validator checked (with FIRST see ParserRules.IfFirstNumericIsNaN) |
| ParserRules.GotoAccepted | emulator.js:576-587 | GOTO is accepted exactly when its joined arguments spell a number; the record holds that number; otherwise the error is an invalid GOTO |
| ParserRules.PrintRecord | emulator.js:346-359 | PRINT parses exactly when a quoted text exists; the record's text is the first (leftmost) quoted text of the joined arguments without its quotes, its alignment is getPrintAlignment's and one of four, its colour is the last token exactly when that holds `#` |
| ParserRules.ExprRecord | emulator.js:425-435 | EXPR parses exactly when a quoted text exists; the record holds the line number, the first quoted text without its quotes as expression, and the last token as output variable |
| ParserRules.EndRecord | emulator.js:414-421 | END always parses; its alignment is the last argument, LEFT when that is the word END, undefined when there is none |
| ParserRules.OperatorIsNotNumber | emulator.js:383 | no comparison operator spells a number |
| ParserRules.IfFirstNumericIsNaN | emulator.js:380-405 | with FIRST and no quote, a numeric IF always stores NaN as its comparand |
| ParserExamples.IfQuoteCheckedComparand | emulator.js:526-532 | for `X = 5 THEN 20 "c"` the validator checks the comparand `5` |
| ParserExamples.IfQuoteParsedComparand | emulator.js:384-389 | for the same row the parser stores NaN, the number of the quoted `c` |
| Program.FindLabel | emulator.js:142 | the first position carrying the label, or -1 exactly when no position does |
| Program.GotoIndex | emulator.js:148-156 | a missing label throws; otherwise the position before the label's first occurrence, or 0 when the label is at position 0 |
| Values.NotEqualNegatesEqual | emulator.js:158-184 | `<>` is exactly the negation of `=` |
| Values.UnknownOperatorIsFalse | emulator.js:158-184 | an operator outside the six compares false, unless FIRST reads an unset variable |
| Values.FirstOnNumber | emulator.js:159 | with FIRST a number reads as undefined, so only `<>` holds |
| Values.FirstOnString | emulator.js:159 | with FIRST a string compares by its first character only |
| Values.FirstOnUnsetThrows | emulator.js:159 | with FIRST an unset variable throws |
| Values.FirstExample | emulator.js:158-184 | with X$ = "abc", FIRST = "a" holds and FIRST = "b" does not |
| Values.RenderVarsNoBracket | emulator.js:111-116 | text without `[` comes back unchanged |
| Values.RenderVarsResultHasNoBracket | emulator.js:118-129 | whenever renderVars returns, its result holds no `[` |
| Values.RenderVarsMoreFuel | emulator.js:118-127 | more passes never change a result already reached |
| Values.RenderVarsUnclosedSpins | emulator.js:118-127 | a `[` with no `]` anywhere loops forever |
| Values.SubstituteWhole | emulator.js:119-125 | a text that is exactly one reference `[name]` is replaced in one pass by the text of the name's value |
| Values.RenderVarsOneReference | emulator.js:118-127 | such a text renders in one pass as that value's text when the value holds no `[` |
| Values.RenderVarsFixpointSpins | emulator.js:118-127 | a text with a `[` that one pass leaves unchanged loops forever |
| Values.RenderVarsSelfReferenceSpins | emulator.js:118-127 | any variable whose value is its own reference `[name]` loops forever |
| JsText.ReplaceAtHead | emulator.js:125 | `replace` of a text that starts with the pattern puts the replacement in place of that leading occurrence and keeps the rest |
| Values.ReferenceAtHead | emulator.js:119-122 | in a text that starts with `[name]`, the first `[` and the first `]` delimit exactly that name |
| Values.SubstituteLeading | emulator.js:119-125 | a text that starts with a reference `[name]` has that reference replaced in one pass by the text of the name's value, the rest kept |
| Values.RenderVarsLeadingReference | emulator.js:118-127 | such a text renders in one pass when neither the value's text nor the rest holds a `[` |
| Values.RenderVarsSumExample | emulator.js:118-127 | with X = 5, `[X]+2` renders as `5+2` |
| Values.RenderVarsExample | emulator.js:118-127 | with X$ = "abc", `[X$]` renders as `abc` |
| Values.RenderVarsUnbound | emulator.js:121-125 | a reference `[name]` to any unbound name (without brackets of its own) renders as the text `undefined` |
| Machine.Render | emulator.js:243-270 | render adds a break line exactly for a text that interpolates to nothing, otherwise a span of the interpolated text, which holds no `[` |
| Machine.CondTarget | emulator.js:132-146 | a false IF without ELSE (or ELSE 0) goes to the next position; otherwise to the first position carrying the chosen label, -1 exactly when none does |
| MachineProps.NegativeIndexCrashes | emulator.js:39-43 | a negative index throws, with the line set to it |
| MachineProps.SetStep | emulator.js:45-48 | SET stores its value under its name, `$` included, and goes on with the next position |
| MachineProps.PrintStep | emulator.js:49-52 | PRINT appends render's event for its interpolated text (a break line when that is empty), with its alignment and colour, and goes on with the next position; an interpolation that does not finish leaves the run out of fuel |
| MachineProps.ExprStep | emulator.js:80-85 | EXPR hands its interpolated expression to calculate and stores the result under its output variable, going on with the next position; a throwing calculate crashes the run at the EXPR |
| MachineProps.SetThenExpr | emulator.js:45-85 | a SET followed by an EXPR: the EXPR interpolates in the store the SET left, and the run stops with both values stored |
| MachineProps.ExprExample | emulator.js:45-85 | `10 SET X = 5` then `20 EXPR "[X]+2" Y` hands `5+2` to calculate and stores its result under Y |
| MachineProps.GotoStep | emulator.js:76-79 | GOTO runs the first instruction carrying its label, index 1 for a label at index 0, and throws on a missing label |
| MachineProps.IfStep | emulator.js:72-75 | IF records its index in `waitOn` and runs the instruction handleCond chose; FIRST on an unset variable throws |
| MachineProps.IfFalseFallsThrough | emulator.js:139-140 | a false IF without ELSE, or with ELSE 0, runs the next instruction |
| MachineProps.IfJumps | emulator.js:141-143 | otherwise IF runs exactly the first instruction carrying the chosen label |
| MachineProps.IfMissingTargetCrashes | emulator.js:142 | an IF whose chosen label is missing throws with the line at -1 |
| MachineProps.GosubStep | emulator.js:86-90 | GOSUB overwrites the single return slot with its index and continues at position `to - 1`; a NaN target leaves the loop |
| MachineProps.ReturnStep | emulator.js:91-95 | RETURN continues after the stored GOSUB and empties the slot; with the slot empty it continues at index 1 |
| MachineProps.GosubThenReturn | emulator.js:86-95 | GOSUB to a RETURN comes straight back to the instruction after the GOSUB |
| MachineProps.EndStep | emulator.js:57-61 | END shows a break line and FIM with its alignment and leaves the loop |
| MachineProps.ExecFrame | emulator.js:44-98 | one step only appends to the screen; only GOSUB/RETURN touch the slot, only SET/EXPR the store, only WAIT sets `paused`, only INPUT opens the box |
| MachineProps.LoopAppends | emulator.js:38-100 | a run only appends to the screen |
| MachineProps.LoopKeepsValid | emulator.js:38-100 | a run started without an open box ends with any open box belonging to the line it resumes at |
| MachineProps.SpinMeans | emulator.js:49-52 | a step spins exactly when it is PRINT or EXPR and its interpolation does not finish |
| MachineProps.ExecMoreFuel | emulator.js:44-98 | a step that does not spin is the same with more passes |
| MachineProps.LoopMoreFuel | emulator.js:38-100 | a run that finishes within its bound gives the same outcome and state with any larger bound |
| MachineProps.LoopNeverIgnored | emulator.js:38-100 | a run never reports a key as ignored |
| MachineProps.WaitStep | emulator.js:62-66 | WAIT shows a break line and the centred pause message, records its index, sets `paused`, and leaves the loop |
| MachineProps.SpaceIgnored | emulator.js:591-602 | the space handler acts exactly when a WAIT is pending, `paused` is set and the key is a space; otherwise the state is unchanged |
| MachineProps.WaitThenSpace | emulator.js:591-602 | after WAIT at i, a space wipes the screen, clears the pause and resumes at i + 1 |
| MachineProps.InputStep | emulator.js:67-71 | INPUT opens the box with the line and `waitOn` just after it, a state the Enter handler accepts |
| MachineProps.EnterAtInput | emulator.js:210-232 | with the box of the INPUT at i open, Enter ignores a text its variable cannot take and otherwise stores the value and runs from i + 1 |
| MachineProps.InputThenEnterString | emulator.js:210-232 | INPUT into a `$` variable then Enter stores the upper-cased, trimmed text and resumes after the INPUT |
| MachineProps.InputThenEnterNumber | emulator.js:214-222 | for a numeric variable a text that reads as a number is stored as that number and the run resumes; any other text is ignored and the box stays open |
| MachineProps.EnterIgnored | emulator.js:210 | Enter does nothing with no box open or an empty box |
| MachineProps.EnterReadsNumerals | emulator.js:214-219 | the decimal text of any integer is read back as that integer |
| MachineProps.EnterBlankReadsZero | emulator.js:214-219 | only white space typed into a numeric variable reads as 0 |
| MachineProps.StartKeepsPause | emulator.js:30-36 | for a program whose first instruction is INPUT, startGame empties the store, wipes the screen and keeps `paused`, stopping at that INPUT with its box open |
| MachineProps.StaleWaitSkipsInput | emulator.js:591-602 | after a restart left `paused` set, a space pressed while the INPUT at index 0 is open wipes the box and resumes at index 2, skipping index 1 |
| Emulator.Engine.constructor | emulator.js:1-8 | an empty program and fresh globals |
| Emulator.Engine.Load | emulator.js:21-24 | `game` becomes the parsed program, or undefined when the text does not parse |
| Emulator.Engine.HandleVM | emulator.js:106-108 | the store maps the key to the value, everything else unchanged |
| Emulator.Engine.RenderVars | emulator.js:110-130 | the loop computes the interpolation function exactly, and its result holds no `[` |
| Emulator.Engine.Render | emulator.js:243-270 | appends the break line or span for the interpolated text, nothing when the interpolation does not finish |
| Emulator.Engine.Cls | emulator.js:275-278 | wipes the screen and with it the INPUT box |
| Emulator.Engine.EndGame | emulator.js:280-283 | appends a break line and FIM with the given alignment |
| Emulator.Engine.WaitAt | emulator.js:234-241 | records the WAIT's index, pauses, and appends the break line and pause message |
| Emulator.Engine.OpenInput | emulator.js:186-208 | the loop will resume at the line after the INPUT; the box is open |
| Emulator.Engine.HandleCond | emulator.js:132-146 | records the line in `waitOn` and returns the position the IF continues at, none when the comparison throws |
| Emulator.Engine.Execute | emulator.js:44-98 | one pass through the switch leaves exactly the state, flow and next index of the step function |
| Emulator.Engine.ExecuteEffect | emulator.js:45-85 | the same for SET, PRINT, CLS, EXPR and REM |
| Emulator.Engine.ExecuteHalt | emulator.js:57-71 | the same for END, WAIT and INPUT |
| Emulator.Engine.ExecuteIf | emulator.js:72-75 | the same for IF |
| Emulator.Engine.ExecuteJump | emulator.js:76-95 | the same for GOTO, GOSUB and RETURN |
| Emulator.Engine.GameLoop | emulator.js:38-100 | gameLoop leaves exactly the outcome and state of the loop function, and keeps any open box valid; without a game it throws |
| Emulator.Engine.ForLoop | emulator.js:40-99 | the `for` loop over the loaded program leaves exactly the outcome and state of the loop function |
| Emulator.Engine.StartGame | emulator.js:30-36 | the outcome and state of startGame, with any open box valid |
| Emulator.Engine.KeyDown | emulator.js:590-602 | the outcome and state of the space handler |
| Emulator.Engine.EnterKey | emulator.js:210-232 | the outcome and state of the Enter handler |
| Emulator.Engine.ReadInput | emulator.js:210-213 | the key counts only for an open, non-empty box, and the variable is the one of instruction curLn - 1 |
| Emulator.Engine.ReadValue | emulator.js:214-222 | the typed text upper-cased and trimmed, as a number for a name without `$`, none when that is NaN |
| Emulator.Engine.Resume | emulator.js:224-231 | stores the value, removes the box, wipes the screen and runs from `waitOn` |

## Left out

- The DOM is modelled as an event log. This covers element creation, `innerHTML`, CSS classes, focus and the 100 ms enabling delay of the input box.
- loadGame's file picker and FileReader are not modelled: `Load` takes the text the reader delivers. The click handler only moves focus and is left out.
- `calculate` builds a JavaScript function from the expression and calls it. It is a parameter `evaluate` of the engine; a `None` result stands for a throw. Its results are limited to integers, NaN, strings and undefined: a boolean, `null`, an object or a function returned by the expression is not modelled.
- Numbers are integers. `Number()` accepts white space around an optional sign and decimal digits, and reads the empty text as 0. Fractions, exponents, hexadecimal, `Infinity` and `-0` are not modelled, and neither is the text JavaScript prints for non-integers.
- `toUpperCase` is modelled for a–z and for à–þ except ÷. The letters ß, ÿ and µ are left unchanged, where JavaScript gives SS, Ÿ (U+0178) and Μ (U+039C); letters beyond Latin-1 are left unchanged too.
- String comparison is by character code, the same as UTF-16 code units within the Basic Multilingual Plane.
- The store is a map. Keys that hit `Object.prototype` members (such as `constructor`) are not modelled.
- `String.prototype.replace` replacement patterns (`$&`, `$1`, …) inside interpolated values are not modelled.
- `console.error` in questsl is not modelled: a failed parse leaves `game` undefined.
- Machine.Loop and Emulator.Engine.GameLoop: gameLoop and renderVars can loop forever. They are bounded by a `fuel` count of iterations or passes, and running out is the outcome `OutOfFuel`.
- MachineProps.GosubStep: GOSUB with a NaN target leaves `curLn` NaN in the source. The model keeps the GOSUB's index there, and nothing reads it before the next run sets it.
- MachineProps.ReturnStep: RETURN with an empty slot sets `curLn` to null. The model uses 0, which is where the next step runs from either way.
- The WAIT record's alignment is always CENTER, so `Instr.Wait` does not store it.
- The second emptiness check of INPUT (emulator.js:507-509) can never fire after the first, and is not modelled separately.
- Machine.Enter and Emulator.Engine.EnterKey require the box invariant `Valid`: an open box belongs to the line the loop resumes at. Every handler in the model is proved to keep it, so a state that breaks it cannot arise.
