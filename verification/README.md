# Verified model of filters, formats, buffers and drawing

This project models the self-contained algorithms of the repository in Dafny and proves what they
promise. It covers the music player (`agent/project/cmus-xp`): the filter language with its short
form, its glob patterns and its named filters; format strings; the audio ring buffer; the track
cache file; the request for the next track between threads; editable lists, line iteration and
random indices. It also covers three experiments: the incremental terminal renderer, the stroke
writer with its reader, and the largest product of a contiguous part.

How the parts fit together:

- `Basics.dfy` - options, 32-bit integers, decimal digits, reversed sequences.
- `OofSequences.dfy`, `TerminalModel.dfy`, `OofScreen.dfy` - escape sequences and their independent
  reading, a terminal, and the screen whose draws must keep that terminal up to date.
- `Glob.dfy` - patterns: declarative meaning, compiler, simplifier, backtracking matcher.
- `FilterTokens.dfy`, `FilterExpr.dfy`, `FilterSyntax.dfy` - tokenizer, grammar, parser, printer,
  evaluation, and what the texts that are read look like, told without tokenizer and parser.
- `ShortFilter.dfy`, `ShortFilterBound.dfy`, `ShortGrammar.dfy`, `ShortMeaning.dfy`,
  `ShortRead.dfy` - the expander of short filters as a stack machine, its output bound, the grammar
  it reads, and the proof of when expansion, tokenizing, parsing and evaluation together give the
  meaning of that grammar.
- `FilterReading.dfy` - what any text, short or long, is read as.
- `NamedFilters.dfy` - replacing named filters and activating a selection of them.
- `FormatPrint.dfy`, `FormatMeaning.dfy` - the validator and the interpreter of format strings, and a
  tree of format items whose printed text both must read alike.
- `ChunkRing.dfy`, `NextTrack.dfy` - two concurrent protocols as step systems over every interleaving,
  with the shared objects changed in place beside them.
- `CacheFile.dfy` - the writer and the reader of the cache, for any tracks and on cut files.
- `StrokeText.dfy`, `RandArray.dfy`, `FileLines.dfy`, `Editable.dfy`, `MaxProduct.dfy` - the smaller
  algorithms.

Methods follow the code: they change objects, arrays and indices in loops, and are proved against
functions; the lemmas state what those functions mean. Where the code does not do what it seems to
promise, the model keeps the code, and lemmas give inputs that show it together with the condition
under which it holds, in both directions:

- coordinates of the renderer are narrowed to eight bits (`OofScreen.WorksIffAddressable`);
- the size estimate documented as exact is a lower bound (`OofSequences.ReserveIsLowerEstimate`);
- the expander of short filters needs more than 7 times the input for `~A` and for the empty text
  (`ShortFilterBound.OutputFits`), keeps digits of a closed range (`ShortMeaning.IntendedIff`), and
  takes the quote behind a final backslash for a part of the text (`ShortRead.ShortFilterMeans`);
- a filter that is named twice counts as recursion (`NamedFilters.CheckIff`);
- the complement loop of `rand_array` can overwrite what it still compares with
  (`RandArray.ComplementIff`);
- backward line iteration drops a last character and keeps a first carriage return
  (`FileLines.ReverseIff`);
- a long name behind a percent width ends the condition around it (`FormatMeaning.FormatMeans`);
- the cache is written with entries that its reader refuses (`CacheFile.WrittenIsReadIff`);
- the rounding errors of a saved stroke exceed half a grid unit once a number stops at 32 bits
  (`StrokeText.ErrorsHalvedIff`).

The whole project is one `dafny verify dfyconfig.toml`.

## Model

| member | source | states |
|---|---|---|
| OofSequences.WriteIntToString | experiment/2025_07_20-oof.cpp:699-719 | appends the parameter in decimal, after a semicolon when asked to |
| OofSequences.WriteIntsIntoString | experiment/2025_07_20-oof.cpp:721-732 | appends any list of parameters separated by semicolons |
| OofSequences.WriteSequenceIntoString | experiment/2025_07_20-oof.cpp:735-875 | appends the escape string of one sequence (reset, colours, underline, bold, position) or the letter itself |
| OofSequences.WriteSequencesIntoString | experiment/2025_07_20-oof.cpp:1112-1123 | appends the strings of a list in order |
| OofSequences.ReadSequences | experiment/2025_07_20-oof.cpp:735-875 | an independent reader of control sequences in the sense of ECMA-48 (SGR section 8.3.117, CUP section 8.3.21) reads the string of any list back as exactly that list of control functions and ends outside any sequence |
| OofSequences.SequencesTextInjective | experiment/2025_07_20-oof.cpp:735-875 | two lists of sequences with the same string are the same list |
| OofSequences.GetStringReserveSize | experiment/2025_07_20-oof.cpp:1098-1110 | the reserve size is the sum of the estimates |
| OofSequences.SequenceTextLength | experiment/2025_07_20-oof.cpp:571-678 | the estimate for one sequence misses its true length by exactly the number of coordinates that are 9 or 99 |
| OofSequences.ReserveIsLowerEstimate | experiment/2025_07_20-oof.cpp:196-200 | true length = estimate + one per coordinate 9 or 99: never too large, short by at most 2 per position sequence; the size documented as exact is not exact |
| TerminalModel.ExecutedSequence | experiment/2025_07_20-oof.cpp:58-102 | what an ECMA-48 terminal does with each sequence a screen produces: pen, cursor or one cell |
| OofScreen.DrawState.WriteSequence | experiment/2025_07_20-oof.cpp:1381-1455 | emits nothing for an unchanged cell; otherwise the format changes, a position if the cursor is elsewhere, and the letter, and records both |
| OofScreen.DrawState.ApplyFormat | experiment/2025_07_20-oof.cpp:1395-1438 | emits all four attributes when the console format is unknown, else only those that differ |
| OofScreen.Screen.constructor | experiment/2025_07_20-oof.cpp:942-963 | a screen starts with every cell the background and nothing drawn |
| OofScreen.Screen.UpdateSequenceBuffer | experiment/2025_07_20-oof.cpp:909-940 | the buffer becomes the minimal frame of the current against the last drawn cells |
| OofScreen.Screen.GetString | experiment/2025_07_20-oof.cpp:996-1023 | returns the string of the frame; the current cells become the drawn ones |
| OofScreen.Screen.EditCell | experiment/2025_07_20-oof.cpp:1071-1094 | changes the cell addressed; an address outside the screen means the first cell |
| OofScreen.Screen.WriteInto | experiment/2025_07_20-oof.cpp:1025-1061 | writes a text that fits on its line and leaves the screen alone otherwise |
| OofScreen.Screen.Clear | experiment/2025_07_20-oof.cpp:1376-1379 | every cell becomes the background |
| OofScreen.FormatChangesShown | experiment/2025_07_20-oof.cpp:1395-1438 | the attributes emitted give the console exactly the format of the cell, from any known or unknown one |
| OofScreen.FrameShown | experiment/2025_07_20-oof.cpp:909-940 | a console that shows the drawn cells shows the current cells after the frame, and nothing outside the window changes |
| OofScreen.FrameRefinesFullRedraw | experiment/2025_07_20-oof.cpp:909-940 | the incremental frame leaves the same picture as drawing everything |
| OofScreen.FrameLetters | experiment/2025_07_20-oof.cpp:909-940 | exactly one letter is written for every differing cell |
| OofScreen.LoneCellWritten | experiment/2025_07_20-oof.cpp:1440-1447 | a lone changed cell is written to its coordinates modulo 256 and nowhere else |
| OofScreen.WorksIffAddressable | experiment/2025_07_20-oof.cpp:1440-1447 | frames are right for every console, list of cells and drawn cells exactly when origin plus size stays within 256, so that every coordinate is at most 255 |
| OofScreen.StepKeepsSync | experiment/2025_07_20-oof.cpp:996-1094 | each edit, write, clear or draw keeps the console in step with the drawn cells |
| OofScreen.EveryDrawShowsTheCells | experiment/2025_07_20-oof.cpp:996-1023 | for every run of edits, writes, clears and draws: after a draw the console window shows exactly the cells and the rest is as at the start |
| OofScreen.EveryDrawShowsThePicture | experiment/2025_07_20-oof.cpp:996-1094 | after any calls on a new screen the next string makes the console show at every column and line what the last call that touched the place put there: an edited cell, a character of a text that fits on its line, the background, or, for an edit outside, its cell in the first place |
| OofScreen.WriteIsEdits | experiment/2025_07_20-oof.cpp:1025-1061 | writing a text that fits is editing its cells one after another from its column on |
| Glob.Pattern.ParseItems | agent/project/cmus-xp/glob.c:108-165 | the item list of an escaped pattern |
| Glob.ItemsMeaning | agent/project/cmus-xp/glob.c:108-165 | the items accept exactly the texts that the escaped pattern means |
| Glob.Pattern.Simplify | agent/project/cmus-xp/glob.c:44-106 | in place: in every run of wildcards with a star the question marks come first and one star remains |
| Glob.SimplifiedAccepts | agent/project/cmus-xp/glob.c:44-106 | simplification keeps the accepted texts |
| Glob.SimplifiedNormal | agent/project/cmus-xp/glob.c:44-106 | afterwards every star is last or directly before a text, so the check at line 223 cannot fail |
| Glob.Pattern.Compile | agent/project/cmus-xp/glob.c:108-169 | compiling gives the simplified items, in normal form and without empty texts |
| Glob.StrNCaseEqual | agent/project/cmus-xp/glob.c:194-197 | compares the first characters under the folding |
| Glob.StrCaseStr | agent/project/cmus-xp/glob.c:229-231 | finds the first occurrence or reports that there is none |
| Glob.DoGlobMatch | agent/project/cmus-xp/glob.c:185-240 | matches exactly the texts that the remaining items accept |
| Glob.MatchAfterStar | agent/project/cmus-xp/glob.c:222-235 | trying only successive occurrences of the text after a star loses no match |
| Glob.CompiledMeaning | agent/project/cmus-xp/glob.c:242-245 | the compiled pattern accepts a text exactly when the escaped pattern means it |
| Glob.GlobMatch | agent/project/cmus-xp/glob.c:242-245 | compiling and matching decide the declarative meaning of the pattern: sound and complete |
| FilterTokens.GetStr | agent/project/cmus-xp/expr.c:97-127 | the quoted text up to its closing quote, or an error when it is missing |
| FilterTokens.GetIntOrKey | agent/project/cmus-xp/expr.c:129-165 | the longest word, as an integer or a key, or an error for a stray character |
| FilterTokens.GetToken | agent/project/cmus-xp/expr.c:167-192 | the first token of the text and where the next one starts |
| FilterTokens.Tokenize | agent/project/cmus-xp/expr.c:207-225 | all tokens in order, or nothing when one is malformed |
| FilterTokens.TokenizedText | agent/project/cmus-xp/expr.c:97-225 | any list of tokens written without separators tokenizes back to that list |
| FilterExpr.Add | agent/project/cmus-xp/expr.c:336-362 | a node goes where a binary operator still lacks its right operand, else above the whole tree |
| FilterExpr.ParseOne | agent/project/cmus-xp/expr.c:238-334 | one operand, or the same error as the grammar |
| FilterExpr.Parse | agent/project/cmus-xp/expr.c:364-407 | the tree and the rest that the grammar prescribes, at any nesting level |
| FilterExpr.ParseText | agent/project/cmus-xp/expr.c:766-777 | tokenizing and parsing a whole text |
| FilterExpr.PrintedTextParses | agent/project/cmus-xp/expr.c:97-407 | any tree printed with full parentheses tokenizes and parses back to itself |
| FilterExpr.ChainParses | agent/project/cmus-xp/expr.c:336-407 | operands and operators without parentheses parse to the left fold, with equal precedence |
| FilterExpr.LeftFoldHolds | agent/project/cmus-xp/expr.c:953-967 | evaluating that tree with short circuit equals evaluating the links from left to right |
| FilterExpr.ExprEval | agent/project/cmus-xp/expr.c:953-1036 | evaluates a tree with short circuit, patterns through the glob matcher |
| FilterExpr.IntLeafMeans | agent/project/cmus-xp/expr.c:983-1000 | a set integer is compared as its operator says; an unset one is only equal to -1, and not even different from anything else |
| FilterExpr.StrLeafMeans | agent/project/cmus-xp/expr.c:970-982 | a missing text is empty, and `!=` is the negation of `=` |
| FilterExpr.IdLeafMeans | agent/project/cmus-xp/expr.c:1001-1030 | two keys are compared as texts when the first is one and else as integers; a missing second text fails, and unset integers are only equal or different |
| FilterExpr.StrCmpIff | agent/project/cmus-xp/expr.c:1007 | the comparison of texts is lexicographic, a prefix first |
| FilterSyntax.QuotableIff | agent/project/cmus-xp/expr.c:97-127 | a text can stand between quotes exactly when every quote in it is protected and its last backslash protects nothing |
| FilterSyntax.TokenizedIff | agent/project/cmus-xp/expr.c:97-225 | a text has these tokens exactly when it consists of them with white space around them, at least where two would be taken for one |
| FilterSyntax.ParsedIff | agent/project/cmus-xp/expr.c:238-407 | a token list parses to a tree exactly when it is arranged as a series of primaries with that tree: comparisons, negations, parentheses, operators from left to right |
| FilterSyntax.ParsedTextIff | agent/project/cmus-xp/expr.c:766-777 | tokenizing and parsing together accept exactly the texts of series, as their trees |
| FilterSyntax.SeriesErrors | agent/project/cmus-xp/expr.c:364-407 | behind a series: an end inside parentheses, a closing parenthesis outside, and anything that no operator joins are refused with their errors |
| FilterSyntax.ComparisonErrors | agent/project/cmus-xp/expr.c:269-332 | behind a key and a comparison: nothing, a text that is not tested for equality, and anything but a word or text are refused with their errors |
| ShortFilter.ShortKeyIsBuiltin | agent/project/cmus-xp/expr.c:409-478 | every short key stands for a builtin key of the type its syntax asks for |
| ShortFilter.StepShape | agent/project/cmus-xp/expr.c:518-704 | every turn of the state machine keeps the base state, never holds more than five states, and a turn that consumes nothing lowers a rank, so the loop ends |
| ShortFilter.PackedShape | agent/project/cmus-xp/expr.c:480-499 | a reachable stack fits in 32 bits with room for one more state |
| ShortFilter.Stack4.Push | agent/project/cmus-xp/expr.c:484-487 | the packed word afterwards stands for the stack with the state on top |
| ShortFilter.Stack4.Pop | agent/project/cmus-xp/expr.c:488-491 | the packed word afterwards stands for the stack without its top |
| ShortFilter.Stack4.Top | agent/project/cmus-xp/expr.c:492-495 | the top of the stack |
| ShortFilter.Stack4.ReplaceTop | agent/project/cmus-xp/expr.c:496-499 | the packed word afterwards stands for the stack with another top |
| ShortFilter.TrimRight | agent/project/cmus-xp/expr.c:692-693 | the text without the spaces at its end |
| ShortFilter.Expander.TakeTurn | agent/project/cmus-xp/expr.c:518-704 | one turn of the loop on the packed stack and the output buffer is one step of the abstract machine |
| ShortFilter.ExpandShortExpr | agent/project/cmus-xp/expr.c:501-718 | the whole expansion equals the run of the abstract machine, or is refused with it |
| ShortFilter.RejectIff | agent/project/cmus-xp/expr.c:518-704 | exactly which characters are refused in which state, and with which error |
| ShortFilterBound.OutputFits | agent/project/cmus-xp/expr.c:519-523 | what is written with its terminators fits in 7 times the input length exactly when the input is neither empty nor `~A` |
| ShortFilterBound.LoneKeyDoesNotFit | agent/project/cmus-xp/expr.c:519-523 | `~A` writes 15 characters where 14 fit |
| ShortFilterBound.EmptyDoesNotFit | agent/project/cmus-xp/expr.c:519-523 | the empty input writes a terminator where nothing fits |
| ShortGrammar.OperandRun | agent/project/cmus-xp/expr.c:518-704 | the machine reads any operand of the short grammar and writes its long form |
| ShortGrammar.ShortRun | agent/project/cmus-xp/expr.c:501-718 | every filter of the short grammar whose quoted arguments end for the expander where they end is accepted and expands to its long form |
| ShortMeaning.IntendedIff | agent/project/cmus-xp/expr.c:650-667 | the expansion is the intended one exactly when no number that begins with a digit follows a closed range, the digits of whose upper bound are left over |
| ShortMeaning.LeftOverDigits | agent/project/cmus-xp/expr.c:650-667 | the expander turns `~y1-2~y3` into `(date>=1&date<=2)&(date=23)` |
| ShortMeaning.IntendedParses | agent/project/cmus-xp/expr.c:207-407 | the intended long form tokenizes and parses to the tree of the short grammar |
| ShortMeaning.OperandExprHolds | agent/project/cmus-xp/expr.c:953-1034 | the tree of an operand holds of a track exactly when the operand does |
| ShortMeaning.ChainExprHolds | agent/project/cmus-xp/expr.c:953-1034 | juxtaposition is conjunction, a bar is disjunction, both left-associative with equal precedence |
| ShortMeaning.BareContains | agent/project/cmus-xp/expr.c:668-699 | a bare argument without wildcards asks whether the value contains it |
| ShortMeaning.ExprIsShort | agent/project/cmus-xp/expr.c:720-730 | a text is short when the first character besides `!`, `(` and space is `~` |
| ShortMeaning.ExprParse | agent/project/cmus-xp/expr.c:737-778 | refuses control characters, expands short texts, and parses |
| ShortRead.JoinedExprIff | agent/project/cmus-xp/expr.c:650-667 | putting left-over digits before the next numbers leaves the tree as it is exactly when they change the value of none of them |
| ShortRead.KeepsValueIffZeros | agent/project/cmus-xp/expr.c:650-667 | below 2 to the 31st left-over digits keep the value of a number exactly when they are all zeros |
| ShortRead.OthersKeepValue | agent/project/cmus-xp/expr.c:129-165 | beyond it others may: 41943040000000003 and 3 become the same 32-bit integer |
| ShortRead.HarmlessReads | agent/project/cmus-xp/expr.c:677-682 | a quoted argument that ends in a backslash is read right when only spaces and closing parentheses follow |
| ShortRead.KeyReadsNothing | agent/project/cmus-xp/expr.c:677-682 | when a key follows such an argument, the whole filter is refused |
| ShortRead.BackslashBeforeQuote | agent/project/cmus-xp/expr.c:677-682 | with `x` and two backslashes as the quoted artist the filter is read, and with `~s` behind it it is refused |
| ShortRead.ShortFilterMeans | agent/project/cmus-xp/expr.c:501-1034 | any filter of the short grammar is read as its tree exactly when it has no control character, left-over digits change no number and nothing but spaces and closing parentheses follows a quoted argument ending in a backslash; with numbers below 2 to the 31st that tree holds of a track exactly as the short grammar says |
| ShortRead.UsuallyReadRight | agent/project/cmus-xp/expr.c:501-718 | that condition holds when no number that begins with a digit follows a closed range and no quoted argument ends in a backslash |
| FilterReading.ShortTextIff | agent/project/cmus-xp/expr.c:720-730 | a text counts as short exactly when only exclamation marks, opening parentheses and spaces precede a tilde |
| FilterReading.FilterReadIff | agent/project/cmus-xp/expr.c:737-778 | any text is read as a tree exactly when it has no control character and it, or what it expands to if it is short, is the text of a series with that tree |
| FilterReading.SeriesIsRead | agent/project/cmus-xp/expr.c:737-778 | every long filter without control characters is read as its tree; none of them counts as short |
| FilterReading.PrintedIsRead | agent/project/cmus-xp/expr.c:737-778 | any tree printed with full parentheses is read back as a filter unless it holds a control character |
| FilterReading.OthersAreRefused | agent/project/cmus-xp/expr.c:737-778 | what is neither short nor the text of a series is refused |
| NamedFilters.CheckIff | agent/project/cmus-xp/expr.c:780-840 | an expression passes exactly when it unfolds to builtin leaves of the right type, following no name twice and none marked before; for every table, cyclic ones included |
| NamedFilters.BuiltinLeaves | agent/project/cmus-xp/expr.c:795-808 | a builtin key passes exactly when it is compared with what its type allows |
| NamedFilters.CheckedOnlyBuiltin | agent/project/cmus-xp/expr.c:780-840 | on success only builtin leaves compared as their type allows remain |
| NamedFilters.CheckedAcyclic | agent/project/cmus-xp/expr.c:780-840 | on success the references followed form no cycle |
| NamedFilters.NamedTwiceRefused | agent/project/cmus-xp/filters.c:104-117 | naming one filter twice is refused although nothing recurs |
| NamedFilters.CheckedEval | agent/project/cmus-xp/expr.c:780-840 | the result evaluates as the expression does with its names unfolded |
| NamedFilters.ConjoinedEval | agent/project/cmus-xp/filters.c:153-192 | the conjunction asks for every selected filter, negated where it is selected negatively |
| NamedFilters.ActivationMeans | agent/project/cmus-xp/filters.c:134-211 | an activated selection shows exactly the tracks that meet every selected filter in the way it is selected |
| NamedFilters.ConjoinedIff | agent/project/cmus-xp/filters.c:153-192 | the selection is joined exactly when every selected filter, positively or negatively selected, can be read |
| NamedFilters.ActivationIff | agent/project/cmus-xp/filters.c:134-211 | a selection is activated exactly when every selected filter can be read and unfolded following no name twice and none that is selected; it leaves no filter exactly when nothing is selected |
| NamedFilters.ParsedFilterMeans | agent/project/cmus-xp/filters.c:420-448 | a filter typed by the user evaluates as its text with names unfolded |
| NamedFilters.ParsedFilterIff | agent/project/cmus-xp/filters.c:420-448 | a typed filter is accepted exactly when it can be read and unfolds following no name twice, with that result |
| NamedFilters.FilterList.FindFilter | agent/project/cmus-xp/filters.c:93-102 | the entry of a name, if there is one |
| NamedFilters.FilterList.GetFilter | agent/project/cmus-xp/filters.c:104-117 | gives the text of a filter the first time and marks it visited; refuses and remembers it the second time |
| NamedFilters.FilterList.CheckLeaves | agent/project/cmus-xp/expr.c:780-840 | the in-place replacement with its visited marks computes the checked expression; it ends because unvisited filters, then the expression, get fewer |
| NamedFilters.FilterList.MarkSelected | agent/project/cmus-xp/filters.c:153-192 | marks exactly the selected filters and joins their expressions |
| NamedFilters.FilterList.CheckPending | agent/project/cmus-xp/filters.c:140-144 | whether the active state equals the selection |
| NamedFilters.FilterList.Activate | agent/project/cmus-xp/filters.c:134-211 | the library filter and the active flags change exactly when a pending selection can be read and expanded |
| NamedFilters.FilterList.ParseFilter | agent/project/cmus-xp/filters.c:420-448 | a text that can be read and expanded with no name visited before |
| NamedFilters.FilterList.SetAnonymous | agent/project/cmus-xp/filters.c:450-468 | replaces the library filter and deactivates all filters, unless the text is refused |
| ChunkRing.WriteSizeAtLeast1024 | agent/project/cmus-xp/buffer.c:96-110 | the room offered is nothing or at least 1024 bytes |
| ChunkRing.ConsumeKeeps | agent/project/cmus-xp/buffer.c:112-129 | consuming keeps the ring valid and takes exactly the bytes at its front |
| ChunkRing.FillKeeps | agent/project/cmus-xp/buffer.c:132-151 | filling keeps the ring valid and appends exactly the bytes behind the filled ones |
| ChunkRing.FilledChunksIsCount | agent/project/cmus-xp/buffer.c:168-209 | the count worked out from the two indices is the number of chunks marked filled |
| ChunkRing.StepKeepsInv | agent/project/cmus-xp/buffer.c:72-166 | every lock section and every byte moved outside the lock keeps the invariant |
| ChunkRing.EveryRunIsFifo | agent/project/cmus-xp/buffer.c:72-151 | in every interleaving the bytes that the producer put and committed since the last reset are, in order, those consumed and those stored; as many are consumed as the consumer committed; the filled chunks form a circular run |
| ChunkRing.FillHandsOver | agent/project/cmus-xp/buffer.c:132-151 | a count above 0 hands its chunk to the consumer exactly when fewer than 1024 bytes stay free, and a count of 0 exactly when the chunk holds something |
| ChunkRing.TailIsOffered | agent/project/cmus-xp/buffer.c:131-151 | after a count of 0, whatever the consumer does on its own, nothing is left to read exactly when it has consumed all that was produced |
| ChunkRing.TailIsConsumed | agent/project/cmus-xp/buffer.c:131-151 | and a consumer on its own gets there, from any state with a count of 0 due |
| ChunkRing.RegionsApart | agent/project/cmus-xp/buffer.c:72-151 | between asking for a position and committing, no step of the other side touches the region or its chunk |
| ChunkRing.Buffer.constructor | agent/project/cmus-xp/buffer.c:53-58 | all chunks empty, both indices zero |
| ChunkRing.Buffer.GetRpos | agent/project/cmus-xp/buffer.c:72-86 | size and place of what can be read |
| ChunkRing.Buffer.GetWpos | agent/project/cmus-xp/buffer.c:96-110 | size and place of what can be written |
| ChunkRing.Buffer.Consume | agent/project/cmus-xp/buffer.c:112-129 | the in-place update is the consuming step of the ring |
| ChunkRing.Buffer.Fill | agent/project/cmus-xp/buffer.c:132-151 | the in-place update is the filling step of the ring, and says whether the chunk became full |
| ChunkRing.Buffer.ResetAll | agent/project/cmus-xp/buffer.c:153-166 | every chunk is empty again |
| ChunkRing.Buffer.GetFilledChunks | agent/project/cmus-xp/buffer.c:168-209 | returns the true number of filled chunks |
| CacheFile.DecodeEncodeInt | agent/project/cmus-xp/cache.c:328-386 | little-endian numbers in two's complement read back as themselves |
| CacheFile.SplitTerminated | agent/project/cmus-xp/cache.c:126-178 | strings written with terminators split back into themselves |
| CacheFile.EntryDecodes | agent/project/cmus-xp/cache.c:126-178 | an entry decodes to the track it was made from, empty codec strings having become missing ones |
| CacheFile.WrittenIsRead | agent/project/cmus-xp/cache.c:220-266 | a written cache is read back as the same tracks in the same order |
| CacheFile.CutReads | agent/project/cmus-xp/cache.c:220-266 | cut at any byte behind the header, the file gives exactly the entries wholly before the cut, and counts as whole only at an entry end |
| CacheFile.CutHeaderReadsNothing | agent/project/cmus-xp/cache.c:220-266 | cut inside the header, it gives nothing |
| CacheFile.ValidEntryIsItsStrings | agent/project/cmus-xp/cache.c:101-124 | decoding any entry that passes validation uses exactly its string area, whatever wrote it |
| CacheFile.Writer.FlushBuffer | agent/project/cmus-xp/cache.c:319-326 | the buffer goes to the file |
| CacheFile.Writer.WriteTi | agent/project/cmus-xp/cache.c:328-386 | padding and the entry of any track are appended, through the buffer, with the size of the entry in 32 bits |
| CacheFile.WriteCache | agent/project/cmus-xp/cache.c:388-409 | the file is the header and the aligned entries of all tracks, whatever the reader will make of them |
| CacheFile.WrittenIsReadIff | agent/project/cmus-xp/cache.c:220-409 | whatever tracks are written, they are read back whole exactly when each has a name and an entry of at most 16 MiB |
| CacheFile.LowestByteFirst | agent/project/cmus-xp/cache.c:328-386 | the byte at place i of a number counts 256 to the i |
| CacheFile.EntryLayout | agent/project/cmus-xp/cache.c:328-386 | where each number stands in an entry, the reserved bytes, and the order of the strings |
| CacheFile.ValidEntryIff | agent/project/cmus-xp/cache.c:101-124 | an entry is valid exactly when an odd number of at least three terminated strings follows its 80 bytes, the first of them not empty |
| CacheFile.OneEntryRead | agent/project/cmus-xp/cache.c:220-266 | an entry is read whatever its reserved bytes and the padding before it hold |
| CacheFile.OtherHeaderReadsNothing | agent/project/cmus-xp/cache.c:235-236 | a file with another header gives nothing |
| CacheFile.ReadsUpToUnstorable | agent/project/cmus-xp/cache.c:220-266 | otherwise the tracks before the first of the others are read, and reading stops there, unless the size of its entry overflows 32 bits |
| CacheFile.ValidCacheEntry | agent/project/cmus-xp/cache.c:101-124 | accepts exactly the entries with a plausible size and the right number of terminated strings |
| CacheFile.CacheEntryToTi | agent/project/cmus-xp/cache.c:126-178 | decodes the fields and strings and ends exactly at the end of the entry |
| CacheFile.ReadCache | agent/project/cmus-xp/cache.c:220-266 | reads entry by entry until one is missing, cut short or malformed |
| FormatPrint.FormatSkipCondExpr | agent/project/cmus-xp/format_print.c:329-379 | stops behind the next `}` or `?` of the condition itself, past nested braces and escapes |
| FormatPrint.FormatReadCond | agent/project/cmus-xp/format_print.c:381-398 | the places of the parts of a condition, or failure |
| FormatPrint.FormatValidSub | agent/project/cmus-xp/format_print.c:624-685 | decides the validity of a part of a format; ends because the rest of the format gets shorter, conditions included |
| FormatPrint.FormatValidIf | agent/project/cmus-xp/format_print.c:602-622 | decides the validity of a condition with both its texts |
| FormatPrint.FormatValid | agent/project/cmus-xp/format_print.c:687-690 | decides the validity of a format |
| FormatPrint.Printer.FormatParse | agent/project/cmus-xp/format_print.c:423-522 | appends to the left, middle and right text what the interpretation says, or stops where an internal check fails |
| FormatPrint.Printer.FormatParseIf | agent/project/cmus-xp/format_print.c:402-421 | the same for a condition |
| FormatPrint.HeadsAgree | agent/project/cmus-xp/format_print.c:457-483 | validator and interpreter find the letter or brace of a directive at the same place |
| FormatPrint.ValidNeverAborts | agent/project/cmus-xp/format_print.c:402-522 | a format found valid is interpreted to the end without reaching an internal check, for every truth of every condition at any depth |
| FormatMeaning.FormatMeans | agent/project/cmus-xp/format_print.c:402-685 | the text of any tree of format items is accepted exactly when its options and conditions are known and no long name stands behind a percent width inside a condition; then the left, middle and right text hold, in order, what stands on the path that the conditions leave before any `%!` or `%=`, behind a `%!`, and behind a `%=`; a width in percent is the nearest integer, halves upwards |
| FormatMeaning.KnownOptionIff | agent/project/cmus-xp/format_print.c:672-682 | a value is known exactly when the first option of its letter or long name exists and may be padded as asked |
| FormatMeaning.CondIff | agent/project/cmus-xp/format_print.c:602-622 | a condition is known exactly when it is the text of a long filter without control characters |
| FormatMeaning.PlainCondIff | agent/project/cmus-xp/format_print.c:329-379 | without a percent sign a condition ends at its first question mark or brace |
| FormatMeaning.ReadIf | agent/project/cmus-xp/format_print.c:329-398 | the parts of a printed condition are found where they were put, with anything nested inside |
| FormatMeaning.PercentNameIsRefused | agent/project/cmus-xp/format_print.c:340-379 | any format with a long name behind a percent width anywhere inside a condition is refused |
| NextTrack.Handoff.ThreadStatement | agent/project/cmus-xp/cmus.c:507-526 | each statement of the request changes the shared variables as its step says |
| NextTrack.Handoff.MainStatement | agent/project/cmus-xp/cmus.c:536-546 | each statement of the answer changes the shared variables as its step says |
| NextTrack.Handoff.Perform | agent/project/cmus-xp/cmus.c:507-546 | run from a new object in any order the mutexes allow, the statements lead to the state the steps lead to, with every stored track returned once or on its way |
| NextTrack.StepKeepsInv | agent/project/cmus-xp/cmus.c:507-546 | every statement of any of any number of threads keeps the invariant |
| NextTrack.NothingOverwritten | agent/project/cmus-xp/cmus.c:541 | a track is stored only when every earlier one has been returned |
| NextTrack.EachTrackGoesToOneCall | agent/project/cmus-xp/cmus.c:507-546 | in every run the tracks that the main thread stored are those returned, in order, and at most one on its way; each call returned one to its own thread; bytes, provide in progress and flag add up to 1 while a call waits and to 0 otherwise |
| NextTrack.NeverStuck | agent/project/cmus-xp/cmus.c:516-518 | while a call is in progress some thread can go on without an unprompted wake-up: none is lost |
| NextTrack.CallReturns | agent/project/cmus-xp/cmus.c:507-546 | within 72 statements without unprompted wake-ups a call returns |
| StrokeText.SavePath | experiment/2025_07_14-svg_file_scribe.1.java:240-282 | writes the path text of a stroke |
| StrokeText.LoadPath | experiment/2025_07_14-svg_file_scribe.1.java:142-192 | reads a path text into points, or throws |
| StrokeText.ReadPathText | experiment/2025_07_14-svg_file_scribe.1.java:142-192 | the reader finds exactly the integers written, separators left out before minus signs included |
| StrokeText.LoadedStaysNear | experiment/2025_07_14-svg_file_scribe.1.java:240-282 | for a stroke of any length in which no written number stops at a limit of 32 bits, loading what was saved moves no point by more than one grid unit per axis |
| StrokeText.LoadedMovesByErrors | experiment/2025_07_14-svg_file_scribe.1.java:142-282 | for any stroke at all, loading what was saved moves every point by exactly the first rounding error and the one carried to it |
| StrokeText.LoadedShifts | experiment/2025_07_14-svg_file_scribe.1.java:142-192 | the translation of the enclosing group shifts the whole stroke |
| StrokeText.ParseIntIff | experiment/2025_07_14-svg_file_scribe.1.java:142-192 | a number is digits with an optional sign of either kind, within 32 bits |
| StrokeText.OddNumbersThrow | experiment/2025_07_14-svg_file_scribe.1.java:142-192 | a number without a partner makes the reader throw |
| StrokeText.SamplePathText | experiment/2025_07_14-svg_file_scribe.1.java:240-282 | one path in full, with no space before a minus |
| StrokeText.ErrorsHalvedIff | experiment/2025_07_14-svg_file_scribe.1.java:245-267 | all rounding errors stay within half a grid unit exactly when no written number stops at a limit |
| StrokeText.InRangeFits | experiment/2025_07_14-svg_file_scribe.1.java:245-267 | none does when the first point and all steps are less than 2 to the 31st |
| StrokeText.StepKeepsOffset | experiment/2025_07_14-svg_file_scribe.1.java:258-267 | the reader's displacement and the carried error keep the same sum |
| StrokeText.LoadedSavesAlike | experiment/2025_07_14-svg_file_scribe.1.java:142-282 | saving a loaded stroke gives the same path text |
| StrokeText.FarPointMoves | experiment/2025_07_14-svg_file_scribe.1.java:245-248 | beyond 32 bits the bound fails |
| RandArray.RandArray | agent/project/cmus-xp/command_mode.c:1944-1999 | for any draws that last, the numbers chosen; the array has one slot more |
| RandArray.FillRound | agent/project/cmus-xp/command_mode.c:1991-1993 | the inner loop writes no slot behind the one it compares with and adds the numbers up to the next one it skips |
| RandArray.FillInPlace | agent/project/cmus-xp/command_mode.c:1981-1997 | the loop in place leaves the complement of the numbers it skips |
| RandArray.Draw | agent/project/cmus-xp/command_mode.c:1969-1978 | stores the first different remainders of the draws |
| RandArray.AcceptedIff | agent/project/cmus-xp/command_mode.c:1969-1978 | the draws last exactly when they have so many different remainders, and the numbers are all the remainders of the first so many draws |
| RandArray.PlainIsDrawn | agent/project/cmus-xp/command_mode.c:1944-1979 | up to half of the range the numbers returned are those drawn |
| RandArray.ChosenIsIncreasing | agent/project/cmus-xp/command_mode.c:1944-1999 | exactly the size asked for, strictly increasing, within range |
| RandArray.ComplementIff | agent/project/cmus-xp/command_mode.c:1981-1997 | the inverted branch returns the complement of the excluded numbers exactly when the k-th of them is at most offset + 2k + 1 |
| RandArray.LateOnesAreMissed | agent/project/cmus-xp/command_mode.c:1981-1997 | of ten, excluding 6 to 9 gives 0, 1, 2, 4, 6, 8 |
| FileLines.BufferForEachLine | agent/project/cmus-xp/file.c:183-213 | the callback sees the lines in order until it stops |
| FileLines.BufferForEachLineReverse | agent/project/cmus-xp/file.c:215-245 | the callback sees the lines read backward until it stops |
| FileLines.ReverseIff | agent/project/cmus-xp/file.c:183-245 | backward gives the forward lines in reverse order exactly when the buffer is empty or ends with a newline or carriage return, and does not start with CR LF |
| FileLines.LinesMakeUp | agent/project/cmus-xp/file.c:183-213 | the forward lines, none of which holds a newline, make up the buffer with their ends: a newline, a carriage return before it, and at the end of the buffer a carriage return or nothing |
| FileLines.SeenIs | agent/project/cmus-xp/file.c:183-213 | the callback sees the lines up to the first one after which it says to stop |
| Editable.TrackList.MoveSel | agent/project/cmus-xp/editable.c:213-253 | takes the marked tracks or the selected one out and puts them back as one block behind the place, selecting the first |
| Editable.TrackList.FindInsertAfterPoint | agent/project/cmus-xp/editable.c:255-275 | the place behind which the tracks go when moved after the selection |
| Editable.TrackList.FindInsertBeforePoint | agent/project/cmus-xp/editable.c:277-298 | the place behind which they go when moved before it |
| Editable.TrackList.EditableMoveAfter | agent/project/cmus-xp/editable.c:300-310 | moves, unless there are fewer than two tracks, a sort key or no selection; the counters stay right |
| Editable.TrackList.EditableMoveBefore | agent/project/cmus-xp/editable.c:312-322 | moves likewise in the other direction |
| Editable.MovedIsStable | agent/project/cmus-xp/editable.c:213-244 | moving a block keeps the tracks, the order of the moved ones and the order of the others |
| Editable.BothMovesAreStable | agent/project/cmus-xp/editable.c:300-322 | the block directly follows the track of the place, which itself stays, and starts at the new selection |
| Editable.ThereAndBack | agent/project/cmus-xp/editable.c:300-322 | with nothing marked, down and up and up and down restore list and selection, at both ends too |
| Editable.OneDown | agent/project/cmus-xp/editable.c:255-310 | with nothing marked the selected track changes places with the next one; the last goes to the front |
| Editable.OneUp | agent/project/cmus-xp/editable.c:277-322 | with nothing marked the selected track changes places with the one before; the first goes to the end |
| Editable.MarkedMoves | agent/project/cmus-xp/editable.c:255-322 | with marks, all marked tracks go, in order, behind the unmarked ones up to the selected row, or up to the row before it |
| Editable.NothingMoves | agent/project/cmus-xp/editable.c:300-322 | a single track, a sorted list and a list without selection stay as they are |
| Editable.TrackList.ToggleMark | agent/project/cmus-xp/editable.c:172-186 | flips the mark of the selected track, counts it and goes one row down |
| Editable.TrackList.Remark | agent/project/cmus-xp/editable.c:344-393 | marking by a filter, unmarking and inverting keep the number of marked tracks |
| MaxProduct.MaxProduct | experiment/2025_08_08-max_product_subarray.py:2-16 | the largest product over all contiguous parts, with a part that has it; nothing for the empty list |
| MaxProduct.NextBounds | experiment/2025_08_08-max_product_subarray.py:7-12 | least and greatest product of the parts ending at an index follow from those of the index before |

## Left out

- ShortRead.ShortFilterMeans: that the tree holds as the grammar says is for numbers below 2 to the 31st; beyond it the conversion saturates or narrows, which `FilterExpr.IntWordValue` models but the short grammar does not.
- OofScreen.EveryDrawShowsTheCells: letters are graphic characters of one column and the console has the pending-wrap behaviour of a VT100; control characters and wide letters in cells are not covered.
- StrokeText.LoadedStaysNear: requires that no written number stops at a limit of 32 bits; `ErrorsHalvedIff` says what that is equivalent to, and `FarPointMoves` that the bound fails beyond.
- NextTrack.CallReturns: assumes that a write to the pipe succeeds and that sleepers are not woken without a broadcast.
- RandArray.RandArray: says nothing when the draws run out; the original goes on drawing.
- CacheFile.ReadCache: malloc failures, and files written with another word size or byte order, which the header refuses.
- CacheFile.Writer.WriteTi: strings of 2 GiB and more, whose lengths the source keeps in signed 32-bit integers, have their true lengths.
- FormatPrint.FormatSkipCondExpr: stops at the terminator of the format, where the source goes on reading behind it after an unfinished percent sign.
- FormatPrint.Printer.FormatParse: fields are recorded with their option, width, alignment, padding and exactness; rendering them is left out.
- OofSequences.WriteSequenceIntoString: indexed colours, cursor visibility, relative moves, storing and loading the cursor and clearing the screen are left out; a screen produces none of them.
- OofScreen.Screen.constructor: requires a positive width and height, which the source only reports.
- FormatPrint.ValidNeverAborts: reading behind the terminator, as after a percent sign at the very end of an unfinished condition, is taken to find further terminators.
- One unit per character throughout: UTF-8 decoding, invalid bytes and character widths. Equality up to case and accents is an arbitrary folding function of characters.
- C integers are unbounded where overflow is not the point: differences of integers in comparisons, widths of format directives, file offsets.
- Linked lists are sequences, and `add` returns the grown tree instead of changing pointers; sharing between nodes is not captured.
- The pixel screen of the terminal library and the window title.
- The hash buckets of the cache and the look-up by name; refreshing through input plugins; the reduction of paths by environment variables, which is the identity here.
- Padding, clipping and joining of the three texts of a format.
- The evaluation of format conditions against options: their truth is an arbitrary function.
- Removing tracks from an editable list, whose new selection the window decides, and the sum of durations, which replacing a track does not adjust.
- Filter names in the configuration, editing a filter from the window, and setting filters by a list of names.
- Floating point: coordinates of strokes are real numbers, and `Math.round` is the floor of x + 1/2 within 32 bits. Copies of points passed to other objects are values. A path without a `d` attribute.
- `expr_is_harmless`, prefix look-up of commands, network, device and window code: easy or not self-contained.
