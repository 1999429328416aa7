# CommandScript compiler back end, modelled in Dafny

zdpack compiles CommandScript into MCFunction code for Minecraft datapacks. CommandScript is
a superset of MCFunction. This project models the back end of that compiler in
`src/index.js` and proves properties of the model. The back end covers:

- how command arguments (selectors, ranges, joint items, objects, arrays, numbers and strings)
  are rendered as text;
- how namespaced ids are resolved to file paths;
- the registry of commands and their callbacks;
- the compilation of a parsed command, including the flattening of `execute … run` into
  generated functions `rng:execN`;
- the loop that compiles a program and finishes its lines;
- the clean-up applied to source text before parsing;
- the writers for tag and function files, and `finalize`, which writes the load function.

The files:

| file | module | contents |
|---|---|---|
| outcomes.dfy | `Outcomes` | `Option`, thrown errors (`TypeError` or plain `Error`), `Result` |
| strings.dfy | `Strings` | `join`, `split`, `trim`, and the decimal text of integers, each with its inverse |
| values.dfy | `Values` | argument values, `stringify`, `String(v)` and the three `toString` methods |
| ids.dfy | `Ids` | the id regex as an automaton, proved equal to a `split` form, and `resolveID` |
| normalize.dfy | `Normalize` | the two regex replacements `parseCmds` applies before parsing |
| pack.dfy | `Pack` | tag merging, the write modes of `addCmds`, and the class `Disk` with `AddTag` and `AddRawCmds` |
| compiler.dfy | `Compiler` | `compileCmd` and `compileCmds` as functions of the registry, the counter and the files |
| session.dfy | `Session` | the compiler's `state` as the class `State`, with methods proved equal to those functions |

Pure code in the source is modelled as functions:

- the `toString` methods, `stringify` and `resolveID`;
- the clean-up in `parseCmds`.

Code that changes state is modelled as methods:

- `state` becomes the class `Session.State`.
- `registerCmd` and `unregisterCmd` update its fields.
- `compileCmd` increments `n` and writes a generated function.
- `compileCmds` is a `while` loop. Its invariant ties the lines and the state so far to `Compiler.CompileSeq`.
- `addTag`, `addRawCmds` and `finalize` read, modify and write a `Pack.Disk`. The disk holds a map of function files and a map of tag files.

## Model

| member | source | states |
|---|---|---|
| Strings.Split | src/index.js:214 | `split` on one character never yields an empty list, and no piece holds the separator |
| Strings.SplitJoin | src/index.js:250 | lines that hold no separator, joined and split again, come back unchanged |
| Strings.JoinSplit | src/index.js:250 | splitting text and joining it again gives the text back |
| Strings.SplitConcat | src/index.js:285 | text around a separator splits into the pieces before it followed by the pieces after it |
| Strings.Trim | src/index.js:214 | `trim` yields an infix that neither starts nor ends with white space, and only white space is removed at either end |
| Strings.TrimUnchanged | src/index.js:250 | text that neither starts nor ends with white space is left alone by `trim` |
| Strings.NatText | src/index.js:198 | the decimal text of a natural number is digits with no leading zero |
| Strings.IntTextRoundTrip | src/index.js:308 | the decimal text of an integer reads back as that integer |
| Values.StripLineBreaks | src/index.js:93 | removing `[\r\n]+` leaves no CR or LF and keeps every other character |
| Values.StripLineBreaksConcat | src/index.js:93 | removing line breaks from two texts put together is removing them from each and putting the results together |
| Values.StripLineBreaksChar | src/index.js:93 | a single CR or LF is removed, and any other single character is kept |
| Values.StripLineBreaksUnchanged | src/index.js:93 | text with no line break is unchanged |
| Values.JsonQuoteRoundTrip | src/index.js:86 | the JSON string literal of a text decodes back to that text |
| Values.EntryText | src/index.js:91 | an entry is written `key:` when the key has no space, and `"key":` when it has one (in `stringify`'s object branch); its length is the key's (plus two quotes when quoted), one for the `:`, and the value's `stringify` text |
| Values.Stringify | src/index.js:84-95 | a boxed string is a JSON literal of its text when quoting and its bare text otherwise; an array is bracketed; a plain object, a Range or a JointItem is braced; anything else has no line break |
| Values.StringifyPlainIsDisplay | src/index.js:92-93 | a string, a number and a selector are written as `String(v)` with its line breaks removed; a number is its decimal text |
| Values.ArrayReadsBack | src/index.js:88-89 | inside the brackets of a stringified array, splitting on `,` gives back every element's quoted `stringify` text in order (when none holds a comma) |
| Values.ObjectReadsBack | src/index.js:90-91 | inside the braces of a stringified object, splitting on `,` gives back every entry's `key:value` text in order (when none holds a comma) |
| Values.StringifyRangeIsNotToString | src/index.js:90 | `stringify` renders a Range through the object branch, never as `Range.toString` |
| Values.StringifyRangeReadsBack | src/index.js:90-91 | inside the braces of a stringified Range, splitting on `,` gives `min:` with the lower bound and `max:` with the upper bound, in that order; a missing bound is `-Infinity` or `Infinity` |
| Values.StringifyUnboundedRange | src/index.js:90-91 | a Range with neither bound is written exactly `{min:-Infinity,max:Infinity}` |
| Values.QuoteFlagTopLevelOnly | src/index.js:89-91 | the quote flag matters only for a boxed string at the top, because nested values are always quoted |
| Values.SelectorText | src/index.js:35-44 | a multi-character target with null args is returned as given; otherwise the text is `@target`, and it is longer than that exactly when the args have an entry, in which case it ends with `[…]` |
| Values.SelectorReadsBack | src/index.js:38-40 | a selector with arguments starts `@target[`, and splitting what lies between that and the closing `]` on `,` gives back every `key:value` argument text in order |
| Values.RangeText | src/index.js:54-56 | the text of a range reads back as its two bounds; a range with neither bound is `..` |
| Values.StringifyJointListsFields | src/index.js:90-91 | `stringify` of a JointItem goes through the object branch: its entries are the JointItem's own fields `item`, `state` and `nbt` in that order, so it starts `{item:` followed by the item with its line breaks removed and `,state:` |
| Values.StringifyBareJoint | src/index.js:90-91 | a JointItem with no state and no nbt is written exactly `{item:<item>,state:undefined,nbt:undefined}` |
| Values.JointText | src/index.js:67-74 | the item comes first and the nbt's `stringify` text last; a state puts `[` after the item and `]` before the nbt; with neither part only the item remains |
| Values.JointReadsBack | src/index.js:67-74 | a joint item with a state is the item, `[`, the state entries' `key:value` texts joined by `,` and read back by splitting, `]`, and the nbt's text |
| Values.DisplayArrayReadsBack | src/index.js:194 | `String(array)` splits on `,` back into the elements' own `String` texts (when none holds a comma) |
| Ids.MatchesIdPatternIsValidId | src/index.js:108 | the automaton for the id regex accepts exactly the ids that split into an optional name, `:`, slash-separated names and an optional `.name` |
| Ids.ResolveId | src/index.js:107-113 | it fails with `invalid namespaced id "<id>"` exactly for ids outside the pattern; an id without a namespace resolves to `root/minecraft/type/id`, with `ext` appended only when the id has no extension |
| Ids.ResolveNamespaced | src/index.js:110-112 | `ns:loc` resolves to `root/ns/type/loc`, with `ext` appended only when `loc` has no extension |
| Ids.ResolveExample | src/index.js:108-112 | `foo` becomes `data/minecraft/tags/items/foo.json`, and `Foo` is rejected |
| Normalize.UnifyLineEnds | src/index.js:261 | after CRLF and CR are replaced by LF no CR remains, the text does not grow, and a leading CR becomes LF while any other first character is kept |
| Normalize.UnifyLineEndsUnchanged | src/index.js:261 | text without CR is unchanged |
| Normalize.UnifyLineEndsCrLf | src/index.js:261 | lines joined with CRLF come out joined with LF |
| Normalize.UnifyCrLfStep | src/index.js:261 | a CRLF after text without CR becomes one LF, and the rest is unified on its own |
| Normalize.UnifyLoneCr | src/index.js:261 | a lone CR (not followed by LF) after text without CR becomes one LF, and the rest is unified on its own |
| Normalize.UnifyLineEndsPrefix | src/index.js:261 | text without CR in front passes through unchanged, whatever follows it |
| Normalize.ContinuationAt | src/index.js:261 | a match of the continuation pattern starts with a blank, is at least five characters long, and its line feed comes right after its leading blanks |
| Normalize.ContinuationMatches | src/index.js:261 | every text of the form blanks, LF, white space, `.`, blanks is matched at its full length when what follows does not start with a blank |
| Normalize.ContinuationShape | src/index.js:261 | conversely, every match is of that form and the character after it is not a blank |
| Normalize.JoinContinuations | src/index.js:261 | replacing continuations never lengthens the text and adds no character other than a space |
| Normalize.JoinContinuationsSingleLine | src/index.js:261 | text with no line break holds no continuation |
| Normalize.JoinContinuationsPrefix | src/index.js:261 | a line that does not end in a blank is copied unchanged, whatever follows it |
| Normalize.JoinsContinuedLine | src/index.js:261 | a line `p` not ending in a blank, a continuation (any blank run, LF, any white space, `.`, any blank run) and then `q` become `p`, one space and `q` with its own continuations joined |
| Normalize.KeepsTrailingBlanks | src/index.js:261 | a line ending in blanks whose next line does not begin with white space, `.` and a blank keeps its blanks and its line feed, and the scan goes on in the next line |
| Normalize.PlainLinesUnchanged | src/index.js:261 | lines that do not end in a blank are left alone |
| Normalize.Prepare | src/index.js:261 | the text handed to the parser holds no CR and ends with a line feed |
| Normalize.PrepareKeepsPlainLines | src/index.js:261 | CRLF lines that do not end in a blank reach the parser as the same lines with LF endings and a final LF |
| Normalize.PrepareJoinsContinuedLine | src/index.js:261 | a command continued on the next line by any continuation, whose line break is LF, CRLF or a lone CR, reaches the parser joined to it by one space, and the rest, whatever its line ends, is prepared as it would be on its own |
| Normalize.UnifyContinuationBreak | src/index.js:261 | the line break of a continuation, LF, CRLF or a lone CR, becomes one LF, the CR-free text on either side of it is kept, and the rest is unified on its own |
| Pack.Dedup | src/index.js:148 | `[...new Set(xs)]` has no duplicates and the same values as `xs` |
| Pack.DedupUnique | src/index.js:148 | a list without duplicates is kept as it is |
| Pack.DedupAbsorbs | src/index.js:148 | adding values that are already present changes nothing |
| Pack.DedupKeepsPrefix | src/index.js:148 | the de-duplicated old values come first, in their order |
| Pack.MergeTagReplaceIgnoresOld | src/index.js:142-144 | with `replace`, the tag is `{replace:true, values}` whatever was there |
| Pack.MergeTagFresh | src/index.js:149-151 | a new tag holds `{values}` exactly as given |
| Pack.MergeTagUnion | src/index.js:146-148 | merging yields each old or new value once, with the old values first, and drops `replace` |
| Pack.MergeTagIdempotent | src/index.js:146-148 | merging the same values into an existing tag a second time changes nothing |
| Pack.WriteCodeOverwrites | src/index.js:282-283 | with `append` set, the file's old content is lost: it holds the code's lines and an empty last line |
| Pack.WriteCodeAppends | src/index.js:284-285 | with `append` unset, the file keeps its lines and gains the code's lines and an empty last line |
| Pack.WriteFunctionFrame | src/index.js:276-286 | writing fails exactly for an invalid id and then changes nothing; otherwise only the id's file changes, as the append mode says |
| Pack.Disk.AddTag | src/index.js:140-154 | the tag at the id's path becomes the merged tag; function files are untouched |
| Pack.Disk.AddRawCmds | src/index.js:293-295 | the file at the id's path is written in the given mode (a missing file counts as empty); tags are untouched |
| Compiler.Register | src/index.js:164-171 | the name becomes registered, with the given callback exactly when one is given; every other name keeps its registration and its callback; callbacks stay within the registered names |
| Compiler.Unregister | src/index.js:178-181 | the name loses registration and callback; every other name keeps its registration and its callback |
| Compiler.UnregisterUndoesRegister | src/index.js:164-181 | unregistering a name that was new undoes registering it |
| Compiler.TrimLines | src/index.js:214 | no line is lost; each result is a slice of its line that starts after the leading white space, is followed only by white space, and neither starts nor ends with white space |
| Compiler.ArgText | src/index.js:194 | an argument is written as `String(v)`, except a string, which is its raw text between two `"` with nothing escaped |
| Compiler.ArgsReadBack | src/index.js:194 | the argument list splits on spaces back into the arguments' texts (when none holds a space) |
| Compiler.QuotedArgumentIsNotEscaped | src/index.js:194 | a string argument is `"text"`, which differs from its JSON `stringify` text as soon as the text holds a `"` |
| Compiler.PassThroughRendersArgument | src/index.js:218 | a command without a callback writes a word argument as it is, a string argument between `"` unescaped, and an object argument as `[object Object]` |
| Compiler.CompileNode | src/index.js:189-222 | with callbacks modelled as pure: the counter never goes down and no file disappears; only an `execute` changes state; an `execute` that succeeds yields exactly one line, starting with `execute <args>` |
| Compiler.RejectsNonCommand | src/index.js:190 | a node whose type is not `cmd` is a TypeError and changes nothing |
| Compiler.ExecuteBypassesRegistry | src/index.js:192 | `execute` is handled before the registry: for any registry, registering it, with or without a callback, changes nothing |
| Compiler.ExecuteWithoutLines | src/index.js:204-206 | a run with no lines gives `execute <args>` |
| Compiler.ExecuteInlinesOneLine | src/index.js:201-203 | a run with one line gives `execute <args> run <line>`, and nothing is written |
| Compiler.ExecuteHoistsSeveralLines | src/index.js:196-200 | a run with several lines gives `execute <args> run function rng:execN`, with N the old counter; the counter rises by one; the joined lines are appended after an LF to `data/rng/functions/execN.mcfunction` |
| Compiler.ExecPath | src/index.js:198-199 | the N-th generated function lives at `data/rng/functions/execN.mcfunction` |
| Compiler.ExecPathsDistinct | src/index.js:198 | different counter values give different files |
| Compiler.BadNamespaceExecName | src/index.js:198-199 | with a namespace that is not a name, no generated id is valid |
| Compiler.ExecuteHoistFailsOnBadNamespace | src/index.js:196-199 | with such a namespace, hoisting throws `invalid namespaced id` after the counter rose, and nothing is written |
| Compiler.RegisteredCallbackRuns | src/index.js:209-215 | a callback's array is used as it is; any other value is split on LF and trimmed; a callback's error is the command's error |
| Compiler.RegisteredWithoutCallbackPassesThrough | src/index.js:218 | a registered command without a callback is written `name args…`, and `name ` with a trailing space when it has no arguments |
| Compiler.UnregisteredIsError | src/index.js:221 | an unregistered name other than `execute` throws `command "<name>" is not registered` |
| Compiler.UnregisteredCommandFails | src/index.js:178-181 | after `unregisterCmd(name)` the command throws that error again |
| Compiler.Annotate | src/index.js:243-244 | with a location the error is a plain `Error` whose message is `line N; ` followed by the original message, and reading it back gives the node's line and that message; without one it is the original error |
| Compiler.AnnotationReadsBack | src/index.js:243 | `line N; msg` reads back as the line `N` and the message `msg`, for every integer `N` |
| Compiler.RunSeqAppend | src/index.js:238-246 | compiling `a + b` compiles `a`, then, unless that failed, `b` from the state `a` left, and concatenates the lines |
| Compiler.CompileSeqAppend | src/index.js:238-246 | the same, for `compileCmd` as the step |
| Compiler.StopsAtFirstError | src/index.js:239-244 | once a node fails, no later node is compiled |
| Compiler.CompileSeqSnoc | src/index.js:240-244 | the next node's lines are appended, or its error, annotated, ends the loop |
| Compiler.CommandsKeepState | src/index.js:208-221 | with callbacks modelled as pure, a program without `execute` leaves the counter and the files alone |
| Compiler.CollapseFirstBlankRun | src/index.js:250 | collapsing never lengthens the text |
| Compiler.CollapsesFirstRun | src/index.js:250 | the first run of two or more LFs, after text with no such run, becomes a single LF, and everything before and after it is kept |
| Compiler.CollapseKeepsFullLines | src/index.js:250 | non-empty lines, joined, hold no blank run to collapse |
| Compiler.Finish | src/index.js:250 | the finished lines hold no LF and join back into the trimmed, collapsed text |
| Compiler.FinishKeepsCleanCode | src/index.js:250 | non-empty lines with no white space at either end of the text come out unchanged |
| Compiler.OnlyFirstBlankRunCollapses | src/index.js:250 | `a,,,b,,c` becomes `a,b,,c`: the second blank run stays |
| Compiler.CompileAll | src/index.js:231-251 | an empty program yields one empty line; a parse error is thrown before anything changes |
| Session.VarSetupLines | src/index.js:307 | a variable's setup is its `remove` line and its `add … dummy` line |
| Session.BootstrapLines | src/index.js:306-308 | the load function's code splits into the lines for every variable, then a `set` line for every constant |
| Session.TagPathNamespaced | src/index.js:141 | a tag `ns:name` lives at `data/ns/tags/kind/name.json` |
| Session.BuiltinSayPassesThrough | src/index.js:24 | `say <word>` passes through the built-in registry unchanged, for every word |
| Session.SayQuotedKeepsRawText | src/index.js:218 | `say "a\"b"` is written `say "a"b"`: the escape is lost |
| Session.ExecuteSayInlined | src/index.js:192-203 | `execute as @a run say <word>` compiles to that one line, for every word |
| Session.FunctionPathNamespaced | src/index.js:110-112 | a function `ns:name` lives at `data/ns/functions/name.mcfunction` |
| Session.LoadFunctionLines | src/index.js:306-309 | with a valid namespace, writing the load function succeeds at `data/rng/functions/load.mcfunction`, and the file keeps its old lines and gains a `remove` and an `add` line per variable, a `set` line per constant, and an empty last line |
| Session.State.constructor | src/index.js:13-26 | the state starts with consts `{-1}`, vars `{__temp__}`, `n = 0`, the built-in commands and no callbacks |
| Session.State.TrackVar | src/index.js:17 | `vars.add(v)` appends only a new name and keeps the invariant |
| Session.State.TrackConst | src/index.js:15 | `consts.add(c)` appends only a new number and keeps the invariant |
| Session.State.RegisterCmd | src/index.js:164-171 | the registry becomes `Register(old registry, name, callback)`; nothing else changes |
| Session.State.UnregisterCmd | src/index.js:178-181 | the registry becomes `Unregister(old registry, name)`; nothing else changes |
| Session.State.CompileCmd | src/index.js:189-222 | the result, the new counter and the new files are those `CompileNode` gives |
| Session.State.CompileCmds | src/index.js:231-251 | the result, the new counter and the new files are those `CompileAll` gives |
| Session.State.CompileNodes | src/index.js:237-246 | the loop gives the lines, the counter and the files `CompileSeq` gives: nodes compiled in order, stopping at the first annotated error |
| Session.State.Finalize | src/index.js:302-310 | `rng:load` is merged into the `minecraft:load` function tag, and the load function's code is appended to its file; with a valid namespace the file gains exactly the intended lines |

## Left out

- The parser: the grammar file `cmds.pegjs` is not part of this model. `parser.parse` is a parameter (`Compiler.Parser`) from the cleaned-up text to nodes or an error.
- The random namespace `"f" + nid(10)`: `rng` is a constructor parameter of `State`. The `nid` package is not part of this model, so whether its output is always a valid namespace is not settled. `Compiler.ExecuteHoistFailsOnBadNamespace` states what happens when it is not.
- The non-raw branch of `addCmds` is left out. It calls `.join` on the Promise that the async `compileCmds` returns, so it cannot work. Only `addRawCmds` is modelled, as `Pack.Disk.AddRawCmds`.
- `add` (src/index.js:124-128) is left out: it writes an arbitrary JSON object.
- JSON text of tag files: tags are kept as records (`Pack.Tag`), not as the text that `writeJSON` produces. Tag values are strings only; JSON objects in tag values are left out.
- Tag files and function files are two separate maps. Their paths never collide: below the namespace, a tag path continues with `tags` and a function path with `functions`.
- `path.join` is modelled as joining with `/`, and `path.extname(id)` as "the id holds a `.`". This matches Node on POSIX for ids that match the pattern and `root` and `type` arguments made of plain names: such ids have no empty, `.` or `..` segment and no dot outside the extension. `path.join` also normalises `root` and `type` (a `..` or an empty segment in them), which the model does not; on Windows it joins with `\`.
- I/O, `fs.ensureFile` and async/await: each write is an update of an in-memory map, and the calls run one after another as they are awaited.
- Callbacks are pure functions from the arguments to a `Compiler.Reply`. The model leaves out:
  - their side effects;
  - arrays holding non-strings;
  - names that find a member inherited from `Object.prototype` through `state.callbacks[name]`.
- Values.SelectorText: the test `this.target.length > 1` counts UTF-16 code units in JavaScript; the model counts characters, so a one-character target outside the Basic Multilingual Plane is treated differently.
- Normalize.UnifyLineEnds: its own contract states only that no CR remains and that the text does not grow. What each CRLF and each lone CR becomes is stated by UnifyCrLfStep, UnifyLoneCr, UnifyLineEndsPrefix and UnifyLineEndsUnchanged.
- Normalize.ContinuationAt: its own contract states one direction in outline. The exact set of matches, in both directions, is stated by ContinuationMatches and ContinuationShape.
- Normalize.JoinContinuations: its own contract bounds the length and the characters added. What it does to each line is stated by JoinContinuationsPrefix and PlainLinesUnchanged (a line that does not end in a blank), JoinsContinuedLine (a line followed by a continuation), KeepsTrailingBlanks (a line that ends in blanks but is not continued) and JoinContinuationsSingleLine (the last line).
- Normalize.PrepareJoinsContinuedLine: the continued line `p` and the white space between the line break and the `.` must hold no CR. A CR in `p` ends the line there once it becomes LF, and a CR in the white space is turned into LF (or, before an LF, removed) before the continuation is matched; the lemma does not cover those cases. The rest of the text may hold any line ends.
- Numbers are integers, written in decimal. Fractions, exponent forms, NaN and the `parseFloat` in `Range`'s constructor are left out. Unbounded `Range` ends are `None`.
- `Object.entries` order: object arguments are given as their list of entries, in that order.
- JointItem: an absent state or nbt is `undefined`. A present but falsy nbt (`0`, `""`) is treated like any other nbt, although `if (this.nbt)` skips it. Booleans and `null` are not argument values.
- The AST shape is taken as given: `args` is always an array and `loc` carries `start.line`.
- `Session.State.TrackVar`, `Session.State.TrackConst`: the calls that add variables and constants come from the `expr` module, which is not part of this model. Only the `Set.add` effect on `state` is modelled.
- The `expr`, `packer` and `register` modules (src/index.js:313-315) and the GUI are not part of this model.
