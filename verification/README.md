# A verified model of ngx_lua_select_module

Two parts of the repository are modelled, and properties of each are proved for all inputs.

**The pretty-printer `dev/mm.lua`.** It turns any Lua value, cyclic graphs included, into coloured text laid out within a
page width. It works in three stages: `translate` walks the graph and makes a tree of pieces, `clean` replaces object
identities by names, and `display` lays the tree out.

- `Pieces.dfy`: values, heaps and pieces. A heap gives each table its metatable (the answer of `getmetatable`) and its
  pairs in the order `pairs` visits them.
- `Namer.dfy`, `Translate.dfy`, `Clean.dfy`, `Layout.dfy`: what each stage computes, as functions.
- `Printer.dfy`: the code's own form, one context object updated in place by recursive methods with loops, proved to
  compute those functions. `Pretty.dfy` puts the stages together.
- `TranslateFacts.dfy`, `Quoting.dfy`, `Rebuild.dfy`, `CleanFacts.dfy`, `CleanText.dfy`, `LayoutFacts.dfy`,
  `LayoutBreaks.dfy`, `LayoutWidth.dfy`, `LayoutExact.dfy`, `Pretty.dfy`, `PrettyWidth.dfy`, `ValueText.dfy`,
  `ValueWidth.dfy`: the properties.

The text is kept as the list of strings and colour codes appended to `ctx.result`, so that "no string is split" can be
said; columns and lines are counted character by character. `%q` is modelled as LuaJIT writes it, which the repository
builds with (dev/rebuild.sh:16): control characters become backslashes and numbers.

**The select module, `src/ngx_stream_lua_select_module.c` with `src/ngx_lua_select.c`.** A call validates and collects
sockets, replaces their event handlers, arms a timer and suspends the Lua thread. Events queue one completion, which
builds the answer, puts everything back and resumes the thread.

- `SelectLua.dfy`: Lua values, the registry with its list of freed references, and the stack.
- `SelectTypes.dfy`, `SelectProtocol.dfy`: sockets, handlers, the state of a request, and what each step makes of it.
  A followed null pointer and a failed `assert` are the status `Crashed`.
- `SelectWorker.dfy`: the code's own form, with the socket array, the context pointer and the stack changed in place,
  proved to make those steps, one event at a time and over whole runs. Once a process has crashed nothing more is said
  about its state.
- `SelectCollect.dfy`, `SelectHandlers.dfy`, `SelectSound.dfy`, `SelectRuns.dfy`, `SelectEntries.dfy`: the properties,
  the main ones over whole runs, and in terms of the arguments and entries of a call. `SelectExamples.dfy`: selects on
  one concrete socket that end in a crash.

Where the code falls short of what it is for, the model follows the code, and the condition is proved:

- `false` is printed as nothing at all, because its id tests as false (`Pretty.VanishesIffFalse`).
- Lines can be longer than the page, because strings are not wrapped and indents grow without limit. For a string the
  exact condition is how many characters have to be escaped (`PrettyWidth.StringWithinIff`). For a table it is a
  calculation with the lengths and indents in its tree (`ValueWidth.ShownWithinIff`); from the value alone there is a
  sufficient condition (`ValueWidth.LegibleWithin`), and one that is necessary for each string of the tree, four columns
  wider. A string of 60 letters inside six tables is too long (`ValueWidth.SixTablesOverflow`).
- Different numbers with one text are printed alike (`Rebuild.NumbersMerge`); `Rebuild.SameTreeIff` says exactly what
  the tree tells apart.
- Handlers come back after a select exactly for sockets selected for reading only, sharing no handler, each with one to
  save (`SelectRuns.EndRestoresIff`); a write handler left behind crashes the process (`SelectRuns.WriteHandlerLeftBehind`).
- A completion that is still queued when its thread is killed crashes the process (`SelectRuns.KillCrashesIff`).
  `SelectExamples.dfy` shows this and the write handlers on one socket.
- A failing call leaks the references of the sockets before the bad one (`SelectCollect.FailureConservesIff`).

A smaller point: answering at once, when unread bytes are found, follows a context pointer not set yet; which calls that
are is spelt out entry by entry in `SelectRuns.CallCrashesIff`.

The repository's own README gives write and read-write selects as supported; the lines above say what the code does with
them.

## Model

| member | source | states |
|---|---|---|
| `Namers.Namer.Next` | dev/mm.lua:118-146 | the k-th call gives the closed form: name k mod 15, suffix k div 15 + 1, colour k mod 6, counting from 0 |
| `Namers.NamesInjective` | dev/mm.lua:66-82 | different calls give different names, for any number of calls |
| `Namers.NameAt` | dev/mm.lua:66-131 | the list of names is gone through over and over, with the number of the round from the second one on |
| `Namers.ColourAt` | dev/mm.lua:134-141 | the six colours are gone through over and over |
| `Quoting.DecimalReads` | dev/mm.lua:124-126 | that number is written in decimal |
| `Printer.Context.constructor` | dev/mm.lua:154-167 | a new context has seen nothing, written nothing, and has a page width of 78 |
| `Printer.Context.GiveName` | dev/mm.lua:210-212 | a value met before gets the next name unless it has one |
| `Printer.Context.TranslateValue` | dev/mm.lua:196-240 | translating terminates on every finite graph, cycles included, and makes the piece and the records that the depth-first walk `Walk` makes |
| `Printer.Context.TranslateDefault` | dev/mm.lua:205-223 | the same for values without a translater of their own |
| `Printer.Context.TranslateTable` | dev/mm.lua:243-294 | the same for tables: the loop over the pairs gives one line for the metatable and one for each pair, in order |
| `TranslateFacts.WalkReplays` | dev/mm.lua:207-293 | what the walk records is what meeting the id nodes of its own tree in print order records, and a node has a definition exactly if it is the first mention of a value other than a function |
| `TranslateFacts.NamedIffRepeated` | dev/mm.lua:207-253 | an object is named exactly if its id occurs at least twice in the tree, and different objects have different names |
| `TranslateFacts.NamesInSequence` | dev/mm.lua:207-253 | the names in use are the first ones of the namer, none left out |
| `TranslateFacts.WalkIsSound` | dev/mm.lua:243-293 | from any state, whatever the walk newly meets is reachable through keys, values and metatables |
| `TranslateFacts.WalkIsComplete` | dev/mm.lua:243-293 | from any state, the walk meets everything a newly met table refers to |
| `TranslateFacts.WalkSpans` | dev/mm.lua:196-293 | after a top-level walk the objects met are exactly those reachable from the root through the metatable, keys and values that tables hold |
| `Rebuild.TreeRebuildsGraph` | dev/mm.lua:243-313 | reading definitions back out of the tree gives exactly the reachable tables; the lines of each are its metatable under its label, if it has one that is not `false`, and then its pairs, each with its two sides, in order |
| `Rebuild.FaceIff` | dev/mm.lua:297-318 | values are written the same way exactly if they are the same, abbreviated strings aside and numbers only up to their text |
| `Rebuild.SameTreeIff` | dev/mm.lua:196-318 | for any two values: their trees are the same exactly if they are written the same way and so are the metatable and every pair of every table below them |
| `Rebuild.SameTreeSameGraph` | dev/mm.lua:196-318 | two objects with the same tree are one object with the same graph below it, numbers up to their text, when no string is abbreviated |
| `Rebuild.NumbersMerge` | dev/mm.lua:316-318 | tables holding different numbers with one text have the same tree |
| `Quoting.ReadsBack` | dev/mm.lua:297-313 | the quoted form of a string, read as Lua reads a literal, is the string, whatever characters it has |
| `ValueText.ShortStringSays` | dev/mm.lua:297-303 | a string of up to 60 characters is one green literal for it |
| `ValueText.LongStringSays` | dev/mm.lua:304-313 | of a longer string there are literals for the first and the last 30 characters, around dim dots, all in green |
| `ValueText.ScalarSays` | dev/mm.lua:205-222 | numbers, `true` and other objects are the texts `tostring` gives |
| `ValueText.PlainKeyIff` | dev/mm.lua:330-352 | a key is written without quotes exactly if it is a word and not one of the keywords |
| `ValueText.KeySays` | dev/mm.lua:276-282 | such a key is in magenta as it stands, any other is written like a value |
| `ValueText.LabelNames` | dev/mm.lua:363-391 | the type each kind of object is labelled with |
| `ValueText.SelfShown` | dev/mm.lua:196-415 | a table that is its own metatable and value, printed in full: its label, definition, lines and colours |
| `Printer.CleanPiece` | dev/mm.lua:356-415 | the second pass computes `Cleaned`, with its six cases |
| `Printer.CleanChildren` | dev/mm.lua:398-409 | replacing the children one by one in place cleans them all |
| `Clean.CleanKeepsSites` | dev/mm.lua:356-415 | cleaning turns every mention into its site, in the same order, and adds none |
| `CleanText.CleanSays` | dev/mm.lua:356-415 | the cleaned tree says, chunk by chunk, what the tree says with labels and definitions for its ids; nothing else is changed, dropped or added |
| `CleanFacts.CleanLeavesNoIds` | dev/mm.lua:356-415 | no id node is left after cleaning |
| `CleanFacts.NamesIntroduceThemselves` | dev/mm.lua:180-190 | in the tree to be displayed every named object other than a function is defined at its first site in print order and nowhere else, is shown once for every mention, and only functions are shown as a bare type |
| `Printer.MinLen` | dev/mm.lua:623-665 | the accumulating loop computes the length function |
| `LayoutFacts.MinLenIsLength` | dev/mm.lua:622-665 | that length is exactly the number of columns of the piece's one-line form |
| `LayoutFacts.OneLineFlat` | dev/mm.lua:483-606 | the one-line form is what the piece says, chunk by chunk: strings, a sequence's colours before every child and a reset after the last, separators and brackets |
| `Printer.Context.Write` | dev/mm.lua:681-684 | text is appended and takes up columns |
| `Printer.Context.WriteNoLength` | dev/mm.lua:687-689 | a colour code is appended and takes up none |
| `Printer.Context.Newline` | dev/mm.lua:668-672 | a line break and the next indent |
| `Printer.Context.NewlineNoIndent` | dev/mm.lua:675-678 | a line break alone |
| `Printer.Context.Display` | dev/mm.lua:439-450 | displaying a piece writes what `Layout.Display` says; every call finds the indents one step apart and leaves both as they were |
| `Printer.Context.DisplayString` | dev/mm.lua:609-619 | the same for a string |
| `Printer.Context.DisplayFrame` | dev/mm.lua:454-480 | the same for a frame: short here, short on a fresh line, or long |
| `Printer.Context.DisplayFrameShort` | dev/mm.lua:483-509 | the short form |
| `Printer.Context.DisplayFrameLong` | dev/mm.lua:512-560 | the long form, with the indents changed on the way and restored |
| `Printer.Context.DisplaySequence` | dev/mm.lua:563-606 | the same for a sequence |
| `LayoutFacts.FitsHere` | dev/mm.lua:467-509 | a piece that fits in the space left is written in its one-line form, with no line break inside it |
| `LayoutFacts.NeverSplit` | dev/mm.lua:563-619 | a string, a frame with children or a tight sequence that fits on a fresh line is never split: it is written here, or after one line break and the indent |
| `LayoutFacts.OnlyWhitespace` | dev/mm.lua:439-606 | for every piece, width and starting context what is written is what the piece says up to whitespace: the same strings unsplit, and the same colour codes, in order |
| `LayoutBreaks.DisplayLaid` | dev/mm.lua:512-560 | no line is blank: every line break is followed at once by an indent of whole steps |
| `LayoutBreaks.LooseStartsHere` | dev/mm.lua:563-606 | a sequence that is not tight begins where the line stands |
| `LayoutBreaks.LongStartsHere` | dev/mm.lua:512-530 | a frame that fits nowhere has its bracket where the line stands and its first child on the next line |
| `LayoutWidth.DisplayTracks` | dev/mm.lua:668-689 | while no string has a raw newline, `line_len` is the number of visible characters after the last newline |
| `LayoutWidth.DisplayWithin` | dev/mm.lua:439-619 | if strings fit on a fresh line at their depth, no line is longer than the page width plus one, from any starting column up to that |
| `LayoutExact.DisplayRight` | dev/mm.lua:439-619 | lines stay within the page width plus one exactly if `Ends` finds an end, which looks at lengths and indents and at the starting column only up to the indent; and there the piece ends |
| `LayoutExact.EndsRoomy` | dev/mm.lua:512-560 | if lines stay within, every string would fit on the page (plus one) from the indent of its line |
| `Pretty.Show` | dev/mm.lua:707-717 | what the module's function prints for a value, or for nil |
| `Pretty.ShownFaithfully` | dev/mm.lua:707-717 | for every value the printed text is what its translated tree says, with names for ids, up to whitespace; the column kept is right, no line is blank, and the width bound holds if the tree's strings fit |
| `Pretty.VanishesIffFalse` | dev/mm.lua:356-415 | a value leaves no trace in the output exactly if it is `false` |
| `PrettyWidth.StringWithinIff` | dev/mm.lua:297-313 | a string of any length printed on its own stays within the page exactly if it, or each half shown of it, has few enough characters to escape |
| `ValueWidth.LegibleWithin` | dev/mm.lua:439-619 | a value whose texts all have room at their depth, names included, and that holds no `false`, is printed within 79 columns |
| `ValueWidth.ShownWithinIff` | dev/mm.lua:439-619 | for every printable value, tables included: within 79 columns exactly if `Ends` finds an end for its tree, and then every string has the room of its line |
| `ValueWidth.NestOverflows` | dev/mm.lua:512-560 | a string of plain letters inside enough tables is printed beyond 79 columns |
| `SelectLua.Lua.Ref` | src/ngx_stream_lua_select_module.c:192 | `luaL_ref` takes the reference freed last, or a new one |
| `SelectLua.ReleaseAllSound` | src/ngx_stream_lua_select_module.c:450-453 | releasing different live references removes exactly them |
| `SelectWorker.Worker.CountSockets` | src/ngx_stream_lua_select_module.c:95-100 | the first pass visits every pair once and leaves the stack as it was |
| `SelectWorker.Worker.CheckSocket` | src/ngx_stream_lua_select_module.c:162-186 | the checks on an upstream, in their order |
| `SelectWorker.Worker.PickSocket` | src/ngx_stream_lua_select_module.c:124-186 | both key forms leave the key with the socket's table above it, or fail as specified |
| `SelectWorker.Worker.FillSockets` | src/ngx_stream_lua_select_module.c:114-198 | the second pass fills the array within its bounds, one slot per pair, up to the first bad one |
| `SelectWorker.Worker.CollectSockets` | src/ngx_stream_lua_select_module.c:95-198 | both passes and the allocation between them |
| `SelectCollect.CallCollects` | src/ngx_stream_lua_select_module.c:95-198 | the first bad entry is the one reported, and the sockets before it are in the array in order, each under a new reference to its table |
| `SelectEntries.PickIs` | src/ngx_stream_lua_select_module.c:124-186 | an entry is taken exactly if it is `{socket}` or `{[socket] = mode}` with r or w, backed by an upstream that is connected, open, of this request, past connecting and not busy in a direction asked for; and which failure an entry that is not is refused with |
| `SelectEntries.RefusedWith` | src/ngx_stream_lua_select_module.c:64-186 | a call raises the failure of its arguments, its request or its first bad entry, each by its fields, and goes no further |
| `SelectEntries.ProbeRefuses` | src/ngx_stream_lua_select_module.c:200-205 | with usable entries, a failing query raises the probe's failure |
| `SelectEntries.WaitsIff` | src/ngx_stream_lua_select_module.c:54-288 | a call suspends the thread exactly if it and all its entries are in order and no connection has unread bytes |
| `SelectEntries.RefusalRemovesEvents` | src/ngx_stream_lua_select_module.c:22-51 | a refused call removes exactly the events that the entries before the bad one ask for on their connections |
| `SelectEntries.HandlersAre` | src/ngx_stream_lua_select_module.c:213-264 | while the thread waits, the request's handlers are the module's exactly if an entry on the request's own connection asks for that direction, and an upstream's exactly if another entry for it does; all others are untouched |
| `SelectEntries.EntryWakes` | src/ngx_stream_lua_select_module.c:213-318 | so an event asked for, on the request or on the upstream, leaves exactly one completion queued |
| `SelectEntries.RestorableIff` | src/ngx_stream_lua_select_module.c:412-455 | which calls can be undone, by their entries: all for reading only, no two on the request's connection or on one upstream, each with a handler to save |
| `SelectWorker.Worker.FailCleanup` | src/ngx_stream_lua_select_module.c:17-52 | on failure the context's reference is released and the active events of the sockets so far are removed |
| `SelectCollect.FailureLeaks` | src/ngx_stream_lua_select_module.c:17-21 | after a failing call exactly the references of the collected sockets are left over |
| `SelectCollect.FailureConservesIff` | src/ngx_stream_lua_select_module.c:17-21 | so a failing call leaves the registry as it was exactly if its first entry is the bad one |
| `SelectWorker.SocketsReady` | src/ngx_lua_select.c:65-83 | fails if a query before the end fails; otherwise marks the sockets with unread bytes and says whether there are any |
| `SelectWorker.Worker.InstallSocket` | src/ngx_stream_lua_select_module.c:213-264 | saving and replacing the handlers of one socket |
| `SelectWorker.Worker.InstallHandlers` | src/ngx_stream_lua_select_module.c:213-264 | the same for all, one after the other |
| `SelectWorker.Worker.Register` | src/ngx_stream_lua_select_module.c:266-281 | the timer is armed for a positive timeout and the context registered |
| `SelectWorker.Worker.RunCleanup` | src/ngx_stream_lua_select_module.c:283 | a pending operation of the thread is cleaned up |
| `SelectWorker.Worker.Suspend` | src/ngx_stream_lua_select_module.c:213-288 | the state in which the thread is suspended |
| `SelectWorker.Worker.AnswerFrom` | src/ngx_stream_lua_select_module.c:374-375 | the answer is built, then whatever context is registered is discarded |
| `SelectWorker.Worker.ProceedWith` | src/ngx_stream_lua_select_module.c:200-288 | the three ways on after collecting |
| `SelectWorker.Worker.FinishCall` | src/ngx_stream_lua_select_module.c:126-211 | a failure of the passes ends the call, otherwise it goes on |
| `SelectWorker.Worker.Select` | src/ngx_stream_lua_select_module.c:54-289 | the whole call, with the checks on its arguments and its request in order; a context registered by it is new |
| `SelectWorker.Worker.EventActivated` | src/ngx_stream_lua_select_module.c:291-300 | a completion is queued unless one is; without a context the process crashes |
| `SelectWorker.Worker.CallEventHandler` | src/ngx_stream_lua_select_module.c:307-318 | the module's four handlers do that, and others leave its state alone |
| `SelectWorker.Worker.ExpireTimer` | src/ngx_stream_lua_select_module.c:303-306 | a timer that runs out is marked and does the same |
| `SelectWorker.Worker.DrainQueue` | src/ngx_stream_lua_select_module.c:274-276 | draining the queue clears the completion's mark and calls its handler |
| `SelectWorker.Worker.PostCompletion` | src/ngx_stream_lua_select_module.c:321-351 | the completion's handler: nothing if the request has lost its Lua context, otherwise the thread is resumed, directly in the content phase and by way of the phases before it |
| `SelectWorker.MarkReady` | src/ngx_stream_lua_select_module.c:363-373 | sockets are marked ready in the directions asked for that are ready |
| `SelectWorker.Worker.ResumeThread` | src/ngx_stream_lua_select_module.c:353-375 | marking, answering, undoing and resuming |
| `SelectWorker.Worker.AnswerThread` | src/ngx_stream_lua_select_module.c:360-375 | what follows marking: the resume handler is reset, the answer given and the select undone |
| `SelectWorker.PushSocket` | src/ngx_lua_select.c:21-37 | a ready socket's two entries are stored and the stack is left at the same height |
| `SelectWorker.PushResult` | src/ngx_lua_select.c:8-48 | the values pushed are the answer specified: the table, or nil and "timeout" |
| `SelectTypes.BuiltAsPromised` | src/ngx_lua_select.c:13-38 | for distinct sockets the table built is the one promised: the ready ones from 1 without gaps and in order, each mapped to its directions, and nothing else |
| `SelectWorker.Worker.RestoreHandlers` | src/ngx_stream_lua_select_module.c:421-451 | handlers are put back in order and references released, up to a missing handler |
| `SelectWorker.Worker.Discard` | src/ngx_stream_lua_select_module.c:412-455 | undoing a select, or a crash without a context or a saved handler |
| `SelectWorker.Worker.Kill` | src/ngx_stream_lua_select_module.c:406-410 | the cleanup hook undoes the select |
| `SelectWorker.Worker.HandleEvent` | src/ngx_stream_lua_select_module.c:291-410 | every event is a step of the protocol, and leaves the state in order for the next |
| `SelectWorker.Worker.HandleEvents` | src/ngx_stream_lua_select_module.c:291-410 | any sequence of events makes the run of the protocol |
| `SelectWorker.Worker.HandleAllowedEvents` | src/ngx_stream_lua_select_module.c:291-410 | over allowed events the code's own form never crashes, has a handler of the module in place only while a context is registered, and resumes the thread once for every suspension, kills and a pending one aside |
| `SelectWorker.Worker.SelectToEnd` | src/ngx_stream_lua_select_module.c:54-410 | the code's own form, from the call over any run to the event that ends the wait: a drain resumes the thread once with the answer, a kill does not, and everything else is as before the call |
| `SelectSound.StepSound` | src/ngx_stream_lua_select_module.c:107-453 | every step keeps live references numbered and freed ones free |
| `SelectHandlers.RestoreIff` | src/ngx_stream_lua_select_module.c:213-264 | installing and then restoring gives back every handler without aborting exactly if all sockets are read-only, share no handler, and have one to save |
| `SelectHandlers.SavedWrites` | src/ngx_stream_lua_select_module.c:230-252 | the handlers for writing are saved when their turn comes, in the slot or in the context |
| `SelectRuns.RunsWaiting` | src/ngx_stream_lua_select_module.c:291-338 | over any run that does not end the wait, with drains that find nothing or drop a completion: nothing else changes, and a completion is queued exactly if a handler or the timer fired since the last drain |
| `SelectRuns.SelectRoundTrip` | src/ngx_stream_lua_select_module.c:274-455 | a select from call to end over any run in between: not resumed while it waits, then ended by one resume or one kill, after which handlers, live references, timer and context pointer are as before the call |
| `SelectRuns.FirstFinish` | src/ngx_stream_lua_select_module.c:321-410 | every run either lets the wait go on or has a first event that ends it, before which it goes on |
| `SelectRuns.ResumesBalance` | src/ngx_stream_lua_select_module.c:288-385 | over every allowed run the thread is resumed exactly as often as it was suspended, less kills while suspended and a suspension still pending |
| `SelectRuns.EndRestoresIff` | src/ngx_stream_lua_select_module.c:412-455 | for any accepted sockets the end of a wait restores all handlers in a live process exactly if they are restorable |
| `SelectRuns.TimeoutIff` | src/ngx_lua_select.c:40-47 | over any run up to the resume, over however many drains, "timeout" is answered exactly if the second argument is a number above zero, the timer expired, and nothing asked for is ready |
| `SelectRuns.NeverTimesOut` | src/ngx_stream_lua_select_module.c:266-272 | with no second argument, nil or zero, no run of the wait has a timer set or answers "timeout" |
| `SelectRuns.MarkedSocket` | src/ngx_stream_lua_select_module.c:363-373 | at the resume a socket is ready exactly if a direction asked for in its entry is, and its reference holds its entry's table |
| `SelectRuns.AnswerIsPromised` | src/ngx_stream_lua_select_module.c:363-375 | otherwise, for sockets named once, the table lists exactly the entries of the call that are ready in a direction asked for, from 1 in the order of the call, each mapped to the text of those directions |
| `SelectRuns.RunsAreSafe` | src/ngx_stream_lua_select_module.c:291-300 | over every allowed run the process never crashes, at most one completion and one timer are outstanding, and a handler of the module is in place only while its context is registered |
| `SelectRuns.CallCrashesIff` | src/ngx_stream_lua_select_module.c:206-211 | a call crashes exactly if the call and all its entries are in order, no query fails, and one finds unread bytes |
| `SelectRuns.KillCrashesIff` | src/ngx_stream_lua_select_module.c:406-410 | after a kill, draining the queue crashes exactly if a completion was queued |
| `SelectRuns.WriteHandlerLeftBehind` | src/ngx_stream_lua_select_module.c:246-249 | after a select for writing has ended, the next writable event on that socket crashes |
| `SelectExamples.KilledWhileQueued` | src/ngx_stream_lua_select_module.c:406-410 | one socket selected for reading, made readable, its thread killed, the queue drained: a crash |
| `SelectExamples.WriteOnlyAborts` | src/ngx_stream_lua_select_module.c:421-424 | one socket selected for writing only: the process aborts when the thread is to be resumed |
| `SelectExamples.ReadWriteCrashesLater` | src/ngx_stream_lua_select_module.c:246-249 | one socket selected both ways: the thread is resumed, and the next writable event crashes |

## Left out

- Sharing of piece tables in `dev/mm.lua`: pieces are values, so `CleanChildren` updates a sequence it holds; that the
  equals sign, the brackets and the metatable label are one table used many times is not captured.
- `LayoutWidth.DisplayWithin`: a sufficient condition, from any starting column; the exact one is
  `LayoutExact.DisplayRight`.
- `PrettyWidth.StringWithinIff`: counts the escapes of LuaJIT; in PUC Lua 5.1 only quotes, backslashes, newlines,
  carriage returns and zeros are escaped.
- `ValueWidth.ShownWithinIff`: sets aside values with `false` in them, or with an empty text or a newline from `tostring`.
  An empty piece makes the bound depend on every column before it.
- `ValueWidth.LegibleWithin`: a sufficient condition, since tables met on several ways are counted at the depth of each.
- `Pretty.VanishesIffFalse`: sets aside values whose `tostring` is blank, which a `__tostring` metamethod can arrange.
- Errors raised by metamethods, `__pairs`, and the Windows colour switch of `dev/mm.lua`.
- Number formatting: a number carries the text `tostring` gives it.
- Memory from `lua_newuserdata` starts out blank in the model; the code reads it before setting it only on the way to the
  crash of `SelectRuns.CallCrashesIff`.
- `SelectLua.Lua.Ref`: a lookup of a dead reference gives nil, where Lua would give a link of its free list; the module is
  proved to release only references it holds.
- More than one Lua thread per request; a second suspended select would overwrite the context pointer of the first.
- UDP sockets: the type query answers TCP for every socket (src/ngx_lua_select.c:50-63).
- The rest of `resume` after the select is undone (lines 377-403).
- `SelectWorker.Worker.RunPhases`: running a request's phases is taken to call the resume handler at once.
- `SelectWorker.Worker.CallEventHandler`: what handlers other than the module's do to the rest of nginx.
- The length of a timeout and its rounding to milliseconds: a positive timeout arms a timer that may expire at any time.
- src/ngx_http_lua_select_module.c, the module tables, and the debugging functions of src/ngx_lua_select.c: no behaviour
  of their own to prove.
