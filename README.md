# noms cmd: the interactive shell and its `log` pipeline

A Dafny model of `cmd/noms/noms_cmd.go`. That file holds `noms cmd`, an
interactive shell over a Noms database. The model has three parts.

- **`readFromRL`** (`line_reader.dfy`). It reads lines until the number of `"`
  characters read in the call is even, so a quoted argument may span several
  lines. The readline instance is a finite sequence of events. Each event is a
  line or a read error. Once the sequence is used up, every read reports end of
  input. The loop is a method. It is proved equal to a recursive reference
  definition, `ReadSpec`, and the lemmas state what that definition returns.
- **The shell loop** (`text.dfy`, `shell.dfy`). This covers the handler that
  `nomsCmd` returns, `try` and `parseArgs`.
  - `strings.TrimSpace` and `strings.Fields` are modelled on Go's `unicode.IsSpace`
    character set.
  - The body of each turn makes a decision on the line: skip it, quit, fail on a
    missing argument, or run a command. It is a pure function.
  - The calls the body makes on the calling goroutine (into the database, the
    printers and nomsCmdLog) are reduced to one flag per turn, which says whether
    one of them panicked.
  - `RunShell` is the `for` loop with `try` and `break`. It is proved equal to
    the reference session `Session`.
- **nomsCmdLog** (`slot_queue.dfy`, `log_pipeline.dfy`).
  - The buffered channel `bytesChan` is a class over an array ring buffer:
    `SlotQueue`.
  - The producer goroutine, the calling goroutine that drains the channel and
    the render goroutines are steps. An arbitrary schedule picks the next step.
    When the chosen goroutine is blocked, the first one that can run takes its
    place.
  - The commit iterator is a sequence of nodes, and `printCommit` is a function
    from node to bytes.
  - The pager's failures are a predicate on the number of the write.
  - Every property of `NomsCmdLog` holds for every schedule.

Three behaviours of the code that a reader might not expect, each stated by
`NomsCmdLog`:
- nomsCmdLog does not report a failed write to the pager: it returns `nil`
  (line 213). `NomsCmdLog` proves `err == None` whenever the head is a commit.
- The producer calls `iter.Next()` once more after the last node it admits
  (line 185). This happens also when the limit is reached, so with `maxCommits = M`
  the iterator is asked for node M+1. `NomsCmdLog` proves
  `nextCalls == admitted + 1`.
- A render goroutine stays blocked on its unbuffered channel until the calling
  goroutine receives from it. So the slots in `bytesChan` plus the one being
  awaited give up to `parallelism + 1` admitted-but-unwritten nodes.
  `NomsCmdLog` proves that bound, `parallelism + 1`, while no write has failed,
  and the bound `parallelism` for the channel itself at all times.

## Model

| member | source | states |
|---|---|---|
| Text.SkipFromSkipsSpace | cmd/noms/noms_cmd.go:59 | the leading run that TrimSpace cuts off is all whitespace and is followed by a non-space character |
| Text.SkipBackSkipsSpace | cmd/noms/noms_cmd.go:59 | the trailing run that TrimSpace cuts off is all whitespace and is preceded by a non-space character |
| Text.TrimSpace | cmd/noms/noms_cmd.go:59 | `strings.TrimSpace`; no contract of its own: `TrimSpaceCuts` pins it down |
| Text.TrimSpaceCuts | cmd/noms/noms_cmd.go:59-60 | `strings.TrimSpace` returns a slice of the line that starts and ends with a non-space character; everything outside it is whitespace; it is empty exactly when the line is all whitespace |
| Text.WordIsRun | cmd/noms/noms_cmd.go:216-218 | a field is the longest whitespace-free prefix, ended by whitespace or the end of the line |
| Text.Fields | cmd/noms/noms_cmd.go:217 | `strings.Fields`; no contract of its own: `FieldsAreWords`, `FieldsOfWord`, `FieldsSplit`, `FieldsFirst` and `FieldsKeepNonSpace` pin it down |
| Text.FieldsAreWords | cmd/noms/noms_cmd.go:63-64 | every field of `parseArgs` is non-empty and has no whitespace; there is a field unless the line is all whitespace, so `args[0]` exists on a non-blank line |
| Text.FieldsKeepNonSpace | cmd/noms/noms_cmd.go:216-218 | the fields joined together are the line's non-whitespace characters in their original order |
| Text.WordStopsAtSpace | cmd/noms/noms_cmd.go:216-218 | a field runs up to the first whitespace character and no further |
| Text.FieldsOfWord | cmd/noms/noms_cmd.go:216-218 | a non-empty run without whitespace is one field, not split further |
| Text.FieldsSplit | cmd/noms/noms_cmd.go:216-218 | whitespace separates fields: the fields of `a`, a whitespace character, then `b` are the fields of `a` followed by the fields of `b`, so no field is joined across whitespace |
| Text.FieldsFirst | cmd/noms/noms_cmd.go:63-64 | on a line that is not all whitespace, `args[0]` is the whole word that starts at the first non-space character |
| Text.SqueezeAppend | cmd/noms/noms_cmd.go:216-218 | dropping whitespace distributes over concatenation |
| LineReader.QuoteCountAppend | cmd/noms/noms_cmd.go:150-154 | the quote count of a concatenation is the sum of the counts |
| LineReader.QuotesAfterLine | cmd/noms/noms_cmd.go:155 | the newline appended to each line adds no quote |
| LineReader.CountQuotes | cmd/noms/noms_cmd.go:150-154 | the loop over the characters of a line counts exactly its `"` characters |
| LineReader.Continue | cmd/noms/noms_cmd.go:145-160 | a read never moves the cursor back or past the end; a successful read consumes at least one event |
| LineReader.ReadSpec | cmd/noms/noms_cmd.go:145-160 | the same bounds for a read that starts outside a quote |
| LineReader.ReadFromRL | cmd/noms/noms_cmd.go:141-161 | the loop returns exactly the reference read `ReadSpec`: text, error and where the next read starts |
| LineReader.ContinueLine | cmd/noms/noms_cmd.go:155-159 | one loop turn: the line and its newline join the text, and the read stops exactly when the quote parity becomes even |
| LineReader.PrependTwice | cmd/noms/noms_cmd.go:155 | accumulating text piece by piece equals accumulating it at once |
| LineReader.JoinedQuotes | cmd/noms/noms_cmd.go:150-155 | the quotes in the accumulated text are the quotes of the lines read |
| LineReader.ContinueSucceeds | cmd/noms/noms_cmd.go:145-158 | a successful read from an open or closed quote state returns the lines read, each followed by a newline, and stops at the first parity change |
| LineReader.ContinueFails | cmd/noms/noms_cmd.go:145-149 | a failed read returns no text and the error of the first faulty event (end of input when the events run out) |
| LineReader.ReadStopsAtBalance | cmd/noms/noms_cmd.go:143-158 | a successful read returns exactly the consumed lines, each followed by a newline. The text has an even number of `"`, and every shorter run of whole lines has an odd number |
| LineReader.ReadFailureDiscards | cmd/noms/noms_cmd.go:146-149 | a failed read returns `""` with the error, even partway through a quoted continuation; every line it read left the quotes open |
| Shell.Try | cmd/noms/noms_cmd.go:29-37 | `try` returns the body's result, and 0 when the body panicked |
| Shell.ParseArgs | cmd/noms/noms_cmd.go:216-218 | `parseArgs` is `strings.Fields`; no contract of its own: the `Fields` lemmas pin it down |
| Shell.Decide | cmd/noms/noms_cmd.go:59-130 | the dispatch on the trimmed line; no contract of its own: `DecideCases` and `DecideCommands` state the decision for every line |
| Shell.Body | cmd/noms/noms_cmd.go:52-131 | the closure passed to `try`; no contract of its own: `StopsOnlyOnEndOrQuit` and `MissingPathContinues` state its result under `try` |
| Shell.LogOptionsFor | cmd/noms/noms_cmd.go:113-122 | `log` sets useColor, path `args[1]`, and oneline and showGraph equal; they are false exactly when `len(args) > 2 && args[2] == "v"`; `maxCommits` stays 0 |
| Shell.DecideCases | cmd/noms/noms_cmd.go:59-130 | a line is skipped exactly when it is all whitespace and quits exactly when its first field is `exit` or `quit`. `show` or `log` without a second field is a missing argument. `show` and `log` with one take `args[1]` as the path, and `log` gets the options of `LogOptionsFor` |
| Shell.DecideCommands | cmd/noms/noms_cmd.go:63-129 | by the first field of a non-blank line: `version` runs the version command; `ds` lists datasets, with the pattern `args[1]` when there is one; `show` and `log` with a path run with `args[1]` (`log` with the options of `LogOptionsFor`), and without one fail on the missing argument; any other name is unrecognized |
| Shell.StopsOnlyOnEndOrQuit | cmd/noms/noms_cmd.go:29-135 | under `try`, the body returns non-zero exactly when the read failed or the line is `exit`/`quit`; the result is 0 or 1, also when the body panics |
| Shell.MissingPathContinues | cmd/noms/noms_cmd.go:89-116 | `show` or `log` without a path panics on `args[1]`, and `try` turns this into 0, so the loop continues |
| Shell.Session | cmd/noms/noms_cmd.go:51-136 | a session is never empty and its first read is the read from the current position |
| Shell.SessionUnfold | cmd/noms/noms_cmd.go:51-136 | a session goes on after its first read, from where that read stopped, exactly when the body returned 0 |
| Shell.EndsAtLastCons | cmd/noms/noms_cmd.go:133-135 | a read that does not end the loop, put before a session that ends at its last read, gives a session that still ends at its last read |
| Shell.SessionEndsOnEndOrQuit | cmd/noms/noms_cmd.go:133-135 | the last read of a session failed or was `exit`/`quit`, and no earlier read was |
| Shell.SessionIsSuccessive | cmd/noms/noms_cmd.go:51-55 | each read of a session starts where the previous one stopped |
| Shell.Turn | cmd/noms/noms_cmd.go:52-131 | one turn makes the first read of the remaining session and says whether the session goes on |
| Shell.RunShell | cmd/noms/noms_cmd.go:51-136 | the loop makes exactly the reads of the reference session of the whole input |
| Channels.Wrap | cmd/noms/noms_cmd.go:180 | a ring position stays inside the buffer |
| Channels.SlotQueue.constructor | cmd/noms/noms_cmd.go:180 | `make(chan chan []byte, parallelism)` is open, empty, with a buffer of that capacity |
| Channels.SlotQueue.Len | cmd/noms/noms_cmd.go:180 | the number of buffered slots, never above the capacity |
| Channels.SlotQueue.TryPush | cmd/noms/noms_cmd.go:187 | a send appends its slot exactly when the buffer has room, and otherwise changes nothing (the sender waits) |
| Channels.SlotQueue.TryReceive | cmd/noms/noms_cmd.go:203-210 | a receive takes the oldest slot while any is buffered, also after close; on an empty channel it reports closed or would block |
| Channels.SlotQueue.Close | cmd/noms/noms_cmd.go:197 | `close` keeps the buffered slots |
| LogPipeline.NormaliseLimit | cmd/noms/noms_cmd.go:176-178 | a non-positive `maxCommits` becomes MaxInt32 and a positive one is kept, so the limit is positive |
| LogPipeline.ShellLogIsUnbounded | cmd/noms/noms_cmd.go:113-123 | the shell's `log` leaves `maxCommits` at 0, so its limit is MaxInt32 |
| LogPipeline.RenderAllAppend | cmd/noms/noms_cmd.go:203-205 | writing two runs of nodes one after the other writes their renderings in order |
| LogPipeline.RenderAllPrefix | cmd/noms/noms_cmd.go:203-205 | the bytes of the first k nodes are a prefix of the bytes of all of them |
| LogPipeline.Tickets | cmd/noms/noms_cmd.go:187 | the slots pushed and not yet taken are the consecutive tickets between the two counters |
| LogPipeline.BoundedSetSize | cmd/noms/noms_cmd.go:189-193 | at most as many render goroutines have finished as were started |
| LogPipeline.AdmitKeeps | cmd/noms/noms_cmd.go:185 | admitting the node `iter.Next()` returned keeps the pipeline invariant |
| LogPipeline.StopKeeps | cmd/noms/noms_cmd.go:185-197 | when the loop condition fails after `iter.Next()`, closing the channel keeps the invariant |
| LogPipeline.PushKeeps | cmd/noms/noms_cmd.go:187-195 | pushing the slot of the admitted node and counting it keeps the invariant, with the new ticket at the back of the channel |
| LogPipeline.TakeKeeps | cmd/noms/noms_cmd.go:203 | the calling goroutine takes the oldest ticket, which is the next node to write |
| LogPipeline.DiscardKeeps | cmd/noms/noms_cmd.go:208-210 | after a failed write, slots are taken off without writing |
| LogPipeline.EndKeeps | cmd/noms/noms_cmd.go:203-213 | `range` over the closed, drained channel ends and the function returns |
| LogPipeline.WriteKeeps | cmd/noms/noms_cmd.go:204-205 | a successful write appends the awaited node's bytes: the output stays the rendering of the nodes written, in order |
| LogPipeline.FailKeeps | cmd/noms/noms_cmd.go:206-208 | a failed write sets `done` and adds nothing to the output |
| LogPipeline.ProducerNext | cmd/noms/noms_cmd.go:184-198 | the one move of the producer, or none while it is blocked; no contract of its own: `ProducerMoveKeeps` states that every move keeps the invariant, and `ProducerStep` makes exactly this move |
| LogPipeline.DrainNext | cmd/noms/noms_cmd.go:203-212 | the one move of the calling goroutine, or none while it is blocked; no contract of its own: `DrainMoveKeeps` states that every move keeps the invariant, and `DrainStep` makes exactly this move |
| LogPipeline.ProducerMoveKeeps | cmd/noms/noms_cmd.go:184-198 | every move of the producer (admit, close, push) keeps the pipeline invariant and lowers the producer's remaining work |
| LogPipeline.DrainMoveKeeps | cmd/noms/noms_cmd.go:203-212 | every move of the calling goroutine (take, write, fail, discard, return) keeps the invariant, lowers the remaining work, and leaves the producer and the channel's closedness as they are |
| LogPipeline.ProducerStep | cmd/noms/noms_cmd.go:184-198 | one producer step moves exactly when `ProducerNext` allows it and then makes that move: `iter.Next()` counted and the node admitted, or the channel closed; or the admitted node's ticket appended to the channel and `displayed` counted. It keeps the invariant and lowers the producer's remaining work, and is blocked only on a full channel or after close |
| LogPipeline.DrainStep | cmd/noms/noms_cmd.go:203-212 | one step of the calling goroutine moves exactly when `DrainNext` allows it and then makes that move: the oldest ticket taken off and awaited; the awaited node's bytes appended to the output; `done` set on a failed write; one slot discarded; or the return on the closed, drained channel. It keeps the invariant, lowers the remaining work, and is blocked only while waiting for an unfinished render or on an empty open channel |
| LogPipeline.RenderStep | cmd/noms/noms_cmd.go:189-193 | a started, unfinished render goroutine finishes: its ticket joins the rendered ones, nothing else changes, and the invariant holds |
| LogPipeline.Fallback | cmd/noms/noms_cmd.go:184-212 | until nomsCmdLog returns, some goroutine can always make one of its moves (no deadlock), and the move lowers the remaining work |
| LogPipeline.Step | cmd/noms/noms_cmd.go:184-212 | every step is one move of one goroutine, the scheduled one whenever it can move; it keeps the invariant and lowers the remaining work, so every schedule ends |
| LogPipeline.AheadOfWriter | cmd/noms/noms_cmd.go:180-205 | while no write has failed, at most the buffered slots plus the awaited one are admitted ahead of the output |
| LogPipeline.RunGoroutines | cmd/noms/noms_cmd.go:180-213 | under any schedule the goroutines reach the return of the calling goroutine, with the channel closed and empty and the invariant holding; the channel never held more than `parallelism` slots, and while no write had failed at most `parallelism + 1` nodes were admitted and not yet written |
| LogPipeline.NomsCmdLog | cmd/noms/noms_cmd.go:163-214 | without a commit head it errs, with no iteration and no output. Otherwise it returns nil, and calls `iter.Next()` once more than the nodes it admits, at most the limit and the iterator length. The pager receives the admitted nodes' renderings in iterator order up to the first failed write. With no failure every admitted node is written and the admitted count is the smaller of the limit and the iterator length; after a failure nothing more is written. The channel never holds more than `parallelism` slots, and while no write has failed at most `parallelism + 1` admitted nodes wait to be written |

## Left out

- Readline I/O and the prompt switching of `readFromRL` (`SetPrompt`): lines are an input sequence, and `readline.New` failing is not modelled.
- The database work: `config.NewResolver`, `GetDatabase`, `db.Rebase()`, `Datasets().IterAll`, `spec.NewAbsolutePath`, `Resolve`, `GetDataset`, `MaybeHead` and `IsCommit`. It is external. The shell reduces its effect to whether it panicked, and nomsCmdLog takes the head and the iterator's nodes as inputs.
- The regular-expression filter of `ds`, `types.WriteEncodedValue`, `printCommit`, `datetime.RegisterHRSCommenter`, `locationFromTimezoneArg` and all `fmt` printing: foreign code. `ds` keeps only its optional pattern, and `printCommit` is an opaque node-to-bytes function.
- `d.CheckError` after a failed `regexp.Compile` in `ds` (lines 77-78): package `d` is not part of this model. The model takes it to panic, so `try` returns 0 and the shell goes on (`effectPanics`). If it exits the process instead, the shell ends there, and the model does not have that outcome.
- The time zone option `o.tz` of `log`: it comes from foreign code.
- `outputpager` start and stop: the pager is the sequence of bytes it receives, and its write failures are an input.
- A failed `io.Copy` may have written part of the bytes before failing. The model writes nothing on a failed write (`FailKeeps`).
- Panics off the calling goroutine: `try` recovers only panics of the goroutine that runs the body. A panic in nomsCmdLog's producer goroutine (in `iter.Next()`) or in a render goroutine (in `printCommit`) ends the program. The model does not have this outcome: `effectPanics` stands only for panics on the calling goroutine, which `try` turns into 0.
- Real goroutine scheduling: the steps are atomic and the unsynchronised `done` flag is read as if sequentially consistent. The data race on `done` and the render goroutines that stay blocked forever after a failed write are not modelled.
- `parallelism` is not defined in this file. It is a parameter, required positive: with 0, the channel would be unbuffered, and that case is not modelled.
- Strings are sequences of Unicode code points. The UTF-8 decoding of `strings.Fields` and `strings.TrimSpace` is not modelled, and neither are invalid bytes.
- The handler's own `return 0` after the loop and the kingpin registration are not modelled.
