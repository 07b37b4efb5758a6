# Verification of the gateway's streams, limits and protocols

A Dafny model of the parts of the gateway where a mistake would be hardest to see, with proofs of what
they promise. `dafny verify dfyconfig.toml` checks everything.

Four groups of modules:

- **Reading streamed answers.** `ToolPrompt`, `ToolFilter`, `ToolTranscript` and `Json` cover tool calls
  carried in prose; `Thinking` and `StreamReader` the splitting of `<think>` text and the OpenAI stream;
  `ToolAssembly` its interleaved call fragments; `BlockStream` the Anthropic stream; `EventStream`
  server-sent events. Each incremental reader is proved equal to a simple reader of the whole text.
  `Replay` says what the rewritten request holds message by message; `Transcript`, `Acceptance` and
  `Conversation` cover the turns that are sent, `Usage` what a call is charged.
- **The credential limiter.** `LimiterRules` says what each locked section does and proves what holds
  over every run of any number of overlapping attempts; `Guessing` bounds the wrong answers against one
  account over whole runs; `CredentialLimiter` is the class, proved to take those steps.
- **Interleaving protocols.** `RankingCache` with `RankingReuse` and `UsageCache` (the allowance rankings),
  `Announcement` (publish, push, recheck, retract), `Verification` with `Confirming`, `Spacing` and
  `Verifier` (resends, confirmations, address changes). Each transaction or locked section is one step,
  and the theorems hold for every schedule.
- **Sliding windows.** `SlidingWindow` holds the counting argument shared by the sign-up, address-screen
  and new-device meters of `Meters` and by the code guesses of `Verification`.

`Text` and `Basics` hold searching, trimming and arithmetic that the others share.

Where the source updates fields or walks a list in a loop, the model is a class or a method with that
loop, and its contract equates the new state with a specification function; the laws are lemmas about
those functions. Protocols are modelled as steps on values, because Dafny methods do not interleave.

Conventions: text is `seq<char>` cut between characters, and a character counts as one byte in a size
limit; the limiter's and the caches' times are integer nanoseconds, the meters' and verification's
integer milliseconds, as stored; counts and generations are unbounded integers. `json.Valid` and the
reader of a call's JSON body are parameters (`valid`, `Lesson.read`); what is asked of the latter is
spelled out in `ToolTranscript.Decodes`, and `ToolTranscript.ADecoderExists` shows it can be met.

## What the proofs found

Places where the code does less than its comments or its design promise. Each has a concrete input, and
the exact condition where one can be stated.

- A server-sent line is lost when a reader returns the end of the input together with bytes that begin
  with the LF of a CR LF pair and hold more behind it (`EventStream.EndWithLastRead`,
  `EventStream.ALineIsLost`).
- A replayed tool call is not read back when its name needs one of `\a`, `\v`, `\x` or `\U` in Go's
  quoting, which JSON cannot read, or when its arguments nest as deep as Go's JSON allows, because the block
  nests them once more (`ToolTranscript.RoundTrip`, `ToolTranscript.ABellIsNotReadBack`,
  `ToolTranscript.ADeepCallIsNotReadBack`).
- `Usage.Merge` by itself can leave more cache tokens than input tokens, when an unreported input is folded
  over a reported one (`Usage.MergeIsSoundUnless`, `Usage.AnEstimateLeavesCachesBehind`); no call folds such
  a pair, and what providers and callers fold stays sound (`Usage.ReportsStaySound`, `Usage.CallersAgree`).
- A caller that folds a stopped call's charge over the reports it saw can keep reasoning tokens the charge
  dropped: exactly when reasoning was reported and less than a token of it streamed, no output was reported,
  and more text streamed than reported (`Usage.CallersAgree`, `Usage.ACallerCountsDroppedReasoning`).
- An announcement that is published can have no bell entry, when the retraction of an earlier unpublish
  runs late (`Announcement.ALateRetractSilences`). Publishing rings for good exactly when no retraction of
  it is under way (`Announcement.APublishRingsExactlyWhen`). The stale entry the code guards against never
  remains.
- Writing a plain usage summary drops a cached ranking exactly when four are held, and one still being
  served can go (`RankingCache.ASummaryCostsARanking`, `RankingCache.AFreshRankingIsLost`).
- The Anthropic reader ends the answer on an argument fragment for a block that is not open
  (`BlockStream.AStrayFragmentEnds`, `BlockStream.AWordThenAStrayFragment`), although the comment there
  (internal/adapter/anthropic.go:689-691) says that is not worth ending a generation over; the model follows
  the code.

The limiter and the device meter read the clock before they take their lock, so readings need not be in lock
order. `LimiterRules.GuessingIsSlow` and `Meters.NoticeFits` hold anyway; `Guessing.SixteenInHalfAnHour` says what
such readings cost.

## Model

| member | source | states |
|---|---|---|
| ToolPrompt.NoIsFinal | internal/adapter/toolprompt.go:664-671 | once a block cannot be a call, no later text makes it one |
| ToolPrompt.YesIsFinal | internal/adapter/toolprompt.go:664-671 | a block that may be a call and has its closing tag stays one that may, whatever follows |
| ToolPrompt.CloseStays | internal/adapter/toolprompt.go:515-535 | the closing tag found in a block is the one found with more text behind it |
| ToolPrompt.ReadOn | internal/adapter/toolprompt.go:385-456 | reading some text and then more gives the state that reading both at once gives |
| ToolPrompt.NoCallIsProse | internal/adapter/toolprompt.go:410-440 | a block that cannot be a call is its tag as prose and then text read outside any block |
| ToolPrompt.ChunksDoNotMatter | internal/adapter/toolprompt.go:385-456 | for every cut of an answer into deltas, prose, calls, drops and their order are those of the whole text |
| ToolPrompt.ReadConserves | internal/adapter/toolprompt.go:385-456 | at every moment the text so far is what was decided, laid end to end, and what is held back |
| ToolPrompt.Read | internal/adapter/toolprompt.go:385-456 | what is held back outside a block is the beginning of a tag, and a block is held only while it may be a call and its closing tag has not come |
| ToolPrompt.FinishConserves | internal/adapter/toolprompt.go:551-647 | finish accounts for all the text still held, and its self-call ends |
| ToolPrompt.NothingIsLost | internal/adapter/toolprompt.go:551-647 | a whole answer is its prose, its calls' blocks and the dropped blocks, in order |
| ToolPrompt.ReadIsSound | internal/adapter/toolprompt.go:460-478 | every call taken was read from its block, under an offered name, numbered in order |
| ToolPrompt.FinishIsSound | internal/adapter/toolprompt.go:551-647 | the end of an answer drops only a call that was begun and cannot be read |
| ToolPrompt.OnlyOfferedCalls | internal/adapter/toolprompt.go:460-478 | over a whole answer only offered tools are called, and none when calls are not read |
| ToolPrompt.BlockIsRead | internal/adapter/toolprompt.go:385-478 | the first block of any text, if its body begins with an object or a code fence and its own tag closes it, is the call its body reads as, or prose when it reads as none; what follows is read on its own |
| ToolPrompt.ACallIsTaken | internal/adapter/toolprompt.go:385-478 | an answer of some prose and such a block, fenced or not, is that prose and that call |
| ToolPrompt.AnOpenBlockIsSettled | internal/adapter/toolprompt.go:551-647 | a block the answer ends inside is the call it reads as; otherwise it is dropped if a call was begun, and prose if not |
| ToolPrompt.StartedWithABrace | internal/adapter/toolprompt.go:649-658 | a call was begun iff the first visible character, or the first inside a fence, is a brace |
| ToolFilter.Filter.Find | internal/adapter/toolprompt.go:515-535 | the resumed search returns what a scan of the block from its start returns |
| ToolFilter.Filter.TakeAndAnnounce | internal/adapter/toolprompt.go:460-500 | a body that is a call is recorded and sent downstream once; another changes nothing |
| ToolFilter.Filter.Emit | internal/adapter/toolprompt.go:537-549 | text decided to be prose reaches the prose and the sink, nothing else changes |
| ToolFilter.Filter.Feed | internal/adapter/toolprompt.go:385-456 | one delta leaves the filter where reading its text behind the held text leaves the specification |
| ToolFilter.Filter.Receive | internal/adapter/toolprompt.go:368-383 | text is read as one delta; a refusal or any other event goes straight through and decides nothing |
| ToolFilter.Filter.Conclude | internal/adapter/toolprompt.go:551-647 | finish adds exactly what the end of the text decides, and builds the finished answer from all of it |
| ToolFilter.EmulatedChat | internal/adapter/toolprompt.go:72-97 | streamed in any pieces or whole, the text, the calls and what the sink saw are those of the whole text; an answer of prose and a block that reads as a call gives and sends exactly that prose and that call; calls make a turn that merely stopped one of calls and no other finish reason changes; every other event comes right after what the text before it had decided, and a refusal of the finished answer comes last iff none was streamed |
| ToolTranscript.NoTagIsLeft | internal/adapter/toolprompt.go:236-246 | no tag is left in an escaped text, seams between replacements included |
| ToolTranscript.TagFreeIsUnchanged | internal/adapter/toolprompt.go:236-246 | text without the tags is not changed |
| ToolTranscript.ResultHoldsNoCall | internal/adapter/toolprompt.go:150-246 | a result's block holds neither the tag that opens a call nor the one that closes it |
| ToolTranscript.ResultClosesAtItsEnd | internal/adapter/toolprompt.go:150-246 | a result's block is closed by its own last line and nothing earlier |
| ToolTranscript.InertIsProse | internal/adapter/toolprompt.go:385-456 | text that opens no call is read as prose to its last character |
| ToolTranscript.ResultsAreInert | internal/adapter/toolprompt.go:150-217 | every message sent is the conversation's own or a message of results that opens and closes no call |
| ToolTranscript.RewriteToolTranscript | internal/adapter/toolprompt.go:150-217 | the loop over messages sends what the recursive rewriting says, results in order, calls respelled |
| ToolTranscript.WriteCalls | internal/adapter/toolprompt.go:195-209 | an assistant message's calls become their blocks, and each id is tied to its tool's name |
| ToolTranscript.WriteResults | internal/adapter/toolprompt.go:175-189 | a tool message becomes its results' blocks, named by the calls they answer |
| Replay.OneMoreMessage | internal/adapter/toolprompt.go:150-213 | one more message of a tool adds its results to the message of results at the end, or begins one; any other comes last, with its role and parts, only named calls respelled |
| Replay.NamedByItsLastCall | internal/adapter/toolprompt.go:175-201 | a result is named by the last call that used its id, wherever in the conversation that was |
| Replay.NothingRenames | internal/adapter/toolprompt.go:175-201 | an id that no call used has no name, and messages that do not call it change none |
| Replay.AResultReads | internal/adapter/toolprompt.go:176-225 | a result without tags in it is written out whole, under its call's name when that needs no quoting or under none, an error marked as one |
| Replay.ResultsFollow | internal/adapter/toolprompt.go:175-189 | the results of one message are written in order, and its other parts say nothing |
| ToolTranscript.RoundTrip | internal/adapter/toolprompt.go:252-259 | a replayed call is read back as exactly that call iff JSON can read the quoting of its name and its arguments nest less than 10,000 deep; otherwise it is prose |
| ToolTranscript.RoundTripInChunks | internal/adapter/toolprompt.go:252-259 | the same for an answer holding that block alone, cut into any deltas |
| ToolTranscript.ADecoderExists | internal/adapter/toolprompt.go:252-259 | what is asked of the JSON reader can be met: a block can be spelled from one quoted name and one argument object only |
| ToolTranscript.ABellIsNotReadBack | internal/adapter/toolprompt.go:252-259 | a tool named by the bell character is not read back |
| ToolTranscript.ADeepCallIsNotReadBack | internal/adapter/toolprompt.go:689-724 | arguments nested 10,000 deep are valid and sent as they are, and their call is not read back |
| ToolTranscript.CallBodyNests | internal/adapter/toolprompt.go:252-259 | the block nests one level deeper than its arguments |
| Json.QuoteIsJson | internal/adapter/toolprompt.go:252-259 | Go's quoting of a name is a JSON string spelling that name iff every character is quoted alike in both |
| Json.ValueIsQuiet | internal/adapter/toolprompt.go:502-535 | no JSON value, however nested, shows the closing-tag search a tag outside its strings |
| Json.QuietCloses | internal/adapter/toolprompt.go:502-535 | behind such text the first tag the search finds is the block's own |
| Thinking.AnswerGrows | internal/adapter/wire.go:569-603 | the part of the answer that may be shown only grows, and is part of the final answer |
| Thinking.ReasoningGrows | internal/adapter/wire.go:569-603 | the same for reasoning found inline |
| Thinking.EnclosesIsFound | internal/adapter/wire.go:604-658 | where the first opening tag stands behind one text and the first closing tag behind it behind a second, the second is the reasoning and all around them the answer |
| Thinking.SplitsAtItsTags | internal/adapter/wire.go:569-603 | of any text: without the tag it is all answer; between the tags is reasoning and around them answer; an unclosed tag makes the rest reasoning behind blank text, and no difference behind visible text |
| Thinking.ResumedSearch | internal/adapter/wire.go:604-658 | a search resumed a tag's width back finds what a search from the start finds |
| Thinking.InlineThinking.Split | internal/adapter/wire.go:629-658 | the split that remembers offsets equals the split of the whole buffer, for every growing buffer |
| StreamReader.ShownIsCertain | internal/adapter/openai.go:739-781 | what a flush shows before the end is certain, and what it withholds of the text so far is the beginning of a tag |
| StreamReader.Reader.FlushContent | internal/adapter/openai.go:739-781 | a flush sends exactly what is newly certain, and at the end all that is left |
| StreamReader.Reader.Receive | internal/adapter/openai.go:818-872 | a frame is taken iff it is in order and its calls fit; what the sink already has stays, in front |
| StreamReader.Reader.End | internal/adapter/openai.go:892-915 | the stream ends well iff it was seen to end, nothing was refused and the calls can be sent; then all was said, behind what the sink already has |
| StreamReader.ReadStream | internal/adapter/openai.go:686-915 | streamed answer and reasoning are the raw content split at its tags as above, and the calls those its own fragments spell, arguments to the letter, for every cut; exactly when it succeeds |
| ToolAssembly.CallsAreTheirFragments | internal/adapter/openai.go:531-560 | every fragment lands in one call, and each call is what its fragments spell in arrival order |
| ToolAssembly.AssembleSpells | internal/adapter/openai.go:531-560 | what fragments spell: the arguments are theirs end to end, the id is the last one given, and a name is the last of names that grow or the join of names that were cut |
| ToolAssembly.OrderIsComplete | internal/adapter/openai.go:647-684 | every call has exactly one place in the order of sending |
| ToolAssembly.NamedAreSent | internal/adapter/openai.go:647-684 | every named call is sent once in order, up to the first malformed one, which fails the turn, under its id and name and with its arguments to the letter, or an empty object for blank ones and null |
| ToolAssembly.ObjectsAreWellFormed | internal/adapter/openai.go:1203-1221 | arguments are well formed iff what white space surrounds is nothing, null, or valid JSON opening with a brace, and an object is then sent as it came, white space and all |
| ToolAssembly.DeliveredIsSpelled | internal/adapter/openai.go:531-684 | when all can be sent, the calls are those of the fragments each one owns, in the order of sending, arguments to the letter |
| ToolAssembly.LanesAreIndependent | internal/adapter/openai.go:562-645 | with an index on every fragment, each call is what its own index's fragments spell |
| ToolAssembly.AbsorbedWhenLanesFit | internal/adapter/openai.go:531-560 | fragments that all carry an index are taken iff each index's arguments fit the limit |
| ToolAssembly.InterleavingDoesNotMatter | internal/adapter/openai.go:531-684 | then whether they are taken, and what is sent, depends only on each index's fragments, in ascending order of index |
| ToolAssembly.IdsAreIndependent | internal/adapter/openai.go:584-645 | with ids and no indexes, fragments without an id following the one before, each id has one call and it is what its own fragments spell |
| ToolAssembly.AnIndexTakesOver | internal/adapter/openai.go:571-645 | a call opened without an index stays one call when its later fragments carry one |
| ToolAssembly.ToolCallAssembly.Position | internal/adapter/openai.go:562-595 | where a fragment goes, for known and new indexes, ids, and fragments with neither |
| ToolAssembly.ToolCallAssembly.AbsorbAll | internal/adapter/openai.go:531-560 | a frame's fragments are absorbed in order, or refused when a call outgrows its limit |
| ToolAssembly.ToolCallAssembly.Finish | internal/adapter/openai.go:647-684 | the calls are sent in the complete order, by the delivery rule above, each named call with its own arguments to the letter or an empty object for none |
| BlockStream.BlockReader.Receive | internal/adapter/anthropic.go:569-705 | one event of the stream does what the specification says, or ends it in the same errors |
| BlockStream.ReadStream | internal/adapter/anthropic.go:532-726 | the answer is complete iff each event met what its own block left open, every block closed and an end was said, other than by refusing; then text and reasoning are the words heard, and every call is that of one block, with its JSON end to end, or its initial input when there was none |
| BlockStream.AcceptedByLanes | internal/adapter/anthropic.go:546-705 | a stream is read without error iff every event meets what its own block left open, within the limit, and none is open at the end of the message |
| BlockStream.AStrayFragmentEnds | internal/adapter/anthropic.go:688-699 | after any events that do not end the message, an argument fragment for a block that is not open ends the answer |
| BlockStream.AWordThenAStrayFragment | internal/adapter/anthropic.go:688-699 | the shortest stream where that takes an answer already begun |
| BlockStream.StreamSaysItsFrames | internal/adapter/anthropic.go:532-726 | text and reasoning are the words of the events heard, each call what its block's events spell, in closing order |
| BlockStream.LaneCallsAreBlocks | internal/adapter/anthropic.go:586-699 | every call of a block index has an opening event that gives its id and name and a closing one, and carries the JSON between them, or the initial input |
| BlockStream.BlocksAreIndependent | internal/adapter/anthropic.go:546-660 | of two streams that give each block the same events one is read without error iff the other is, and if they close calls in the same order they send the same calls |
| EventStream.ReadsDoNotMatter | internal/adapter/wire.go:463-493 | the lines are those of the whole input for every cut into reads, a CR and its LF in different reads included |
| EventStream.EndWithLastRead | internal/adapter/wire.go:463-493 | when the end comes with the last bytes, the lines are right iff those bytes are not a pending LF with more behind it |
| EventStream.ALineIsLost | internal/adapter/wire.go:463-493 | the smallest input that loses a line |
| EventStream.SplitFunc.Call | internal/adapter/wire.go:463-493 | one call of the split function, with the flag it captures |
| EventStream.ScanLines | internal/adapter/wire.go:504-520 | the scanner's calling rule over reads of any size; its limit on one line is applied where the lines are read, in `ReadEvents` |
| EventStream.ReadEvents | internal/adapter/wire.go:504-565 | the payloads are those of the runs of lines up to a blank one, in order, up to the first that asks to stop; it fails iff an event before that has too much data or an overlong line |
| EventStream.DeliverEvents | internal/adapter/wire.go:504-565 | payloads and failure depend on the bytes alone, for every cut into reads; of any stream written as events within the limits it delivers what was written |
| EventStream.WrittenIsDelivered | internal/adapter/wire.go:504-565 | events written as any mix of data lines, with or without the space, bare data lines, comments and other fields, under any line ends and a mark or none, deliver the values of each joined by LF, in order, up to the first that asks to end |
| EventStream.PlainIsDelivered | internal/adapter/wire.go:504-565 | payloads written one to an event are delivered each once, in order, up to the first that asks to end |
| EventStream.LinesAreRead | internal/adapter/wire.go:463-493 | lines written with LF, CR or CR LF are read back as they were |
| EventStream.WhiteSpaceGoes | internal/adapter/wire.go:512-522 | white space around a payload is no part of it |
| EventStream.FailsAtTheFirstTooLarge | internal/adapter/wire.go:504-565 | reading fails iff some event's data or one of its lines outgrows its limit and no event before it asked to end; what was delivered by then are the payloads of the events before it |
| Transcript.BuiltIsWellFormed | internal/adapter/anthropic.go:280-409 | for any input the turns alternate, start with the user, are not empty, and open on no stranded result |
| Transcript.TurnsKeepEveryBlock | internal/adapter/anthropic.go:280-378 | grouping messages into turns neither loses nor reorders a block |
| Transcript.PartBecomes | internal/adapter/anthropic.go:284-332 | one more part of a message adds its text to the text, or one result, picture or call behind those it came with; results lead, text precedes pictures, calls come last |
| Transcript.MarkedPartsStay | internal/adapter/anthropic.go:333-361 | with a cache marker among them all parts keep their places, each with its own marker or none |
| Transcript.RepairCutsOnlyTheHead | internal/adapter/anthropic.go:381-409 | the repair drops only leading turns it must, and strips only the results of the turn it stops at |
| Transcript.ResultsGo | internal/adapter/anthropic.go:381-409 | of that turn's blocks exactly the results go, the others keeping their order |
| Transcript.AcceptedIsAnswered | internal/admin/assistant.go:70-122 | an accepted transcript uses no call id twice, and answers each message's calls exactly once right after it |
| Transcript.AcceptedIsWellBuilt | internal/admin/assistant.go:70-122 | its turns start and end with the user, alternate, lead with results, and answer exactly the calls of the turn before |
| Acceptance.AcceptedExactlyWhen | internal/admin/assistant.go:70-122 | a transcript is accepted iff it has 1 to 64 messages, opens with the user, does not close with the assistant, every message fits by itself, no call id is used twice, and each message's calls are answered exactly once right behind it |
| Acceptance.EveryMessageIsKept | internal/admin/assistant.go:78-116 | every message accepted becomes one message, its words and then its calls, or the result it gives, to the letter |
| Conversation.AssistantTranscript | internal/admin/assistant.go:70-122 | the loop accepts and converts exactly the transcripts the specification does |
| Conversation.TakeMessage | internal/admin/assistant.go:78-116 | one message taken, or the transcript refused at it |
| Conversation.MessageBlocks | internal/adapter/anthropic.go:284-361 | results, text, pictures and calls in that order, or the parts in place when one carries a cache marker |
| Conversation.BuildMessages | internal/adapter/anthropic.go:280-409 | the loops build the turns and the repaired head of the specification |
| Usage.OpenAiIsSound | internal/adapter/openai.go:447-471 | no count is negative and cache counts fit the input, whatever the provider sends |
| Usage.OpenAiTotalIsKept | internal/adapter/openai.go:447-471 | the provider's total is kept when it is either of the two sums it can be |
| Usage.OpenAiTotalOtherwise | internal/adapter/openai.go:447-471 | what is charged when it is neither |
| Usage.OpenAiFiguresAreKept | internal/adapter/openai.go:447-471 | every figure of a report that adds up is kept, cache hits and misses standing in for a prompt not given |
| Usage.AnthropicIsSound | internal/adapter/controls.go:139-148 | the same soundness for the other protocol's reports |
| Usage.AnthropicFiguresAreKept | internal/adapter/controls.go:139-148 | every figure reported is kept, and the input is what was read plain, from caches, and to fill them |
| Usage.FoldingIsAssociative | internal/adapter/controls.go:111-138 | how partial reports are grouped makes no difference |
| Usage.FoldingKeepsTheLatest | internal/adapter/controls.go:111-138 | what a later report gives counts, and what it leaves out stays |
| Usage.MergeIsSoundUnless | internal/adapter/adapter.go:332-355 | merging sound counts is sound iff no unreported input leaves larger caches behind |
| Usage.TheLatestReportCounts | internal/adapter/adapter.go:332-355 | of merged counts the latest reported input and output count, each with what belongs to it |
| Usage.AnEstimateLeavesCachesBehind | internal/adapter/adapter.go:332-355 | two sound values whose merge is not; no call merges such a pair |
| Usage.ReportsStaySound | internal/adapter/adapter.go:332-355 | any number of provider reports folds to sound counts |
| Usage.FillingKeepsReports | internal/adapter/estimate.go:73-97 | filling keeps every reported figure and marks what it estimated |
| Usage.FinishedPaysForItsAnswer | internal/adapter/estimate.go:73-97 | a finished call without a count is charged a token for every four bytes of its text and of each call, within one, and eight more for each call; its prompt as estimated, its reasoning by its bytes |
| Usage.StoppedPaysForWhatStreamed | internal/adapter/estimate.go:116-137 | a call that broke off pays at least what was reported and, within two tokens, the bytes it streamed; a complete report is the charge |
| Usage.ChatUsage | internal/adapter/adapter.go:507-545 | counting events as they pass gives the charge of the specification |
| Usage.ChargesAreSound | internal/adapter/adapter.go:497-545 | every call's charge is sound; an early end without a complete report pays for the bytes it streamed, and a good end that nobody counted for those of its text and calls |
| Usage.CallersAgree | internal/chat/chat.go:315-328 | a caller folding reports and then the charge ends with sound counts; they are the charge iff the call did not stop with reported reasoning, no reported output, less than a token of reasoning streamed and more text streamed than reported |
| Usage.ACallerCountsDroppedReasoning | internal/chat/chat.go:315-328 | a call where it does not |
| LimiterRules.KeysAreApart | internal/auth/limiter.go:419-433 | an attempt has its address key and its account key when each is given, those only, and never one twice |
| LimiterRules.TotalIsLinear | internal/auth/limiter.go:366-374 | ten backoffs take 1023 seconds, and each further one a quarter of an hour |
| LimiterRules.BackoffDoubles | internal/auth/limiter.go:366-374 | the first backoff is a second, and each up to the tenth is twice the one before |
| LimiterRules.OnlyIdleBucketsGo | internal/auth/limiter.go:258-401 | sweeping and evicting remove no bucket that is in flight or serving a block, and change no other |
| LimiterRules.IdleBucketsGo | internal/auth/limiter.go:387-401 | a sweep that is due leaves no bucket unused for half an hour that neither runs nor blocks |
| LimiterRules.BeginKeeps | internal/auth/limiter.go:218-256 | beginning an attempt keeps the invariant: cap, spacing, and a count of the attempts on every bucket |
| LimiterRules.FinishKeepsBuckets | internal/auth/limiter.go:135-187 | finishing one keeps every bucket's part of it |
| LimiterRules.FinishKeepsAttempts | internal/auth/limiter.go:135-187 | and drops nothing another running attempt needs |
| LimiterRules.RunKeeps | internal/auth/limiter.go:135-401 | so every run keeps it |
| LimiterRules.RefusedExactlyWhen | internal/auth/limiter.go:218-256 | in every reachable state an attempt is refused iff one of its keys has more wrong answers than it is free for and the backoff of the last is not over, or has attempts running that with its wrong answers are more; otherwise it runs and holds all its keys |
| LimiterRules.TheWaitIsOwed | internal/auth/limiter.go:227-246 | no wait is reported when no key must; otherwise that of the first that must, after which it owes nothing and before which it still does, or a second when attempts on it are running |
| LimiterRules.GuessingIsSlow | internal/auth/limiter.go:218-258 | however attempts overlap, the n-th wrong answer a bucket counts comes no sooner than the first past its allowance plus every backoff since |
| Guessing.SixteenInHalfAnHour | internal/auth/limiter.go:84-405 | over whole runs, however attempts overlap and buckets come and go, no half hour holds more than sixteen wrong answers against one account between two right ones; where clocks run out of lock order, the half hour shrinks by three times as much |
| Guessing.SeventeenTakeLong | internal/auth/limiter.go:366-374 | of seventeen wrong answers in a row that one bucket counts, the last comes half an hour after the first |
| Guessing.BeginOnAccount | internal/auth/limiter.go:218-405 | an entry leaves an account's bucket as it is, uses it, or finds it gone; a protected one is gone only after half an hour without use |
| LimiterRules.NoOutcomeIsLost | internal/auth/limiter.go:135-190 | a running attempt's buckets exist and count it, and past the allowance it runs alone |
| LimiterRules.BucketsEarnTheirPlace | internal/auth/limiter.go:183-187 | no empty bucket is kept, only account buckets are protected, and a block needs failures past the allowance |
| LimiterRules.AWalkMakesRoomOrTakesAll | internal/auth/limiter.go:265-290 | after a walk the reclaimable buckets fit the ceiling, or all that are left are in flight, blocked or the attempt's own |
| LimiterRules.AWalkTakesNoMore | internal/auth/limiter.go:265-344 | a walk takes buckets only over the ceiling, no more than the excess or a tenth of the ceiling, names first and the longest unused first |
| LimiterRules.ProtectionHolds | internal/auth/limiter.go:346-357 | a protected bucket keeps its failures unless idle or forgiven by a success on that name |
| LimiterRules.OnlyTheKnownAreProtected | internal/auth/limiter.go:150-187 | a bucket becomes protected by a right or wrong answer for its own account, when that is one known here, and by nothing else |
| LimiterRules.OnlyTheAccountIsForgiven | internal/auth/limiter.go:164-181 | a success forgives its account and nothing else |
| CredentialLimiter.Limiter.constructor | internal/auth/limiter.go:111-113 | a new limiter holds nothing and has never walked |
| CredentialLimiter.Limiter.Begin | internal/auth/limiter.go:218-256 | the whole new state of an attempt let in or refused, which it is, and how long the first refusing key makes it wait; `RefusedExactlyWhen` and `TheWaitIsOwed` tell both from what happened before |
| CredentialLimiter.Limiter.Finish | internal/auth/limiter.go:135-190 | an outcome is recorded on every bucket of the attempt, once; a second call changes nothing |
| CredentialLimiter.Limiter.MakeRoomFor | internal/auth/limiter.go:265-288 | when a walk happens, what it drops, and whether it made room |
| CredentialLimiter.Limiter.Evict | internal/auth/limiter.go:314-344 | the buckets that go are the least recently used names, then addresses, as many as wanted or all |
| CredentialLimiter.Limiter.OverCeiling | internal/auth/limiter.go:292-305 | the cached count of protected buckets gives the true excess |
| CredentialLimiter.Limiter.DropIdle | internal/auth/limiter.go:387-401 | exactly the forgettable buckets go |
| CredentialLimiter.Limiter.MarkMatched | internal/auth/limiter.go:350-356 | protection is one-way, only for accounts, and keeps the count |
| RankingCache.KeysTellApart | internal/admin/allowances.go:43-45 | two questions share a cache key only when they are the same question |
| RankingCache.NeverMoreRankings | internal/admin/usage.go:225-230 | whatever is written, no more than four rankings are held |
| RankingCache.ASummaryCostsARanking | internal/admin/usage.go:225-230 | writing a plain summary leaves the rankings alone iff fewer than four are held, and otherwise costs one |
| RankingCache.AFreshRankingIsLost | internal/admin/usage.go:225-230 | a run in which a summary takes a ranking that was still being served |
| RankingCache.HitsAreCurrent | internal/admin/usage.go:131-138 | a hit answers the question asked, from the current generation, and is less than 15 seconds old |
| RankingCache.RankingsAreFresh | internal/admin/allowances.go:141-182 | in every schedule no request gets a ranking whose build began before a write that was over when it started |
| RankingCache.CacheIsSmallAndCurrent | internal/admin/allowances.go:177-208 | in every schedule the cache holds at most four rankings, none of them stale |
| RankingCache.OneBuildAtATime | internal/admin/allowances.go:150-166 | no two unfinished builds answer the same question in the same generation |
| RankingReuse.ARankingIsServed | internal/admin/allowances.go:141-200 | in every schedule, for fifteen seconds after a build that no write overtook, whoever asks its question is given that ranking and nothing is built, as long as each step between resets nothing and what it writes goes elsewhere and finds room or an older ranking |
| RankingReuse.NobodyWaitsInVain | internal/admin/allowances.go:141-170 | in every schedule each request without an answer has a possible step of its own or of the build it waits for |
| RankingReuse.NoStepSetsBack | internal/admin/allowances.go:141-170 | no step sets a request back, and each of those brings it closer to its answer |
| UsageCache.TtlCache.Sweep | internal/admin/usage.go:142-151 | expired entries go once there are more than fifty, and no others |
| UsageCache.TtlCache.DeletePrefix | internal/admin/usage.go:161-167 | exactly the entries under the prefix go |
| UsageCache.OldestUnder | internal/admin/usage.go:172-188 | the entries under a prefix are counted and an oldest one is found |
| UsageCache.TtlCache.MakeRoomUnder | internal/admin/usage.go:172-188 | an oldest entry goes when the limit of others is reached, and nothing otherwise |
| UsageCache.SummaryCache.PutLocked | internal/admin/usage.go:225-230 | sweep, make room, then write |
| UsageCache.SummaryCache.ForgetAllowanceRankings | internal/admin/allowances.go:177-182 | every ranking goes and the generation moves on |
| UsageCache.SummaryCache.CacheRankingIfCurrent | internal/admin/allowances.go:193-200 | a ranking is stored only when its generation is still the current one |
| Announcement.NoStaleNotice | internal/announcement/announcement.go:173-305 | however saves and deletes overlap, once all have finished nothing unpublished or gone is in the bell |
| Announcement.StepAccounts | internal/announcement/announcement.go:248-305 | each transaction keeps it that a stale notice is one some save is about to look at |
| Announcement.ALateRetractSilences | internal/announcement/announcement.go:222-246 | a schedule that leaves a published announcement without its notice |
| Announcement.WillRingExactlyWhen | internal/announcement/announcement.go:248-305 | a published announcement is in the bell however the saves under way finish iff none of them is about to retract and its notice is there or about to be pushed |
| Announcement.APublishRingsExactlyWhen | internal/announcement/announcement.go:141-280 | the commit that publishes loudly rings for good, in every order of what is under way, iff no retraction of that announcement is |
| Verification.GuessesAreBudgeted | internal/auth/verify.go:289-448 | over any run without a success between them, no 24 hours hold more than five counted wrong guesses |
| Verification.WhatACodeSpends | internal/auth/verify.go:289-417 | a code entered leaves the budget alone, ends it with a success, or counts one guess more |
| Confirming.ACodeConfirmsExactlyWhen | internal/auth/verify.go:289-417 | in every reachable state a code confirms iff it is stored for the address the account is at, its ten minutes are not over, and the last five counted guesses do not each follow the one before within a day, and now the last: a code's own count of tries never refuses what these let through |
| Confirming.ALiveLinkConfirms | internal/auth/verify.go:202-262 | a mailed link confirms the account where it is iff it is live, which is what resends never take away |
| Confirming.AResendConfirms | internal/auth/verify.go:456-556 | in every reachable state an unconfirmed account with an address and nothing live of the last two minutes can be sent a credential; its link confirms for a day and its code for ten minutes |
| Spacing.ResendsAreSpaced | internal/auth/verify.go:456-556 | from any reachable state, however resends overlap and fail, no two begun since whose mail went out or may yet began within two minutes of each other |
| Verification.OnlyTheProvenAddress | internal/auth/verify.go:182-270 | however address changes interleave, a confirmed account is at the address its credential was issued for, or was moved to as confirmed |
| Verification.AResendNeverStrands | internal/auth/verify.go:456-556 | in every reachable state no step of a resend takes the last live credential |
| Verification.ResendsNeverStrand | internal/auth/verify.go:456-556 | from any reachable state, any number of overlapping resends leave a credential live at each time one was, up to a link's life less what a resend can take |
| Verification.CleanupTakesItsOwn | internal/auth/verify.go:499-517 | a failed send removes its own credential and no other |
| Verification.GuessKeeps | internal/auth/verify.go:433-448 | counting a guess below the limit keeps every sixth counted guess a day after the first of the six |
| Verifier.AccountStore.Verify | internal/auth/verify.go:202-262 | the transaction that follows a link: expired, confirmed, or spent for another address |
| Verifier.AccountStore.Compare | internal/auth/verify.go:342-360 | which codes are usable, whether one matches, whether one has lapsed |
| Verifier.AccountStore.CountTry | internal/auth/verify.go:391-401 | a wrong guess is counted against every usable code and no other |
| Verifier.AccountStore.EnterCode | internal/auth/verify.go:299-416 | the whole transaction that checks a code |
| Verifier.AccountStore.BeginResend | internal/auth/verify.go:462-497 | who may have a new link, and that one waits two minutes for the one before |
| Verifier.AccountStore.LatestUnexpired | internal/auth/verify.go:484-492 | the newest unexpired link decides that wait |
| Verifier.AccountStore.CommitResend | internal/auth/verify.go:519-556 | when a sent resend retires the other links |
| SlidingWindow.AdmittingKeepsTheBound | internal/auth/signup.go:117-150 | one admission after a count below the limit keeps "at most the limit in any window" |
| SlidingWindow.PruningIsInvisible | internal/auth/signup.go:154-165 | rows older than the window change no later count |
| SlidingWindow.RefusalLasts | internal/auth/signup.go:126-149 | until the oldest counted row leaves the window, a refused meter refuses |
| SlidingWindow.FarApartIsAtMost | internal/auth/verify.go:433-448 | guesses whose every sixth is a day after the first fit five in any day |
| Meters.SignupMeter.CheckSignupRate | internal/auth/signup.go:117-150 | who may sign up; that no sign-up passes before the wait it reports is over; and that then the limit that refused lets one in, and the sign-up passes if only the hour's did, when nobody signed up meanwhile |
| Meters.OldestLeaves | internal/auth/signup.go:126-149 | at the time a refusal is timed to, its limit lets one in, since no window ever held more than it |
| Meters.SignupMeter.RecordAccountCreation | internal/auth/signup.go:154-165 | recording and pruning keep both bounds over all sign-ups ever, not only the rows left |
| Meters.EmailScreens.Reserve | internal/auth/screen.go:32-63 | at most five screens in any hour, with the same promises about the wait: it is never too short either, though the comment there allows for that |
| Meters.NoticeFits | internal/auth/device.go:166-180 | a notice after a count below five keeps five in any hour, whatever order the clocks are in |
| Meters.Devices.RecordDevice | internal/auth/device.go:121-209 | which sign-ins are told of, what is recorded, and the bound on notices |

## Left out

- Announcement.NoStaleNotice: pushes and retractions that time out or fail half way; a push may only fail cleanly, and a retract succeeds.
- Announcement: the rows and notices are values and each transaction a step, since Dafny methods do not interleave; titles, bodies, pinning and read marks are not modelled.
- LimiterRules.GuessingIsSlow: bounds the answers one bucket counts between its creation or last forgiveness and its removal; after half an hour idle a bucket goes and the count starts again, as in the source. `Guessing.SixteenInHalfAnHour` is the bound across removals.
- LimiterRules.RefusedExactlyWhen: clock readings are not before the zero time.
- Guessing.SixteenInHalfAnHour: counts the answers that were wrong for the account itself. A spelling that names no account leaves an unprotected bucket, which may be evicted with its count, as in the source.
- CredentialLimiter.Limiter.Evict: the library sort is modelled by taking a first candidate repeatedly; candidates of one kind and age may go in either order. The lower-casing, trimming and digest of a name and the folding of an address are inputs.
- Verification.GuessesAreBudgeted: asks that clock readings under the row lock do not go back; with clocks that do, two budgets can fall in one day.
- Verification.ResendsNeverStrand, Spacing.ResendsAreSpaced: a resend's last transaction reads the clock within 95 seconds of its first: the 30 that internal/mail/mail.go:176 gives a send, the 5 of the commit, and a minute for all other delays.
- Confirming.AResendConfirms: nothing comes between the three steps of the resend; `Verification.ResendsNeverStrand` and `Confirming.ACodeConfirmsExactlyWhen` are about any interleaving.
- Verification: one reading of the clock per transaction, where the source takes two or three; codes, digests and tokens are opaque strings; the invite reward, and the branch for a locked row whose two spellings of one address disagree, are not modelled.
- Verifier.AccountStore.EnterCode: the test that a code is six digits precedes it in the source and is not modelled.
- Meters.SignupMeter.CheckSignupRate: the two limits are fixed for the meter's life; the very first account, which is made unchecked, and the per-process gate in front of the count are not modelled.
- RankingCache: expiry of a build, panics in a shared build and the wrap-around of the 64-bit generation; a failed build answers nothing.
- StreamReader: usage events, provider error frames, redaction and sink errors; a sink that fails ends the stream in the source.
- StreamReader.ReadStream: what a stream that does not end well returns besides its failure.
- BlockStream: usage reports, sink errors and the text of errors.
- ToolFilter: sink errors; the fields of the closing-tag search are part of the filter. Conclude's recursion stands for finish calling itself.
- ToolTranscript.RoundTrip: the JSON reader of a block is a parameter held to `Decodes`; decoding does not join surrogate pairs, which no quoted name holds. Go's limit of 10,000 nested values is `Json.MAX_DEPTH`.
- Replay.AResultReads: a result or a name that holds a tag is written with its tags broken, which `ToolTranscript.NoTagIsLeft` is about, and a name that needs quoting quoted.
- ToolPrompt: bytes cut inside a multi-byte character; the instructions and tool list that teach the protocol.
- EventStream: empty reads, and the reader's own size limit; trimming a payload uses ASCII white space. When the end comes together with the last bytes, a last line of exactly 1 MiB still fits the scanner; `ReadEvents` takes the end to be reported on its own.
- Transcript: how a call's arguments are re-encoded, image encoding, and the flag that says a picture was carried.
- Conversation.AssistantTranscript: `json.Valid` is a parameter, and the size of a message is counted in characters.
- Usage: the prompt estimate is a parameter; integers do not overflow.
- HTTP handlers, routing, JSON encoding, dialling, timeouts and SSH: plumbing.
- SQL text and both database engines: a transaction holding its lock is one step.
- Permission checks, settings tables, error translation, cookies, images, model listing, dashboards and the web front end: single-branch or field-copying code.
