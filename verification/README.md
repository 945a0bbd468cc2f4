# A verified model of the gpt-term conversation session

gpt-term is a terminal client for the OpenAI chat API. This project models
its conversation-session logic in Dafny and proves properties of that model.
Nothing that talks to the network, the terminal, the clipboard or the file
system is modelled. The parts modelled are these:

- the transcript (a list of messages headed by the system prompt) and the
  edits made to it: one chat turn (`handle`), deleting the first exchange,
  `/undo`, `/delete all` and changing the system prompt;
- the two token counters kept beside the transcript (`current_tokens`,
  `total_tokens_spent`), the per-model limit chosen by `set_model`, the
  offer to forget the first exchange, and the "approaching the limit"
  notice;
- the title machinery: the FIFO title queue, the worker serving it, and
  `gen_title` / `gen_title_silent` with their token accounting;
- assembling a streamed reply from server-sent events;
- the small helpers around the prompt:
  - tab completion of commands;
  - finding and cutting fenced code blocks for `/copy code`;
  - the file name `/save` proposes;
  - classifying a submitted line (command, empty, question, exit word);
  - the Enter and Esc+Enter key table;
  - the numeric validators;
  - the masked API key written to the log.

The repository holds three near-copies of the session class. They are one
model here, selected by `Session.Variant`:

- `Legacy` is `chat.py`;
- `Evolved` is `gpt_term/main.py`;
- `Refactored` is `gpt_term/Ai/AiClass.py`.

The tokenizer is an arbitrary non-negative price per message. The model only
relies on counts being sums of such prices. The server's answer to a request
is a value passed in (`Session.ServerOutcome`), and so are the user's answers
to `confirm` and `prompt`.

Modules, in dependency order:

| file | module | contents |
|---|---|---|
| common.dfy | `Common` | `Option`, prefix and substring tests, Python's `strip`, `lower` and slicing |
| tokens.dfy | `Tokens` | messages, the tokenizer, `count_token` |
| transcript.dfy | `Transcript` | the list edits: delete first exchange, undo, keep head, replace system prompt |
| stream.dfy | `Stream` | events and `process_stream_response` |
| session.dfy | `Session` | the session record, `handle`, the commands on it, limits and settings |
| titles.dfy | `TitleWorker` | the title queue, its worker, `gen_title*` |
| completion.dfy | `Completion` | `CustomCompleter.get_completions` |
| codeblocks.dfy | `CodeBlocks` | `copy_code` |
| input.dfy | `Input` | keys, line classification, command arguments, `/save` name, validators, key mask |

Three behaviours of the code worth noting, which the model keeps:

- Ctrl-C while `handle` waits for the server is not an `Exception`. It
  propagates past `handle`'s handler and leaves the question appended to the
  transcript (`Session.ServerOutcome.Aborted`); nothing rolls it back.
- `process_stream_response` returns from its `finally` clause. Any error
  while decoding an event is therefore swallowed, and the text gathered so
  far is returned (`Stream.Event.Garbled`).
- `total_tokens_spent` grows by the whole recounted transcript on every turn,
  not by the turn's own tokens (`Session.TotalAddsWholeTranscriptEachTurn`).
  This is how the API bills a request that re-sends the transcript, so it is
  not listed as a finding.

## Model

| member | source | states |
|---|---|---|
| Tokens.Count | gpt_term/Ai/AiClass.py:29-40 | With counting switched off every transcript costs 0; the empty transcript costs 0; otherwise the count covers at least the last message's price |
| Tokens.CountAppend | chat.py:361-369 | `count_token` is additive: the count of a concatenation is the sum of the counts of the parts |
| Tokens.CountSingle | chat.py:361-369 | A one-message list costs exactly that message's price, or 0 with counting switched off |
| Tokens.LegacyTokenizer | chat.py:367-368 | chat.py always counts, and a message costs the encoded length of its rendering `role: R, content: C` |
| Tokens.LegacyCountToken | chat.py:361-369 | chat.py's `count_token` loop, adding the encoded length of each rendering in order, gives exactly the count with chat.py's tokenizer |
| Tokens.CountMonotone | gpt_term/main.py:553-560 | Removing messages never raises the count: each part of a transcript costs at most the whole |
| Transcript.DeleteFirstExchange | gpt_term/main.py:206-212 | Below three messages nothing changes. Otherwise the head stays, one or two entries go (two exactly when `messages[2]` is an assistant reply), and the rest keep their order |
| Transcript.DeleteFirstExchangeLegacy | chat.py:151-169 | Below three messages nothing changes. Otherwise exactly `messages[1:3]` goes and the head and the rest stay in order |
| Transcript.DeleteFirstExchangeKeepsRoot | gpt_term/main.py:206-212 | Both deletions keep the system prompt at index 0 |
| Transcript.DeleteFirstExchangeSplits | gpt_term/main.py:206-212 | The transcript is head + removed exchange + rest, and the deletion yields exactly head + rest |
| Transcript.DeleteFirstExchangeSaves | gpt_term/main.py:218-220 | Old count minus new count is the price of the removed entries, for both variants |
| Transcript.DeleteFirstExchangeVariantsAgree | chat.py:158 | The chat.py and gpt_term/main.py deletions agree if and only if `messages[2]`, the entry after the first question, is an assistant reply |
| Transcript.UndoLast | gpt_term/main.py:755-759 | Nothing to undo at two messages or fewer; otherwise the result is a proper non-empty prefix, shorter by two exactly when the last entry was an assistant reply |
| Transcript.UndoRevertsTurn | gpt_term/main.py:755-759 | After appending a question and an assistant reply, undo gives back the transcript as it was |
| Transcript.UndoKeepsRoot | gpt_term/main.py:755-759 | Undo keeps the system prompt at the head |
| Transcript.KeepHead | gpt_term/main.py:775 | `del messages[1:]` leaves a prefix holding only the first message |
| Transcript.KeepHeadForgetsRest | gpt_term/main.py:775 | Clearing depends only on the head, leaves `[messages[0]]`, keeps it rooted, and is idempotent |
| Transcript.ReplaceSystem | gpt_term/Ai/AiClass.py:424-437 | Same length, same later entries, and only the head's content changes (to the new text) when the head is a system message |
| Transcript.ReplaceSystemRoundTrip | gpt_term/Ai/AiClass.py:424-437 | Putting the old prompt back restores the transcript; a rooted transcript stays rooted |
| Session.Init | gpt_term/main.py:93-113 | A new session is one system message holding the variant's default prompt, counted, with model `gpt-3.5-turbo` and the limit `set_model` would give that model (4096), nothing spent, no title and an empty title queue |
| Session.DefaultModelTier | gpt_term/main.py:102-104 | The default model `gpt-3.5-turbo` is in the `gpt-3.5-turbo` tier and no higher one, which is why it starts at 4096 |
| Session.LimitFor | chat.py:281-297 | The first tier named in the model decides: a name containing `gpt-4-32k` gets 32768, else one containing `gpt-4` gets 8192, else one containing `gpt-3.5-turbo` gets 4096, else -1 in the scripts. There is no comparable limit (NaN) exactly in the refactored class, for a name in none of the three tiers |
| Session.TieredModelHasLimit | gpt_term/main.py:482-487 | A model whose name contains `gpt-4` or `gpt-3.5-turbo` gets a positive limit in every variant |
| Session.LongestTierFirst | gpt_term/main.py:482-487 | A name containing `gpt-4-32k` also contains `gpt-4`, yet gets 32768: the order of the tests matters |
| Session.SetModel | gpt_term/Ai/AiClass.py:459-475 | Empty input changes nothing; otherwise model and limit change and the transcript, counters and title stay |
| Session.EvictionOffered | gpt_term/main.py:238 | No limit known (the refactored class's NaN) never offers eviction; the limit -1 given to an unknown model offers it at every count |
| Session.ApproachingLimit | gpt_term/main.py:253 | No limit known never shows the notice, and the notice never shows when eviction would be offered |
| Session.NoticeAndEvictionExclusive | gpt_term/main.py:238-255 | The notice and the eviction offer never apply together. Under the default limit the notice shows exactly for counts 3597..4095, because `range(1, 500)` excludes 500 |
| Session.DeleteFirst | gpt_term/main.py:206-225 | Below three messages nothing changes and no saving is reported. Otherwise the transcript becomes exactly the variant's first-exchange deletion, tokens are recounted, the reported saving is old counter minus new count, chat.py clears the title, and nothing but transcript, counter and title changes |
| Session.DeleteFirstSavesRemoved | chat.py:162-164 | With an up-to-date counter, the saving reported is the price of the removed entries, and so is never negative |
| Session.DeleteFirstExample | gpt_term/main.py:206-225 | Two answered exchanges become one, and the saving is positive when messages cost something |
| Session.Undo | chat.py:546-557 | Undo happens if and only if there are more than two messages, and then the transcript is exactly `UndoLast` of the old one; gpt_term/main.py recounts and chat.py keeps the old counter; nothing but transcript and counter changes |
| Session.UndoAfterTurn | gpt_term/main.py:755-767 | `/undo` after an answered turn restores the transcript from before the turn |
| Session.DeleteAll | gpt_term/Ai/AiClass.py:165-171 | Only `[messages[0]]` remains, recounted; the title is cleared except in chat.py; nothing but transcript, counter and title changes |
| Session.ModifySystemPrompt | gpt_term/Ai/AiClass.py:424-437 | With a system head only its content changes and tokens are recounted; without one nothing changes; length, later entries, title and total stay |
| Session.SetTemperature | gpt_term/Ai/AiClass.py:485-495 | Accepted if and only if the number parsed and lies in [0, 2] with both bounds included; a refused value leaves the session unchanged |
| Session.SetStreamOverflow | gpt_term/Ai/AiClass.py:439-456 | Streaming is on afterwards. The mode becomes `o` exactly when `o` is `ellipsis` or `visible`, and nothing else changes |
| Session.SetStreamOverflowIdempotent | gpt_term/Ai/AiClass.py:439-456 | Setting the same overflow mode twice is setting it once |
| Session.Enqueue | gpt_term/main.py:250-251 | Queueing a title job appends it at the back and adds one unfinished task; nothing else in the session changes |
| Session.Handle | gpt_term/main.py:227-265 | On failure the question is taken back, and eviction happens if and only if the limit is reached and the user agrees. On Ctrl-C the question stays. On success the same as `Session.Answer`: transcript, counter and total as there, exactly one title job and one unfinished task more on the first exchange and none otherwise, and nothing else changes. The total never shrinks |
| Session.Refuse | gpt_term/main.py:235-241 | A failed request leaves the session as it was unless the limit was reached and the user agreed; then the first exchange is forgotten. There is no reply, no notice, and the total is unchanged |
| Session.Answer | gpt_term/main.py:243-255 | Transcript becomes old + [question, reply], the counter matches it, and the total grows by the new count. The queue gains exactly the first question, behind the earlier jobs, and one unfinished task, when this is the first exchange, auto-title is on and the variant is not chat.py; otherwise queue and counter of tasks stay. Nothing else in the session changes, the title included. The notice shows if and only if 1..499 tokens are left |
| Session.HandleKeepsRoot | gpt_term/main.py:227-265 | Every turn keeps the system prompt at the head |
| Session.HandleKeepsConsistent | gpt_term/main.py:246-247 | Every turn that reached the server leaves the counter equal to the transcript's count |
| Session.TotalAddsWholeTranscriptEachTurn | gpt_term/main.py:119-122 | Two answered turns add the counts after each turn, so earlier messages are paid for again on every turn |
| Session.FirstTurnQueuesQuestion | gpt_term/main.py:249-250 | The first answered question of a fresh session gives three messages, a positive count, and exactly that question queued |
| Session.UnknownModelAlwaysOffersEviction | gpt_term/main.py:488-489 | As written: an unknown model gets -1, so every failed request offers to forget the first exchange, and it is forgotten when the user agrees |
| Session.UnknownModelNeverOffersEviction | gpt_term/Ai/AiClass.py:472-473 | Corrected: with no comparable limit a failed request never offers eviction, leaves the session alone, and shows no notice |
| Session.LegacyUndoLeavesStaleCount | chat.py:546-557 | As written: after chat.py's `/undo` a counter that matched the transcript no longer does |
| Session.UndoKeepsConsistent | gpt_term/main.py:755-767 | Corrected: recounting after `/undo` keeps the counter equal to the transcript's count |
| Stream.FirstStop | gpt_term/main.py:177-180 | The position of the first `[DONE]` or undecodable event: none before it stops, and the event there does |
| Stream.StreamReply | gpt_term/main.py:172-194 | The returned message always has role assistant |
| Stream.ProcessStream | gpt_term/main.py:172-194 | The loop returns the texts before the first stop, in order (an interrupt keeps what was read). Every buffer shown is a prefix of the next and of the reply, and the last one shown is the reply |
| Stream.StopsAtDone | gpt_term/main.py:178-180 | Events after `[DONE]` are ignored: the reply is exactly the texts before it |
| Stream.ContentlessChunkAddsNothing | gpt_term/main.py:182-184 | An event whose delta has no `content` adds nothing and does not move the stop |
| Stream.JoinedAppend | gpt_term/main.py:184 | Joining the texts of a concatenation is concatenating the joined parts |
| Stream.JoinedPrefix | gpt_term/main.py:184-188 | The text read up to a point is a prefix of the text read up to any later point |
| Stream.InterruptKeepsPrefix | gpt_term/main.py:189-191 | An interrupted stream returns a prefix of what the uninterrupted stream would have returned |
| Stream.HelloExample | gpt_term/main.py:172-194 | The fragments `He` and `llo` then `[DONE]` make the reply `Hello` |
| TitleWorker.GenTitleSilent | gpt_term/Ai/AiClass.py:248-273 | The transcript, counter and queue are untouched. Without a response the title is erased and the total stays. With one, the title is the reply and the total grows by the price of prompt plus reply |
| TitleWorker.WorkerStep | gpt_term/Ai/AiClass.py:275-299 | The oldest job is taken. A finished job sets the title to its reply, adds the request's price to the total and marks one task done. A crash marks every task done and leaves title and total as they were |
| TitleWorker.Drain | gpt_term/Ai/AiClass.py:275-299 | Jobs are served strictly first in, first out. Served + remaining = the old queue; transcript and counter are untouched; the total never shrinks; when the last job served finished, the title is its reply |
| TitleWorker.DrainCountsTasks | gpt_term/Ai/AiClass.py:280-297 | Serving n jobs marks n tasks done, and any crash among them drops the unfinished counter to 0 |
| TitleWorker.ZeroStaysZero | gpt_term/Ai/AiClass.py:296-297 | Once no task is unfinished, serving more jobs keeps it that way |
| TitleWorker.FifoAfterTurn | gpt_term/main.py:249-250 | A turn's title job is served after every job queued before it, and serving them all empties the queue |
| TitleWorker.Join | gpt_term/main.py:274-275 | `Queue.join` returns at once when no task is unfinished, and otherwise ends exactly when the worker has brought the counter to zero. Whether or not the wait ends, the jobs served stay served: what is left is a suffix of the queue, the counter never rises, transcript and token counter are untouched and the total is not lower. With unfinished tasks and no outcomes the wait is interrupted with the session as it was |
| TitleWorker.TasksQueuedPreserved | gpt_term/main.py:249-250 | Queueing a job and serving one both keep the unfinished counter at most the queue length |
| TitleWorker.JoinEnds | gpt_term/Ai/AiClass.py:280-297 | With the counter at most the queue length, one outcome per queued job is enough for `join` to return |
| TitleWorker.TitleAfterWait | gpt_term/main.py:276-289 | After the first wait: an existing title is returned at once unless forced; a forced or missing title queues `messages[1]` behind whatever is left, and the oldest queued job is the one served, its reply the answer and its price charged. Without an outcome for it the second wait is skipped with the new job queued. It is skipped exactly when a task is left unfinished |
| TitleWorker.GenTitle | gpt_term/main.py:267-289 | Below two messages the title is erased and there is no answer. Otherwise the first wait ends when no task is unfinished, not when the queue is empty, and then `TitleAfterWait` follows with the first question. An interrupted wait is skipped and keeps what the worker did meanwhile. With two messages or more, the call is skipped exactly when a task is left unfinished, and any other answer is the session's title. Only title, queue, counter of tasks and total can change |
| TitleWorker.InterruptedWaitKeepsServedWork | gpt_term/main.py:274-287 | When the first wait is interrupted after the worker finished one of two unfinished jobs, the call is skipped, and the session keeps that job's title and price, with the job gone from the queue |
| TitleWorker.GenTitleAnswers | gpt_term/main.py:273-289 | With every unfinished task queued, an outcome per queued job and one for the new request, `gen_title` is not skipped and answers with the session's title |
| TitleWorker.GenTitleKeepsExisting | gpt_term/main.py:273-277 | On an idle queue an existing title is returned unless forced, with no new job and nothing spent |
| TitleWorker.GenTitleForcedAsksFirstQuestion | gpt_term/main.py:281-284 | On an idle queue a forced regeneration asks about `messages[1]`, answers with the reply, and charges its price |
| TitleWorker.CrashEndsWait | gpt_term/Ai/AiClass.py:291-297 | A crash on the first job served ends a wait at once, with the rest of the queue left in place |
| TitleWorker.GenTitleServesOldest | gpt_term/main.py:279-284 | Once the first wait ends and a title is wanted, the oldest queued job is served after `messages[1]` is queued: its reply is the answer, its price is charged, and the rest of the queue stays |
| TitleWorker.GenTitleAfterCrash | gpt_term/main.py:273-284 | With jobs `a` and `b` queued and the worker crashing on `a` during the first wait, a forced `gen_title` is not skipped: the crash ends the wait with `b` still queued, `messages[1]` is queued behind it, `b` is served, its reply is the answer and its price is charged; the new job stays queued |
| TitleWorker.GenTitleLegacy | chat.py:209-241 | Below two messages the title is erased. An existing title is returned without a request. Otherwise a title comes back if and only if the request was answered; nothing is added to the total |
| TitleWorker.GenTitleLegacyAsksOnce | chat.py:209-214 | After an answered request has set a non-empty title, the next call returns that title without a request and changes nothing |
| Completion.Filter | chat.py:338-340 | Every candidate starting with the prefix is offered, nothing else is, and each replaces exactly the typed prefix |
| Completion.FilterAppend | chat.py:338-340 | Filtering keeps list order: filtering a concatenation concatenates the filtered parts |
| Completion.FilterEmptyPrefix | chat.py:338-340 | With nothing typed after the command, every candidate is offered in order, inserted at the cursor |
| Completion.Completions | chat.py:332-358 | Nothing unless the text starts with `/`. After `/model `, `/copy ` or `/delete ` exactly the models, copy actions or delete actions that start with the text after the command are offered, each replacing that text. Otherwise exactly the variant's commands that start with the whole text are offered, each replacing it |
| Completion.ArgumentFilter | chat.py:336-353 | The candidates offered for an argument are exactly those that start with the text after position n, each replacing that text |
| Completion.ArgumentCommandsDisjoint | chat.py:336-349 | Text starting with `/copy ` does not start with `/model `, and text starting with `/delete ` starts with neither, so the branch taken is the command typed |
| Completion.AcceptExtends | chat.py:332-358 | Accepting any suggestion only extends what was typed |
| Completion.SlashOffersAll | chat.py:355-358 | A bare `/` offers every command of the variant |
| Completion.LegacyLacksNewCommands | chat.py:309-311 | After `/us`, chat.py proposes nothing while gpt_term/main.py proposes `/usage`; after `/t` gpt_term/main.py also proposes `/title` |
| Completion.LegacyNeverOffersNewCommands | chat.py:309-311 | Whatever was typed, chat.py never proposes `/usage` or `/title` |
| Completion.OfferedAreListed | chat.py:332-358 | Every suggestion is a command of the variant, a model, a copy action or a delete action |
| Completion.OfferedModelsHaveLimits | gpt_term/main.py:517-524 | Every model offered after `/model` gets a positive limit from `set_model` in every variant |
| Completion.ModelExample | gpt_term/main.py:517-534 | After `/model gpt-4-3` exactly the two 32k models are offered, in list order |
| CodeBlocks.NextFence | gpt_term/main.py:587 | The first fence at or after a position, and no fence before it |
| CodeBlocks.LastFence | gpt_term/main.py:626 | `rfind` of a fence: a fence or -1, with no fence after it |
| CodeBlocks.Find | gpt_term/main.py:625 | `find`: the first position of the character, or -1 when it does not occur |
| CodeBlocks.Spans | gpt_term/main.py:587 | Matches run left to right without overlap. The first opens at the first fence, each ends at the nearest fence after its opening, and each next one opens at the first fence after the previous end. There is a match exactly when some fence is followed by another starting at least three characters later, and none is missed after the last one |
| CodeBlocks.SpansOfOne | gpt_term/main.py:587 | Two fences with none before, between or after them make exactly one block |
| CodeBlocks.Blocks | gpt_term/main.py:587 | `findall` gives one block per match, some exactly when a match exists, and each block opens and closes with a fence |
| CodeBlocks.ExtractCode | gpt_term/main.py:625-627 | The code cut out of a block is never longer than it, and when the first line break comes before the last fence it is the text from after that line break to one character before the fence |
| CodeBlocks.ExtractCodeRoundTrip | gpt_term/main.py:625-627 | Cutting a block written the usual way (fence, tag, line, code, line, fence) gives back the code, whatever it holds |
| CodeBlocks.SingleLineBlockKeepsOpeningFence | gpt_term/main.py:625-627 | A block with no line break keeps its opening fence and loses one character of code |
| CodeBlocks.OneBlockFences | gpt_term/main.py:587 | In text with one usual block and no other backticks, the first fence opens the block, the next one closes it, and none follows |
| CodeBlocks.OneBlockRoundTrip | gpt_term/main.py:587-593 | Such a reply yields exactly that block, and copying it gives the code |
| CodeBlocks.PyIndex | gpt_term/main.py:609 | Python indexing: defined if and only if `-len <= n < len`, and then the position is `n mod len` |
| CodeBlocks.SelectBlock | gpt_term/main.py:588-623 | No blocks: "No code found". One block and no index: that block. Otherwise a non-integer gives "not an integer"; an integer is out of range exactly when Python could not index with n - 1, and otherwise block n - 1 in Python's sense is copied, so 0 and negatives down to `-len + 1` wrap around. The out-of-range message names the single block when there is only one |
| CodeBlocks.SelectBlockStrict | gpt_term/main.py:608-623 | Corrected choice: no blocks means "No code found" and a single block without index is copied, as written. Otherwise a non-integer gives "not an integer" and an integer is out of range exactly when it is outside 1..len; the out-of-range message names the single block when there is only one |
| CodeBlocks.SelectBlockStrictInRange | gpt_term/main.py:618-619 | Corrected: a copy happens if and only if the index is within 1..len, and it is block n |
| CodeBlocks.SelectBlockAgreesInRange | gpt_term/main.py:608-623 | On non-integers and on indexes 1..len the as-written and corrected choices agree |
| CodeBlocks.IndexZeroWrapsAround | gpt_term/main.py:609 | As written: index 0 copies the last block and `1 - len` the first, where the corrected choice reports out of range |
| CodeBlocks.CopyCode | gpt_term/main.py:585-629 | "No code found" exactly when the reply has no block, that is exactly when it holds no fence followed by another starting at least three characters later |
| CodeBlocks.CopyCodeStrict | gpt_term/main.py:585-629 | The same for the corrected choice: "No code found" exactly when the reply holds no fence followed by another starting at least three characters later |
| Common.Lower | gpt_term/main.py:1012 | Lower-casing keeps the length and maps every character by `LowerChar` |
| Common.LowerIdempotent | gpt_term/main.py:1012 | Lower-casing twice is lower-casing once, and the result has no capitals |
| Common.TrimLeft | gpt_term/main.py:1012 | Drops exactly the leading characters for which Python's `isspace` holds: a suffix of the text whose first character is not white space |
| Common.TrimRight | gpt_term/main.py:1012 | Drops exactly the trailing characters for which Python's `isspace` holds: a prefix of the text whose last character is not white space |
| Common.PySlice | gpt_term/main.py:955 | A Python slice is never longer than the text, and is the plain slice when the bounds are in order and in range |
| Input.OnEnter | gpt_term/main.py:836-843 | Enter submits in single-line mode; in multi-line mode it submits exactly a command (stripped text starting with `/`) |
| Input.OnEscEnter | gpt_term/main.py:845-851 | Esc+Enter submits exactly in multi-line mode and breaks the line otherwise |
| Input.KeyTable | gpt_term/main.py:832-853 | Single-line: Enter submits and Esc+Enter breaks the line. Multi-line: Esc+Enter submits and Enter submits only a command. For non-commands exactly one of the two keys submits |
| Input.Classify | gpt_term/main.py:1011-1023 | A line is a command if and only if its raw text starts with `/`, and the command is stripped and lower-cased. An empty line is skipped. Any other line is sent as typed, and it is marked as ending the loop if and only if its lower-case form is an exit word (whether the loop then ends is `Input.EndsLoop`) |
| Input.EndsLoop | gpt_term/main.py:1011-1029 | The loop stops after a line only if the line is the command `/exit` (whose `EOFError` breaks the loop) or a question marked as an exit word. Among commands exactly `/exit` stops it, an empty line never does, a Ctrl-C during a question's request never does, and with any other outcome a question stops it exactly when it is an exit word |
| Input.ExitCommandEnds | gpt_term/main.py:793-794 | `/EXIT` with trailing blanks ends the loop whatever the outcome: it is stripped and lower-cased to `/exit`, which raises `EOFError` |
| Input.ExitWithWordContinues | gpt_term/main.py:793-797 | `/exit now` does not end the loop: `/exit` is matched only exactly, so the line prints the help |
| Input.InterruptedByeContinues | gpt_term/main.py:1019-1025 | `bye` interrupted while waiting keeps the loop going, and `Bye` whose request was refused ends it |
| Input.LeadingBlankAsks | gpt_term/main.py:1011 | A line with a blank before its slash is a question, not a command |
| Input.CommandNormalised | gpt_term/main.py:1012 | Trailing blanks after a command go and capitals fold, so the command read has no capitals |
| Input.ExitWordAnyCase | gpt_term/main.py:1022 | `BYE` ends the loop |
| Input.ExitWordWholeLine | gpt_term/main.py:1022 | `bye!` does not end the loop: only whole lines match |
| Input.WordLength | gpt_term/main.py:770 | The run of non-blank characters at the head ends at a blank or at the end |
| Input.Words | gpt_term/main.py:770 | `split()` gives non-empty words free of the white space Python's `isspace` recognises |
| Input.WordsKeepNoCapitals | gpt_term/main.py:770 | The words of a text without capitals have none |
| Input.SplitJoinRoundTrip | gpt_term/main.py:770 | Splitting undoes joining words with single blanks |
| Input.ParseCommand | gpt_term/main.py:642-796 | `/stream`, `/undo` and `/exit` only exactly; `/model`, `/save`, `/system`, `/title` and `/delete` by prefix; anything else is a display-only command. `/model` and `/save` take the second word when there is one, `/system` and `/title` all later words joined by single blanks, and `/delete` the second word, `first` when missing |
| Input.PrefixesDisjoint | gpt_term/main.py:644-794 | The eight command spellings exclude one another, so which branch reads a command does not depend on the order of the branches |
| Input.SaveNameIsLowerCase | gpt_term/main.py:702-706 | A file name typed after `/save` never holds a capital, because the line was lower-cased first |
| Input.DeleteArgument | gpt_term/main.py:769-778 | `/delete w` deletes the first exchange if and only if w is `first`, and clears the chat if and only if w is `all` |
| Input.DeleteGlued | gpt_term/main.py:769-784 | A word glued to `/delete` (as in `/deleteall`) is ignored and the first exchange is deleted |
| Input.RunModel | gpt_term/main.py:667-677 | `/model`: the model becomes the name unless it is empty or the current one, the limit becomes the name's tier exactly when the model changes, and nothing else changes |
| Input.RunSystem | gpt_term/main.py:718-728 | `/system`: a prompt different from a system head's content replaces it, keeps every later message and leaves the counter in step with the transcript; the same prompt, or a head that is not a system message, changes nothing; only transcript and counter can change |
| Input.RunTitle | gpt_term/main.py:730-741 | `/title`: words become the title and nothing else changes; without words a title is generated by force (`gen_title(force=True)`); the transcript and counter stay, the total never shrinks. chat.py has no `/title` and its line prints the help |
| Input.RunSave | gpt_term/main.py:702-716 | `/save`: a file name leaves the session as it was; without one `gen_title()` runs first (chat.py's blocking request), with its effect on title, queue and total. Transcript and counter stay, the total never shrinks, and in chat.py it does not change |
| Input.Dispatch | gpt_term/main.py:642-796 | Each parsed command does what its branch does: `/stream` flips the stream mode; `/model`, `/system`, `/save` and `/title` run the steps above with the argument or the answer typed at the prompt; `/undo` and `/delete` edit the transcript; `/exit`, an unknown `/delete` argument and display-only commands change nothing. Each command changes only its own fields, no command adds a message, the head keeps its role (and is the same message except after `/system`), the total never shrinks, and outside chat.py a counter in step with the transcript stays in step |
| Input.DispatchKeepsRoot | gpt_term/main.py:642-796 | No command removes the system prompt from the head |
| Input.Sanitize | gpt_term/main.py:710 | The result has no forbidden character, is no longer than the title, and is the title itself when that is already clean |
| Input.SanitizeKeepsAllowed | gpt_term/main.py:710 | A character survives if and only if it was in the title and is allowed |
| Input.SanitizeAppend | gpt_term/main.py:710 | Sanitising distributes over concatenation, so the kept characters keep their order |
| Input.SanitizeIdempotent | gpt_term/main.py:710 | Sanitising twice is sanitising once |
| Input.SanitizersNest | chat.py:515 | gpt_term/main.py removes everything chat.py removes: its result is clean for chat.py too, and pre-sanitising the chat.py way changes nothing |
| Input.DefaultSaveName | gpt_term/main.py:707-715 | The proposed name always starts with the save prefix (fixed `./chat_history_` in chat.py). With a non-empty title it is prefix + sanitised title + `.json`, the middle free of forbidden characters; otherwise prefix + time stamp + `.json` |
| Input.SaveTarget | gpt_term/main.py:702-716 | A name given with the command wins; otherwise what is typed at the prompt is used, and with nothing typed the proposed name |
| Input.CommandWordsLowerCase | gpt_term/main.py:1011-1012 | A prompt given with `/system` and a title given with `/title` never hold a capital letter, because the command line is lower-cased before it is read |
| Input.LaterWordsKeepNoCapitals | gpt_term/main.py:721 | The later words of a text without capitals, joined, have none |
| Input.JoinKeepsNoCapitals | gpt_term/main.py:733 | `' '.join` of words without capitals has none |
| Input.TitledDefaultShape | gpt_term/main.py:709-711 | With a non-empty title the name is prefix + sanitised title + `.json`, and the middle is clean |
| Input.ForbiddenOnlyTitle | gpt_term/main.py:708-711 | A title made only of forbidden characters still counts, giving the bare prefix + `.json` |
| Input.Decimal | gpt_term/main.py:563-568 | A number's decimal spelling is non-empty and all digits |
| Input.NumberValid | gpt_term/main.py:563-568 | An accepted answer is non-empty and holds no minus sign, point or blank: negative and fractional indexes are refused |
| Input.DecimalRoundTrip | gpt_term/main.py:563-568 | `NumberValidator` accepts every number's spelling, and reading it back gives the number |
| Input.NumberValidExamples | gpt_term/main.py:563-568 | The empty answer and `-1` are refused, `12` is accepted |
| Input.CheckRange | gpt_term/Utils/utils.py:30-35 | In range if and only if neither given bound is crossed. Below the minimum if and only if a minimum is given and the value is under it (checked first) |
| Input.CheckRangeBounds | gpt_term/Utils/utils.py:30-35 | The bounds themselves pass, and with no bounds everything passes |
| Input.TemperatureMatchesValidator | gpt_term/Ai/AiClass.py:485-495 | `set_temperature` accepts exactly what a validator over [0, 2] lets through |
| Input.MaskKey | gpt_term/main.py:955 | The masked key keeps the first three characters of a key of three or more, and the characters from the fourth up to the last four are stars |
| Input.MaskKeyLong | gpt_term/main.py:955 | A key of seven characters or more keeps its length, its first three and last four characters, and is starred in between |
| Input.MaskKeyShort | gpt_term/main.py:955 | A key of seven characters or fewer gains no stars, and one of exactly seven is logged in full |

## Left out

- HTTP and server-sent-event decoding (`send_request`, `send_request_silent`, `send_get`, `sseclient`): the outcome of a request is an input value.
- Credit-usage fetching (`get_credit_usage` and its helpers): threads, dates and dollar amounts, outside the session logic.
- Rendering: `rich` output, `Live` and `Markdown`, `print_message`, terminal titles and screen clearing. Only the sequence of buffers the live display receives is kept (`Stream.ProcessStream`).
- Concurrency: the worker thread and `threading.Lock`. The worker is run step by step with the outcomes supplied, a blocking `Queue.join` is the worker serving jobs until the counter is zero (`TitleWorker.Join`), and `add_total_tokens` is a plain addition. A job the worker has taken but not finished is never observed.
- tiktoken: the encoder is an arbitrary non-negative price per message. chat.py's rendering `"role: R, content: C"` is kept (`Tokens.LegacyTokenizer`); the other files price `str(message)`, which is not modelled.
- File and configuration I/O: `save_chat_history`, `save_chat_history_urgent`, `load_chat_history`, `config.ini`, argparse, data directories. `/save` ends at the chosen file name.
- The emergency path: an unexpected exception in `handle` or `gen_title` saves a backup and raises `EOFError`, which ends the program. It is not an outcome here.
- Float parsing: `float(...)` in `set_temperature`, `set_timeout` and `FloatRangeValidator`. The parsed value is a `real`, or `None` when parsing fails. NaN, which `float("nan")` accepts and every bound check then lets through, has no counterpart.
- The commands that change no state modelled here: `/raw` (display only), `/multi` (the multi-line flag is the `multiLine` parameter of `Input.OnEnter`), `/tokens`, `/usage`, `/last`, `/copy` (the clipboard; `/copy code` is `CodeBlocks.CopyCode`), `/timeout` and `set_timeout` (the timeout is a float not kept in the session), `/version` and the help. `Input.Dispatch` leaves the session unchanged for them.
- Input.Dispatch: no longer promises that the total and the title queue stay unchanged, nor that model, limit and stream mode do. `/save` without a name and `/title` without words run `gen_title`, which may serve the title queue and charge tokens, and `/model` and `/stream` change model, limit and stream mode; the contract now states what each command changes instead.
- Input.RunSystem: on an empty transcript the source's `messages[0]` would raise; no session reaches that state, and the model leaves such a session unchanged.
- Session.Handle: the kind of answer passed in (`Batch` or `Streamed`) is not tied to `streamMode`, although `process_response` picks it by that mode (gpt_term/main.py:196-204). Every property of `Handle` holds for both kinds; `/stream` flips the mode (`Input.Dispatch`).
- Session.Init: models the constructors of gpt_term/main.py and chat.py. The refactored class's constructor (gpt_term/Ai/AiClass.py:23-28) sets none of the session fields; its methods rely on fields set elsewhere, so the refactored variant is given the same start state as gpt_term/main.py.
- Interactive input: `prompt` and `confirm` answers are parameters (`confirmEvict`, `typed`, `answer`).
- The `poe` key mode of the refactored class, and gpt_term/Ai/Poe.py: a wrapper over an external client.
- The clipboard write in `copy_code`: the result says what would be copied. gpt_term/Utils/utils.py holds an uncalled copy of `copy_code` (lines 37-81, which also uses `pyperclip` and `style` without importing them); the model follows the copy gpt_term/main.py calls.
- Packaging and translations (setup.py, gpt_term/locale.py).
- Common.Lower: only ASCII capitals are folded. Python's `str.lower` also folds other Unicode capitals (and `str.isdigit` accepts other digits, see below). None of the exit words or command names depends on that. `strip` and `split` use the full set of characters `str.isspace` accepts (`Common.IsSpace`).
- Input.NumberValidExamples: `NumberValidator` uses `isdigit`, which accepts more than ASCII digits (superscripts, other scripts). Only ASCII digits are modelled.
- Session.ModifySystemPrompt: requires a non-empty transcript. The source indexes `messages[0]` unguarded and would raise on an empty list, which no session reaches.
- chat.py's key bindings: chat.py binds only Enter, with the same rule as gpt_term/main.py. Esc+Enter there falls back to prompt_toolkit's default, which is not modelled.
- TitleWorker.GenTitleLegacy: chat.py's title request has its own prompt, model and temperature, which are not modelled; only whether it was answered matters, and its tokens are not added to the total.

## Findings

| source | as written | input that shows it | evidently intended | confidence | as-written member | corrected member |
|---|---|---|---|---|---|---|
| gpt_term/main.py:488-489 | An unknown model gets the limit -1, and `current_tokens >= tokens_limit` then holds for every count | `/model claude-2`, then any failed request: the user is asked to forget the earliest message | No limit known, so no eviction offer (the refactored class uses NaN for this) | not executed | Session.UnknownModelAlwaysOffersEviction | Session.UnknownModelNeverOffersEviction |
| chat.py:546-557 | `/undo` pops the last turn but does not recount `current_tokens` | Transcript `[system, user, assistant]` with one token per message: after `/undo` the counter still says 3 for one message | Recount after removing messages, as gpt_term/main.py:765 does | not executed | Session.LegacyUndoLeavesStaleCount | Session.UndoKeepsConsistent |
| gpt_term/main.py:609 | `code_list[int(select_code_idx)-1]` uses Python's negative indexing | `/copy code 0` with two blocks copies the second block instead of reporting "range 1 ~ 2" | Only indexes 1..len select a block | not executed | CodeBlocks.IndexZeroWrapsAround | CodeBlocks.SelectBlockStrictInRange |
