/** The chat session: transcript, token counters, model limit, title state,
    and the operations of one turn and of the transcript commands.

    The three snapshots of the session class differ in small ways; `Variant`
    names the snapshot and each operation branches on it where they differ. */
module Session {
  import opened Common
  import opened Tokens
  import opened Transcript
  import opened Stream

  /** Which snapshot of the session class is meant. */
  datatype Variant =
    | Legacy      // chat.py
    | Evolved     // gpt_term/main.py
    | Refactored  // gpt_term/Ai/AiClass.py

  /** The session's state. `limit` is `tokens_limit`, with `None` for the
      refactored class's NaN; `titleJobs` and `unfinished` are the contents and
      the `unfinished_tasks` counter of the title queue. */
  datatype Session = Session(
    messages: seq<Message>,
    model: string,
    limit: Option<int>,
    currentTokens: nat,
    totalTokensSpent: nat,
    title: Option<string>,
    titleJobs: seq<string>,
    unfinished: nat,
    autoTitle: bool,
    temperature: real,
    streamOverflow: string,
    streamMode: bool)

  /** `current_tokens` is the count of the live transcript. */
  predicate Consistent(tok: Tokenizer, s: Session) {
    s.currentTokens == Count(tok, s.messages)
  }

  /** The system prompt each script starts with; `today` is the date the
      evolved script writes into it. */
  function DefaultSystemPrompt(v: Variant, today: string): string {
    if v == Legacy then LegacySystemPrompt else DatedSystemPrompt + today
  }

  const LegacySystemPrompt: string := "You are a helpful assistant."

  const DatedSystemPrompt: string := "You are a helpful assistant.\nKnowledge cutoff: 2021-09\nCurrent date: "

  /** The model a session starts with. */
  const DefaultModel: string := "gpt-3.5-turbo"

  /** The constructor: one system message, model `gpt-3.5-turbo` with its
      4096-token limit, counters at their start values, no title, an empty
      title queue. Temperature and overflow mode are given by the caller. */
  function Init(v: Variant, tok: Tokenizer, today: string, autoTitle: bool, temperature: real, overflow: string): (s: Session)
    ensures Rooted(s.messages) && |s.messages| == 1 && Consistent(tok, s)
    ensures s.limit == Some(4096) && s.totalTokensSpent == 0 && s.title.None?
    ensures s.titleJobs == [] && s.unfinished == 0
    ensures s.messages[0].content == DefaultSystemPrompt(v, today)
    ensures s.model == DefaultModel && s.limit == LimitFor(v, s.model)
  {
    DefaultModelTier();
    var ms := [Message(System, DefaultSystemPrompt(v, today))];
    Session(ms, DefaultModel, Some(4096), Count(tok, ms), 0, None, [], 0,
            autoTitle, temperature, overflow, true)
  }

  // ---------------------------------------------------------------------
  // Model and limits

  /** A name in the `gpt-4` or `gpt-3.5-turbo` tier gets a positive limit,
      in every variant. */
  lemma TieredModelHasLimit(v: Variant, model: string)
    requires Contains(model, "gpt-4") || Contains(model, "gpt-3.5-turbo")
    ensures LimitFor(v, model).Some? && LimitFor(v, model).value > 0
  {
    if !Contains(model, "gpt-4-32k") && !Contains(model, "gpt-4") {
      assert LimitFor(v, model) == Some(4096);
    }
  }

  /** The default model is in the `gpt-3.5-turbo` tier and in no higher one. */
  lemma DefaultModelTier()
    ensures Contains(DefaultModel, "gpt-3.5-turbo")
    ensures !Contains(DefaultModel, "gpt-4")
  {
    assert "gpt-3.5-turbo" <= DefaultModel;
    assert forall i :: 0 <= i < |DefaultModel| ==> DefaultModel[i] != '4';
    MissingCharNotContained(DefaultModel, "gpt-4", 4);
  }

  /** The limit `set_model` picks: the first of `gpt-4-32k`, `gpt-4`,
      `gpt-3.5-turbo` occurring in the name decides; any other name gets -1
      in the scripts and NaN (here `None`) in the refactored class. */
  function LimitFor(v: Variant, model: string): (r: Option<int>)
    ensures r.Some? ==> r.value in {32768, 8192, 4096, -1}
    ensures r.None? <==> v == Refactored && !Contains(model, "gpt-4-32k") && !Contains(model, "gpt-4")
                         && !Contains(model, "gpt-3.5-turbo")
    ensures Contains(model, "gpt-4-32k") ==> r == Some(32768)
    ensures !Contains(model, "gpt-4-32k") && Contains(model, "gpt-4") ==> r == Some(8192)
    ensures !Contains(model, "gpt-4") && Contains(model, "gpt-3.5-turbo") ==> r == Some(4096)
    ensures v != Refactored && !Contains(model, "gpt-4") && !Contains(model, "gpt-3.5-turbo") ==> r == Some(-1)
  {
    if Contains(model, "gpt-4-32k") then
      ContainsPrefixOf(model, "gpt-4-32k", "gpt-4");
      Some(32768)
    else if Contains(model, "gpt-4") then Some(8192)
    else if Contains(model, "gpt-3.5-turbo") then Some(4096)
    else if v == Refactored then None
    else Some(-1)
  }

  /** Every name containing `gpt-4-32k` also contains `gpt-4`, so only the
      order of the tests gives the 32k models their limit. */
  lemma LongestTierFirst(model: string)
    requires Contains(model, "gpt-4-32k")
    ensures Contains(model, "gpt-4")
    ensures LimitFor(Evolved, model) == Some(32768)
  {
    ContainsPrefixOf(model, "gpt-4-32k", "gpt-4");
  }

  /** `set_model`: empty input changes nothing; otherwise the model and its
      limit are replaced and nothing else changes. */
  function SetModel(v: Variant, s: Session, name: string): (r: Session)
    ensures name == "" ==> r == s
    ensures name != "" ==> r.model == name && r.limit == LimitFor(v, name)
    ensures r.messages == s.messages && r.currentTokens == s.currentTokens
    ensures r.totalTokensSpent == s.totalTokensSpent && r.title == s.title
  {
    if name == "" then s else s.(model := name, limit := LimitFor(v, name))
  }

  /** Whether a failed request offers to forget the first exchange:
      `current_tokens >= tokens_limit`, which is false against NaN. */
  predicate EvictionOffered(limit: Option<int>, current: int): (b: bool)
    ensures limit.None? ==> !b
    ensures limit == Some(-1) && current >= 0 ==> b
  {
    limit.Some? && current >= limit.value
  }

  /** Whether the "approaching the tokens limit" notice is shown:
      `tokens_limit - current_tokens in range(1, 500)`, false against NaN. */
  predicate ApproachingLimit(limit: Option<int>, current: int): (b: bool)
    ensures limit.None? ==> !b
    ensures b ==> !EvictionOffered(limit, current)
  {
    limit.Some? && 1 <= limit.value - current <= 499
  }

  /** The notice and the eviction offer never apply together, and with the
      default limit the notice is shown for exactly the 499 counts below it. */
  lemma NoticeAndEvictionExclusive(limit: Option<int>, current: int)
    ensures ApproachingLimit(limit, current) ==> !EvictionOffered(limit, current)
    ensures ApproachingLimit(Some(4096), current) <==> 3597 <= current <= 4095
    ensures !ApproachingLimit(Some(4096), 3596) && ApproachingLimit(Some(4096), 3597)
  {
  }

  // ---------------------------------------------------------------------
  // Transcript commands

  /** The outcome of `delete_first_conversation`: the new session, and the
      `tokens_saved` it reports (`None` for "No conversations yet"). */
  datatype Deleted = Deleted(session: Session, saved: Option<int>)

  /** `delete_first_conversation`: below three messages nothing changes;
      otherwise the first exchange goes (in chat.py always two entries, and
      the title is cleared), tokens are recounted, and the saving is the old
      counter minus the new count. */
  function DeleteFirst(v: Variant, tok: Tokenizer, s: Session): (d: Deleted)
    ensures d.saved.None? <==> |s.messages| < 3
    ensures d.saved.None? ==> d.session == s
    ensures d.saved.Some? ==>
      && Consistent(tok, d.session)
      && d.saved.value == s.currentTokens - d.session.currentTokens
      && |d.session.messages| >= 1 && d.session.messages[0] == s.messages[0]
      && d.session.title == (if v == Legacy then None else s.title)
    ensures d.saved.Some? ==>
      d.session.messages == (if v == Legacy then DeleteFirstExchangeLegacy(s.messages) else DeleteFirstExchange(s.messages))
    ensures d.session.totalTokensSpent == s.totalTokensSpent
    ensures d.session == s.(messages := d.session.messages, currentTokens := d.session.currentTokens,
                            title := d.session.title)
  {
    if |s.messages| < 3 then Deleted(s, None)
    else
      var ms := if v == Legacy then DeleteFirstExchangeLegacy(s.messages) else DeleteFirstExchange(s.messages);
      var n := Count(tok, ms);
      Deleted(s.(messages := ms, currentTokens := n, title := if v == Legacy then None else s.title),
              Some(s.currentTokens - n))
  }

  /** When the counter was up to date, the reported saving is the price of
      the removed exchange, so it is never negative. */
  lemma DeleteFirstSavesRemoved(v: Variant, tok: Tokenizer, s: Session)
    requires Consistent(tok, s) && |s.messages| >= 3
    ensures DeleteFirst(v, tok, s).saved
         == Some(Count(tok, s.messages[1..1 + (if v == Legacy then 2 else FirstExchangeSize(s.messages))]))
    ensures DeleteFirst(v, tok, s).saved.value >= 0
  {
    DeleteFirstExchangeSaves(tok, s.messages);
  }

  /** The outcome of `/undo`: the new session and whether anything was undone
      (`false` prints "Nothing to undo."). */
  datatype Undone = Undone(session: Session, undone: bool)

  /** `/undo`: above two messages the last turn is taken back; gpt_term/main.py
      recounts `current_tokens` afterwards, chat.py does not. */
  function Undo(v: Variant, tok: Tokenizer, s: Session): (u: Undone)
    ensures !u.undone <==> |s.messages| <= 2
    ensures !u.undone ==> u.session == s
    ensures u.undone ==> u.session.messages <= s.messages && |u.session.messages| >= 1
    ensures u.undone ==>
      u.session.currentTokens == (if v == Legacy then s.currentTokens else Count(tok, u.session.messages))
    ensures u.undone ==> u.session.messages == UndoLast(s.messages).value
    ensures u.session.title == s.title && u.session.totalTokensSpent == s.totalTokensSpent
    ensures u.session == s.(messages := u.session.messages, currentTokens := u.session.currentTokens)
  {
    match UndoLast(s.messages)
    case None => Undone(s, false)
    case Some(ms) =>
      Undone(s.(messages := ms, currentTokens := if v == Legacy then s.currentTokens else Count(tok, ms)), true)
  }

  /** `/delete all`: only the system prompt is kept and tokens are recounted;
      gpt_term/main.py and the refactored class also clear the title,
      chat.py keeps it. */
  function DeleteAll(v: Variant, tok: Tokenizer, s: Session): (r: Session)
    ensures r.messages == KeepHead(s.messages) && Consistent(tok, r)
    ensures r.title == (if v == Legacy then s.title else None)
    ensures r.totalTokensSpent == s.totalTokensSpent && r.titleJobs == s.titleJobs
    ensures r == s.(messages := r.messages, currentTokens := r.currentTokens, title := r.title)
  {
    var ms := KeepHead(s.messages);
    s.(messages := ms, currentTokens := Count(tok, ms), title := if v == Legacy then s.title else None)
  }

  /** `modify_system_prompt`: with a system message at the head its content
      is replaced and tokens are recounted; otherwise nothing changes. */
  function ModifySystemPrompt(tok: Tokenizer, s: Session, content: string): (r: Session)
    requires |s.messages| >= 1
    ensures s.messages[0].role == System ==>
      r.messages == ReplaceSystem(s.messages, content) && Consistent(tok, r)
    ensures s.messages[0].role != System ==> r == s
    ensures |r.messages| == |s.messages| && r.messages[1..] == s.messages[1..]
    ensures r.title == s.title && r.totalTokensSpent == s.totalTokensSpent
  {
    if s.messages[0].role == System then
      var ms := ReplaceSystem(s.messages, content);
      s.(messages := ms, currentTokens := Count(tok, ms))
    else s
  }

  // ---------------------------------------------------------------------
  // Settings

  /** The outcome of a setting command: the session and whether the value
      was accepted. */
  datatype Setting = Setting(session: Session, accepted: bool)

  /** `set_temperature`: `t` is the parsed number, `None` when `float()`
      rejects the text. Accepted exactly inside [0, 2], bounds included; a
      rejected value leaves the session as it was. */
  function SetTemperature(s: Session, t: Option<real>): (r: Setting)
    ensures r.accepted <==> t.Some? && 0.0 <= t.value <= 2.0
    ensures r.accepted ==> r.session == s.(temperature := t.value)
    ensures !r.accepted ==> r.session == s
  {
    if t.None? then Setting(s, false)
    else if t.value > 2.0 || t.value < 0.0 then Setting(s, false)
    else Setting(s.(temperature := t.value), true)
  }

  /** `set_stream_overflow`: streaming is switched on in every case; the
      overflow mode moves only to a different one of `ellipsis` and
      `visible`, any other text leaves it as it was. */
  function SetStreamOverflow(s: Session, o: string): (r: Session)
    ensures r.streamMode
    ensures r.streamOverflow == (if o == "ellipsis" || o == "visible" then o else s.streamOverflow)
    ensures r == s.(streamMode := true, streamOverflow := r.streamOverflow)
  {
    var on := s.(streamMode := true);
    if o == s.streamOverflow then on
    else if o == "ellipsis" || o == "visible" then on.(streamOverflow := o)
    else on
  }

  /** Choosing the same overflow mode twice is choosing it once. */
  lemma SetStreamOverflowIdempotent(s: Session, o: string)
    ensures SetStreamOverflow(SetStreamOverflow(s, o), o) == SetStreamOverflow(s, o)
  {
  }

  // ---------------------------------------------------------------------
  // One chat turn

  /** What the server did with a request, as `handle` experiences it. */
  datatype ServerOutcome =
    | Failed                                                   // `send_request` returned None: 4xx, timeout, transport error
    | Aborted                                                  // Ctrl-C while waiting: re-raised out of `handle`
    | Batch(reply: Message)                                    // stream mode off: `choices[0].message`
    | Streamed(events: seq<Event>, interruptAfter: Option<nat>) // stream mode on

  /** The assistant message a successful outcome yields. */
  function ReplyOf(o: ServerOutcome): Message
    requires o.Batch? || o.Streamed?
  {
    if o.Batch? then o.reply else StreamReply(o.events, o.interruptAfter)
  }

  /** The title queue's `put`: the job is appended and one more task is
      unfinished. */
  function Enqueue(s: Session, content: string): (r: Session)
    ensures r.titleJobs == s.titleJobs + [content] && r.unfinished == s.unfinished + 1
    ensures r == s.(titleJobs := r.titleJobs, unfinished := r.unfinished)
  {
    s.(titleJobs := s.titleJobs + [content], unfinished := s.unfinished + 1)
  }

  /** Whether a successful turn queues the first question for a title: it
      completes the first exchange (`len(messages) == 3` afterwards) with
      background titles on, outside chat.py. */
  predicate FirstExchange(v: Variant, s: Session) {
    v != Legacy && |s.messages| == 1 && s.autoTitle
  }

  /** The result of one turn: the session after it, the reply `handle`
      returns, whether the first exchange was forgotten, and whether the
      approaching-limit notice was shown. */
  datatype Turn = Turn(session: Session, reply: Option<Message>, evicted: bool, notice: bool)

  /** `handle(message)`: the question is appended and sent. On failure it is
      taken back, and if the limit was reached the user (`confirmEvict`) may
      forget the first exchange. On success the reply is appended, tokens are
      recounted, the new count is added to the total, the first question is
      queued for a title when this was the first exchange (not in chat.py),
      and the notice is shown when fewer than 500 tokens are left. */
  function Handle(v: Variant, tok: Tokenizer, s: Session, text: string, outcome: ServerOutcome, confirmEvict: bool): (t: Turn)
    ensures outcome.Failed? ==>
      && t.reply.None? && !t.notice
      && (t.evicted <==> EvictionOffered(s.limit, s.currentTokens) && confirmEvict)
      && (!t.evicted ==> t.session == s)
      && (t.evicted ==> t.session == DeleteFirst(v, tok, s).session)
    ensures outcome.Aborted? ==>
      t.session == s.(messages := s.messages + [Message(User, text)]) && t.reply.None?
    ensures (outcome.Batch? || outcome.Streamed?) ==>
      && t.reply == Some(ReplyOf(outcome))
      && t.session.messages == s.messages + [Message(User, text), ReplyOf(outcome)]
      && Consistent(tok, t.session)
      && t.session.totalTokensSpent == s.totalTokensSpent + t.session.currentTokens
      && t.session.titleJobs
         == (if FirstExchange(v, s) then s.titleJobs + [t.session.messages[1].content] else s.titleJobs)
      && t.session.unfinished == s.unfinished + (if FirstExchange(v, s) then 1 else 0)
      && t.session == s.(messages := t.session.messages, currentTokens := t.session.currentTokens,
                         totalTokensSpent := t.session.totalTokensSpent, titleJobs := t.session.titleJobs,
                         unfinished := t.session.unfinished)
      && (t.notice <==> ApproachingLimit(s.limit, t.session.currentTokens))
      && !t.evicted
    ensures t.session.totalTokensSpent >= s.totalTokensSpent
  {
    match outcome
    case Aborted => Turn(s.(messages := s.messages + [Message(User, text)]), None, false, false)
    case Failed => Refuse(v, tok, s, confirmEvict)
    case _ => Answer(v, tok, s, text, ReplyOf(outcome))
  }

  /** The failure branch of `handle`: the question is taken back, and the
      first exchange goes only when the limit was reached and the user
      agrees. */
  function Refuse(v: Variant, tok: Tokenizer, s: Session, confirmEvict: bool): (t: Turn)
    ensures t.reply.None? && !t.notice
    ensures t.evicted <==> EvictionOffered(s.limit, s.currentTokens) && confirmEvict
    ensures !t.evicted ==> t.session == s
    ensures t.evicted ==> t.session == DeleteFirst(v, tok, s).session
    ensures t.session.totalTokensSpent == s.totalTokensSpent
  {
    if EvictionOffered(s.limit, s.currentTokens) && confirmEvict then
      Turn(DeleteFirst(v, tok, s).session, None, true, false)
    else
      Turn(s, None, false, false)
  }

  /** The success branch of `handle`: question and reply are appended, the
      count is redone over the whole transcript and added to the total, and
      the first question is queued for a title after the first exchange. */
  function Answer(v: Variant, tok: Tokenizer, s: Session, text: string, reply: Message): (t: Turn)
    ensures t.reply == Some(reply)
    ensures t.session.messages == s.messages + [Message(User, text), reply]
    ensures Consistent(tok, t.session)
    ensures t.session.totalTokensSpent == s.totalTokensSpent + t.session.currentTokens
    ensures t.session.titleJobs
            == (if FirstExchange(v, s) then s.titleJobs + [t.session.messages[1].content] else s.titleJobs)
    ensures t.session.unfinished == s.unfinished + (if FirstExchange(v, s) then 1 else 0)
    ensures t.session == s.(messages := t.session.messages, currentTokens := t.session.currentTokens,
                            totalTokensSpent := t.session.totalTokensSpent, titleJobs := t.session.titleJobs,
                            unfinished := t.session.unfinished)
    ensures t.notice <==> ApproachingLimit(s.limit, t.session.currentTokens)
    ensures !t.evicted
  {
    var ms := s.messages + [Message(User, text), reply];
    var current := Count(tok, ms);
    var answered := s.(messages := ms, currentTokens := current,
                       totalTokensSpent := s.totalTokensSpent + current);
    var queued := if v != Legacy && |ms| == 3 && s.autoTitle then Enqueue(answered, ms[1].content) else answered;
    Turn(queued, Some(reply), false, ApproachingLimit(s.limit, current))
  }

  /** Every turn keeps the system prompt at the head. */
  lemma HandleKeepsRoot(v: Variant, tok: Tokenizer, s: Session, text: string, outcome: ServerOutcome, confirmEvict: bool)
    requires Rooted(s.messages)
    ensures Rooted(Handle(v, tok, s, text, outcome, confirmEvict).session.messages)
  {
    if outcome.Failed? && EvictionOffered(s.limit, s.currentTokens) && confirmEvict {
      DeleteFirstExchangeKeepsRoot(s.messages);
    }
  }

  /** A turn that got an answer, then `/undo`, leaves the transcript as it
      was before the turn. */
  lemma UndoAfterTurn(v: Variant, tok: Tokenizer, s: Session, text: string, outcome: ServerOutcome)
    requires |s.messages| >= 1
    requires outcome.Batch? ==> outcome.reply.role == Assistant
    requires outcome.Batch? || outcome.Streamed?
    ensures Undo(v, tok, Handle(v, tok, s, text, outcome, false).session).session.messages == s.messages
  {
    UndoRevertsTurn(s.messages, text, ReplyOf(outcome));
  }

  /** The counter stays in step with the transcript through every turn that
      reached the server; a turn interrupted while waiting leaves the
      question in the transcript but not in the counter. */
  lemma HandleKeepsConsistent(v: Variant, tok: Tokenizer, s: Session, text: string, outcome: ServerOutcome, confirmEvict: bool)
    requires Consistent(tok, s) && !outcome.Aborted?
    ensures Consistent(tok, Handle(v, tok, s, text, outcome, confirmEvict).session)
  {
  }

  /** Two answered turns add the counts after each of them, so the earlier
      messages are paid for again on every turn. */
  lemma TotalAddsWholeTranscriptEachTurn(v: Variant, tok: Tokenizer, s: Session, q1: string, o1: ServerOutcome, q2: string, o2: ServerOutcome)
    requires o1.Batch? || o1.Streamed?
    requires o2.Batch? || o2.Streamed?
    ensures var t1 := Handle(v, tok, s, q1, o1, false).session;
            var t2 := Handle(v, tok, t1, q2, o2, false).session;
            t2.totalTokensSpent == s.totalTokensSpent + Count(tok, t1.messages) + Count(tok, t2.messages)
            && Count(tok, t2.messages) == Count(tok, t1.messages) + Count(tok, [Message(User, q2), ReplyOf(o2)])
  {
    var t1 := Handle(v, tok, s, q1, o1, false).session;
    CountAppend(tok, t1.messages, [Message(User, q2), ReplyOf(o2)]);
    assert t1.messages + [Message(User, q2), ReplyOf(o2)] == t1.messages + [Message(User, q2)] + [ReplyOf(o2)];
  }

  /** The first answered question of a fresh session (gpt_term/main.py,
      automatic titles on) leaves system prompt, question and reply, a
      positive count when messages cost something, and exactly that
      question queued for a title. */
  lemma FirstTurnQueuesQuestion(tok: Tokenizer, today: string, temperature: real, overflow: string,
                                question: string, reply: Message)
    requires tok.enabled && forall m :: tok.cost(m) > 0
    ensures var s := Init(Evolved, tok, today, true, temperature, overflow);
            var t := Handle(Evolved, tok, s, question, Batch(reply), false);
            |t.session.messages| == 3 && t.session.currentTokens > 0 && t.session.titleJobs == [question]
  {
    var s := Init(Evolved, tok, today, true, temperature, overflow);
    var t := Answer(Evolved, tok, s, question, reply);
    assert t.session.messages[1] == Message(User, question);
    assert |t.session.titleJobs| == 1;
    assert tok.cost(reply) > 0;
  }

  /** Deleting the first exchange of two answered ones leaves three messages
      and reports a positive saving when messages cost something. */
  lemma DeleteFirstExample(tok: Tokenizer, s: Session)
    requires tok.enabled && forall m :: tok.cost(m) > 0
    requires Consistent(tok, s) && |s.messages| == 5
    requires s.messages[2].role == Assistant
    ensures var d := DeleteFirst(Evolved, tok, s);
            |d.session.messages| == 3 && d.saved.Some? && d.saved.value > 0
  {
    DeleteFirstSavesRemoved(Evolved, tok, s);
    var removed := s.messages[1..3];
    CountAppend(tok, removed[..1], removed[1..]);
    assert removed == removed[..1] + removed[1..];
    CountSingle(tok, removed[1]);
    assert removed[1..] == [removed[1]];
  }

  // ---------------------------------------------------------------------
  // Findings

  /** As written in the scripts: a model outside the three tiers gets the
      limit -1, and since counts are never negative every failed request then
      offers to forget the first exchange. */
  lemma UnknownModelAlwaysOffersEviction(v: Variant, tok: Tokenizer, s: Session, text: string)
    requires v != Refactored
    ensures var r := SetModel(v, s, "claude-2");
            && r.limit == Some(-1)
            && EvictionOffered(r.limit, r.currentTokens)
            && Handle(v, tok, r, text, Failed, true).evicted
  {
    assert 'g' !in "claude-2";
    if Contains("claude-2", "gpt-4-32k") { ContainsHead("claude-2", "gpt-4-32k"); }
    if Contains("claude-2", "gpt-4") { ContainsHead("claude-2", "gpt-4"); }
    if Contains("claude-2", "gpt-3.5-turbo") { ContainsHead("claude-2", "gpt-3.5-turbo"); }
  }

  /** Corrected, as the refactored class does it: an unknown model gets no
      comparable limit, so a failed request never offers eviction and never
      touches the session, and no approaching-limit notice is shown. */
  lemma UnknownModelNeverOffersEviction(tok: Tokenizer, s: Session, name: string, text: string, c: int)
    requires name != "" && !Contains(name, "gpt-4") && !Contains(name, "gpt-3.5-turbo")
    ensures var r := SetModel(Refactored, s, name);
            && r.limit.None?
            && !EvictionOffered(r.limit, c) && !ApproachingLimit(r.limit, c)
            && Handle(Refactored, tok, r, text, Failed, true).session == r
  {
    if Contains(name, "gpt-4-32k") {
      ContainsPrefixOf(name, "gpt-4-32k", "gpt-4");
    }
  }

  /** As written in chat.py: `/undo` leaves `current_tokens` at its old value,
      so a counter that matched the transcript no longer does. */
  lemma LegacyUndoLeavesStaleCount()
    ensures var tok := Tokenizer(true, (m: Message) => 1);
            var s := Session([Message(System, "sys"), Message(User, "hi"), Message(Assistant, "hello")],
                             "gpt-3.5-turbo", Some(4096), 3, 3, None, [], 0, false, 1.0, "ellipsis", true);
            Consistent(tok, s) && !Consistent(tok, Undo(Legacy, tok, s).session)
  {
    var tok := Tokenizer(true, (m: Message) => 1);
    var ms := [Message(System, "sys"), Message(User, "hi"), Message(Assistant, "hello")];
    assert forall m :: tok.cost(m) == 1;
    assert ms[..1][..0] == [] && ms[..2][..1] == ms[..1] && ms[..3][..2] == ms[..2] && ms[..3] == ms;
    assert Sum(tok.cost, ms[..1]) == 1;
    assert Sum(tok.cost, ms[..2]) == 2;
    assert Sum(tok.cost, ms) == 3;
  }

  /** Corrected, as gpt_term/main.py does it: `/undo` recounts, so the counter
      keeps matching the transcript. */
  lemma UndoKeepsConsistent(v: Variant, tok: Tokenizer, s: Session)
    requires v != Legacy && Consistent(tok, s)
    ensures Consistent(tok, Undo(v, tok, s).session)
  {
  }
}
