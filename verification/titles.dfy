/** Title generation: the one-shot title request, the background worker that
    serves the title queue, and the `gen_title` commands built on it.

    The worker thread is modelled sequentially: each step serves the oldest
    job with an outcome supplied by the caller, in place of the network. */
module TitleWorker {
  import opened Common
  import opened Tokens
  import opened Session

  /** The instructions that open the title prompt. */
  const TitleInstructions: string :=
    "Generate title shorter than 10 words for the following content in content's language. "
    + "The tilte contains ONLY words. DO NOT include line-break. \n\nContent: \"\"\"\n"

  /** The prompt `gen_title_silent` sends about `content`. */
  function TitlePrompt(content: string): string {
    TitleInstructions + content + "\n\"\"\""
  }

  /** What the title request came back with: nothing (`send_request_silent`
      returned None) or the reply message. */
  datatype TitleReply = NoResponse | Replied(msg: Message)

  /** The title a reply leaves behind. */
  function TitleOf(reply: TitleReply): Option<string> {
    if reply.Replied? then Some(reply.msg.content) else None
  }

  /** Python's truthiness of `self.title`: set and not empty. */
  predicate HasTitle(t: Option<string>) {
    t.Some? && t.value != ""
  }

  /** The tokens a title request adds to the total: prompt and reply, counted
      as a two-message list; a request without response costs nothing. */
  function TitleCost(tok: Tokenizer, content: string, reply: TitleReply): nat {
    if reply.Replied? then Count(tok, [Message(User, TitlePrompt(content)), reply.msg]) else 0
  }

  /** The session after `gen_title_silent(content)` and what it returns. */
  datatype Titled = Titled(session: Session, title: Option<string>)

  /** `gen_title_silent`: a separate one-message request, never touching the
      transcript. Without response the title is erased and the total stays;
      with a reply the title becomes its content and the total grows by the
      request's cost. */
  function GenTitleSilent(tok: Tokenizer, s: Session, content: string, reply: TitleReply): (r: Titled)
    ensures r.session.messages == s.messages && r.session.currentTokens == s.currentTokens
    ensures r.session.titleJobs == s.titleJobs && r.session.unfinished == s.unfinished
    ensures r.session.title == TitleOf(reply) && r.title == TitleOf(reply)
    ensures reply.NoResponse? ==> r.session == s.(title := None)
    ensures r.session.totalTokensSpent == s.totalTokensSpent + TitleCost(tok, content, reply)
    ensures r.session == s.(title := r.session.title, totalTokensSpent := r.session.totalTokensSpent)
  {
    match reply
    case NoResponse => Titled(s.(title := None), None)
    case Replied(msg) =>
      var spent := Count(tok, [Message(User, TitlePrompt(content)), msg]);
      Titled(s.(title := Some(msg.content), totalTokensSpent := s.totalTokensSpent + spent), Some(msg.content))
  }

  /** How serving one job ended: `gen_title_silent` returned, or it raised
      (a malformed response body) before touching the title. */
  datatype JobOutcome = Finished(reply: TitleReply) | Crashed

  /** The queue's `task_done`. At zero it raises, which the worker's handler
      absorbs, leaving the counter at zero. */
  function TaskDone(unfinished: nat): nat {
    if unfinished == 0 then 0 else unfinished - 1
  }

  /** One round of `auto_gen_title_background`: take the oldest job, generate
      a title for it, mark it done. After a crash every unfinished task is
      marked done, so the counter drops to zero. */
  function WorkerStep(tok: Tokenizer, s: Session, o: JobOutcome): (r: Session)
    requires |s.titleJobs| > 0
    ensures r.messages == s.messages && r.currentTokens == s.currentTokens
    ensures r.titleJobs == s.titleJobs[1..]
    ensures r.unfinished == (if o.Crashed? then 0 else TaskDone(s.unfinished))
    ensures o.Finished? ==> r.title == TitleOf(o.reply)
    ensures o.Finished? ==>
      r.totalTokensSpent == s.totalTokensSpent + TitleCost(tok, s.titleJobs[0], o.reply)
    ensures o.Crashed? ==> r.title == s.title && r.totalTokensSpent == s.totalTokensSpent
    ensures r == s.(titleJobs := r.titleJobs, unfinished := r.unfinished, title := r.title,
                    totalTokensSpent := r.totalTokensSpent)
  {
    var taken := s.(titleJobs := s.titleJobs[1..]);
    match o
    case Crashed => taken.(unfinished := 0)
    case Finished(reply) =>
      var t := GenTitleSilent(tok, taken, s.titleJobs[0], reply).session;
      t.(unfinished := TaskDone(t.unfinished))
  }

  /** The smaller of two counts. */
  function Min(a: nat, b: nat): nat {
    if a <= b then a else b
  }

  /** The session after the worker has served jobs, and the contents it
      served, in the order served. */
  datatype Drained = Drained(session: Session, served: seq<string>)

  /** The worker serving jobs one at a time while outcomes remain: strictly
      first in, first out. The served contents and the jobs left make up the
      queue as it was; the transcript is never touched; the total only grows;
      and the title is the one the last served job left (when it finished). */
  function Drain(tok: Tokenizer, s: Session, outcomes: seq<JobOutcome>): (d: Drained)
    ensures |d.served| == Min(|outcomes|, |s.titleJobs|)
    ensures d.served + d.session.titleJobs == s.titleJobs
    ensures d.session.messages == s.messages && d.session.currentTokens == s.currentTokens
    ensures d.session.totalTokensSpent >= s.totalTokensSpent
    ensures |d.served| == 0 ==> d.session == s
    ensures |d.served| > 0 && outcomes[|d.served| - 1].Finished? ==>
      d.session.title == TitleOf(outcomes[|d.served| - 1].reply)
    decreases |outcomes|
  {
    if |outcomes| == 0 || |s.titleJobs| == 0 then Drained(s, [])
    else
      var d := Drain(tok, WorkerStep(tok, s, outcomes[0]), outcomes[1..]);
      ConsSplit(s.titleJobs, d.served, d.session.titleJobs);
      Drained(d.session, [s.titleJobs[0]] + d.served)
  }

  /** Putting the head back in front of a split of the tail splits the
      whole list. */
  lemma ConsSplit<T>(whole: seq<T>, front: seq<T>, back: seq<T>)
    requires |whole| > 0 && front + back == whole[1..]
    ensures [whole[0]] + front + back == whole
  {
    assert [whole[0]] + front + back == [whole[0]] + (front + back);
  }

  /** Whether some outcome among `os` is a crash. */
  predicate AnyCrash(os: seq<JobOutcome>) {
    exists i :: 0 <= i < |os| && os[i].Crashed?
  }

  /** With at least as many unfinished tasks as queued jobs, serving `n` jobs
      without a crash marks exactly `n` tasks done, and any crash empties the
      counter. */
  lemma {:induction false} DrainCountsTasks(tok: Tokenizer, s: Session, outcomes: seq<JobOutcome>)
    requires s.unfinished >= |s.titleJobs|
    ensures var n := Min(|outcomes|, |s.titleJobs|);
            Drain(tok, s, outcomes).session.unfinished
              == (if AnyCrash(outcomes[..n]) then 0 else s.unfinished - n)
    decreases |outcomes|
  {
    var n := Min(|outcomes|, |s.titleJobs|);
    if |outcomes| == 0 || |s.titleJobs| == 0 {
      assert outcomes[..n] == [];
    } else {
      var s' := WorkerStep(tok, s, outcomes[0]);
      var rest := outcomes[1..];
      var m := Min(|rest|, |s'.titleJobs|);
      assert m == n - 1;
      assert outcomes[..n] == [outcomes[0]] + rest[..m];
      if outcomes[0].Crashed? {
        assert AnyCrash(outcomes[..n]) by { assert outcomes[..n][0].Crashed?; }
        ZeroStaysZero(tok, s', rest);
      } else {
        DrainCountsTasks(tok, s', rest);
        if AnyCrash(rest[..m]) {
          var i :| 0 <= i < m && rest[..m][i].Crashed?;
          assert outcomes[..n][i + 1].Crashed?;
        }
      }
    }
  }

  /** Once the counter is zero, serving more jobs keeps it at zero. */
  lemma {:induction false} ZeroStaysZero(tok: Tokenizer, s: Session, outcomes: seq<JobOutcome>)
    requires s.unfinished == 0
    ensures Drain(tok, s, outcomes).session.unfinished == 0
    decreases |outcomes|
  {
    if |outcomes| > 0 && |s.titleJobs| > 0 {
      ZeroStaysZero(tok, WorkerStep(tok, s, outcomes[0]), outcomes[1..]);
    }
  }

  /** A turn's title job is served after every job queued before it. */
  lemma FifoAfterTurn(tok: Tokenizer, s: Session, content: string, outcomes: seq<JobOutcome>)
    requires |outcomes| == |s.titleJobs| + 1
    ensures Drain(tok, Enqueue(s, content), outcomes).served == s.titleJobs + [content]
    ensures Drain(tok, Enqueue(s, content), outcomes).session.titleJobs == []
  {
  }

  /** What `gen_title` gives back: no title, a title, or `Skipped` when the
      user interrupted the wait (the interrupt propagates to the caller). */
  datatype TitleAnswer = NoTitle | Title(text: string) | Skipped

  /** The answer `return self.title` gives. */
  function AnswerOf(t: Option<string>): TitleAnswer {
    if t.Some? then Title(t.value) else NoTitle
  }

  /** The session after `gen_title` and its answer. */
  datatype Generated = Generated(session: Session, answer: TitleAnswer)

  /** How a wait on the title queue ended: the session as the worker left
      it, and whether the wait returned (`false`: the user interrupted it). */
  datatype Waited = Waited(session: Session, ended: bool)

  /** `Queue.join` while the worker runs: it returns as soon as no task is
      unfinished, whatever jobs are still queued; until then the worker serves
      the oldest job with the next outcome. When the wait does not end on the
      outcomes given (they run out, or no job is left to serve), the user
      interrupted it, and the jobs served so far stay served. */
  function Join(tok: Tokenizer, s: Session, outcomes: seq<JobOutcome>): (w: Waited)
    ensures w.ended <==> w.session.unfinished == 0
    ensures w.session.unfinished <= s.unfinished
    ensures w.session.messages == s.messages && w.session.currentTokens == s.currentTokens
    ensures w.session.totalTokensSpent >= s.totalTokensSpent
    ensures |w.session.titleJobs| <= |s.titleJobs|
    ensures w.session.titleJobs == s.titleJobs[|s.titleJobs| - |w.session.titleJobs|..]
    ensures s.unfinished == 0 ==> w == Waited(s, true)
    ensures s.unfinished > 0 && |outcomes| == 0 ==> w == Waited(s, false)
    ensures w.session == s.(titleJobs := w.session.titleJobs, unfinished := w.session.unfinished,
                            title := w.session.title, totalTokensSpent := w.session.totalTokensSpent)
    decreases |outcomes|
  {
    if s.unfinished == 0 then Waited(s, true)
    else if |outcomes| == 0 || |s.titleJobs| == 0 then Waited(s, false)
    else Join(tok, WorkerStep(tok, s, outcomes[0]), outcomes[1..])
  }

  /** Between worker steps every unfinished task is a queued job: `put`
      counts one task per job, the worker marks its job done before taking the
      next, and a crash clears the counter. */
  predicate TasksQueued(s: Session) {
    s.unfinished <= |s.titleJobs|
  }

  /** Queuing a job and serving one both keep every unfinished task queued. */
  lemma TasksQueuedPreserved(tok: Tokenizer, s: Session, content: string, o: JobOutcome)
    requires TasksQueued(s)
    ensures TasksQueued(Enqueue(s, content))
    ensures |s.titleJobs| > 0 ==> TasksQueued(WorkerStep(tok, s, o))
  {
  }

  /** With every unfinished task queued, one outcome per queued job is
      enough for the wait to end. */
  lemma {:induction false} JoinEnds(tok: Tokenizer, s: Session, outcomes: seq<JobOutcome>)
    requires TasksQueued(s) && |outcomes| >= |s.titleJobs|
    ensures Join(tok, s, outcomes).ended
    decreases |outcomes|
  {
    if s.unfinished > 0 {
      TasksQueuedPreserved(tok, s, "", outcomes[0]);
      JoinEnds(tok, WorkerStep(tok, s, outcomes[0]), outcomes[1..]);
    }
  }

  /** `gen_title` once its first wait has ended (`d`, no task unfinished): an
      existing title is returned unless `force`; else the first question
      (`first`) is queued and the wait repeats, served by `request` (`None`
      meaning the user interrupted it). Jobs a crashed worker left queued are
      served first, so the title that comes back is theirs. */
  function TitleAfterWait(tok: Tokenizer, d: Session, first: string, force: bool, request: Option<JobOutcome>): (g: Generated)
    requires d.unfinished == 0
    ensures g.session.messages == d.messages && g.session.totalTokensSpent >= d.totalTokensSpent
    ensures g.session == d.(title := g.session.title, titleJobs := g.session.titleJobs,
                            unfinished := g.session.unfinished, totalTokensSpent := g.session.totalTokensSpent)
    ensures g.answer == Skipped <==> g.session.unfinished > 0
    ensures g.answer != Skipped ==> g.answer == AnswerOf(g.session.title)
    ensures HasTitle(d.title) && !force ==> g == Generated(d, Title(d.title.value))
    ensures (force || !HasTitle(d.title)) && request.None? ==> g == Generated(Enqueue(d, first), Skipped)
    ensures (force || !HasTitle(d.title)) && request.Some? ==>
      var queue := d.titleJobs + [first];
      && g.session.titleJobs == queue[1..]
      && (request.value.Finished? ==>
            && g.answer == AnswerOf(TitleOf(request.value.reply))
            && g.session.totalTokensSpent == d.totalTokensSpent + TitleCost(tok, queue[0], request.value.reply))
  {
    if HasTitle(d.title) && !force then Generated(d, Title(d.title.value))
    else
      var queued := Enqueue(d, first);
      match request
      case None => Generated(queued, Skipped)
      case Some(o) =>
        var done := WorkerStep(tok, queued, o);
        Generated(done, AnswerOf(done.title))
  }

  /** `gen_title(force)` of gpt_term/main.py and the refactored class: with
      fewer than two messages the title is erased. Otherwise it waits until
      no title task is unfinished (`pending` serves the queued jobs meanwhile;
      a wait that does not end means the user interrupted it, and what the
      worker did until then stays done), then goes on as `TitleAfterWait`
      with the first question. It is skipped exactly when a task is left
      unfinished. */
  function GenTitle(tok: Tokenizer, s: Session, force: bool, pending: seq<JobOutcome>, request: Option<JobOutcome>): (g: Generated)
    ensures g.session.messages == s.messages && g.session.totalTokensSpent >= s.totalTokensSpent
    ensures g.session == s.(title := g.session.title, titleJobs := g.session.titleJobs,
                            unfinished := g.session.unfinished, totalTokensSpent := g.session.totalTokensSpent)
    ensures |s.messages| < 2 ==> g == Generated(s.(title := None), NoTitle)
    ensures |s.messages| >= 2 ==> (g.answer == Skipped <==> g.session.unfinished > 0)
    ensures |s.messages| >= 2 && g.answer != Skipped ==> g.answer == AnswerOf(g.session.title)
    ensures |s.messages| >= 2 && s.unfinished > 0 && |pending| == 0 ==> g == Generated(s, Skipped)
    ensures |s.messages| >= 2 && s.unfinished == 0 ==>
      g == TitleAfterWait(tok, s, s.messages[1].content, force, request)
  {
    if |s.messages| < 2 then Generated(s.(title := None), NoTitle)
    else
      var w := Join(tok, s, pending);
      if !w.ended then Generated(w.session, Skipped)
      else TitleAfterWait(tok, w.session, s.messages[1].content, force, request)
  }

  /** A wait interrupted after the worker served a job keeps what that job
      did: with two tasks unfinished and one job finished, the wait is
      skipped, and the session holds the served job's title, its price and
      the shorter queue. */
  lemma InterruptedWaitKeepsServedWork(tok: Tokenizer, s: Session, force: bool, o: JobOutcome, request: Option<JobOutcome>)
    requires |s.messages| >= 2 && s.unfinished >= 2 && |s.titleJobs| >= 1 && o.Finished?
    ensures var g := GenTitle(tok, s, force, [o], request);
            && g == Generated(WorkerStep(tok, s, o), Skipped)
            && g.session.title == TitleOf(o.reply)
            && g.session.titleJobs == s.titleJobs[1..]
            && g.session.totalTokensSpent == s.totalTokensSpent + TitleCost(tok, s.titleJobs[0], o.reply)
  {
    var d := WorkerStep(tok, s, o);
    assert [o][1..] == [];
    assert Join(tok, s, [o]) == Join(tok, d, []);
  }

  /** With every unfinished task queued, an outcome for each queued job and
      one for the new request, `gen_title` is not skipped: it answers with the
      session's title. */
  lemma GenTitleAnswers(tok: Tokenizer, s: Session, force: bool, pending: seq<JobOutcome>, o: JobOutcome)
    requires |s.messages| >= 2 && TasksQueued(s) && |pending| >= |s.titleJobs|
    ensures var g := GenTitle(tok, s, force, pending, Some(o));
            g.answer != Skipped && g.answer == AnswerOf(g.session.title)
  {
    JoinEnds(tok, s, pending);
  }

  /** An existing title is returned as it is, unless forced: no new job is
      queued and nothing is spent on it. */
  lemma GenTitleKeepsExisting(tok: Tokenizer, s: Session, request: Option<JobOutcome>)
    requires |s.messages| >= 2 && s.titleJobs == [] && HasTitle(s.title) && TasksQueued(s)
    ensures GenTitle(tok, s, false, [], request) == Generated(s, Title(s.title.value))
  {
  }

  /** A forced regeneration on an idle queue asks about the first question
      of the transcript. */
  lemma GenTitleForcedAsksFirstQuestion(tok: Tokenizer, s: Session, reply: Message)
    requires |s.messages| >= 2 && s.titleJobs == [] && TasksQueued(s)
    ensures var g := GenTitle(tok, s, true, [], Some(Finished(Replied(reply))));
            g.answer == Title(reply.content)
            && g.session.totalTokensSpent
               == s.totalTokensSpent + TitleCost(tok, s.messages[1].content, Replied(reply))
  {
    assert s.unfinished == 0;
    var queue := s.titleJobs + [s.messages[1].content];
    assert queue[0] == s.messages[1].content;
    assert GenTitle(tok, s, true, [], Some(Finished(Replied(reply))))
        == TitleAfterWait(tok, s, s.messages[1].content, true, Some(Finished(Replied(reply))));
  }

  /** A crash on the first job served ends a wait at once. */
  lemma CrashEndsWait(tok: Tokenizer, s: Session, rest: seq<JobOutcome>)
    requires s.unfinished > 0 && |s.titleJobs| > 0
    ensures Join(tok, s, [Crashed] + rest) == Waited(WorkerStep(tok, s, Crashed), true)
  {
    assert ([Crashed] + rest)[1..] == rest;
  }

  /** Once the first wait ends and a title is wanted, `gen_title` queues the
      first question and the worker serves the oldest queued job: its reply
      is the answer and its price is charged. */
  lemma GenTitleServesOldest(tok: Tokenizer, s: Session, force: bool, pending: seq<JobOutcome>, o: JobOutcome, d: Session)
    requires |s.messages| >= 2 && Join(tok, s, pending) == Waited(d, true) && (force || !HasTitle(d.title))
    requires o.Finished?
    ensures var g := GenTitle(tok, s, force, pending, Some(o));
            var queue := d.titleJobs + [s.messages[1].content];
            && g.answer == AnswerOf(TitleOf(o.reply))
            && g.session.titleJobs == queue[1..]
            && g.session.totalTokensSpent == d.totalTokensSpent + TitleCost(tok, queue[0], o.reply)
  {
  }

  /** With jobs `a` and `b` queued, a forced `gen_title` whose first wait
      sees the worker crash on `a`: the crash clears the counter, so the wait
      ends with `b` still queued; the first question is queued behind it, the
      worker serves `b`, and `b`'s title is the answer. The new job stays
      queued. */
  lemma GenTitleAfterCrash(tok: Tokenizer, s: Session, a: string, b: string, reply: Message)
    requires |s.messages| >= 2 && s.titleJobs == [a, b] && s.unfinished == 2
    ensures var g := GenTitle(tok, s, true, [Crashed], Some(Finished(Replied(reply))));
            && g.answer == Title(reply.content)
            && g.session.titleJobs == [s.messages[1].content]
            && g.session.totalTokensSpent == s.totalTokensSpent + TitleCost(tok, b, Replied(reply))
  {
    var d := WorkerStep(tok, s, Crashed);
    CrashEndsWait(tok, s, []);
    assert [Crashed] + [] == [Crashed];
    GenTitleServesOldest(tok, s, true, [Crashed], Finished(Replied(reply)), d);
    assert d.titleJobs == [b] && d.totalTokensSpent == s.totalTokensSpent;
    var queue := d.titleJobs + [s.messages[1].content];
    assert queue[0] == b && queue[1..] == [s.messages[1].content];
  }

  /** How chat.py's synchronous title request ended. */
  datatype LegacyTitleOutcome = Answered(msg: Message) | Unanswered | Interrupted

  /** `gen_title` of chat.py: with fewer than two messages the title is
      erased; an existing title is returned without any request; otherwise
      one blocking request is made, whose reply becomes the title. This
      variant does not add the request to the token total. */
  function GenTitleLegacy(s: Session, o: LegacyTitleOutcome): (g: Generated)
    ensures g.session.messages == s.messages && g.session.totalTokensSpent == s.totalTokensSpent
    ensures g.session == s.(title := g.session.title)
    ensures |s.messages| < 2 ==> g == Generated(s.(title := None), NoTitle)
    ensures |s.messages| >= 2 && HasTitle(s.title) ==> g == Generated(s, Title(s.title.value))
    ensures |s.messages| >= 2 && !HasTitle(s.title) ==>
      (g.answer.Title? <==> o.Answered?) && (o.Answered? ==> g.session.title == Some(o.msg.content))
  {
    if |s.messages| < 2 then Generated(s.(title := None), NoTitle)
    else if HasTitle(s.title) then Generated(s, Title(s.title.value))
    else match o
      case Answered(msg) => Generated(s.(title := Some(msg.content)), Title(msg.content))
      case _ => Generated(s, NoTitle)
  }

  /** chat.py asks for a title at most once: after an answered request set a
      non-empty title, the next `gen_title` returns that title, whatever its
      request would have done, and changes nothing. */
  lemma GenTitleLegacyAsksOnce(s: Session, msg: Message, o: LegacyTitleOutcome)
    requires |s.messages| >= 2 && !HasTitle(s.title) && msg.content != ""
    ensures var first := GenTitleLegacy(s, Answered(msg));
            && first.answer == Title(msg.content)
            && GenTitleLegacy(first.session, o) == Generated(first.session, Title(msg.content))
  {
  }
}
