/** Edits of the transcript itself, independent of the counters kept beside it.

    A transcript is the list of messages sent with every request; its head is
    the system prompt, which none of these edits removes. */
module Transcript {
  import opened Common
  import opened Tokens

  /** The shape a session's transcript has from construction on: at least one
      message, the first being the system prompt. */
  predicate Rooted(ms: seq<Message>) {
    |ms| >= 1 && ms[0].role == System
  }

  /** How many entries `delete_first_conversation` of gpt_term/main.py removes:
      none below three messages, else `messages[1]` and, when what follows it
      is an assistant reply, that reply too. */
  function FirstExchangeSize(ms: seq<Message>): nat {
    if |ms| < 3 then 0 else if ms[2].role == Assistant then 2 else 1
  }

  /** `delete_first_conversation` of gpt_term/main.py (and of the refactored
      class): the head stays, the first question goes, its answer goes only if
      it is one, and everything after keeps its order. */
  function DeleteFirstExchange(ms: seq<Message>): (r: seq<Message>)
    ensures |ms| < 3 ==> r == ms
    ensures |ms| >= 3 ==> |r| >= 1 && r[0] == ms[0] && |ms| - 2 <= |r| <= |ms| - 1
    ensures |ms| >= 3 ==> (|r| == |ms| - 2 <==> ms[2].role == Assistant)
    ensures |ms| >= 3 ==> r[1..] == ms[|ms| - |r| + 1..]
  {
    if |ms| < 3 then ms
    else
      var afterQuestion := ms[..1] + ms[2..];
      if afterQuestion[1].role == Assistant then afterQuestion[..1] + afterQuestion[2..]
      else afterQuestion
  }

  /** `delete_first_conversation` of chat.py: `del messages[1:3]`, whatever
      the roles of the two entries removed. */
  function DeleteFirstExchangeLegacy(ms: seq<Message>): (r: seq<Message>)
    ensures |ms| < 3 ==> r == ms
    ensures |ms| >= 3 ==> |r| == |ms| - 2 && r[0] == ms[0] && r[1..] == ms[3..]
  {
    if |ms| < 3 then ms else ms[..1] + ms[3..]
  }

  /** Both deletions keep the system prompt at the head. */
  lemma DeleteFirstExchangeKeepsRoot(ms: seq<Message>)
    requires Rooted(ms)
    ensures Rooted(DeleteFirstExchange(ms))
    ensures Rooted(DeleteFirstExchangeLegacy(ms))
  {
  }

  /** The transcript splits into head, removed exchange and untouched rest,
      and the deletion keeps exactly head and rest. */
  lemma DeleteFirstExchangeSplits(ms: seq<Message>)
    requires |ms| >= 3
    ensures ms == ms[..1] + ms[1..1 + FirstExchangeSize(ms)] + ms[1 + FirstExchangeSize(ms)..]
    ensures DeleteFirstExchange(ms) == ms[..1] + ms[1 + FirstExchangeSize(ms)..]
  {
  }

  /** The tokens a deletion saves are exactly the price of the removed entries:
      what `tokens_saved` reports when the counter was up to date. */
  lemma DeleteFirstExchangeSaves(tok: Tokenizer, ms: seq<Message>)
    requires |ms| >= 3
    ensures Count(tok, ms) - Count(tok, DeleteFirstExchange(ms))
         == Count(tok, ms[1..1 + FirstExchangeSize(ms)])
    ensures Count(tok, ms) - Count(tok, DeleteFirstExchangeLegacy(ms)) == Count(tok, ms[1..3])
  {
    var k := FirstExchangeSize(ms);
    assert ms == ms[..1] + ms[1..1 + k] + ms[1 + k..];
    CountAppend(tok, ms[..1] + ms[1..1 + k], ms[1 + k..]);
    CountAppend(tok, ms[..1], ms[1..1 + k]);
    CountAppend(tok, ms[..1], ms[1 + k..]);
    assert ms == ms[..1] + ms[1..3] + ms[3..];
    CountAppend(tok, ms[..1] + ms[1..3], ms[3..]);
    CountAppend(tok, ms[..1], ms[1..3]);
    CountAppend(tok, ms[..1], ms[3..]);
  }

  /** On a transcript whose first answer is an assistant reply the two
      deletions agree; they differ only when the first question went
      unanswered. */
  lemma DeleteFirstExchangeVariantsAgree(ms: seq<Message>)
    requires |ms| >= 3
    ensures DeleteFirstExchange(ms) == DeleteFirstExchangeLegacy(ms) <==> ms[2].role == Assistant
  {
    if ms[2].role != Assistant {
      assert |DeleteFirstExchange(ms)| != |DeleteFirstExchangeLegacy(ms)|;
    }
  }

  /** The `/undo` edit: below three messages there is nothing to undo (`None`);
      otherwise the last entry goes, and if it was an assistant reply the
      question before it goes too. What is left is a non-empty prefix. */
  function UndoLast(ms: seq<Message>): (r: Option<seq<Message>>)
    ensures r.None? <==> |ms| <= 2
    ensures r.Some? ==> r.value <= ms && 1 <= |r.value| < |ms| && |ms| - |r.value| <= 2
    ensures r.Some? ==> (|r.value| == |ms| - 2 <==> ms[|ms| - 1].role == Assistant)
  {
    if |ms| <= 2 then None
    else if ms[|ms| - 1].role == Assistant then Some(ms[..|ms| - 2])
    else Some(ms[..|ms| - 1])
  }

  /** `/undo` takes back a whole answered turn: after appending a question and
      its assistant reply, undoing returns the transcript as it was. */
  lemma UndoRevertsTurn(ms: seq<Message>, question: string, reply: Message)
    requires |ms| >= 1
    requires reply.role == Assistant
    ensures UndoLast(ms + [Message(User, question), reply]) == Some(ms)
  {
    var t := ms + [Message(User, question), reply];
    assert t[..|t| - 2] == ms;
  }

  /** `/undo` keeps the system prompt at the head. */
  lemma UndoKeepsRoot(ms: seq<Message>)
    requires Rooted(ms)
    ensures UndoLast(ms).Some? ==> Rooted(UndoLast(ms).value)
  {
  }

  /** `del messages[1:]`: only the head survives. */
  function KeepHead(ms: seq<Message>): (r: seq<Message>)
    ensures r <= ms
    ensures |r| == (if |ms| == 0 then 0 else 1)
  {
    if |ms| == 0 then ms else ms[..1]
  }

  /** Clearing the chat depends only on the head, keeps the system prompt, and
      clearing twice is clearing once. */
  lemma KeepHeadForgetsRest(ms: seq<Message>, rest: seq<Message>)
    requires Rooted(ms)
    ensures KeepHead(ms) == KeepHead(ms[..1] + rest) == [ms[0]]
    ensures Rooted(KeepHead(ms))
    ensures KeepHead(KeepHead(ms)) == KeepHead(ms)
  {
  }

  /** The `modify_system_prompt` edit: when the head is a system message its
      content is replaced; nothing else changes, and otherwise nothing changes
      at all. */
  function ReplaceSystem(ms: seq<Message>, content: string): (r: seq<Message>)
    requires |ms| >= 1
    ensures |r| == |ms| && r[1..] == ms[1..] && r[0].role == ms[0].role
    ensures r[0].content == (if ms[0].role == System then content else ms[0].content)
  {
    if ms[0].role == System then ms[0 := Message(System, content)] else ms
  }

  /** Putting the old prompt back undoes a system-prompt change. */
  lemma ReplaceSystemRoundTrip(ms: seq<Message>, content: string)
    requires |ms| >= 1
    ensures ReplaceSystem(ReplaceSystem(ms, content), ms[0].content) == ms
    ensures Rooted(ms) ==> Rooted(ReplaceSystem(ms, content))
  {
    var r := ReplaceSystem(ms, content);
    assert ReplaceSystem(r, ms[0].content)[0] == ms[0];
  }
}
