/** Assembly of a streamed reply (`process_stream_response`).

    The server answers with a sequence of server-sent events; each carries a
    JSON fragment whose `choices[0].delta` may hold a piece of the reply in
    `content`, and the literal `[DONE]` ends the stream. The HTTP and SSE
    decoding is not modelled: the events arrive already classified. */
module Stream {
  import opened Common
  import opened Tokens

  /** One event as the assembly loop sees it. */
  datatype Event =
    | Done                            // the `[DONE]` sentinel
    | Chunk(content: Option<string>)  // a fragment; `None` when the delta has no `content` key
    | Garbled                         // data that `json.loads` or the key lookups reject

  /** Events after which the loop reads no further: the sentinel, and any
      event whose decoding raises (the `return` in the `finally` clause
      swallows the exception and hands back what was accumulated). */
  predicate Stops(e: Event) {
    e.Done? || e.Garbled?
  }

  /** The text one event adds to the reply. */
  function ChunkText(e: Event): string {
    if e.Chunk? && e.content.Some? then e.content.value else ""
  }

  /** The position of the first stopping event, or the length when none stops. */
  function FirstStop(es: seq<Event>): (k: nat)
    ensures k <= |es|
    ensures forall j :: 0 <= j < k ==> !Stops(es[j])
    ensures k < |es| ==> Stops(es[k])
    decreases |es|
  {
    if |es| == 0 then 0 else if Stops(es[0]) then 0 else 1 + FirstStop(es[1..])
  }

  /** The texts of all events, concatenated in arrival order. */
  function Joined(es: seq<Event>): string {
    if |es| == 0 then "" else Joined(es[..|es| - 1]) + ChunkText(es[|es| - 1])
  }

  /** The reply a stream yields: the texts of the events before the first
      stopping one, in order. */
  function Assemble(es: seq<Event>): string {
    Joined(es[..FirstStop(es)])
  }

  /** The events read before an interrupt: all of them, or the first `k` when
      the user interrupts while the (k+1)-th is awaited. */
  function Seen(es: seq<Event>, interruptAfter: Option<nat>): (r: seq<Event>)
    ensures r <= es
  {
    if interruptAfter.Some? && interruptAfter.value < |es| then es[..interruptAfter.value] else es
  }

  /** The message `process_stream_response` returns: always an assistant
      message, holding whatever was assembled. */
  function StreamReply(es: seq<Event>, interruptAfter: Option<nat>): (m: Message)
    ensures m.role == Assistant
  {
    Message(Assistant, Assemble(Seen(es, interruptAfter)))
  }

  /** The loop of `process_stream_response`: reads events until the sentinel
      (or a garbled event, or the end of the events read before an interrupt),
      appending each delta's content. `frames` are the successive buffers
      handed to the live display, one per content-bearing event. */
  method ProcessStream(es: seq<Event>, interruptAfter: Option<nat>) returns (reply: Message, frames: seq<string>)
    ensures reply == StreamReply(es, interruptAfter)
    ensures forall j :: 0 <= j < |frames| ==> frames[j] <= reply.content
    ensures forall j :: 0 <= j < |frames| - 1 ==> frames[j] <= frames[j + 1]
    ensures |frames| > 0 ==> frames[|frames| - 1] == reply.content
  {
    var seen := Seen(es, interruptAfter);
    var buffer: string := "";
    frames := [];
    var i := 0;
    while i < |seen|
      invariant 0 <= i <= |seen|
      invariant forall j :: 0 <= j < i ==> !Stops(seen[j])
      invariant buffer == Joined(seen[..i])
      invariant forall j :: 0 <= j < |frames| ==> frames[j] <= buffer
      invariant forall j :: 0 <= j < |frames| - 1 ==> frames[j] <= frames[j + 1]
      invariant |frames| > 0 ==> frames[|frames| - 1] == buffer
    {
      if Stops(seen[i]) {
        break;
      }
      assert seen[..i + 1][..i] == seen[..i];
      if seen[i].content.Some? {
        buffer := buffer + seen[i].content.value;
        frames := frames + [buffer];
      }
      i := i + 1;
    }
    assert i == FirstStop(seen);
    reply := Message(Assistant, buffer);
  }

  /** Appending events can only extend the concatenated text. */
  lemma {:induction false} JoinedAppend(a: seq<Event>, b: seq<Event>)
    ensures Joined(a + b) == Joined(a) + Joined(b)
    decreases |b|
  {
    if |b| == 0 {
      assert a + b == a;
    } else {
      assert (a + b)[..|a + b| - 1] == a + b[..|b| - 1];
      JoinedAppend(a, b[..|b| - 1]);
    }
  }

  /** The first stopping event is pinned down by the events before it. */
  lemma FirstStopAt(es: seq<Event>, k: nat)
    requires k <= |es|
    requires forall j :: 0 <= j < k ==> !Stops(es[j])
    requires k < |es| ==> Stops(es[k])
    ensures FirstStop(es) == k
  {
  }

  /** Nothing after the sentinel matters: a stream of fragments closed by
      `[DONE]` yields exactly their texts, whatever follows. */
  lemma StopsAtDone(a: seq<Event>, b: seq<Event>)
    requires forall j :: 0 <= j < |a| ==> !Stops(a[j])
    ensures Assemble(a + [Done] + b) == Joined(a)
  {
    var es := a + [Done] + b;
    assert forall j :: 0 <= j < |a| ==> es[j] == a[j];
    FirstStopAt(es, |a|);
    assert es[..|a|] == a;
  }

  /** Fragments whose delta has no `content` add nothing. */
  lemma ContentlessChunkAddsNothing(a: seq<Event>, b: seq<Event>)
    ensures Assemble(a + [Chunk(None)] + b) == Assemble(a + b)
  {
    var es := a + [Chunk(None)] + b;
    var fs := a + b;
    var k := FirstStop(fs);
    if k < |a| {
      assert forall j :: 0 <= j <= k ==> es[j] == fs[j];
      FirstStopAt(es, k);
      assert es[..k] == fs[..k];
    } else {
      ShiftedStop(a, b, k);
      assert es[..k + 1] == (a + [Chunk(None)]) + fs[|a|..k];
      assert fs[..k] == a + fs[|a|..k];
      JoinedAppend(a + [Chunk(None)], fs[|a|..k]);
      JoinedAppend(a, fs[|a|..k]);
      JoinedAppend(a, [Chunk(None)]);
      assert [Chunk(None)][..0] == [];
    }
  }

  /** Inserting a contentless fragment after `a` moves a later first stop
      one place right. */
  lemma ShiftedStop(a: seq<Event>, b: seq<Event>, k: nat)
    requires k == FirstStop(a + b) && k >= |a|
    ensures FirstStop(a + [Chunk(None)] + b) == k + 1
  {
    var es := a + [Chunk(None)] + b;
    var fs := a + b;
    forall j | 0 <= j < k + 1
      ensures !Stops(es[j])
    {
      if j < |a| {
        assert es[j] == fs[j];
      } else if j > |a| {
        assert es[j] == fs[j - 1];
      }
    }
    if k + 1 < |es| {
      assert es[k + 1] == fs[k];
    }
    FirstStopAt(es, k + 1);
  }

  /** The text read up to any point is a prefix of the text read up to any
      later point: the live display only ever grows. */
  lemma {:induction false} JoinedPrefix(es: seq<Event>, i: nat, j: nat)
    requires i <= j <= |es|
    ensures Joined(es[..i]) <= Joined(es[..j])
  {
    assert es[..j] == es[..i] + es[i..j];
    JoinedAppend(es[..i], es[i..j]);
  }

  /** An interrupted stream keeps what had arrived: its reply is a prefix of
      the reply the uninterrupted stream would have given. */
  lemma InterruptKeepsPrefix(es: seq<Event>, k: nat)
    ensures StreamReply(es, Some(k)).content <= StreamReply(es, None).content
  {
    var seen := Seen(es, Some(k));
    var f := FirstStop(es);
    var g := FirstStop(seen);
    assert forall j :: 0 <= j < |seen| ==> seen[j] == es[j];
    assert g <= f;
    assert seen[..g] == es[..g];
    JoinedPrefix(es, g, f);
  }

  /** The stream `He`, `llo`, `[DONE]` is assembled into `Hello`. */
  lemma HelloExample()
    ensures StreamReply([Chunk(Some("He")), Chunk(Some("llo")), Done], None)
         == Message(Assistant, "Hello")
  {
    var a := [Chunk(Some("He")), Chunk(Some("llo"))];
    StopsAtDone(a, []);
    assert a + [Done] + [] == [Chunk(Some("He")), Chunk(Some("llo")), Done];
    assert a[..1] == [Chunk(Some("He"))];
    assert a[..1][..0] == [];
  }
}
