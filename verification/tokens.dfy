/** Messages and token accounting.

    The tokenizer (tiktoken's `cl100k_base` encoding) is not modelled: each
    message is priced by an arbitrary non-negative `cost`, which is all the
    rest of the client relies on. */
module Tokens {

  /** The three speakers of a chat transcript. */
  datatype Role = System | User | Assistant

  /** One `{"role": ..., "content": ...}` entry of the transcript. */
  datatype Message = Message(role: Role, content: string)

  /** The role as it is spelled on the wire. */
  function RoleName(r: Role): string {
    match r
    case System => "system"
    case User => "user"
    case Assistant => "assistant"
  }

  /** How a session counts tokens: `cost` prices one message, and `enabled`
      is the refactored class's `Use_tiktoken` switch (the two script variants
      always count). */
  datatype Tokenizer = Tokenizer(enabled: bool, cost: Message -> nat)

  /** The price of every message of `ms`, added up from the first to the last. */
  function Sum(cost: Message -> nat, ms: seq<Message>): nat {
    if |ms| == 0 then 0 else Sum(cost, ms[..|ms| - 1]) + cost(ms[|ms| - 1])
  }

  /** `count_token(messages)`: nothing when counting is switched off, nothing
      for the empty list, and otherwise at least the price of each message. */
  function Count(tok: Tokenizer, ms: seq<Message>): (n: nat)
    ensures !tok.enabled ==> n == 0
    ensures |ms| == 0 ==> n == 0
    ensures tok.enabled && |ms| > 0 ==> n >= tok.cost(ms[|ms| - 1])
  {
    if tok.enabled then Sum(tok.cost, ms) else 0
  }

  /** The price of a concatenation is the sum of the prices of its parts. */
  lemma {:induction false} SumAppend(cost: Message -> nat, a: seq<Message>, b: seq<Message>)
    ensures Sum(cost, a + b) == Sum(cost, a) + Sum(cost, b)
    decreases |b|
  {
    if |b| == 0 {
      assert a + b == a;
    } else {
      var b' := b[..|b| - 1];
      assert (a + b)[..|a + b| - 1] == a + b';
      SumAppend(cost, a, b');
    }
  }

  /** `count_token` is additive over concatenation of transcripts. */
  lemma CountAppend(tok: Tokenizer, a: seq<Message>, b: seq<Message>)
    ensures Count(tok, a + b) == Count(tok, a) + Count(tok, b)
  {
    if tok.enabled {
      SumAppend(tok.cost, a, b);
    }
  }

  /** The price of a single message is its own cost. */
  lemma CountSingle(tok: Tokenizer, m: Message)
    ensures Count(tok, [m]) == (if tok.enabled then tok.cost(m) else 0)
  {
    assert [m][..0] == [];
    if tok.enabled {
      assert Sum(tok.cost, [m]) == Sum(tok.cost, []) + tok.cost(m);
    }
  }

  /** Removing messages never makes a transcript dearer: the count of a part
      is at most the count of the whole. */
  lemma CountMonotone(tok: Tokenizer, a: seq<Message>, b: seq<Message>)
    ensures Count(tok, a) <= Count(tok, a + b)
    ensures Count(tok, b) <= Count(tok, a + b)
  {
    CountAppend(tok, a, b);
  }

  /** chat.py prices the text `"role: R, content: C"` of each message. */
  function LegacyRender(m: Message): string {
    "role: " + RoleName(m.role) + ", content: " + m.content
  }

  /** chat.py's tokenizer, given the string encoder it applies to each
      rendering: it always counts, and a message costs the encoded length of
      its rendering. */
  function LegacyTokenizer(encode: string -> nat): (t: Tokenizer)
    ensures t.enabled
    ensures forall m :: t.cost(m) == encode(LegacyRender(m))
  {
    Tokenizer(true, (m: Message) => encode(LegacyRender(m)))
  }

  /** chat.py's `count_token` loop: the encoded length of every message's
      rendering, added up from the first message on. It is the count with
      chat.py's tokenizer. */
  method LegacyCountToken(encode: string -> nat, messages: seq<Message>) returns (length: nat)
    ensures length == Count(LegacyTokenizer(encode), messages)
  {
    var tok := LegacyTokenizer(encode);
    length := 0;
    var i := 0;
    while i < |messages|
      invariant 0 <= i <= |messages|
      invariant length == Sum(tok.cost, messages[..i])
    {
      length := length + encode(LegacyRender(messages[i]));
      assert messages[..i + 1][..i] == messages[..i];
      i := i + 1;
    }
    assert messages[..i] == messages;
  }
}
