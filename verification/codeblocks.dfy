/** `/copy code [index]`: finding the fenced code blocks of the last reply,
    choosing one, and cutting the code out of it (`copy_code`). The
    clipboard write is left out; the result says what would be copied. */
module CodeBlocks {
  import opened Common

  /** A code fence: three backticks. */
  const Fence: string := "```"

  /** A fence starts at position `i` of `s`. */
  predicate FenceAt(s: string, i: int) {
    0 <= i && i + 3 <= |s| && s[i] == '`' && s[i + 1] == '`' && s[i + 2] == '`'
  }

  /** The first fence at or after `from`, if any. */
  function NextFence(s: string, from: nat): (r: Option<nat>)
    ensures r.Some? ==> from <= r.value && FenceAt(s, r.value)
    ensures forall k :: from <= k && (r.None? || k < r.value) ==> !FenceAt(s, k)
    decreases |s| - from
  {
    if from + 3 > |s| then None
    else if FenceAt(s, from) then Some(from)
    else NextFence(s, from + 1)
  }

  /** The last fence starting below `i`, or -1 (`rfind` restricted to starts
      below `i`). */
  function LastFenceBelow(s: string, i: nat): (r: int)
    ensures -1 <= r < i
    ensures r >= 0 ==> FenceAt(s, r)
    ensures forall k :: r < k < i ==> !FenceAt(s, k)
    decreases i
  {
    if i == 0 then -1
    else if FenceAt(s, i - 1) then i - 1
    else LastFenceBelow(s, i - 1)
  }

  /** `s.rfind('```')`: the last fence, or -1 when there is none. */
  function LastFence(s: string): (r: int)
    ensures -1 <= r < |s|
    ensures r >= 0 ==> FenceAt(s, r)
    ensures forall k :: r < k ==> !FenceAt(s, k)
  {
    LastFenceBelow(s, |s|)
  }

  /** `s.find(c)`: the first position holding `c`, or -1. */
  function Find(s: string, c: char): (r: int)
    ensures -1 <= r < |s|
    ensures r >= 0 ==> s[r] == c
    ensures forall k :: 0 <= k < |s| && (r < 0 || k < r) ==> s[k] != c
    decreases |s|
  {
    if |s| == 0 then -1
    else if s[0] == c then 0
    else
      var t := Find(s[1..], c);
      if t < 0 then -1 else t + 1
  }

  /** One match of the block pattern: the text from `start` to `end`. */
  datatype Span = Span(start: nat, end: nat)

  /** `sp` is a shortest match of the block pattern in `s`: a fence, then
      the nearest fence after it. */
  predicate IsMatch(s: string, sp: Span) {
    sp.start + 6 <= sp.end <= |s| && FenceAt(s, sp.start)
    && NextFence(s, sp.start + 3) == Some(sp.end - 3)
  }

  /** Some match of the block pattern starts at or after `from`: there is a
      fence there, and another one after it. */
  predicate HasMatchFrom(s: string, from: nat) {
    var open := NextFence(s, from);
    open.Some? && NextFence(s, open.value + 3).Some?
  }

  /** `re.findall(r'```[\s\S]*?```', s)` from position `from`, as positions:
      matches go left to right without overlapping, the first opens at the
      first fence, and each runs to the nearest fence after its opening.
      Nothing is missed: there is a match exactly when one can start, the
      next opens at the first fence after the previous one closes, and no
      match can start after the last. */
  function Spans(s: string, from: nat): (r: seq<Span>)
    ensures forall x :: x in r ==> from <= x.start && IsMatch(s, x)
    ensures forall i :: 0 <= i < |r| - 1 ==> r[i].end <= r[i + 1].start
    ensures |r| > 0 ==> NextFence(s, from) == Some(r[0].start)
    ensures |r| > 0 <==> HasMatchFrom(s, from)
    ensures forall i :: 0 <= i < |r| - 1 ==> NextFence(s, r[i].end) == Some(r[i + 1].start)
    ensures |r| > 0 ==> !HasMatchFrom(s, r[|r| - 1].end)
    decreases |s| - from
  {
    var open := NextFence(s, from);
    if open.None? then []
    else
      var close := NextFence(s, open.value + 3);
      if close.None? then []
      else
        var first := Span(open.value, close.value + 3);
        assert IsMatch(s, first);
        [first] + Spans(s, first.end)
  }

  /** The matched blocks themselves, fences included. */
  function Blocks(s: string): (r: seq<string>)
    ensures |r| == |Spans(s, 0)|
    ensures |r| > 0 <==> HasMatchFrom(s, 0)
    ensures forall i :: 0 <= i < |r| ==> Fenced(r[i])
  {
    var sp := Spans(s, 0);
    assert forall i :: 0 <= i < |sp| ==> IsMatch(s, sp[i]) by {
      forall i | 0 <= i < |sp|
        ensures IsMatch(s, sp[i])
      {
        assert sp[i] in sp;
      }
    }
    seq(|sp|, i requires 0 <= i < |sp| && IsMatch(s, sp[i]) => BlockOf(s, sp[i]))
  }

  /** A block opens and closes with a fence. */
  predicate Fenced(b: string) {
    |b| >= 6 && FenceAt(b, 0) && FenceAt(b, |b| - 3)
  }

  /** The text of one match. */
  function BlockOf(s: string, sp: Span): (b: string)
    requires IsMatch(s, sp)
    ensures Fenced(b)
  {
    MatchIsFenced(s, sp);
    s[sp.start..sp.end]
  }

  /** The text of a match opens and closes with a fence. */
  lemma MatchIsFenced(s: string, sp: Span)
    requires IsMatch(s, sp)
    ensures var b := s[sp.start..sp.end]; |b| >= 6 && FenceAt(b, 0) && FenceAt(b, |b| - 3)
  {
    assert FenceAt(s, sp.end - 3);
  }

  /** The code cut out of a block: from after the first line break up to the
      last fence, less the one character before that fence. */
  function ExtractCode(block: string): (r: string)
    ensures |r| <= |block|
    ensures var a := Find(block, '\n') + 1; var b := LastFence(block) - 1;
            0 <= a <= b ==> r == block[a..b]
  {
    PySlice(block, Find(block, '\n') + 1, LastFence(block) - 1)
  }

  /** A block written the usual way, with a language tag on the fence line
      and the code on the lines between. */
  function FencedBlock(lang: string, code: string): string {
    Fence + lang + "\n" + code + "\n" + Fence
  }

  /** Extraction gives back the code of a block written the usual way,
      whatever the code holds. */
  lemma ExtractCodeRoundTrip(lang: string, code: string)
    requires '\n' !in lang
    ensures ExtractCode(FencedBlock(lang, code)) == code
  {
    var b := FencedBlock(lang, code);
    var n := |lang|;
    assert b[n + 3] == '\n';
    assert forall k :: 0 <= k < n + 3 ==> b[k] == (Fence + lang)[k];
    assert Find(b, '\n') == n + 3;
    assert b[|b| - 3..|b|] == Fence;
    assert FenceAt(b, |b| - 3);
    assert LastFence(b) == |b| - 3;
    assert b[n + 4..n + 4 + |code|] == code;
  }

  /** A one-line block loses its closing fence but keeps its opening one: with
      no line break the cut starts at the beginning. */
  lemma SingleLineBlockKeepsOpeningFence()
    ensures ExtractCode("```abc```") == "```ab"
  {
    var b := "```abc```";
    assert Find(b, '\n') == -1;
    assert FenceAt(b, 6);
    assert LastFence(b) == 6;
    assert b[0..5] == "```ab";
  }

  /** Text without backticks holds no fence. */
  predicate NoTicks(s: string) {
    forall k :: 0 <= k < |s| ==> s[k] != '`'
  }

  /** Where a fence could not start, the next fence is the one that does. */
  lemma {:induction false} NextFenceSkips(s: string, from: nat, to: nat)
    requires from <= to
    requires forall k :: from <= k < to && k < |s| ==> s[k] != '`'
    requires FenceAt(s, to)
    ensures NextFence(s, from) == Some(to)
    decreases (to as int) - (from as int)
  {
    if from < to {
      assert s[from..from + 3][0] == s[from];
      NextFenceSkips(s, from + 1, to);
    }
  }

  /** A tail without backticks holds no fence. */
  lemma {:induction false} NoFenceInTail(s: string, from: nat)
    requires forall k :: from <= k < |s| ==> s[k] != '`'
    ensures NextFence(s, from).None?
    decreases |s| - from
  {
    if from + 3 <= |s| {
      assert s[from..from + 3][0] == s[from];
      NoFenceInTail(s, from + 1);
    }
  }

  /** Past backtick-free text `t`, the next fence is the one that follows it. */
  lemma FenceAfterTickless(a: string, t: string, y: string)
    requires NoTicks(t) && Fence <= y
    ensures NextFence(a + t + y, |a|) == Some(|a| + |t|)
  {
    var s := a + t + y;
    forall k | |a| <= k < |a| + |t| && k < |s|
      ensures s[k] != '`'
    {
      assert s[k] == t[k - |a|];
    }
    assert s[|a| + |t|..|a| + |t| + 3] == y[..3];
    NextFenceSkips(s, |a|, |a| + |t|);
  }

  /** A backtick-free tail holds no fence. */
  lemma NoFenceAfter(a: string, t: string)
    requires NoTicks(t)
    ensures NextFence(a + t, |a|).None?
  {
    var s := a + t;
    forall k | |a| <= k < |s|
      ensures s[k] != '`'
    {
      assert s[k] == t[k - |a|];
    }
    NoFenceInTail(s, |a|);
  }

  /** The text between the fences of a block written the usual way. */
  function Body(lang: string, code: string): string {
    lang + "\n" + code + "\n"
  }

  /** The body of a block built from backtick-free parts holds no backtick. */
  lemma BodyHasNoTicks(lang: string, code: string)
    requires NoTicks(lang) && NoTicks(code)
    ensures NoTicks(Body(lang, code))
  {
    var body := Body(lang, code);
    forall k | 0 <= k < |body|
      ensures body[k] != '`'
    {
      if k < |lang| {
        assert body[k] == lang[k];
      } else if k == |lang| || k == |lang| + 1 + |code| {
        assert body[k] == '\n';
      } else {
        assert body[k] == code[k - |lang| - 1];
      }
    }
  }

  /** The three ways the reply is cut up to find its fences. */
  lemma Regroup(pre: string, lang: string, code: string, post: string)
    ensures var s := pre + FencedBlock(lang, code) + post;
            var body := Body(lang, code);
            && s == "" + pre + (FencedBlock(lang, code) + post)
            && s == (pre + Fence) + body + (Fence + post)
            && s == (pre + Fence + body + Fence) + post
            && |FencedBlock(lang, code)| == |body| + 6
  {
  }

  /** In a reply holding one block written the usual way, in text without
      other backticks, the first fence opens the block, the next closes it,
      and no fence follows. */
  lemma OneBlockFences(pre: string, lang: string, code: string, post: string)
    requires NoTicks(pre) && NoTicks(lang) && NoTicks(code) && NoTicks(post)
    ensures var s := pre + FencedBlock(lang, code) + post;
            var c := |pre| + |FencedBlock(lang, code)| - 3;
            && NextFence(s, 0) == Some(|pre|)
            && NextFence(s, |pre| + 3).Some? && NextFence(s, |pre| + 3).value == c
            && NextFence(s, c + 3).None?
  {
    OpeningFence(pre, lang, code, post);
    ClosingFence(pre, lang, code, post);
    NothingAfter(pre, lang, code, post);
  }

  /** Past a backtick-free prefix, the block's opening fence comes first. */
  lemma OpeningFence(pre: string, lang: string, code: string, post: string)
    requires NoTicks(pre)
    ensures NextFence(pre + FencedBlock(lang, code) + post, 0) == Some(|pre|)
  {
    Regroup(pre, lang, code, post);
    FenceAfterTickless("", pre, FencedBlock(lang, code) + post);
  }

  /** After the opening fence, the next fence is the closing one. */
  lemma ClosingFence(pre: string, lang: string, code: string, post: string)
    requires NoTicks(lang) && NoTicks(code)
    ensures var s := pre + FencedBlock(lang, code) + post;
            && NextFence(s, |pre| + 3).Some?
            && NextFence(s, |pre| + 3).value == |pre| + |FencedBlock(lang, code)| - 3
  {
    var body := Body(lang, code);
    Regroup(pre, lang, code, post);
    BodyHasNoTicks(lang, code);
    var x, y := pre + Fence, Fence + post;
    FenceAfterTickless(x, body, y);
    assert |x| == |pre| + 3;
  }

  /** After the closing fence, a backtick-free rest holds no fence. */
  lemma NothingAfter(pre: string, lang: string, code: string, post: string)
    requires NoTicks(post)
    ensures NextFence(pre + FencedBlock(lang, code) + post, |pre| + |FencedBlock(lang, code)|).None?
  {
    Regroup(pre, lang, code, post);
    NoFenceAfter(pre + FencedBlock(lang, code), post);
  }

  /** Two fences with no fence before, between or after them make one match. */
  lemma SpansOfOne(s: string, open: nat, close: nat)
    requires NextFence(s, 0) == Some(open)
    requires NextFence(s, open + 3) == Some(close)
    requires NextFence(s, close + 3).None?
    ensures Spans(s, 0) == [Span(open, close + 3)]
    ensures Blocks(s) == [s[open..close + 3]]
  {
    assert Spans(s, close + 3) == [];
  }

  /** A reply holding one block written the usual way, in text without other
      backticks, yields exactly that block, and copying it gives the code. */
  lemma OneBlockRoundTrip(pre: string, lang: string, code: string, post: string)
    requires NoTicks(pre) && NoTicks(lang) && NoTicks(code) && NoTicks(post)
    requires '\n' !in lang
    ensures Blocks(pre + FencedBlock(lang, code) + post) == [FencedBlock(lang, code)]
    ensures ExtractCode(Blocks(pre + FencedBlock(lang, code) + post)[0]) == code
  {
    var b := FencedBlock(lang, code);
    var s := pre + b + post;
    OneBlockFences(pre, lang, code, post);
    SpansOfOne(s, |pre|, |pre| + |b| - 3);
    assert s[|pre|..|pre| + |b|] == b;
    ExtractCodeRoundTrip(lang, code);
  }

  /** How `int(...)` read the index: an integer, or text it rejects. */
  datatype Parsed = NotInt | Int(n: int)

  /** What `/copy code` ends with. */
  datatype CopyResult =
    | NoCode                     // "No code found"
    | NotAnInteger               // "Code index must be an Integer"
    | OutOfRange(onlyOne: bool)  // "Index out of range", naming the one block or the range 1 ~ len
    | Copied(code: string)

  /** Python's `xs[n]` on a list of length `len`: negatives count from the
      end, and anything outside `-len .. len-1` raises `IndexError`. */
  function PyIndex(n: int, len: nat): (r: Option<nat>)
    ensures r.Some? <==> -(len as int) <= n < len
    ensures r.Some? ==> r.value == n % len
  {
    if 0 <= n < len then InRangeRemainder(n, len); Some(n)
    else if -(len as int) <= n < 0 then NegativeRemainder(n, len); Some(n + len)
    else None
  }

  /** A negative index no longer than the list names position `n + len`:
      its Euclidean remainder. */
  lemma NegativeRemainder(n: int, len: nat)
    requires len > 0 && -(len as int) <= n < 0
    ensures n % len == n + len
  {
    var q := n / len;
    assert n == q * len + n % len;
    if q >= 0 {
      MulNonneg(q, len);
    } else if q <= -2 {
      MulBelow(q, len);
    }
    assert q == -1;
  }

  /** An index inside the list is its own remainder. */
  lemma InRangeRemainder(n: int, len: nat)
    requires 0 <= n < len
    ensures n % len == n
  {
    var q := n / len;
    assert n == q * len + n % len;
    if q >= 1 {
      MulAbove(q, len);
    } else if q <= -1 {
      MulNonneg(-q, len);
    }
    assert q == 0;
  }

  /** Products used to pin down the quotient of the two lemmas above. */
  lemma MulNonneg(q: int, len: nat)
    requires q >= 0
    ensures q * len >= 0
  {
  }

  lemma MulAbove(q: int, len: nat)
    requires q >= 1
    ensures q * len >= len
  {
    assert q * len == (q - 1) * len + len;
    MulNonneg(q - 1, len);
  }

  lemma MulBelow(q: int, len: nat)
    requires q <= -2
    ensures q * len <= -2 * len
  {
    assert q * len == -2 * len + (q + 2) * len;
    assert (q + 2) * len <= 0 by { MulNonneg(-(q + 2), len); }
  }

  /** `copy_code`'s choice among the blocks, as written: `arg` is the index
      given on the command line, `answer` what the user types at the prompt
      (asked only when there are several blocks and no index). The index is
      1-based, but is looked up with Python's wrap-around. */
  function SelectBlock(blocks: seq<string>, arg: Option<Parsed>, answer: Parsed): (r: CopyResult)
    ensures r.NoCode? <==> |blocks| == 0
    ensures |blocks| == 1 && arg.None? ==> r == Copied(ExtractCode(blocks[0]))
    ensures |blocks| > 0 && arg.Some? && arg.value.Int? && 1 <= arg.value.n <= |blocks| ==>
      r == Copied(ExtractCode(blocks[arg.value.n - 1]))
    ensures r.OutOfRange? ==> r.onlyOne == (|blocks| == 1)
    ensures var p := if arg.None? then answer else arg.value;
            |blocks| > 0 && (|blocks| >= 2 || arg.Some?) ==>
              && (p.NotInt? ==> r == NotAnInteger)
              && (p.Int? ==> (r.OutOfRange? <==> PyIndex(p.n - 1, |blocks|).None?))
              && (p.Int? && PyIndex(p.n - 1, |blocks|).Some? ==>
                    r == Copied(ExtractCode(blocks[PyIndex(p.n - 1, |blocks|).value])))
              && (p.Int? && -(|blocks| as int) < p.n <= 0 ==>
                    r == Copied(ExtractCode(blocks[p.n - 1 + |blocks|])))
  {
    if |blocks| == 0 then NoCode
    else if |blocks| == 1 && arg.None? then Copied(ExtractCode(blocks[0]))
    else
      var p := if arg.None? then answer else arg.value;
      match p
      case NotInt => NotAnInteger
      case Int(n) =>
        match PyIndex(n - 1, |blocks|)
        case None => OutOfRange(|blocks| == 1)
        case Some(k) => Copied(ExtractCode(blocks[k]))
  }

  /** The choice as its messages describe it: only indexes 1 to len copy. */
  function SelectBlockStrict(blocks: seq<string>, arg: Option<Parsed>, answer: Parsed): (r: CopyResult)
    ensures r.NoCode? <==> |blocks| == 0
    ensures |blocks| == 1 && arg.None? ==> r == Copied(ExtractCode(blocks[0]))
    ensures r.OutOfRange? ==> r.onlyOne == (|blocks| == 1)
    ensures var p := if arg.None? then answer else arg.value;
            |blocks| > 0 && (|blocks| >= 2 || arg.Some?) ==>
              && (p.NotInt? ==> r == NotAnInteger)
              && (p.Int? ==> (r.OutOfRange? <==> !(1 <= p.n <= |blocks|)))
  {
    if |blocks| == 0 then NoCode
    else if |blocks| == 1 && arg.None? then Copied(ExtractCode(blocks[0]))
    else
      var p := if arg.None? then answer else arg.value;
      match p
      case NotInt => NotAnInteger
      case Int(n) =>
        if 1 <= n <= |blocks| then Copied(ExtractCode(blocks[n - 1])) else OutOfRange(|blocks| == 1)
  }

  /** The strict choice copies exactly when the chosen index is within
      1 to len, and then the block of that number. */
  lemma SelectBlockStrictInRange(blocks: seq<string>, n: int, answer: Parsed)
    requires |blocks| > 0
    ensures SelectBlockStrict(blocks, Some(Int(n)), answer).Copied? <==> 1 <= n <= |blocks|
    ensures 1 <= n <= |blocks| ==>
      SelectBlockStrict(blocks, Some(Int(n)), answer) == Copied(ExtractCode(blocks[n - 1]))
  {
  }

  /** The two choices differ only on indexes the messages call out of range. */
  lemma SelectBlockAgreesInRange(blocks: seq<string>, arg: Option<Parsed>, answer: Parsed)
    requires var p := if arg.None? then answer else arg.value;
             p.NotInt? || 1 <= p.n <= |blocks|
    ensures SelectBlock(blocks, arg, answer) == SelectBlockStrict(blocks, arg, answer)
  {
  }

  /** As written, index 0 copies the last of several blocks, and index
      `-len + 1` the first, though the message offers only 1 to len. */
  lemma IndexZeroWrapsAround(blocks: seq<string>, answer: Parsed)
    requires |blocks| >= 2
    ensures SelectBlock(blocks, Some(Int(0)), answer) == Copied(ExtractCode(blocks[|blocks| - 1]))
    ensures SelectBlock(blocks, Some(Int(1 - |blocks|)), answer) == Copied(ExtractCode(blocks[0]))
    ensures SelectBlockStrict(blocks, Some(Int(0)), answer) == OutOfRange(false)
  {
  }

  /** `copy_code` on a reply, as written. */
  function CopyCode(reply: string, arg: Option<Parsed>, answer: Parsed): (r: CopyResult)
    ensures r.NoCode? <==> |Spans(reply, 0)| == 0
    ensures r.NoCode? <==> !HasMatchFrom(reply, 0)
  {
    SelectBlock(Blocks(reply), arg, answer)
  }

  /** `copy_code` on a reply, with the index range its messages promise. */
  function CopyCodeStrict(reply: string, arg: Option<Parsed>, answer: Parsed): (r: CopyResult)
    ensures r.NoCode? <==> |Spans(reply, 0)| == 0
    ensures r.NoCode? <==> !HasMatchFrom(reply, 0)
  {
    SelectBlockStrict(Blocks(reply), arg, answer)
  }
}
