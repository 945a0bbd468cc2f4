/** Tab completion of slash commands and their arguments (`CustomCompleter`). */
module Completion {
  import opened Common
  import opened Session

  /** One proposal: the text to insert, and where the replaced part starts,
      counted back from the cursor (zero or negative). */
  datatype Suggestion = Suggestion(text: string, startPosition: int)

  /** The commands gpt_term/main.py completes. */
  const EvolvedCommands: seq<string> := [
    "/raw", "/multi", "/stream", "/tokens", "/usage", "/last", "/copy", "/model", "/save",
    "/system", "/title", "/timeout", "/undo", "/delete", "/version", "/help", "/exit"
  ]

  /** The commands chat.py completes. */
  const LegacyCommands: seq<string> := [
    "/raw", "/multi", "/stream", "/tokens", "/last", "/copy", "/model", "/save",
    "/system", "/timeout", "/undo", "/delete", "/help", "/exit"
  ]

  const CopyActions: seq<string> := ["code", "all"]

  const DeleteActions: seq<string> := ["first", "all"]

  const AvailableModels: seq<string> := [
    "gpt-3.5-turbo", "gpt-3.5-turbo-0301", "gpt-4", "gpt-4-0314", "gpt-4-32k", "gpt-4-32k-0314"
  ]

  /** The command list of a variant; the refactored class is driven by the
      gpt_term/main.py front end. */
  function Commands(v: Variant): seq<string> {
    if v == Legacy then LegacyCommands else EvolvedCommands
  }

  /** The candidates that start with `prefix`, in list order, each replacing
      the typed prefix: nothing else and nothing missing. */
  function Filter(candidates: seq<string>, prefix: string): (r: seq<Suggestion>)
    ensures |r| <= |candidates|
    ensures forall x :: x in r ==>
      x.text in candidates && StartsWith(x.text, prefix) && x.startPosition == -|prefix|
    ensures forall c :: c in candidates && StartsWith(c, prefix) ==> Suggestion(c, -|prefix|) in r
    decreases |candidates|
  {
    if |candidates| == 0 then []
    else
      var rest := Filter(candidates[1..], prefix);
      if StartsWith(candidates[0], prefix) then [Suggestion(candidates[0], -|prefix|)] + rest else rest
  }

  /** Filtering keeps list order: filtering a concatenation is concatenating
      the filtered parts. */
  lemma {:induction false} FilterAppend(a: seq<string>, b: seq<string>, prefix: string)
    ensures Filter(a + b, prefix) == Filter(a, prefix) + Filter(b, prefix)
    decreases |a|
  {
    if |a| == 0 {
      assert a + b == b;
    } else {
      assert (a + b)[1..] == a[1..] + b;
      FilterAppend(a[1..], b, prefix);
    }
  }

  /** With nothing typed, every candidate is offered, in order, inserted at
      the cursor. */
  lemma {:induction false} FilterEmptyPrefix(candidates: seq<string>)
    ensures |Filter(candidates, "")| == |candidates|
    ensures forall i :: 0 <= i < |candidates| ==> Filter(candidates, "")[i] == Suggestion(candidates[i], 0)
    decreases |candidates|
  {
    if |candidates| > 0 {
      FilterEmptyPrefix(candidates[1..]);
    }
  }

  /** `get_completions` on the text before the cursor: nothing unless it
      starts with `/`; after `/model `, `/copy ` or `/delete ` exactly the
      entries of the argument list that start with what follows the command,
      each replacing that typed argument; otherwise exactly the commands that
      start with the whole text, each replacing all of it. */
  function Completions(v: Variant, text: string): (r: seq<Suggestion>)
    ensures !StartsWith(text, "/") ==> r == []
    ensures forall x :: x in r ==>
      -|text| <= x.startPosition <= 0 && StartsWith(x.text, text[|text| + x.startPosition..])
    ensures StartsWith(text, "/model ") ==>
      && (forall x :: x in r ==> x.text in AvailableModels && x.startPosition == 7 - |text|)
      && (forall c :: c in AvailableModels ==> (Suggestion(c, 7 - |text|) in r <==> StartsWith(c, text[7..])))
    ensures StartsWith(text, "/copy ") ==>
      && (forall x :: x in r ==> x.text in CopyActions && x.startPosition == 6 - |text|)
      && (forall c :: c in CopyActions ==> (Suggestion(c, 6 - |text|) in r <==> StartsWith(c, text[6..])))
    ensures StartsWith(text, "/delete ") ==>
      && (forall x :: x in r ==> x.text in DeleteActions && x.startPosition == 8 - |text|)
      && (forall c :: c in DeleteActions ==> (Suggestion(c, 8 - |text|) in r <==> StartsWith(c, text[8..])))
    ensures StartsWith(text, "/") && !StartsWith(text, "/model ") && !StartsWith(text, "/copy ")
            && !StartsWith(text, "/delete ") ==>
      && (forall x :: x in r ==> x.text in Commands(v) && x.startPosition == -|text|)
      && (forall c :: c in Commands(v) ==> (Suggestion(c, -|text|) in r <==> StartsWith(c, text)))
  {
    ArgumentCommandsDisjoint(text);
    if !StartsWith(text, "/") then []
    else if StartsWith(text, "/model ") then ArgumentFilter(AvailableModels, text, 7)
    else if StartsWith(text, "/copy ") then ArgumentFilter(CopyActions, text, 6)
    else if StartsWith(text, "/delete ") then ArgumentFilter(DeleteActions, text, 8)
    else ArgumentFilter(Commands(v), text, 0)
  }

  /** The candidates that complete what follows the first `n` characters of
      `text`, each replacing exactly that part. */
  function ArgumentFilter(candidates: seq<string>, text: string, n: nat): (r: seq<Suggestion>)
    requires n <= |text|
    ensures forall x :: x in r ==>
      x.text in candidates && x.startPosition == n - |text| && StartsWith(x.text, text[n..])
    ensures forall c :: c in candidates ==> (Suggestion(c, n - |text|) in r <==> StartsWith(c, text[n..]))
  {
    Filter(candidates, text[n..])
  }

  /** The three commands with argument lists exclude one another, as their
      second characters differ. */
  lemma ArgumentCommandsDisjoint(text: string)
    ensures StartsWith(text, "/copy ") ==> !StartsWith(text, "/model ")
    ensures StartsWith(text, "/delete ") ==> !StartsWith(text, "/model ") && !StartsWith(text, "/copy ")
  {
    if StartsWith(text, "/copy ") {
      assert text[1] == 'c';
    }
    if StartsWith(text, "/delete ") {
      assert text[1] == 'd';
    }
  }

  /** The text after accepting a suggestion: the replaced part goes, the
      suggestion takes its place. */
  function Accept(text: string, x: Suggestion): string
    requires -|text| <= x.startPosition <= 0
  {
    text[..|text| + x.startPosition] + x.text
  }

  /** Accepting any suggestion only extends what was typed. */
  lemma AcceptExtends(v: Variant, text: string, x: Suggestion)
    requires x in Completions(v, text)
    ensures text <= Accept(text, x)
  {
    var k := |text| + x.startPosition;
    assert text == text[..k] + text[k..];
  }

  /** A bare `/` offers every command of the variant, in list order. */
  lemma SlashOffersAll(v: Variant)
    ensures Completions(v, "/") == Filter(Commands(v), "/")
    ensures |Completions(v, "/")| == |Commands(v)|
  {
    forall c | c in Commands(v)
      ensures StartsWith(c, "/")
    {
    }
    SlashFilterAll(Commands(v));
  }

  /** Filtering a list of slash commands by `/` keeps every one. */
  lemma {:induction false} SlashFilterAll(cs: seq<string>)
    requires forall c :: c in cs ==> StartsWith(c, "/")
    ensures |Filter(cs, "/")| == |cs|
    decreases |cs|
  {
    if |cs| > 0 {
      assert cs[0] in cs;
      SlashFilterAll(cs[1..]);
    }
  }

  /** chat.py never proposes the commands it lacks, while gpt_term/main.py does. */
  lemma LegacyLacksNewCommands()
    ensures Suggestion("/usage", -3) !in Completions(Legacy, "/us")
    ensures Suggestion("/usage", -3) in Completions(Evolved, "/us")
    ensures Suggestion("/title", -3) in Completions(Evolved, "/ti")
  {
    assert "/usage" in EvolvedCommands;
    assert "/us" <= "/usage";
    assert "/title" in EvolvedCommands;
    assert "/ti" <= "/title";
    assert "/usage" !in LegacyCommands;
  }

  /** Whatever is typed, chat.py never proposes `/usage` or `/title`: they
      are in none of its lists. */
  lemma LegacyNeverOffersNewCommands(text: string, k: int)
    ensures Suggestion("/usage", k) !in Completions(Legacy, text)
    ensures Suggestion("/title", k) !in Completions(Legacy, text)
  {
    NewCommandsUnlisted();
    if Suggestion("/usage", k) in Completions(Legacy, text) {
      OfferedAreListed(Legacy, text, Suggestion("/usage", k));
    }
    if Suggestion("/title", k) in Completions(Legacy, text) {
      OfferedAreListed(Legacy, text, Suggestion("/title", k));
    }
  }

  /** Every suggestion comes from the variant's command list or from one of
      the argument lists. */
  lemma OfferedAreListed(v: Variant, text: string, x: Suggestion)
    requires x in Completions(v, text)
    ensures x.text in Commands(v) || x.text in AvailableModels || x.text in CopyActions || x.text in DeleteActions
  {
  }

  /** `/usage` and `/title` are in none of chat.py's lists. */
  lemma NewCommandsUnlisted()
    ensures "/usage" !in LegacyCommands && "/usage" !in AvailableModels
    ensures "/usage" !in CopyActions && "/usage" !in DeleteActions
    ensures "/title" !in LegacyCommands && "/title" !in AvailableModels
    ensures "/title" !in CopyActions && "/title" !in DeleteActions
  {
  }

  /** Every model the completer offers gets a positive token limit from
      `set_model`, in every variant. */
  lemma OfferedModelsHaveLimits(v: Variant, m: string)
    requires m in AvailableModels
    ensures LimitFor(v, m).Some? && LimitFor(v, m).value > 0
  {
    if m == AvailableModels[0] || m == AvailableModels[1] {
      assert "gpt-3.5-turbo" <= m;
      assert Contains(m, "gpt-3.5-turbo");
    } else {
      assert "gpt-4" <= m;
      assert Contains(m, "gpt-4");
    }
    TieredModelHasLimit(v, m);
  }

  /** After `/model gpt-4-3` exactly the two 32k models are offered, in order. */
  lemma ModelExample()
    ensures Completions(Evolved, "/model gpt-4-3")
         == [Suggestion("gpt-4-32k", -7), Suggestion("gpt-4-32k-0314", -7)]
  {
    var text := "/model gpt-4-3";
    assert "/model " <= text;
    assert text[7..] == "gpt-4-3";
    assert !("gpt-4-3" <= "gpt-3.5-turbo") by { assert "gpt-3.5-turbo"[4] != "gpt-4-3"[4]; }
    assert !("gpt-4-3" <= "gpt-3.5-turbo-0301");
    assert !("gpt-4-3" <= "gpt-4");
    assert !("gpt-4-3" <= "gpt-4-0314") by { assert "gpt-4-0314"[6] != "gpt-4-3"[6]; }
    assert "gpt-4-3" <= "gpt-4-32k";
    assert "gpt-4-3" <= "gpt-4-32k-0314";
  }
}
