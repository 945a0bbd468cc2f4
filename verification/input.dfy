/** What the prompt loop does with a line of input: whether a key submits it,
    how it is classified, how the `/undo`, `/delete` and `/save` commands are
    read, the file name `/save` proposes, the numeric validators, and the
    masked API key written to the log. */
module Input {
  import opened Common
  import opened Tokens
  import opened Session
  import opened TitleWorker
  import Transcript

  // ---------------------------------------------------------------------
  // Keys

  /** What a key press does to the input buffer. */
  datatype KeyEffect = Submit | InsertNewline

  /** Enter: submits when the stripped buffer is a command or in single-line
      mode, and otherwise starts a new line. */
  function OnEnter(multiLine: bool, buffer: string): (e: KeyEffect)
    ensures !multiLine ==> e == Submit
    ensures multiLine ==> (e == Submit <==> StartsWith(Strip(buffer), "/"))
  {
    if StartsWith(Strip(buffer), "/") || !multiLine then Submit else InsertNewline
  }

  /** Esc followed by Enter (gpt_term/main.py only): the opposite line
      convention, submitting in multi-line mode. */
  function OnEscEnter(multiLine: bool): (e: KeyEffect)
    ensures multiLine ==> e == Submit
    ensures !multiLine ==> e == InsertNewline
  {
    if multiLine then Submit else InsertNewline
  }

  /** In single-line mode Enter submits and Esc+Enter breaks the line; in
      multi-line mode Esc+Enter submits, and Enter does so only for a
      command. For anything but a command, exactly one of the two keys
      submits, so a line can always be both sent and broken. */
  lemma KeyTable(multiLine: bool, buffer: string)
    ensures !multiLine ==> OnEnter(multiLine, buffer) == Submit && OnEscEnter(multiLine) == InsertNewline
    ensures multiLine ==> OnEscEnter(multiLine) == Submit
    ensures multiLine ==> (OnEnter(multiLine, buffer) == Submit <==> StartsWith(Strip(buffer), "/"))
    ensures !StartsWith(Strip(buffer), "/") ==>
      (OnEnter(multiLine, buffer) == Submit <==> OnEscEnter(multiLine) == InsertNewline)
  {
  }

  // ---------------------------------------------------------------------
  // The main loop's classification

  /** The words after which the loop ends, compared in lower case. */
  const ExitWords: seq<string> := ["再见", "bye", "goodbye", "结束", "end", "退出", "exit", "quit"]

  /** What the main loop does with one submitted line. */
  datatype Action =
    | Run(command: string)             // handed to `handle_command`, normalised
    | Skip                             // nothing typed: prompt again
    | Ask(message: string, ends: bool) // sent to `handle`; `ends` stops the loop afterwards

  /** The main loop's branch on a submitted line. */
  function Classify(line: string): (a: Action)
    ensures a.Run? <==> StartsWith(line, "/")
    ensures a.Skip? <==> line == ""
    ensures a.Run? ==> a.command == Lower(Strip(line))
    ensures a.Ask? ==> a.message == line && (a.ends <==> Lower(line) in ExitWords)
  {
    if StartsWith(line, "/") then Run(Lower(Strip(line)))
    else if line == "" then Skip
    else Ask(line, Lower(line) in ExitWords)
  }

  /** Whether the main loop stops after a submitted line. `/exit` makes
      `handle_command` raise `EOFError`, which ends the loop; no other
      command does. An exit word ends the loop only once `handle` has
      returned (`outcome` is how its request ended): a Ctrl-C during the
      request raises out of `handle` before the check, and the loop prompts
      again. A refused request still returns, so the exit word still counts. */
  function EndsLoop(line: string, outcome: ServerOutcome): (b: bool)
    ensures b ==> Classify(line) == Run("/exit") || (Classify(line).Ask? && Classify(line).ends)
    ensures Classify(line).Run? ==> (b <==> Classify(line).command == "/exit")
    ensures Classify(line).Ask? && outcome.Aborted? ==> !b
    ensures Classify(line).Ask? && !outcome.Aborted? ==> (b <==> Classify(line).ends)
    ensures Classify(line).Skip? ==> !b
  {
    match Classify(line)
    case Run(command) => ParseCommand(command) == ExitCmd
    case Ask(_, ends) => ends && !outcome.Aborted?
    case Skip => false
  }

  /** "bye" interrupted while waiting keeps the loop going; "bye" whose
      request was refused ends it. */
  lemma InterruptedByeContinues()
    ensures !EndsLoop("bye", Aborted)
    ensures EndsLoop("Bye", Failed)
  {
    assert Lower("Bye") == "bye";
    assert Lower("Bye") in ExitWords;
  }

  /** `/exit` ends the loop, in any case and with trailing blanks, whatever
      the outcome. */
  lemma ExitCommandEnds(pad: string, outcome: ServerOutcome)
    requires forall i :: 0 <= i < |pad| ==> IsSpace(pad[i])
    ensures EndsLoop("/EXIT" + pad, outcome)
  {
    CommandNormalised("/EXIT", pad);
    LowerExit();
    assert Classify("/EXIT" + pad) == Run("/exit");
  }

  /** `/EXIT` lower-cased. */
  lemma LowerExit()
    ensures Lower("/EXIT") == "/exit"
  {
  }

  /** `/exit` followed by a word is no command the loop knows, so it does
      not end the loop. */
  lemma ExitWithWordContinues(outcome: ServerOutcome)
    ensures !EndsLoop("/exit now", outcome)
  {
    CommandNormalised("/exit now", "");
    assert "/exit now" + "" == "/exit now";
    LowerIdempotent("/exit now");
    assert Lower("/exit now") == "/exit now";
  }

  /** A line with a blank before its slash is a question, not a command. */
  lemma LeadingBlankAsks(rest: string)
    ensures Classify(" " + rest).Ask?
    ensures Classify(" " + rest).message == " " + rest
  {
    assert (" " + rest)[0] == ' ';
  }

  /** A command is normalised: blanks typed after it go and capitals fold. */
  lemma CommandNormalised(command: string, pad: string)
    requires StartsWith(command, "/") && !IsSpace(command[|command| - 1])
    requires forall i :: 0 <= i < |pad| ==> IsSpace(pad[i])
    ensures Classify(command + pad) == Run(Lower(command))
    ensures NoCapitals(Classify(command + pad).command)
  {
    assert (command + pad)[0] == '/';
    assert TrimLeft(command + pad) == command + pad;
    TrimBlankPad(command, pad);
    LowerIdempotent(command);
  }

  /** Trailing blanks are all `rstrip` removes after a non-blank character. */
  lemma {:induction false} TrimBlankPad(text: string, pad: string)
    requires |text| > 0 && !IsSpace(text[|text| - 1])
    requires forall i :: 0 <= i < |pad| ==> IsSpace(pad[i])
    ensures TrimRight(text + pad) == text
    decreases |pad|
  {
    if |pad| == 0 {
      assert text + pad == text;
    } else {
      var shorter := pad[..|pad| - 1];
      assert (text + pad)[..|text + pad| - 1] == text + shorter;
      assert (text + pad)[|text + pad| - 1] == pad[|pad| - 1];
      TrimBlankPad(text, shorter);
    }
  }

  /** Exit words are matched whatever their case. */
  lemma ExitWordAnyCase()
    ensures Classify("BYE").ends
  {
    assert Lower("BYE") == "bye";
  }

  /** Exit words are matched only as the whole line. */
  lemma ExitWordWholeLine()
    ensures !Classify("bye!").ends
  {
    assert Lower("bye!") == "bye!";
    assert |"bye!"| == 4;
  }

  // ---------------------------------------------------------------------
  // Splitting on white space

  /** No white space in `w`. */
  predicate NoSpace(w: string) {
    forall i :: 0 <= i < |w| ==> !IsSpace(w[i])
  }

  /** The length of the run of non-space characters at the head of `t`. */
  function WordLength(t: string): (n: nat)
    ensures n <= |t| && NoSpace(t[..n])
    ensures n < |t| ==> IsSpace(t[n])
    ensures |t| > 0 && !IsSpace(t[0]) ==> n > 0
    decreases |t|
  {
    if |t| == 0 || IsSpace(t[0]) then 0 else 1 + WordLength(t[1..])
  }

  /** Python's `s.split()`: the maximal runs of non-space characters, in
      order; every word is non-empty and free of white space. */
  function Words(s: string): (r: seq<string>)
    ensures forall w :: w in r ==> |w| > 0 && NoSpace(w)
    decreases |s|
  {
    var t := TrimLeft(s);
    if |t| == 0 then []
    else
      var n := WordLength(t);
      [t[..n]] + Words(t[n..])
  }

  /** The words of a text without capitals have none either. */
  lemma {:induction false} WordsKeepNoCapitals(s: string)
    requires NoCapitals(s)
    ensures forall w :: w in Words(s) ==> NoCapitals(w)
    decreases |s|
  {
    var t := TrimLeft(s);
    if |t| > 0 {
      var n := WordLength(t);
      NoCapitalsSlice(s, |s| - |t|, |s|);
      NoCapitalsSlice(t, 0, n);
      NoCapitalsSlice(t, n, |t|);
      WordsKeepNoCapitals(t[n..]);
      WordsCons(s, t[..n], Words(t[n..]));
    }
  }

  /** Every part of a text without capitals has none. */
  lemma NoCapitalsSlice(s: string, a: nat, b: nat)
    requires NoCapitals(s) && a <= b <= |s|
    ensures NoCapitals(s[a..b])
  {
  }

  /** Unfolding `Words` one step: the first word, then the rest's words. */
  lemma WordsCons(s: string, first: string, rest: seq<string>)
    requires |TrimLeft(s)| > 0
    requires first == TrimLeft(s)[..WordLength(TrimLeft(s))]
    requires rest == Words(TrimLeft(s)[WordLength(TrimLeft(s))..])
    ensures Words(s) == [first] + rest
    ensures forall w :: w in Words(s) ==> w == first || w in rest
  {
  }

  /** Words separated by single blanks (Python's `' '.join(ws)`). */
  function JoinWords(ws: seq<string>): string {
    if |ws| == 0 then "" else if |ws| == 1 then ws[0] else ws[0] + " " + JoinWords(ws[1..])
  }

  /** A word's run ends where the word does. */
  lemma {:induction false} WordLengthOfWord(w: string, rest: string)
    requires NoSpace(w)
    requires |rest| == 0 || IsSpace(rest[0])
    ensures WordLength(w + rest) == |w|
    decreases |w|
  {
    if |w| > 0 {
      assert (w + rest)[1..] == w[1..] + rest;
      WordLengthOfWord(w[1..], rest);
    } else {
      assert w + rest == rest;
    }
  }

  /** Splitting undoes joining: words free of white space come back out of
      `' '.join` one by one. */
  lemma {:induction false} SplitJoinRoundTrip(ws: seq<string>)
    requires forall w :: w in ws ==> |w| > 0 && NoSpace(w)
    ensures Words(JoinWords(ws)) == ws
    decreases |ws|
  {
    if |ws| == 1 {
      var s := ws[0];
      assert TrimLeft(s) == s;
      WordLengthOfWord(s, "");
      assert s + "" == s;
      assert s[|s|..] == "";
    } else if |ws| > 1 {
      assert ws[0] in ws;
      assert forall x :: x in ws[1..] ==> x in ws;
      SplitJoinRoundTrip(ws[1..]);
      JoinStartsWithWord(ws[1..]);
      SplitOneMore(ws[0], JoinWords(ws[1..]), ws[1..]);
      HeadTail(ws);
    }
  }

  /** Splitting a word, a blank and a text that starts with a word gives the
      word followed by the text's words. */
  lemma SplitOneMore(w: string, rest: string, tail: seq<string>)
    requires |w| > 0 && NoSpace(w)
    requires |rest| > 0 && !IsSpace(rest[0])
    requires Words(rest) == tail
    ensures Words(w + " " + rest) == [w] + tail
  {
    var s := w + " " + rest;
    assert s == w + (" " + rest);
    assert TrimLeft(s) == s by { assert s[0] == w[0]; }
    WordLengthOfWord(w, " " + rest);
    assert s[..|w|] == w;
    assert s[|w|..] == " " + rest;
    assert TrimLeft(" " + rest) == TrimLeft(rest) by { assert (" " + rest)[1..] == rest; }
    assert Words(" " + rest) == Words(rest);
  }

  /** A non-empty list is its head followed by its tail. */
  lemma HeadTail<T>(xs: seq<T>)
    requires |xs| > 0
    ensures [xs[0]] + xs[1..] == xs
  {
  }

  /** A join of non-empty words starts with a non-space character. */
  lemma JoinStartsWithWord(ws: seq<string>)
    requires |ws| > 0
    requires forall w :: w in ws ==> |w| > 0 && NoSpace(w)
    ensures |JoinWords(ws)| > 0 && !IsSpace(JoinWords(ws)[0])
  {
    assert ws[0] in ws;
    if |ws| > 1 {
      assert JoinWords(ws) == ws[0] + (" " + JoinWords(ws[1..]));
    }
  }

  // ---------------------------------------------------------------------
  // The commands that edit the transcript or save it

  /** The argument of `/delete`. */
  datatype DeleteWhich = First | All | Unrecognised

  /** The commands that change the session or end the loop; `OtherCmd` is
      every command that only displays, copies, toggles a display mode, sets
      the timeout, or prints the help. */
  datatype Command =
    | StreamCmd                          // `/stream`: streaming on or off
    | ModelCmd(model: Option<string>)    // `/model [name]`
    | SaveCmd(filename: Option<string>)  // `/save [file]`
    | SystemCmd(prompt: Option<string>)  // `/system [words]`, the words joined by single blanks
    | TitleCmd(title: Option<string>)    // `/title [words]`, likewise (not in chat.py)
    | UndoCmd                            // `/undo`
    | DeleteCmd(which: DeleteWhich)      // `/delete [first|all]`
    | ExitCmd                            // `/exit`
    | OtherCmd

  /** The second word, when there is one. */
  function SecondWord(args: seq<string>): (r: Option<string>)
    ensures r.Some? <==> |args| > 1
    ensures r.Some? ==> r.value == args[1]
  {
    if |args| > 1 then Some(args[1]) else None
  }

  /** Every word after the first, joined by single blanks, when there is one. */
  function LaterWords(args: seq<string>): (r: Option<string>)
    ensures r.Some? <==> |args| > 1
    ensures r.Some? ==> r.value == JoinWords(args[1..])
  {
    if |args| > 1 then Some(JoinWords(args[1..])) else None
  }

  /** How `handle_command` reads a normalised command, in the order of its
      branches: `/stream`, `/undo` and `/exit` only exactly; `/model`,
      `/save`, `/system`, `/title` and `/delete` by prefix, reading the words
      after the first (a missing argument to `/delete` means `first`). */
  function ParseCommand(command: string): (c: Command)
    ensures c == StreamCmd <==> command == "/stream"
    ensures c.ModelCmd? <==> StartsWith(command, "/model")
    ensures c.SaveCmd? <==> StartsWith(command, "/save")
    ensures c.SystemCmd? <==> StartsWith(command, "/system")
    ensures c.TitleCmd? <==> StartsWith(command, "/title")
    ensures c.UndoCmd? <==> command == "/undo"
    ensures c.DeleteCmd? <==> StartsWith(command, "/delete")
    ensures c == ExitCmd <==> command == "/exit"
    ensures c.ModelCmd? ==> c.model == SecondWord(Words(command))
    ensures c.SaveCmd? ==> (c.filename.Some? <==> |Words(command)| > 1)
    ensures c.SaveCmd? && c.filename.Some? ==> c.filename.value == Words(command)[1]
    ensures c.SystemCmd? ==> c.prompt == LaterWords(Words(command))
    ensures c.TitleCmd? ==> c.title == LaterWords(Words(command))
    ensures c.DeleteCmd? ==> (c.which == First <==> |Words(command)| <= 1 || Words(command)[1] == "first")
    ensures c.DeleteCmd? ==> (c.which == All <==> |Words(command)| > 1 && Words(command)[1] == "all")
  {
    var args := Words(command);
    PrefixesDisjoint(command);
    if command == "/stream" then StreamCmd
    else if StartsWith(command, "/model") then ModelCmd(SecondWord(args))
    else if StartsWith(command, "/save") then SaveCmd(SecondWord(args))
    else if StartsWith(command, "/system") then SystemCmd(LaterWords(args))
    else if StartsWith(command, "/title") then TitleCmd(LaterWords(args))
    else if command == "/undo" then UndoCmd
    else if StartsWith(command, "/delete") then
      if |args| <= 1 || args[1] == "first" then DeleteCmd(First)
      else if args[1] == "all" then DeleteCmd(All)
      else DeleteCmd(Unrecognised)
    else if command == "/exit" then ExitCmd
    else OtherCmd
  }

  /** The second and third characters of a command spelled with prefix `p`. */
  lemma SpelledWith(command: string, p: string)
    requires StartsWith(command, p) && |p| >= 3
    ensures command[1] == p[1] && command[2] == p[2]
  {
  }

  /** The command spellings exclude one another: no two agree in both their
      second and third characters. */
  lemma PrefixesDisjoint(command: string)
    ensures command == "/stream" ==> !StartsWith(command, "/model")
    ensures StartsWith(command, "/save") ==> command != "/stream" && !StartsWith(command, "/model")
    ensures StartsWith(command, "/system") ==>
      command != "/stream" && !StartsWith(command, "/model") && !StartsWith(command, "/save")
    ensures StartsWith(command, "/title") ==>
      command != "/stream" && !StartsWith(command, "/model") && !StartsWith(command, "/save")
      && !StartsWith(command, "/system")
    ensures command == "/undo" ==>
      !StartsWith(command, "/model") && !StartsWith(command, "/save") && !StartsWith(command, "/system")
      && !StartsWith(command, "/title")
    ensures StartsWith(command, "/delete") ==>
      command != "/stream" && !StartsWith(command, "/model") && !StartsWith(command, "/save")
      && !StartsWith(command, "/system") && !StartsWith(command, "/title") && command != "/undo"
    ensures command == "/exit" ==>
      !StartsWith(command, "/model") && !StartsWith(command, "/save") && !StartsWith(command, "/system")
      && !StartsWith(command, "/title") && !StartsWith(command, "/delete")
  {
    if |command| >= 3 {
      if StartsWith(command, "/model") { SpelledWith(command, "/model"); }
      if StartsWith(command, "/save") { SpelledWith(command, "/save"); }
      if StartsWith(command, "/system") { SpelledWith(command, "/system"); }
      if StartsWith(command, "/title") { SpelledWith(command, "/title"); }
      if StartsWith(command, "/delete") { SpelledWith(command, "/delete"); }
    }
  }

  /** Because commands are lower-cased before they are read, a file name
      given to `/save` never holds a capital letter. */
  lemma SaveNameIsLowerCase(line: string)
    requires Classify(line).Run?
    requires ParseCommand(Classify(line).command).SaveCmd?
    requires ParseCommand(Classify(line).command).filename.Some?
    ensures NoCapitals(ParseCommand(Classify(line).command).filename.value)
  {
    var command := Classify(line).command;
    LowerIdempotent(Strip(line));
    assert NoCapitals(command);
    WordsKeepNoCapitals(command);
    var args := Words(command);
    assert args[1] in args;
  }

  /** `/delete` followed by a blank and one word acts on that word. */
  lemma DeleteArgument(w: string)
    requires |w| > 0 && NoSpace(w)
    ensures var c := ParseCommand("/delete " + w);
            c.DeleteCmd? && (c.which == First <==> w == "first") && (c.which == All <==> w == "all")
  {
    var d := "/delete";
    var command := "/delete " + w;
    assert command == d + " " + w;
    assert NoSpace(d);
    WordsOfPair(d, w);
    assert StartsWith(command, d);
    var args := Words(command);
    assert |args| == 2 && args[1] == w;
  }

  /** Two words joined by a blank split back into the two. */
  lemma WordsOfPair(a: string, b: string)
    requires |a| > 0 && NoSpace(a) && |b| > 0 && NoSpace(b)
    ensures Words(a + " " + b) == [a, b]
  {
    SplitJoinRoundTrip([a, b]);
    assert JoinWords([a, b]) == a + " " + b;
  }

  /** Glued to the command, a word is ignored by the prefix match and the
      first exchange is deleted: `/deleteall` does not clear the chat. */
  lemma DeleteGlued(w: string)
    requires NoSpace(w)
    ensures ParseCommand("/delete" + w) == DeleteCmd(First)
  {
    var d := "/delete";
    assert NoSpace(d + w);
    SplitJoinRoundTrip([d + w]);
    assert StartsWith(d + w, d);
  }

  /** What the user and the title worker supply while a command runs: the
      answer typed at a prompt (`prompt` gives back the default it shows when
      the user only presses Enter), the outcomes serving the title queue while
      `gen_title` waits and the one serving its own job, and how chat.py's
      blocking title request ended. */
  datatype Supplied = Supplied(typed: string, pending: seq<JobOutcome>, request: Option<JobOutcome>,
                               legacyTitle: LegacyTitleOutcome)

  /** `/model`: the name replaces the model unless it is the current one,
      and `set_model` ignores an empty name; the limit follows the name. */
  function RunModel(v: Variant, s: Session, name: string): (r: Session)
    ensures r.model == (if name == "" then s.model else name)
    ensures r.limit == (if name == "" || name == s.model then s.limit else LimitFor(v, name))
    ensures r == s.(model := r.model, limit := r.limit)
  {
    if name != s.model then SetModel(v, s, name) else s
  }

  /** `/system`: a prompt different from the current head's content
      replaces it, when the head is a system message, and tokens are
      recounted; otherwise nothing changes. An empty transcript, on which the
      source would fail, is left as it is. */
  function RunSystem(tok: Tokenizer, s: Session, content: string): (r: Session)
    ensures |s.messages| == 0 || content == s.messages[0].content || s.messages[0].role != System ==> r == s
    ensures |s.messages| >= 1 && s.messages[0].role == System && content != s.messages[0].content ==>
      r.messages == Transcript.ReplaceSystem(s.messages, content) && Consistent(tok, r)
    ensures |r.messages| == |s.messages| && (|s.messages| >= 1 ==> r.messages[1..] == s.messages[1..])
    ensures |s.messages| >= 1 ==> r.messages[0].role == s.messages[0].role
    ensures r == s.(messages := r.messages, currentTokens := r.currentTokens)
  {
    if |s.messages| >= 1 && content != s.messages[0].content then ModifySystemPrompt(tok, s, content) else s
  }

  /** `/title` (gpt_term/main.py only; chat.py prints the help): with words
      they become the title; without, a title is generated by force. */
  function RunTitle(v: Variant, tok: Tokenizer, s: Session, words: Option<string>, sup: Supplied): (r: Session)
    ensures v == Legacy ==> r == s
    ensures v != Legacy && words.Some? ==> r == s.(title := words)
    ensures v != Legacy && words.None? ==> r == GenTitle(tok, s, true, sup.pending, sup.request).session
    ensures r.messages == s.messages && r.currentTokens == s.currentTokens
    ensures r.totalTokensSpent >= s.totalTokensSpent
    ensures r == s.(title := r.title, titleJobs := r.titleJobs, unfinished := r.unfinished,
                    totalTokensSpent := r.totalTokensSpent)
  {
    if v == Legacy then s
    else if words.Some? then s.(title := words)
    else GenTitle(tok, s, true, sup.pending, sup.request).session
  }

  /** `/save`: with a file name nothing in the session changes; without one
      `gen_title()` runs first to propose a name, with its effects on title,
      queue and total (chat.py's blocking request adds nothing to the total). */
  function RunSave(v: Variant, tok: Tokenizer, s: Session, filename: Option<string>, sup: Supplied): (r: Session)
    ensures filename.Some? ==> r == s
    ensures filename.None? && v == Legacy ==> r == GenTitleLegacy(s, sup.legacyTitle).session
    ensures filename.None? && v != Legacy ==> r == GenTitle(tok, s, false, sup.pending, sup.request).session
    ensures r.messages == s.messages && r.currentTokens == s.currentTokens
    ensures r.totalTokensSpent >= s.totalTokensSpent
    ensures v == Legacy ==> r.totalTokensSpent == s.totalTokensSpent
    ensures r == s.(title := r.title, titleJobs := r.titleJobs, unfinished := r.unfinished,
                    totalTokensSpent := r.totalTokensSpent)
  {
    if filename.Some? then s
    else if v == Legacy then GenTitleLegacy(s, sup.legacyTitle).session
    else GenTitle(tok, s, false, sup.pending, sup.request).session
  }

  /** What a parsed command does to the session. Each command acts only on
      its own part of the state: `/stream` on the stream mode, `/model` on
      model and limit, `/system`, `/undo` and `/delete` on transcript,
      counter and (for `/delete all`) title, and `/save` and `/title` on
      title, title queue and total. The transcript never grows, the head
      stays a message of the same role (the same message, but for
      `/system`), the total never shrinks, and outside chat.py a counter in
      step with the transcript stays in step. */
  function Dispatch(v: Variant, tok: Tokenizer, s: Session, c: Command, sup: Supplied): (r: Session)
    ensures c == StreamCmd ==> r == s.(streamMode := !s.streamMode)
    ensures c.ModelCmd? ==> r == RunModel(v, s, if c.model.Some? then c.model.value else sup.typed)
    ensures c.SaveCmd? ==> r == RunSave(v, tok, s, c.filename, sup)
    ensures c.SystemCmd? ==> r == RunSystem(tok, s, if c.prompt.Some? then c.prompt.value else sup.typed)
    ensures c.TitleCmd? ==> r == RunTitle(v, tok, s, c.title, sup)
    ensures c.UndoCmd? ==> r == Undo(v, tok, s).session
    ensures c.DeleteCmd? && c.which == First ==> r == DeleteFirst(v, tok, s).session
    ensures c.DeleteCmd? && c.which == All ==> r == DeleteAll(v, tok, s)
    ensures c == ExitCmd || c == OtherCmd || (c.DeleteCmd? && c.which == Unrecognised) ==> r == s
    ensures r.autoTitle == s.autoTitle && r.temperature == s.temperature && r.streamOverflow == s.streamOverflow
    ensures c != StreamCmd ==> r.streamMode == s.streamMode
    ensures !c.ModelCmd? ==> r.model == s.model && r.limit == s.limit
    ensures !c.SaveCmd? && !c.TitleCmd? ==>
      r.titleJobs == s.titleJobs && r.unfinished == s.unfinished && r.totalTokensSpent == s.totalTokensSpent
    ensures c == StreamCmd || c.ModelCmd? || c.SaveCmd? || c.TitleCmd? ==>
      r.messages == s.messages && r.currentTokens == s.currentTokens
    ensures r.totalTokensSpent >= s.totalTokensSpent
    ensures |r.messages| <= |s.messages|
    ensures |s.messages| >= 1 ==> |r.messages| >= 1 && r.messages[0].role == s.messages[0].role
    ensures |s.messages| >= 1 && !c.SystemCmd? ==> r.messages[0] == s.messages[0]
    ensures v != Legacy && Consistent(tok, s) ==> Consistent(tok, r)
  {
    match c
    case StreamCmd => s.(streamMode := !s.streamMode)
    case ModelCmd(name) => RunModel(v, s, if name.Some? then name.value else sup.typed)
    case SaveCmd(filename) => RunSave(v, tok, s, filename, sup)
    case SystemCmd(prompt) => RunSystem(tok, s, if prompt.Some? then prompt.value else sup.typed)
    case TitleCmd(words) => RunTitle(v, tok, s, words, sup)
    case UndoCmd => Undo(v, tok, s).session
    case DeleteCmd(which) =>
      if which == First then DeleteFirst(v, tok, s).session
      else if which == All then DeleteAll(v, tok, s)
      else s
    case _ => s
  }

  /** Whatever the command, the system prompt stays at the head. */
  lemma DispatchKeepsRoot(v: Variant, tok: Tokenizer, s: Session, c: Command, sup: Supplied)
    requires Transcript.Rooted(s.messages)
    ensures Transcript.Rooted(Dispatch(v, tok, s, c, sup).messages)
  {
  }

  /** Commands are lower-cased and re-spaced before they are read, so a
      prompt set with `/system` words, or a title set with `/title` words,
      never holds a capital letter. */
  lemma CommandWordsLowerCase(line: string)
    requires Classify(line).Run?
    ensures var c := ParseCommand(Classify(line).command);
            && (c.SystemCmd? && c.prompt.Some? ==> NoCapitals(c.prompt.value))
            && (c.TitleCmd? && c.title.Some? ==> NoCapitals(c.title.value))
  {
    var command := Classify(line).command;
    LowerIdempotent(Strip(line));
    LaterWordsKeepNoCapitals(command);
  }

  /** The words after the first of a text without capitals, joined, have
      none. */
  lemma LaterWordsKeepNoCapitals(command: string)
    requires NoCapitals(command)
    ensures LaterWords(Words(command)).Some? ==> NoCapitals(LaterWords(Words(command)).value)
  {
    var args := Words(command);
    WordsKeepNoCapitals(command);
    if |args| > 1 {
      forall i | 0 <= i < |args[1..]|
        ensures NoCapitals(args[1..][i])
      {
        assert args[1..][i] in args;
      }
      JoinKeepsNoCapitals(args[1..]);
    }
  }

  /** Joining words without capitals with blanks adds none. */
  lemma {:induction false} JoinKeepsNoCapitals(ws: seq<string>)
    requires forall i :: 0 <= i < |ws| ==> NoCapitals(ws[i])
    ensures NoCapitals(JoinWords(ws))
    decreases |ws|
  {
    if |ws| > 1 {
      JoinKeepsNoCapitals(ws[1..]);
      var rest := JoinWords(ws[1..]);
      assert JoinWords(ws) == ws[0] + " " + rest;
      assert NoCapitals(ws[0]);
      forall i | 0 <= i < |JoinWords(ws)|
        ensures !('A' <= JoinWords(ws)[i] <= 'Z')
      {
        if i < |ws[0]| {
          assert JoinWords(ws)[i] == ws[0][i];
        } else if i > |ws[0]| {
          assert JoinWords(ws)[i] == rest[i - |ws[0]| - 1];
        }
      }
    }
  }

  // ---------------------------------------------------------------------
  // The name `/save` proposes

  /** Characters the proposed file name drops: gpt_term/main.py drops the
      ones Windows forbids in file names, chat.py only the double quote. */
  predicate Forbidden(v: Variant, c: char) {
    if v == Legacy then c == '"'
    else c == '/' || c == '\\' || c == '*' || c == '?' || c == '"' || c == '<' || c == '>' || c == '|' || c == ':'
  }

  /** No forbidden character in `s`. */
  predicate Clean(v: Variant, s: string) {
    forall i :: 0 <= i < |s| ==> !Forbidden(v, s[i])
  }

  /** The title with every forbidden character removed and every other one
      kept, in order. */
  function Sanitize(v: Variant, name: string): (r: string)
    ensures Clean(v, r) && |r| <= |name|
    ensures Clean(v, name) ==> r == name
    decreases |name|
  {
    if |name| == 0 then ""
    else (if Forbidden(v, name[0]) then "" else [name[0]]) + Sanitize(v, name[1..])
  }

  /** Sanitising works character by character: it distributes over
      concatenation, so the kept characters keep their order. */
  lemma {:induction false} SanitizeAppend(v: Variant, a: string, b: string)
    ensures Sanitize(v, a + b) == Sanitize(v, a) + Sanitize(v, b)
    decreases |a|
  {
    if |a| == 0 {
      assert a + b == b;
    } else {
      var head: string := if Forbidden(v, a[0]) then "" else [a[0]];
      SanitizeAppend(v, a[1..], b);
      assert Sanitize(v, a + b) == head + Sanitize(v, a[1..] + b) by {
        assert (a + b)[0] == a[0];
        assert (a + b)[1..] == a[1..] + b;
      }
      ConcatAssoc(head, Sanitize(v, a[1..]), Sanitize(v, b));
    }
  }

  /** Exactly the allowed characters of the title survive: every kept
      character was in the title, and every allowed one is kept. */
  lemma {:induction false} SanitizeKeepsAllowed(v: Variant, name: string)
    ensures forall c :: c in Sanitize(v, name) <==> c in name && !Forbidden(v, c)
    decreases |name|
  {
    if |name| > 0 {
      SanitizeKeepsAllowed(v, name[1..]);
      var head: string := if Forbidden(v, name[0]) then "" else [name[0]];
      assert Sanitize(v, name) == head + Sanitize(v, name[1..]);
      assert name == [name[0]] + name[1..];
    }
  }

  /** Concatenation is associative. */
  lemma ConcatAssoc<T>(x: seq<T>, y: seq<T>, z: seq<T>)
    ensures x + (y + z) == (x + y) + z
  {
  }

  /** Sanitising twice is sanitising once. */
  lemma SanitizeIdempotent(v: Variant, name: string)
    ensures Sanitize(v, Sanitize(v, name)) == Sanitize(v, name)
  {
  }

  /** What gpt_term/main.py's sanitiser keeps, chat.py's keeps too: the
      newer one removes at least as much. */
  lemma {:induction false} SanitizersNest(name: string)
    ensures Clean(Legacy, Sanitize(Evolved, name))
    ensures Sanitize(Evolved, Sanitize(Legacy, name)) == Sanitize(Evolved, name)
    decreases |name|
  {
    if |name| > 0 {
      var head: string := if Forbidden(Legacy, name[0]) then "" else [name[0]];
      var rest := Sanitize(Legacy, name[1..]);
      assert Sanitize(Legacy, name) == head + rest;
      SanitizeAppend(Evolved, head, rest);
      SanitizersNest(name[1..]);
      assert Clean(Legacy, Sanitize(Evolved, name)) by {
        assert Clean(Evolved, Sanitize(Evolved, name));
      }
      if Forbidden(Legacy, name[0]) {
        assert Sanitize(Evolved, head) == "";
      } else {
        assert Sanitize(Evolved, head) == (if Forbidden(Evolved, name[0]) then "" else [name[0]]) + Sanitize(Evolved, []);
      }
    }
  }

  /** The folder prefix of saved chats: configurable in gpt_term/main.py,
      fixed in chat.py. */
  function SavePrefix(v: Variant, configured: string): string {
    if v == Legacy then "./chat_history_" else configured
  }

  /** The default `/save` offers: from the title when `gen_title` returned a
      non-empty one (checked before sanitising), else from the time stamp. */
  function DefaultSaveName(v: Variant, configured: string, title: Option<string>, stamp: string): (r: string)
    ensures StartsWith(r, SavePrefix(v, configured))
    ensures title.Some? && title.value != "" ==> r == SavePrefix(v, configured) + Sanitize(v, title.value) + ".json"
    ensures !(title.Some? && title.value != "") ==> r == SavePrefix(v, configured) + stamp + ".json"
    ensures title.Some? && title.value != "" ==> Clean(v, r[|SavePrefix(v, configured)|..|r| - 5])
  {
    var p := SavePrefix(v, configured);
    if title.Some? && title.value != "" then p + Sanitize(v, title.value) + ".json"
    else p + stamp + ".json"
  }

  /** The file `/save` writes: the name given with the command, else what
      the user types at the prompt, else the default offered. */
  function SaveTarget(v: Variant, configured: string, given: Option<string>, title: Option<string>,
                      stamp: string, typed: Option<string>): (r: string)
    ensures given.Some? ==> r == given.value
    ensures given.None? && typed.Some? ==> r == typed.value
    ensures given.None? && typed.None? ==> r == DefaultSaveName(v, configured, title, stamp)
  {
    if given.Some? then given.value
    else if typed.Some? then typed.value
    else DefaultSaveName(v, configured, title, stamp)
  }

  /** A titled default is the prefix, the sanitised title and `.json`, and
      between the two no forbidden character remains. */
  lemma TitledDefaultShape(v: Variant, configured: string, title: string, stamp: string)
    requires title != ""
    ensures var r := DefaultSaveName(v, configured, Some(title), stamp);
            var p := SavePrefix(v, configured);
            r[..|p|] == p && r[|p|..|r| - 5] == Sanitize(v, title) && r[|r| - 5..] == ".json"
            && Clean(v, r[|p|..|r| - 5])
  {
  }

  /** A title made only of forbidden characters still counts as a title, so
      the default becomes the bare prefix followed by `.json`. */
  lemma ForbiddenOnlyTitle(configured: string, stamp: string)
    ensures DefaultSaveName(Evolved, configured, Some("???"), stamp) == configured + ".json"
  {
    assert Sanitize(Evolved, "???") == "";
  }

  // ---------------------------------------------------------------------
  // Validators

  /** An ASCII decimal digit. */
  predicate IsDigit(c: char) {
    '0' <= c <= '9'
  }

  /** `NumberValidator`: the answer must be non-empty and all digits. */
  predicate NumberValid(text: string): (b: bool)
    ensures b ==> |text| > 0 && '-' !in text && '.' !in text && ' ' !in text
  {
    |text| > 0 && forall i :: 0 <= i < |text| ==> IsDigit(text[i])
  }

  /** The value of a string of digits, as `int()` reads it. */
  function DigitsValue(text: string): nat
    requires forall i :: 0 <= i < |text| ==> IsDigit(text[i])
  {
    if |text| == 0 then 0
    else
      assert IsDigit(text[|text| - 1]);
      DigitsValue(text[..|text| - 1]) * 10 + (text[|text| - 1] as int - '0' as int)
  }

  /** The decimal spelling of a number, as `str()` writes it. */
  function Decimal(n: nat): (r: string)
    ensures forall i :: 0 <= i < |r| ==> IsDigit(r[i])
    ensures |r| > 0
  {
    if n < 10 then [('0' as int + n) as char] else Decimal(n / 10) + [('0' as int + n % 10) as char]
  }

  /** The validator accepts every number's spelling, and reading it back
      gives the number. */
  lemma {:induction false} DecimalRoundTrip(n: nat)
    ensures NumberValid(Decimal(n))
    ensures DigitsValue(Decimal(n)) == n
  {
    var r := Decimal(n);
    if n < 10 {
      assert r[..0] == [];
    } else {
      DecimalRoundTrip(n / 10);
      assert r[..|r| - 1] == Decimal(n / 10);
    }
  }

  /** The validator refuses an empty answer and one with a sign. */
  lemma NumberValidExamples()
    ensures !NumberValid("")
    ensures !NumberValid("-1")
    ensures NumberValid("12")
  {
    assert !IsDigit("-1"[0]);
  }

  /** How `FloatRangeValidator` judges a number: the lower bound is checked
      first, and each bound is inclusive and optional. */
  datatype RangeVerdict = InRange | BelowMin | AboveMax

  /** `FloatRangeValidator.validate` on a number `float()` accepted. */
  function CheckRange(value: real, lo: Option<real>, hi: Option<real>): (v: RangeVerdict)
    ensures v == InRange <==> (lo.None? || lo.value <= value) && (hi.None? || value <= hi.value)
    ensures v == BelowMin <==> lo.Some? && value < lo.value
  {
    if lo.Some? && value < lo.value then BelowMin
    else if hi.Some? && value > hi.value then AboveMax
    else InRange
  }

  /** The bounds themselves pass, and with neither bound everything does. */
  lemma CheckRangeBounds(lo: real, hi: real, value: real)
    requires lo <= hi
    ensures CheckRange(lo, Some(lo), Some(hi)) == InRange
    ensures CheckRange(hi, Some(lo), Some(hi)) == InRange
    ensures CheckRange(value, None, None) == InRange
  {
  }

  /** `set_temperature` accepts exactly what a validator over [0, 2] lets
      through. */
  lemma TemperatureMatchesValidator(s: Session, t: real)
    ensures SetTemperature(s, Some(t)).accepted <==> CheckRange(t, Some(0.0), Some(2.0)) == InRange
  {
  }

  // ---------------------------------------------------------------------
  // The masked key

  /** `key[:3] + '*' * (len(key) - 7) + key[-4:]`: the key as the log shows it. */
  function MaskKey(key: string): (r: string)
    ensures |key| >= 3 ==> |r| >= 3 && r[..3] == key[..3]
    ensures |key| >= 7 ==> |r| >= |key| - 4
    ensures forall i :: 3 <= i < |key| - 4 ==> r[i] == '*'
  {
    var stars := if |key| > 7 then seq(|key| - 7, _ => '*') else "";
    PySlice(key, 0, 3) + stars + PySlice(key, -4, |key|)
  }

  /** A key of seven characters or more keeps its length, its first three
      and last four characters, and is starred in between. */
  lemma MaskKeyLong(key: string)
    requires |key| >= 7
    ensures |MaskKey(key)| == |key|
    ensures MaskKey(key)[..3] == key[..3]
    ensures MaskKey(key)[|key| - 4..] == key[|key| - 4..]
    ensures forall i :: 3 <= i < |key| - 4 ==> MaskKey(key)[i] == '*'
  {
    var stars := if |key| > 7 then seq(|key| - 7, _ => '*') else "";
    assert PySlice(key, 0, 3) == key[..3];
    assert PySlice(key, -4, |key|) == key[|key| - 4..];
    assert MaskKey(key) == key[..3] + stars + key[|key| - 4..];
  }

  /** A key of at most seven characters hides nothing: a seven-character key
      is shown whole, and a shorter one repeats rather than stars. */
  lemma MaskKeyShort(key: string)
    requires |key| <= 7
    ensures '*' !in key ==> '*' !in MaskKey(key)
    ensures |key| == 7 ==> MaskKey(key) == key
  {
    var r := MaskKey(key);
    assert r == PySlice(key, 0, 3) + PySlice(key, -4, |key|);
    if |key| == 7 {
      assert PySlice(key, 0, 3) == key[..3];
      assert PySlice(key, -4, |key|) == key[3..];
      assert key == key[..3] + key[3..];
    }
    if '*' !in key {
      forall c | c in r
        ensures c in key
      {
        if c in PySlice(key, 0, 3) {
          SliceChars(key, 0, 3, c);
        } else {
          SliceChars(key, -4, |key|, c);
        }
      }
    }
  }

  /** A Python slice holds only characters of the text sliced. */
  lemma SliceChars(s: string, a: int, b: int, c: char)
    requires c in PySlice(s, a, b)
    ensures c in s
  {
    var lo := SliceBound(a, |s|);
    var hi := SliceBound(b, |s|);
    var i :| 0 <= i < |s[lo..hi]| && s[lo..hi][i] == c;
    assert s[lo + i] == c;
  }
}
