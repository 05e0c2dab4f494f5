/** `streamAppContent`: the prompt built from the interaction history and the
    shaping of the remote model's streamed reply into fragments. The remote
    call is a parameter: a function from the prompt to the reply it streams. */
module Gemini {
  import opened Types
  import Seqs
  import Decimal
  import Constants

  /** What the remote streaming call delivers for one prompt: the text of
      each received chunk ("" for a chunk without text), in order, and, when
      the call or the iteration failed after those chunks, the failure's
      `String(error)`. A failure of the call itself has no chunks. */
  datatype StreamReply = StreamReply(chunks: seq<string>, failure: Option<string>)

  /** The environment of a request: whether the API key is configured, and
      the remote model. */
  datatype Environment = Environment(hasApiKey: bool, backend: string -> StreamReply)

  /** The fixed fragment for a missing API key (its markup abbreviated). */
  const ConfigurationRequiredBlock: string :=
    "<div class=\"p-6 text-red-700 bg-red-50 rounded-xl border border-red-200\"><h2>OS Configuration Required</h2><p>The system API_KEY is missing.</p></div>"

  /** The fixed fragment for an empty history (its markup abbreviated). */
  const WaitingBlock: string :=
    "<div class=\"p-6 text-orange-700 bg-orange-50 rounded-xl\"><p class=\"font-bold\">Waiting for user input...</p></div>"

  /** The markup around the error text of the failure fragment (abbreviated). */
  const PanicHead: string :=
    "<div class=\"p-6 text-red-700 bg-red-50 rounded-xl\"><h3>Kernel Panic</h3><p>The generative engine encountered an error.</p><p class=\"mt-4 text-xs font-mono bg-red-100 p-2 rounded\">"
  const PanicTail: string := "</p></div>"

  /** The one fragment yielded for a failure, embedding `String(error)`. */
  function KernelPanicBlock(error: string): (block: string)
    ensures |block| == |PanicHead| + |error| + |PanicTail|
    ensures block[|PanicHead|..|PanicHead| + |error|] == error
  {
    PanicHead + error + PanicTail
  }

  /** The failure fragment determines the error text it embeds. */
  lemma KernelPanicInjective(e1: string, e2: string)
    requires KernelPanicBlock(e1) == KernelPanicBlock(e2)
    ensures e1 == e2
  {
    var b := KernelPanicBlock(e1);
    assert e1 == b[|PanicHead|..|PanicHead| + |e1|];
    assert |e1| == |e2|;
  }

  /** `User Action: <kind> on '<label>'`, with ` (Input: "<value>")` when the
      value is non-empty; the label is the element text, or the id when that
      is empty. */
  function ActionLine(current: Interaction): (line: string)
    ensures Seqs.IsPrefix("User Action: " + current.kind + " on '" + OrElse(current.elementText, current.id) + "'", line)
    ensures current.value != "" ==> Seqs.IsSuffix(" (Input: \"" + current.value + "\")", line)
    ensures current.value != "" ==>
              |line| == |"User Action: " + current.kind + " on '" + OrElse(current.elementText, current.id) + "'"|
                        + |" (Input: \"" + current.value + "\")"|
    ensures current.value == "" ==> line == "User Action: " + current.kind + " on '" + OrElse(current.elementText, current.id) + "'"
  {
    var log := "User Action: " + current.kind + " on '" + OrElse(current.elementText, current.id) + "'";
    if current.value != "" then log + " (Input: \"" + current.value + "\")" else log
  }

  /** The context line names the catalog application whose id is the current
      interaction's application context, or the desktop when there is none. */
  function ContextLine(appContext: string): (line: string)
    ensures forall a :: a in Constants.Catalog && a.id == appContext ==>
              line == "Context: Application '" + a.name + "'"
    ensures (forall a :: a in Constants.Catalog ==> a.id != appContext) ==>
              line == "Context: System Desktop"
  {
    Constants.CatalogLookup();
    match Constants.FindApp(Constants.Catalog, appContext)
    case Some(app) => "Context: Application '" + app.name + "'"
    case None => "Context: System Desktop"
  }

  /** An absent application context, like "", names no catalog entry. */
  lemma ContextLineOfAbsent()
    ensures ContextLine("") == "Context: System Desktop"
  {
    Constants.CatalogIdsDistinct();
    assert forall a :: a in Constants.Catalog ==> a.id != "" by {
      forall a | a in Constants.Catalog ensures a.id != "" {
        var i :| 0 <= i < |Constants.Catalog| && Constants.Catalog[i] == a;
      }
    }
  }

  const HistoryHeader: string := "\n\nSession History (most recent last):"

  /** The n-th line of the history section for the past interaction h. */
  function HistoryLine(n: nat, h: Interaction): string {
    "\n" + HistoryEntry(n, h)
  }

  function HistoryEntry(n: nat, h: Interaction): string {
    Seqs.Concat([Decimal.NatToDecimal(n), ". [", OrElse(h.appContext, "OS"), "] ", h.kind,
                 " on '", OrElse(h.elementText, h.id), "'", ValueSuffix(h.value)])
  }

  function ValueSuffix(value: string): string {
    if value != "" then Seqs.Concat([": \"", value, "\""]) else ""
  }

  /** A history line reads `<n>. [<appContext, or OS>] <kind> on '<label>'`,
      followed by `: "<value>"` exactly when the value is non-empty. */
  lemma HistoryEntryShape(n: nat, h: Interaction)
    ensures var described := Decimal.NatToDecimal(n) + ". [" + OrElse(h.appContext, "OS") + "] " + h.kind
                             + " on '" + OrElse(h.elementText, h.id) + "'";
            && Seqs.IsPrefix(described, HistoryEntry(n, h))
            && (h.value != "" ==> Seqs.IsSuffix(": \"" + h.value + "\"", HistoryEntry(n, h)))
            && (h.value != "" ==> |HistoryEntry(n, h)| == |described| + |": \"" + h.value + "\""|)
            && (h.value == "" ==> HistoryEntry(n, h) == described)
  {
    Seqs.ConcatNine(Decimal.NatToDecimal(n), ". [", OrElse(h.appContext, "OS"), "] ", h.kind,
                    " on '", OrElse(h.elementText, h.id), "'", ValueSuffix(h.value));
    Seqs.ConcatThree(": \"", h.value, "\"");
  }

  /** The ordinal at the head of a history line reads back with `parseInt`. */
  lemma HistoryEntryOrdinal(n: nat, h: Interaction)
    ensures Decimal.ParseInt(HistoryEntry(n, h)) == Some(n)
  {
    var d := Decimal.NatToDecimal(n);
    var p := [d, ". [", OrElse(h.appContext, "OS"), "] ", h.kind,
              " on '", OrElse(h.elementText, h.id), "'", ValueSuffix(h.value)];
    assert p == [d] + p[1..];
    Seqs.ConcatCons(d, p[1..]);
    assert p[1..] == [". ["] + p[2..];
    Seqs.ConcatCons(". [", p[2..]);
    var rest := Seqs.Concat(p[1..]);
    assert rest[0] == '.';
    Decimal.ParseIntOfDecimal(n, rest);
  }

  /** The lines for the past interactions history[1..], oldest first and
      numbered from 1: line i describes history[|history| - 1 - i]. */
  function PastLines(history: seq<Interaction>): (lines: seq<string>)
    requires |history| >= 1
    ensures |lines| == |history| - 1
    ensures forall i :: 0 <= i < |lines| ==> lines[i] == HistoryLine(i + 1, history[|history| - 1 - i])
  {
    seq(|history| - 1, i requires 0 <= i < |history| - 1 => HistoryLine(i + 1, history[|history| - 1 - i]))
  }

  /** The history section: empty without past interactions, otherwise the
      header followed by one line per past interaction. */
  function HistorySection(history: seq<Interaction>): string {
    if |history| <= 1 then "" else HistoryHeader + Seqs.Concat(PastLines(history))
  }

  /** The section is empty exactly when there is no past interaction. */
  lemma HistorySectionEmpty(history: seq<Interaction>)
    ensures HistorySection(history) == "" <==> |history| <= 1
  {
  }

  /** The section describes history[1..] only: the current interaction,
      history[0], does not appear in it. */
  lemma HistorySectionIgnoresCurrent(x: Interaction, y: Interaction, past: seq<Interaction>)
    ensures HistorySection([x] + past) == HistorySection([y] + past)
  {
    if |past| > 0 {
      assert PastLines([x] + past) == PastLines([y] + past) by {
        forall i | 0 <= i < |past|
          ensures PastLines([x] + past)[i] == PastLines([y] + past)[i]
        {
          assert ([x] + past)[|past| - i] == past[|past| - 1 - i] == ([y] + past)[|past| - i];
        }
      }
    }
  }

  /** The `forEach` over the reversed copy of the past interactions, appending
      one line per entry. */
  method BuildHistorySection(history: seq<Interaction>) returns (section: string)
    ensures section == HistorySection(history)
  {
    section := "";
    var past := if |history| == 0 then [] else history[1..];
    if |past| > 0 {
      section := HistoryHeader;
      var reversed := Seqs.Reverse(past);
      ghost var lines := PastLines(history);
      var i := 0;
      while i < |reversed|
        invariant 0 <= i <= |reversed| == |lines|
        invariant section == HistoryHeader + Seqs.Concat(lines[..i])
      {
        var line := HistoryLine(i + 1, reversed[i]);
        assert reversed[i] == history[|history| - 1 - i];
        SectionStep(lines, i, section);
        section := section + line;
        i := i + 1;
      }
      assert lines[..i] == lines;
    }
  }

  /** One iteration of the `forEach`: appending the next line extends the
      section by that line. */
  lemma SectionStep(lines: seq<string>, i: nat, section: string)
    requires i < |lines|
    requires section == HistoryHeader + Seqs.Concat(lines[..i])
    ensures section + lines[i] == HistoryHeader + Seqs.Concat(lines[..i + 1])
  {
    Seqs.ConcatStep(lines, i);
  }

  const TaskSection: string :=
    "\n\nTask: Generate the view layer HTML for the current app state. Focus on aesthetics and usability.\n\nResponse:"

  /** The full prompt: the system prompt for the depth, then the context line,
      the action line for history[0], the history section and the `Task:` section. */
  function FullPrompt(history: seq<Interaction>, maxHistoryLength: int): (prompt: string)
    requires |history| >= 1
    ensures Seqs.IsPrefix(Constants.SystemPrompt(maxHistoryLength), prompt)
    ensures Seqs.IsSuffix(TaskSection, prompt)
  {
    var state := CurrentState(ContextLine(history[0].appContext), ActionLine(history[0]), HistorySection(history));
    Seqs.SuffixOfAppend(Constants.SystemPrompt(maxHistoryLength), state, TaskSection);
    Constants.SystemPrompt(maxHistoryLength) + state
  }

  const StateHeader: string := "\n\nCurrent State:\n"

  /** The part of the prompt after the system prompt, in its fixed order. */
  function CurrentState(appContextStr: string, interactionLog: string, historyStr: string): (state: string)
    ensures Seqs.IsSuffix(TaskSection, state)
  {
    var body := StateHeader + appContextStr + "\n" + interactionLog + "\n" + historyStr;
    Seqs.SuffixOfAppend(body, TaskSection, TaskSection);
    body + TaskSection
  }

  /** The state part holds, in this order and with nothing else between
      them: the state header, the context line, a line break, the action
      line, a line break, the history section and the `Task:` section. */
  lemma CurrentStateLayout(c: string, a: string, hs: string)
    ensures var state := CurrentState(c, a, hs);
            var i := |StateHeader|;
            var j := i + |c| + 1;
            var k := j + |a| + 1;
            && |state| == k + |hs| + |TaskSection|
            && state[..i] == StateHeader
            && state[i..i + |c|] == c && state[i + |c|] == '\n'
            && state[j..j + |a|] == a && state[j + |a|] == '\n'
            && state[k..k + |hs|] == hs
            && state[k + |hs|..] == TaskSection
  {
    Seqs.SevenPieces(StateHeader, c, "\n", a, "\n", hs, TaskSection);
  }

  /** After any prefix, the pieces of the state part are shifted by the
      prefix's length. */
  lemma PrefixedStateLayout(sp: string, c: string, a: string, hs: string)
    ensures var prompt := sp + CurrentState(c, a, hs);
            var i := |sp| + |StateHeader|;
            var j := i + |c| + 1;
            var k := j + |a| + 1;
            && |prompt| == k + |hs| + |TaskSection|
            && prompt[..|sp|] == sp
            && prompt[|sp|..i] == StateHeader
            && prompt[i..i + |c|] == c && prompt[i + |c|] == '\n'
            && prompt[j..j + |a|] == a && prompt[j + |a|] == '\n'
            && prompt[k..k + |hs|] == hs
            && prompt[k + |hs|..] == TaskSection
  {
    Seqs.ShiftedPieces(sp, StateHeader, c, "\n", a, "\n", hs, TaskSection);
  }

  /** The full prompt is the system prompt for the depth followed by the
      state part: the context line, the action line for history[0] and the
      history section sit between the state header and the `Task:` section,
      in that order, with nothing else between them. */
  lemma FullPromptLayout(history: seq<Interaction>, maxHistoryLength: int, sp: string, c: string, a: string, hs: string)
    requires |history| >= 1
    requires sp == Constants.SystemPrompt(maxHistoryLength)
    requires c == ContextLine(history[0].appContext)
    requires a == ActionLine(history[0])
    requires hs == HistorySection(history)
    ensures var prompt := FullPrompt(history, maxHistoryLength);
            var i := |sp| + |StateHeader|;
            var j := i + |c| + 1;
            var k := j + |a| + 1;
            && |prompt| == k + |hs| + |TaskSection|
            && prompt[..|sp|] == sp
            && prompt[|sp|..i] == StateHeader
            && prompt[i..i + |c|] == c && prompt[i + |c|] == '\n'
            && prompt[j..j + |a|] == a && prompt[j + |a|] == '\n'
            && prompt[k..k + |hs|] == hs
            && prompt[k + |hs|..] == TaskSection
  {
    assert FullPrompt(history, maxHistoryLength) == sp + CurrentState(c, a, hs);
    PrefixedStateLayout(sp, c, a, hs);
  }

  /** The depth is the prompt's only dependence on anything but the history,
      and it can be read back from the prompt's history-context heading. */
  lemma FullPromptShowsDepth(history: seq<Interaction>, maxHistoryLength: int)
    requires |history| >= 1
    ensures Decimal.ParseInt(FullPrompt(history, maxHistoryLength)[|Constants.PromptHead|..])
            == Some(maxHistoryLength)
  {
    var d := Decimal.IntToDecimal(maxHistoryLength);
    var state := CurrentState(ContextLine(history[0].appContext), ActionLine(history[0]), HistorySection(history));
    var rest := Constants.PromptTail + state;
    Seqs.AppendAssoc(Constants.PromptHead, d, Constants.PromptTail);
    Seqs.AppendAssoc(Constants.PromptHead, d + Constants.PromptTail, state);
    Seqs.AppendAssoc(d, Constants.PromptTail, state);
    assert FullPrompt(history, maxHistoryLength) == Constants.PromptHead + (d + rest);
    assert FullPrompt(history, maxHistoryLength)[|Constants.PromptHead|..] == d + rest;
    assert rest[0] == Constants.PromptTail[0] == ')';
    Decimal.ParseIntOfDecimal(maxHistoryLength, rest);
  }

  /** The texts of the chunks with empty ones removed, in order. */
  function NonEmptyTexts(chunks: seq<string>): (texts: seq<string>)
    ensures |texts| <= |chunks|
    ensures forall i :: 0 <= i < |texts| ==> texts[i] != ""
  {
    if chunks == [] then []
    else NonEmptyTexts(chunks[..|chunks| - 1])
         + (if chunks[|chunks| - 1] != "" then [chunks[|chunks| - 1]] else [])
  }

  /** Filtering works chunk by chunk, so it keeps the order of the reply. */
  lemma {:induction false} NonEmptyTextsAppend(xs: seq<string>, ys: seq<string>)
    ensures NonEmptyTexts(xs + ys) == NonEmptyTexts(xs) + NonEmptyTexts(ys)
    decreases |ys|
  {
    if ys == [] {
      assert xs + ys == xs;
    } else {
      var zs := xs + ys;
      assert zs[..|zs| - 1] == xs + ys[..|ys| - 1];
      NonEmptyTextsAppend(xs, ys[..|ys| - 1]);
    }
  }

  /** A reply whose chunks all carry text passes through unchanged. */
  lemma {:induction false} NonEmptyTextsKeepsText(chunks: seq<string>)
    requires forall i :: 0 <= i < |chunks| ==> chunks[i] != ""
    ensures NonEmptyTexts(chunks) == chunks
  {
    if chunks != [] {
      NonEmptyTextsKeepsText(chunks[..|chunks| - 1]);
    }
  }

  /** Dropping the empty chunks loses no text. */
  lemma {:induction false} NonEmptyTextsConcat(chunks: seq<string>)
    ensures Seqs.Concat(NonEmptyTexts(chunks)) == Seqs.Concat(chunks)
  {
    if chunks != [] {
      var init := chunks[..|chunks| - 1];
      var last := chunks[|chunks| - 1];
      NonEmptyTextsConcat(init);
      Seqs.ConcatAppend(NonEmptyTexts(init), if last != "" then [last] else []);
      assert Seqs.Concat([last]) == last by {
        assert [last][..0] == [];
      }
    }
  }

  /** The fragments a reply is shaped into: the non-empty chunk texts in
      order, then, when the reply failed, one Kernel Panic fragment. */
  function ShapeReply(reply: StreamReply): (fragments: seq<string>)
    ensures |fragments| == |NonEmptyTexts(reply.chunks)| + (if reply.failure.Some? then 1 else 0)
    ensures fragments[..|NonEmptyTexts(reply.chunks)|] == NonEmptyTexts(reply.chunks)
    ensures reply.failure.Some? ==> fragments[|fragments| - 1] == KernelPanicBlock(reply.failure.value)
  {
    NonEmptyTexts(reply.chunks) + (if reply.failure.Some? then [KernelPanicBlock(reply.failure.value)] else [])
  }

  /** The fragments `streamAppContent` yields for a history and depth. */
  function StreamedFragments(env: Environment, history: seq<Interaction>, maxHistoryLength: int): seq<string> {
    if !env.hasApiKey then [ConfigurationRequiredBlock]
    else if history == [] then [WaitingBlock]
    else ShapeReply(env.backend(FullPrompt(history, maxHistoryLength)))
  }

  /** The `for await` over the reply with its `catch`: each chunk with text
      is yielded in order, and a failure yields one Kernel Panic fragment
      instead of being re-raised. */
  method ShapeStream(reply: StreamReply) returns (fragments: seq<string>)
    ensures fragments == ShapeReply(reply)
  {
    fragments := [];
    var i := 0;
    while i < |reply.chunks|
      invariant 0 <= i <= |reply.chunks|
      invariant fragments == NonEmptyTexts(reply.chunks[..i])
    {
      assert reply.chunks[..i + 1][..i] == reply.chunks[..i];
      if reply.chunks[i] != "" {
        fragments := fragments + [reply.chunks[i]];
      }
      i := i + 1;
    }
    assert reply.chunks[..i] == reply.chunks;
    if reply.failure.Some? {
      fragments := fragments + [KernelPanicBlock(reply.failure.value)];
    }
  }

  /** `streamAppContent`: a missing key and then an empty history each yield
      one fixed fragment and stop; otherwise the prompt goes to the remote
      model and its reply is shaped into fragments. */
  method StreamAppContent(env: Environment, history: seq<Interaction>, maxHistoryLength: int)
    returns (fragments: seq<string>)
    ensures !env.hasApiKey ==> fragments == [ConfigurationRequiredBlock]
    ensures env.hasApiKey && history == [] ==> fragments == [WaitingBlock]
    ensures env.hasApiKey && history != [] ==>
              fragments == ShapeReply(env.backend(FullPrompt(history, maxHistoryLength)))
    ensures fragments == StreamedFragments(env, history, maxHistoryLength)
  {
    if !env.hasApiKey {
      return [ConfigurationRequiredBlock];
    }
    if |history| == 0 {
      return [WaitingBlock];
    }
    var systemPrompt := Constants.SystemPrompt(maxHistoryLength);
    var current := history[0];
    var interactionLog := ActionLine(current);
    var appContextStr := ContextLine(current.appContext);
    var historyStr := BuildHistorySection(history);
    var fullPrompt := systemPrompt + CurrentState(appContextStr, interactionLog, historyStr);
    fragments := ShapeStream(env.backend(fullPrompt));
  }

  /** Without a failure the fragments carry exactly the text of the reply. */
  lemma SuccessfulStreamText(reply: StreamReply)
    requires reply.failure.None?
    ensures Seqs.Concat(ShapeReply(reply)) == Seqs.Concat(reply.chunks)
  {
    assert ShapeReply(reply) == NonEmptyTexts(reply.chunks);
    NonEmptyTextsConcat(reply.chunks);
  }

  /** A failure after the chunks "<div>" and "partial" is seen as exactly those
      two fragments and the Kernel Panic fragment. */
  lemma MidStreamFailure(error: string)
    ensures ShapeReply(StreamReply(["<div>", "partial"], Some(error))) == ["<div>", "partial", KernelPanicBlock(error)]
  {
    var chunks := ["<div>", "partial"];
    assert chunks[..1] == ["<div>"];
    assert ["<div>"][..0] == [];
  }
}
