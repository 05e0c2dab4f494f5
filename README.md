# Gemini OS controller, prompt builder and settings panel — a Dafny model

Gemini OS is a browser desktop whose application windows are HTML streamed
back by a remote language model. This project models the parts of it that
are sequential logic rather than presentation:

- **`Controller`** (`app.dfy`) is the top-level `App` component as a class
  with ten fields: active application, settings-panel flag, content, loading
  flag, error, interaction history, history depth, caching flag, view cache
  (a `map<string, string>`) and navigation path. Its handlers are methods that
  apply the component's setter calls in order. They are `handleAppOpen`,
  `handleInteraction`, `handleCloseAppView`, `handleToggleParametersPanel`,
  the window's close button, the request routine `internalHandleLlmRequest`
  and the cache-store effect. The panel's callback props, Save and Cancel
  are methods too.
- **`Gemini`** (`gemini_service.dfy`) is `streamAppContent`. It covers the
  missing-key and empty-history short-circuits, the action line, the context
  line and the numbered history section built by a loop, plus the full
  prompt. It also covers the chunk filter and the translation of any failure
  into one Kernel Panic fragment. The remote model is a parameter: a function
  from the prompt to the chunks it streams plus an optional failure text.
- **`Panel`** (`parameters_panel.dfy`) is the settings panel. Its two local
  inputs start from the props. Save applies the inputs all-or-nothing after
  a `parseInt(text, 10)` and a 0..20 range check. Cancel only closes.
- **`Constants`** (`constants.dfy`) holds the ten-entry catalog, the initial
  depth 5 and `getSystemPrompt`.
- **`Decimal`** (`decimal.dfy`) is JavaScript's integer `toString()` and
  `parseInt(s, 10)`: leading white space, an optional sign, then the longest
  run of digits, with NaN modelled as `None`. `Seqs` and `Types` are
  shared helpers and records.

Optional string fields of an interaction, and the text of a chunk, are
`string`s in which `""` stands for absent. Most uses in the source test
truthiness, which treats absent and empty alike. The one exception is the
catalog lookup, which compares the interaction's `appContext` with each id by
`===`. No catalog id is empty (`Constants.CatalogIdsDistinct`), so an absent
context and `""` both match no entry and name the system desktop
(`Gemini.ContextLineOfAbsent`).

Three behaviours of the code are easy to misread, and the model keeps them as written:

- A history depth of 0 does not empty the history. `slice(0, -1)` counts back
  from the end, so the new history is the new interaction followed by all but
  the oldest old entry (`Controller.RecordAtZeroLimit`).
- Opening the settings panel clears only the active application. History and
  path are cleared when the panel is closed by the toggle. Closing it through
  Save or Cancel (`onClosePanel`) clears neither.
- Input `"-0"` is accepted by the panel. Its value is 0, as in the model.

## Model

| member | source | states |
|---|---|---|
| Types.OrElse | services/geminiService.ts:49-58 | the JavaScript or-operator on strings: the first operand when it is non-empty, otherwise the second |
| Constants.SystemPrompt | constants.ts:24-61 | the system prompt is a fixed head, the depth in decimal, and a fixed tail; that decimal text is its only variable part |
| Constants.SystemPromptShowsDepth | constants.ts:57 | `parseInt` on the prompt from the `History Context (max` heading reads back the depth |
| Constants.SystemPromptInjective | constants.ts:24-61 | the system prompt is a function of the depth alone and different depths give different prompts |
| Constants.FindApp | services/geminiService.ts:45-47 | `find` returns None iff no entry has the id, otherwise the first entry with that id |
| Constants.CatalogIdsDistinct | constants.ts:9-20 | the catalog has 10 entries with pairwise distinct, non-empty ids |
| Constants.FindAppUnique | services/geminiService.ts:45-47 | in a list with distinct ids, looking up an entry's id finds that entry |
| Constants.CatalogLookup | constants.ts:9-20 | each catalog entry is exactly what the context lookup finds for its id |
| Decimal.IntToDecimal | components/ParametersPanel.tsx:25 | `n.toString()` is non-empty, starts with `-` exactly when n < 0, and is digits after that sign |
| Decimal.ParseInt | components/ParametersPanel.tsx:30 | `parseInt(s, 10)` is NaN exactly when no digit follows the leading white space and optional sign, and is negative only after a `-` |
| Decimal.NatToDecimal | components/ParametersPanel.tsx:25 | the rendering of a number is a non-empty digit string with no leading zero |
| Decimal.TrimStart | components/ParametersPanel.tsx:30 | `parseInt` skips exactly the leading JavaScript white space |
| Decimal.DigitPrefix | components/ParametersPanel.tsx:30 | the digits read are the longest digit prefix of the text |
| Decimal.ParseIntOfDecimal | components/ParametersPanel.tsx:25-30 | `parseInt` of the rendering of n, followed by any non-digit text, is n |
| Decimal.DecimalInjective | components/ParametersPanel.tsx:25 | distinct integers render to distinct text |
| Decimal.ParseIntSkipsWhiteSpace | components/ParametersPanel.tsx:30 | leading white space does not change what `parseInt` reads |
| Decimal.ParseIntWithoutDigits | components/ParametersPanel.tsx:30-31 | text without any digit reads as NaN |
| Panel.AcceptsLength | components/ParametersPanel.tsx:30-31 | Save's test: the parsed text is a number, not NaN, within 0..20 |
| Panel.ParametersPanel.constructor | components/ParametersPanel.tsx:24-27 | the length input starts as the decimal rendering of `currentLength` and the checkbox as `isStatefulnessEnabled` |
| Panel.ParametersPanel.OnLengthInput | components/ParametersPanel.tsx:57 | the range input's change sets only the length text |
| Panel.ParametersPanel.OnStatefulnessInput | components/ParametersPanel.tsx:77 | the checkbox's change sets only the checkbox |
| Panel.ParametersPanel.Apply | components/ParametersPanel.tsx:29-38 | rejected text makes no call at all; accepted text makes exactly the calls length (parsed value), statefulness (checkbox), close, in that order |
| Panel.ParametersPanel.Cancel | components/ParametersPanel.tsx:91-92 | Cancel calls only `onClosePanel` |
| Panel.AcceptsRenderedLength | components/ParametersPanel.tsx:25-31 | the rendering of n is accepted iff 0 <= n <= 20, and then parses back to n, so saving untouched inputs re-applies the current settings |
| Panel.InitialLengthAccepted | constants.ts:22 | the initial depth 5 is accepted by the panel |
| Panel.RejectsTwentyFive | components/ParametersPanel.tsx:31-35 | input "25" is rejected |
| Panel.RejectsWithoutDigits | components/ParametersPanel.tsx:30-35 | text without digits is rejected |
| Gemini.KernelPanicBlock | services/geminiService.ts:90-94 | the failure fragment embeds `String(error)` at a fixed position |
| Gemini.KernelPanicInjective | services/geminiService.ts:90-94 | the failure fragment determines the error text it embeds |
| Gemini.ActionLine | services/geminiService.ts:49-50 | `User Action: <type> on '<text, or id>'`, followed by ` (Input: "<value>")` exactly when the value is non-empty; with a value the line is exactly those two parts, end to end |
| Gemini.ContextLine | services/geminiService.ts:45-52 | names the catalog application whose id is the context, or the system desktop when none matches |
| Gemini.ContextLineOfAbsent | services/geminiService.ts:45-52 | an absent context (`""`) matches no catalog id and names the system desktop |
| Gemini.HistoryEntry | services/geminiService.ts:58 | the text of one history entry after its line break: ordinal, context or `OS`, type, label and optional value |
| Gemini.HistoryLine | services/geminiService.ts:58 | one history entry preceded by a line break |
| Gemini.HistoryEntryShape | services/geminiService.ts:58 | a history line reads `<n>. [<appContext or OS>] <type> on '<text or id>'`, followed by `: "<value>"` exactly when the value is non-empty; with a value the line is exactly those two parts, end to end |
| Gemini.HistoryEntryOrdinal | services/geminiService.ts:58 | the ordinal at the head of a history line reads back with `parseInt` |
| Gemini.PastLines | services/geminiService.ts:43-58 | one line per past entry, oldest first, line i numbered i + 1 and describing history[n - 1 - i] for a history of n entries |
| Gemini.HistorySection | services/geminiService.ts:54-60 | empty without past interactions, otherwise the header followed by the past lines |
| Gemini.HistorySectionEmpty | services/geminiService.ts:54-60 | the history section is empty iff there is no past interaction |
| Gemini.HistorySectionIgnoresCurrent | services/geminiService.ts:42-43 | the history section does not depend on the current interaction history[0] |
| Gemini.BuildHistorySection | services/geminiService.ts:54-60 | the `forEach` over the reversed past entries builds the header followed by the past lines |
| Gemini.FullPrompt | services/geminiService.ts:62-71 | the full prompt starts with the system prompt for the depth and ends with the task section |
| Gemini.CurrentState | services/geminiService.ts:62-71 | the state part of the prompt ends with the task section |
| Gemini.CurrentStateLayout | services/geminiService.ts:62-71 | the state part is, in order and with nothing else between: the `Current State:` header, the context line, a line break, the action line, a line break, the history section and the task section; each piece is named at its position |
| Gemini.PrefixedStateLayout | services/geminiService.ts:62-71 | putting the system prompt in front shifts every piece of the state part by the prompt's length |
| Gemini.FullPromptLayout | services/geminiService.ts:40-71 | the full prompt is exactly the system prompt for the depth, the header, the context line of history[0], a line break, its action line, a line break, the history section of the past entries and the task section |
| Gemini.FullPromptShowsDepth | services/geminiService.ts:40 | the depth can be read back from the full prompt's history-context heading |
| Gemini.NonEmptyTexts | services/geminiService.ts:83-87 | the filter keeps no empty text and never adds chunks |
| Gemini.NonEmptyTextsAppend | services/geminiService.ts:83-87 | the filter works chunk by chunk, so it keeps the reply's order |
| Gemini.NonEmptyTextsKeepsText | services/geminiService.ts:84-85 | chunks that all carry text pass through unchanged |
| Gemini.NonEmptyTextsConcat | services/geminiService.ts:84-85 | dropping empty chunks loses no text |
| Gemini.ShapeReply | services/geminiService.ts:83-95 | the fragments are the non-empty chunk texts in order, followed, exactly when the call failed, by one last Kernel Panic fragment embedding the error, which is not re-raised |
| Gemini.ShapeStream | services/geminiService.ts:73-95 | the `for await` loop with its `catch` yields the reply shaped as `ShapeReply` states |
| Gemini.StreamedFragments | services/geminiService.ts:18-96 | the fragments the generator yields: the configuration fragment without a key, the waiting fragment for an empty history, otherwise the shaped reply to the full prompt |
| Gemini.StreamAppContent | services/geminiService.ts:18-96 | a missing key yields only the configuration fragment, checked before the empty history, which yields only the waiting fragment; otherwise the prompt's reply shaped into fragments |
| Gemini.SuccessfulStreamText | services/geminiService.ts:83-87 | without a failure the fragments carry exactly the reply's text |
| Gemini.MidStreamFailure | services/geminiService.ts:83-95 | a failure after chunks "<div>" and "partial" yields exactly those two and the Kernel Panic fragment |
| Controller.SliceEnd | App.tsx:149 | where JavaScript `slice(0, end)` stops: a negative end counts back from the end |
| Controller.RecordInteraction | App.tsx:147-150 | the new history starts with the interaction, its tail is a prefix of the old history of length min(len H, N - 1) for N >= 1, so the length is at most N, and of length max(0, len H + N - 1) for N <= 0 |
| Controller.RecordIsPrependThenTruncate | App.tsx:147-150 | for N >= 1 recording is prepend-then-truncate-to-N |
| Controller.RecordAtZeroLimit | App.tsx:147-150 | for N = 0 recording keeps the interaction and all but the oldest old entry, so the length does not shrink |
| Controller.RecordKeepsBound | App.tsx:147-150 | recording keeps the history within max(N, 1) entries |
| Controller.CacheKey | App.tsx:135 | the cache key is the path joined with `__` |
| Controller.SingleSegmentKey | App.tsx:191-193 | the key of the one-element path [app.id] is app.id |
| Controller.CacheKeysCollide | App.tsx:135 | joining with `__` is ambiguous: path ["a__b"] and path ["a", "b"] share a key |
| Controller.CachedView | App.tsx:162 | a cached view is served iff caching is on and a non-empty value is stored under the key, and it is that value |
| Controller.StoreApplies | App.tsx:129-134 | the effect's guard: not loading, a non-empty path, caching on and non-empty content |
| Controller.StoredCache | App.tsx:128-143 | the effect writes the key only when not loading, the path is non-empty, caching is on and the content is non-empty; it adds that key with the content, keeps every other key and deletes nothing |
| Controller.StoreIsIdempotent | App.tsx:136 | running the effect twice is running it once |
| Controller.StoreThenLookup | App.tsx:128-143 | a stored view is what a later lookup of the same path serves |
| Controller.OpenRecord | App.tsx:180-186 | the opening record has id and appContext `app.id`, type `app_open`, elementText `app.name`, elementType `icon` and no value |
| Controller.App.Valid | App.tsx:128-219 | what the handlers keep: the cache holds no empty view, an open panel means no active app, and with an app open the path starts with its id and the history has 1 to max(depth, 1) entries |
| Controller.App.constructor | App.tsx:82-99 | the initial state is the desktop: no app, no content, no history, no path, empty cache, caching off, depth 5 |
| Controller.App.RequestContent | App.tsx:101-126 | an empty history changes nothing; otherwise the content becomes the old content followed by the fragments and loading ends false; if the iteration raises, the error is the fixed message and the content is the fixed error block |
| Controller.App.ServeView | App.tsx:157-167 | with the view cleared, a cache hit shows exactly the cached view and issues no request; otherwise the content is the stream for the new history at the current depth; loading ends false and no other field changes |
| Controller.App.HandleInteraction | App.tsx:145-170 | history recorded with the current depth; path extended by the id while an app is open, else [id]; a cache hit shows exactly the cached view; otherwise the content is the stream for the new history at the current depth; panel, app, settings and cache unchanged |
| Controller.App.HandleAppOpen | App.tsx:172-201 | the already active app changes nothing; another app closes the panel, becomes active, gets history [opening record] and path [app.id], and shows its cached view or the stream |
| Controller.App.HandleCloseAppView | App.tsx:203-209 | clears app, content, error, history and path; cache, depth and caching unchanged |
| Controller.App.HandleToggleParametersPanel | App.tsx:211-219 | the panel flag flips; opening clears only the active app, closing clears only history and path |
| Controller.App.HandleWindowClose | App.tsx:229 | the window's close closes the panel when it is open, and the application view otherwise |
| Controller.App.Dispatch | App.tsx:237-243 | each panel callback sets only its own setting, or closes the panel |
| Controller.App.SaveSettings | components/ParametersPanel.tsx:29-38 | an accepted save sets the depth and caching and closes the panel; a rejected one changes nothing, so the panel stays open |
| Controller.App.CancelSettings | components/ParametersPanel.tsx:91-92 | Cancel only closes the panel |
| Controller.App.StoreViewInCache | App.tsx:128-143 | the cache-store effect leaves the cache as `StoredCache` of the old state and changes no other field |

## Left out

- The remote call (`GoogleGenAI`, `generateContentStream`) is a parameter of the model: a function from the prompt to the chunks and an optional failure text (`String(error)`). A failure of the call itself is a reply with no chunks.
- The `process.env.API_KEY` read is a boolean. `console.error` and `alert()` are left out; a rejected save is modelled as making no call.
- Async scheduling is left out. Each request is one completed loop over its fragments, so the race in which a stale stream appends to a newer interaction's content is not modelled. React's batching and stale closures are left out too: each handler applies its setters in order to plain fields.
- The cache-store effect is a separate method. React runs it after renders, so callers decide when it runs.
- The HTML message blocks and most of the system-prompt text are stand-in constants. Only the history-depth heading is kept literally.
- Rendering is left out: `DesktopView`, `Taskbar` (its clock), `Window`, `Icon`, the loading and error banners, and `GeneratedContent`, which creates interactions from the markup. `GeneratedContent` and `types.ts` are not part of this model. Interaction fields (id, type, elementText, elementType, value, appContext) are taken from their use in App.tsx and services/geminiService.ts; types.ts is not modelled.
- Controller.App.HandleInteraction: inherited properties of a plain JavaScript object, such as `cache["constructor"]`, are not modelled; the cache is a plain map.
- Controller.App.RequestContent: the handlers pass a run that did not raise, because `streamAppContent` catches every failure itself. The raising path is modelled but no handler reaches it.
- Decimal.IntToDecimal: `toString` is modelled as plain decimal digits for every integer. JavaScript writes numbers of magnitude 1e21 and above in exponent notation (`"1e+21"`) and cannot tell apart integers beyond 2^53. So this contract, `Decimal.DecimalInjective` and the round trip hold in JavaScript only on a bounded range. The program renders only depths in 0..20.
- Decimal.ParseIntOfDecimal: `parseInt` is modelled on unbounded integers. Floating-point rounding of digit runs longer than 2^53 is not modelled; such values are far outside 0..20 either way.
