/** The top-level controller: the `App` component's state and its handlers,
    each applying its setter calls in order to plain fields. */
module Controller {
  import opened Types
  import Seqs
  import Constants
  import Gemini
  import Panel
  import Decimal

  /** The error shown above the content when iterating a stream raised. */
  const StreamFailedMessage: string := "Failed to stream content from Gemini."

  /** The content that replaces the view when iterating a stream raised (markup abbreviated). */
  const SystemErrorBlock: string :=
    "<div class=\"p-6 text-red-600 bg-red-50 rounded-xl border border-red-100 m-4\"><h3 class=\"font-bold text-lg mb-2\">System Error</h3><p>We encountered an issue connecting to the Gemini OS backend.</p></div>"

  /** What iterating one stream produced: its fragments in order, then
      whether the iteration raised after them. */
  datatype StreamRun = StreamRun(fragments: seq<string>, raised: bool)

  function Min(a: int, b: int): int { if a <= b then a else b }
  function Max(a: int, b: int): int { if a >= b then a else b }

  /** Where `s.slice(0, end)` stops for a sequence of the given length: a
      negative end counts back from the end of the sequence. */
  function SliceEnd(length: nat, end: int): (k: nat)
    ensures k <= length
    ensures end >= 0 ==> k == Min(end, length)
    ensures end < 0 ==> k == Max(length + end, 0)
  {
    if end < 0 then Max(length + end, 0) else Min(end, length)
  }

  /** `[x, ...history.slice(0, maxLength - 1)]`: the new interaction first,
      then a prefix of the old history. With maxLength >= 1 this keeps at most
      maxLength entries; with maxLength = 0 the end -1 counts back from the
      end and drops only the oldest entry. */
  function RecordInteraction(history: seq<Interaction>, x: Interaction, maxLength: int): (h: seq<Interaction>)
    ensures |h| >= 1 && h[0] == x && Seqs.IsPrefix(h[1..], history)
    ensures maxLength >= 1 ==> |h| == 1 + Min(|history|, maxLength - 1) <= maxLength
    ensures maxLength <= 0 ==> |h| == 1 + Max(0, |history| + maxLength - 1)
  {
    [x] + history[..SliceEnd(|history|, maxLength - 1)]
  }

  /** For a positive limit the update is prepend-then-truncate. */
  lemma RecordIsPrependThenTruncate(history: seq<Interaction>, x: Interaction, maxLength: int)
    requires maxLength >= 1
    ensures RecordInteraction(history, x, maxLength) == ([x] + history)[..Min(maxLength, |history| + 1)]
  {
    var h := RecordInteraction(history, x, maxLength);
    var t := ([x] + history)[..Min(maxLength, |history| + 1)];
    assert |h| == |t|;
    forall i | 0 <= i < |h| ensures h[i] == t[i] {
      if i > 0 { assert h[i] == history[i - 1]; }
    }
  }

  /** For limit 0 the update is not a truncation to 0 entries: it keeps the
      new interaction and all but the oldest old entry. */
  lemma RecordAtZeroLimit(history: seq<Interaction>, x: Interaction)
    requires |history| >= 1
    ensures RecordInteraction(history, x, 0) == [x] + history[..|history| - 1]
    ensures |RecordInteraction(history, x, 0)| == |history|
  {
  }

  /** The bound `max(limit, 1)` on the history is preserved by recording. */
  lemma RecordKeepsBound(history: seq<Interaction>, x: Interaction, maxLength: int)
    requires |history| <= Max(maxLength, 1)
    ensures |RecordInteraction(history, x, maxLength)| <= Max(maxLength, 1)
  {
  }

  /** `path.join('__')`. */
  function CacheKey(path: seq<string>): string {
    Seqs.Join(path, "__")
  }

  /** The key of a one-element path is that element. */
  lemma SingleSegmentKey(id: string)
    ensures CacheKey([id]) == id
  {
  }

  /** Joining with a plain separator is ambiguous: an identifier that
      contains the separator gives the key of a two-element path. */
  lemma CacheKeysCollide()
    ensures CacheKey(["a__b"]) == CacheKey(["a", "b"])
  {
    assert ["a", "b"][..1] == ["a"];
  }

  /** `isStatefulnessEnabled && appContentCache[key]`: the cached view, when
      caching is on and a non-empty view is stored under the key. */
  function CachedView(cache: map<string, string>, enabled: bool, key: string): (v: Option<string>)
    ensures v.Some? <==> enabled && key in cache && cache[key] != ""
    ensures v.Some? ==> v.value == cache[key]
  {
    if enabled && key in cache && cache[key] != "" then Some(cache[key]) else None
  }

  /** When the cache-store effect writes: not loading, a non-empty path,
      caching on and non-empty content. */
  predicate StoreApplies(loading: bool, path: seq<string>, enabled: bool, content: string) {
    !loading && |path| > 0 && enabled && content != ""
  }

  /** The cache after the cache-store effect: the content under the path's
      key when the effect writes and the stored value differs; nothing is
      removed and every other key keeps its value. */
  function StoredCache(cache: map<string, string>, loading: bool, path: seq<string>, enabled: bool, content: string)
    : (c: map<string, string>)
    ensures StoreApplies(loading, path, enabled, content) ==> CacheKey(path) in c && c[CacheKey(path)] == content
    ensures c.Keys == cache.Keys + (if StoreApplies(loading, path, enabled, content) then {CacheKey(path)} else {})
    ensures forall k :: k in cache && k != CacheKey(path) ==> c[k] == cache[k]
    ensures !StoreApplies(loading, path, enabled, content) ==> c == cache
  {
    var key := CacheKey(path);
    if StoreApplies(loading, path, enabled, content) && !(key in cache && cache[key] == content)
    then cache[key := content]
    else cache
  }

  /** Storing twice is storing once. */
  lemma StoreIsIdempotent(cache: map<string, string>, loading: bool, path: seq<string>, enabled: bool, content: string)
    ensures var once := StoredCache(cache, loading, path, enabled, content);
            StoredCache(once, loading, path, enabled, content) == once
  {
  }

  /** What was stored is what a later lookup under the same path serves. */
  lemma StoreThenLookup(cache: map<string, string>, path: seq<string>, content: string)
    requires StoreApplies(false, path, true, content)
    ensures CachedView(StoredCache(cache, false, path, true, content), true, CacheKey(path)) == Some(content)
  {
  }

  /** The interaction recorded when an application is opened. */
  function OpenRecord(app: AppDefinition): (x: Interaction)
    ensures x.id == app.id && x.appContext == app.id && x.elementText == app.name && x.kind == "app_open"
    ensures x.elementType == "icon" && x.value == ""
  {
    Interaction(app.id, "app_open", app.name, "icon", "", app.id)
  }

  class App {
    var activeApp: Option<AppDefinition>
    var parametersOpen: bool
    var content: string
    var loading: bool
    var error: Option<string>
    var history: seq<Interaction>
    var maxHistoryLength: int
    var statefulness: bool
    var cache: map<string, string>
    var path: seq<string>

    /** The invariant of every reachable state: the settings panel and an
        open application exclude each other; while an application is open
        the path starts with its id and the history holds between 1 and
        max(limit, 1) entries; the cache stores no empty view. */
    ghost predicate Valid()
      reads this
    {
      && (forall k :: k in cache ==> cache[k] != "")
      && (parametersOpen ==> activeApp.None?)
      && (activeApp.Some? ==>
            && |path| >= 1 && path[0] == activeApp.value.id
            && 1 <= |history| <= Max(maxHistoryLength, 1))
    }

    /** The initial state: the desktop, nothing cached, caching off, depth 5. */
    constructor ()
      ensures Valid()
      ensures activeApp == None && !parametersOpen && content == "" && !loading && error == None
      ensures history == [] && path == [] && cache == map[]
      ensures maxHistoryLength == Constants.InitialMaxHistoryLength && !statefulness
    {
      activeApp := None;
      content := "";
      loading := false;
      error := None;
      history := [];
      parametersOpen := false;
      maxHistoryLength := Constants.InitialMaxHistoryLength;
      statefulness := false;
      cache := map[];
      path := [];
    }

    /** `internalHandleLlmRequest`: nothing for an empty history; otherwise
        loading while the stream's fragments are appended to the content, and
        if the iteration raises, the fixed error and the fixed error view
        instead. Loading ends false. */
    method RequestContent(historyForLlm: seq<Interaction>, stream: StreamRun)
      requires Valid()
      modifies this
      ensures Valid()
      ensures historyForLlm == [] ==> unchanged(this)
      ensures historyForLlm != [] ==> !loading
      ensures historyForLlm != [] && !stream.raised ==>
                error == None && content == old(content) + Seqs.Concat(stream.fragments)
      ensures historyForLlm != [] && stream.raised ==>
                error == Some(StreamFailedMessage) && content == SystemErrorBlock
      ensures unchanged(this`activeApp, this`parametersOpen, this`history, this`maxHistoryLength,
                        this`statefulness, this`cache, this`path)
    {
      if |historyForLlm| == 0 {
        return;
      }
      loading := true;
      error := None;
      var i := 0;
      while i < |stream.fragments|
        invariant 0 <= i <= |stream.fragments|
        invariant content == old(content) + Seqs.Concat(stream.fragments[..i])
        invariant loading && error == None
        invariant unchanged(this`activeApp, this`parametersOpen, this`history, this`maxHistoryLength,
                            this`statefulness, this`cache, this`path)
      {
        Seqs.ConcatStep(stream.fragments, i);
        Seqs.AppendAssoc(old(content), Seqs.Concat(stream.fragments[..i]), stream.fragments[i]);
        content := content + stream.fragments[i];
        i := i + 1;
      }
      assert stream.fragments[..i] == stream.fragments;
      if stream.raised {
        error := Some(StreamFailedMessage);
        content := SystemErrorBlock;
      }
      loading := false;
    }

    /** The common end of `handleInteraction` and `handleAppOpen`: with the
        view cleared, show the cached view for the key when caching serves
        one, and otherwise request content for the new history at the
        current depth. */
    method ServeView(newHistory: seq<Interaction>, cacheKey: string, env: Gemini.Environment)
      requires Valid() && newHistory != [] && content == "" && error == None
      modifies this
      ensures Valid()
      ensures error == None && !loading
      ensures CachedView(cache, statefulness, cacheKey).Some? ==> content == cache[cacheKey]
      ensures CachedView(cache, statefulness, cacheKey).None? ==>
                content == Seqs.Concat(Gemini.StreamedFragments(env, newHistory, maxHistoryLength))
      ensures unchanged(this`activeApp, this`parametersOpen, this`history, this`maxHistoryLength,
                        this`statefulness, this`cache, this`path)
    {
      var cached := CachedView(cache, statefulness, cacheKey);
      if cached.Some? {
        content := cached.value;
        loading := false;
      } else {
        var fragments := Gemini.StreamAppContent(env, newHistory, maxHistoryLength);
        RequestContent(newHistory, StreamRun(fragments, false));
      }
    }

    /** `handleInteraction`: record the interaction, extend the path (or
        start it, with no open application), clear the view, then serve the
        cached view for the new path or request content for the new history
        at the current depth. */
    method HandleInteraction(x: Interaction, env: Gemini.Environment)
      requires Valid()
      modifies this
      ensures Valid()
      ensures history == RecordInteraction(old(history), x, old(maxHistoryLength))
      ensures path == (if old(activeApp).Some? then old(path) + [x.id] else [x.id])
      ensures error == None && !loading
      ensures CachedView(old(cache), old(statefulness), CacheKey(path)).Some? ==>
                content == old(cache)[CacheKey(path)]
      ensures CachedView(old(cache), old(statefulness), CacheKey(path)).None? ==>
                content == Seqs.Concat(Gemini.StreamedFragments(env, history, old(maxHistoryLength)))
      ensures unchanged(this`activeApp, this`parametersOpen, this`maxHistoryLength, this`statefulness, this`cache)
    {
      if activeApp.Some? {
        RecordKeepsBound(history, x, maxHistoryLength);
      }
      var newHistory := RecordInteraction(history, x, maxHistoryLength);
      history := newHistory;
      var newPath := if activeApp.Some? then path + [x.id] else [x.id];
      path := newPath;
      var cacheKey := CacheKey(newPath);
      content := "";
      error := None;
      ServeView(newHistory, cacheKey, env);
    }

    /** `handleAppOpen`: nothing for the already open application; otherwise
        close the panel, open the application with a fresh view, a history of
        its one opening record and the path [app.id], then serve the cached
        view for that path or request content. */
    method HandleAppOpen(app: AppDefinition, env: Gemini.Environment)
      requires Valid()
      modifies this
      ensures Valid()
      ensures old(activeApp).Some? && old(activeApp).value.id == app.id ==> unchanged(this)
      ensures !(old(activeApp).Some? && old(activeApp).value.id == app.id) ==>
                && !parametersOpen && activeApp == Some(app)
                && history == [OpenRecord(app)] && path == [app.id]
                && error == None && !loading
                && (CachedView(old(cache), old(statefulness), app.id).Some? ==> content == old(cache)[app.id])
                && (CachedView(old(cache), old(statefulness), app.id).None? ==>
                      content == Seqs.Concat(Gemini.StreamedFragments(env, history, old(maxHistoryLength))))
      ensures unchanged(this`maxHistoryLength, this`statefulness, this`cache)
    {
      if activeApp.Some? && activeApp.value.id == app.id {
        return;
      }
      parametersOpen := false;
      activeApp := Some(app);
      content := "";
      error := None;
      var newHistory := [OpenRecord(app)];
      history := newHistory;
      var appPath := [app.id];
      path := appPath;
      var cacheKey := CacheKey(appPath);
      SingleSegmentKey(app.id);
      ServeView(newHistory, cacheKey, env);
    }

    /** `handleCloseAppView`: back to the desktop with no content, no error,
        no history and no path; the cache and the settings are kept. */
    method HandleCloseAppView()
      requires Valid()
      modifies this
      ensures Valid()
      ensures activeApp == None && content == "" && error == None && history == [] && path == []
      ensures unchanged(this`parametersOpen, this`loading, this`maxHistoryLength, this`statefulness, this`cache)
    {
      activeApp := None;
      content := "";
      error := None;
      history := [];
      path := [];
    }

    /** `handleToggleParametersPanel`: the panel flag flips; opening closes
        the application (and nothing else), closing clears the history and
        the path (and nothing else). */
    method HandleToggleParametersPanel()
      requires Valid()
      modifies this
      ensures Valid()
      ensures parametersOpen == !old(parametersOpen)
      ensures !old(parametersOpen) ==> activeApp == None && unchanged(this`history, this`path)
      ensures old(parametersOpen) ==> history == [] && path == [] && unchanged(this`activeApp)
      ensures unchanged(this`content, this`loading, this`error, this`maxHistoryLength, this`statefulness, this`cache)
    {
      var wasOpen := parametersOpen;
      parametersOpen := !wasOpen;
      if !wasOpen {
        activeApp := None;
      } else {
        history := [];
        path := [];
      }
    }

    /** The window's close button: it closes the panel when that is open,
        and the application view otherwise. */
    method HandleWindowClose()
      requires Valid()
      modifies this
      ensures Valid()
      ensures old(parametersOpen) ==>
                && !parametersOpen
                && unchanged(this`activeApp, this`content, this`loading, this`error, this`history, this`path)
      ensures !old(parametersOpen) ==>
                && activeApp == None && content == "" && error == None && history == [] && path == []
                && unchanged(this`parametersOpen, this`loading)
      ensures unchanged(this`maxHistoryLength, this`statefulness, this`cache)
    {
      if parametersOpen {
        parametersOpen := false;
      } else {
        HandleCloseAppView();
      }
    }

    /** The panel's callback props: set the depth, set caching, close the
        panel. They are reachable only while the panel is shown. */
    method Dispatch(call: Panel.PanelCall)
      requires Valid() && parametersOpen
      modifies this
      ensures Valid()
      ensures call.UpdateHistoryLength? ==>
                maxHistoryLength == call.length && unchanged(this`parametersOpen, this`statefulness)
      ensures call.SetStatefulness? ==>
                statefulness == call.enabled && unchanged(this`parametersOpen, this`maxHistoryLength)
      ensures call.ClosePanel? ==>
                !parametersOpen && unchanged(this`maxHistoryLength, this`statefulness)
      ensures unchanged(this`activeApp, this`content, this`loading, this`error, this`history,
                        this`cache, this`path)
    {
      match call
      case UpdateHistoryLength(n) => maxHistoryLength := n;
      case SetStatefulness(b) => statefulness := b;
      case ClosePanel => parametersOpen := false;
    }

    /** Save Changes on the panel: an accepted length sets both settings and
        closes the panel; a rejected one changes nothing, and the panel stays
        open. */
    method SaveSettings(panel: Panel.ParametersPanel)
      requires Valid() && parametersOpen
      modifies this
      ensures Valid()
      ensures Panel.AcceptsLength(panel.lengthInput) ==>
                && maxHistoryLength == Decimal.ParseInt(panel.lengthInput).value
                && statefulness == panel.statefulnessChecked
                && !parametersOpen
                && unchanged(this`activeApp, this`content, this`loading, this`error, this`history,
                             this`cache, this`path)
      ensures !Panel.AcceptsLength(panel.lengthInput) ==> unchanged(this)
    {
      var calls := panel.Apply();
      if calls != [] {
        Dispatch(calls[0]);
        Dispatch(calls[1]);
        Dispatch(calls[2]);
      }
    }

    /** Cancel on the panel: only the panel closes. */
    method CancelSettings(panel: Panel.ParametersPanel)
      requires Valid() && parametersOpen
      modifies this
      ensures Valid()
      ensures !parametersOpen
      ensures unchanged(this`activeApp, this`content, this`loading, this`error, this`history,
                        this`maxHistoryLength, this`statefulness, this`cache, this`path)
    {
      var calls := panel.Cancel();
      Dispatch(calls[0]);
    }

    /** The cache-store effect, run after every render: store the content
        under the path's key when not loading, the path is non-empty, caching
        is on and the content is non-empty; skip the write when that value is
        already stored. */
    method StoreViewInCache()
      requires Valid()
      modifies this
      ensures Valid()
      ensures cache == StoredCache(old(cache), loading, path, statefulness, content)
      ensures unchanged(this`activeApp, this`parametersOpen, this`content, this`loading, this`error,
                        this`history, this`maxHistoryLength, this`statefulness, this`path)
    {
      if !loading && |path| > 0 && statefulness && content != "" {
        var cacheKey := CacheKey(path);
        if !(cacheKey in cache && cache[cacheKey] == content) {
          cache := cache[cacheKey := content];
        }
      }
    }
  }
}
