/** The application catalog, the initial history depth and the system prompt. */
module Constants {
  import opened Types
  import Decimal
  import Seqs

  /** `APP_DEFINITIONS_CONFIG`: the ten applications, in desktop order. */
  const Catalog: seq<AppDefinition> := [
    AppDefinition("my_computer", "System Info", "\U{1F4BB}", "#e3f2fd"),
    AppDefinition("documents", "Files", "\U{1F4C1}", "#f1f8e9"),
    AppDefinition("notepad_app", "Notes", "\U{1F4DD}", "#fffde7"),
    AppDefinition("web_browser_app", "Internet", "\U{1F310}", "#e0f7fa"),
    AppDefinition("calculator_app", "Calc", "\U{1F9EE}", "#f5f5f5"),
    AppDefinition("travel_app", "Travel", "\U{2708}\U{FE0F}", "#e8f5e9"),
    AppDefinition("shopping_app", "Store", "\U{1F6D2}", "#fff3e0"),
    AppDefinition("gaming_app", "Arcade", "\U{1F3AE}", "#f3e5f5"),
    AppDefinition("weather_app", "Weather", "\U{2600}\U{FE0F}", "#fff9c4"),
    AppDefinition("music_app", "Music", "\U{1F3B5}", "#fce4ec")
  ]

  /** `INITIAL_MAX_HISTORY_LENGTH`. */
  const InitialMaxHistoryLength: int := 5

  /** The fixed instruction text before the history-depth number: the role,
      the UI/UX standards, the per-application specifications and the HTML
      constraints (abbreviated here), ending in the opening of the
      history-context heading. */
  const PromptHead: string :=
    "\n**Role:**\n...\n\n**UI/UX Standards:**\n...\n\n**Available Apps & Specs:**\n...\n\n**HTML constraints:**\n...\n\n**History Context (max "

  /** The fixed instruction text after the history-depth number. */
  const PromptTail: string :=
    "):**" + "\nThe user interactions are provided to you. Use them to maintain app state (e.g., if a user is in a sub-folder, show that folder's contents).\n\nYour response should be ONLY raw HTML content.\n"

  /** `getSystemPrompt(maxHistory)`: the fixed text with the depth, in decimal,
      as its only variable part. */
  function SystemPrompt(maxHistory: int): (p: string)
    ensures |p| == |PromptHead| + |Decimal.IntToDecimal(maxHistory)| + |PromptTail|
    ensures Seqs.IsPrefix(PromptHead, p) && Seqs.IsSuffix(PromptTail, p)
    ensures p[|PromptHead|..|p| - |PromptTail|] == Decimal.IntToDecimal(maxHistory)
  {
    PromptHead + Decimal.IntToDecimal(maxHistory) + PromptTail
  }

  /** Different depths give different prompts, and the depth can be read back
      from the prompt: the heading's number is followed by ')', not a digit. */
  lemma SystemPromptShowsDepth(maxHistory: int)
    ensures Decimal.ParseInt(SystemPrompt(maxHistory)[|PromptHead|..]) == Some(maxHistory)
  {
    var p := SystemPrompt(maxHistory);
    assert p[|PromptHead|..] == Decimal.IntToDecimal(maxHistory) + PromptTail;
    assert PromptTail[0] == ')';
    Decimal.ParseIntOfDecimal(maxHistory, PromptTail);
  }

  lemma SystemPromptInjective(m: int, n: int)
    requires SystemPrompt(m) == SystemPrompt(n)
    ensures m == n
  {
    SystemPromptShowsDepth(m);
    SystemPromptShowsDepth(n);
  }

  /** `apps.find(app => app.id === id)`: the first entry with that id. */
  function FindApp(apps: seq<AppDefinition>, id: string): (r: Option<AppDefinition>)
    ensures r.None? <==> forall a :: a in apps ==> a.id != id
    ensures r.Some? ==> exists i :: 0 <= i < |apps| && apps[i] == r.value && r.value.id == id
                                  && forall j :: 0 <= j < i ==> apps[j].id != id
  {
    if apps == [] then None
    else if apps[0].id == id then Some(apps[0])
    else
      var r := FindApp(apps[1..], id);
      assert forall a :: a in apps[1..] ==> a in apps;
      assert r.Some? ==> exists i :: 0 <= i < |apps| && apps[i] == r.value && r.value.id == id
                                  && forall j :: 0 <= j < i ==> apps[j].id != id
        by {
          if r.Some? {
            var i :| 0 <= i < |apps[1..]| && apps[1..][i] == r.value && r.value.id == id
                     && forall j :: 0 <= j < i ==> apps[1..][j].id != id;
            assert apps[i + 1] == r.value;
            assert forall j :: 0 <= j < i + 1 ==> apps[j].id != id by {
              forall j | 0 <= j < i + 1 ensures apps[j].id != id {
                if j > 0 { assert apps[j] == apps[1..][j - 1]; }
              }
            }
          }
        }
      r
  }

  /** The catalog identifiers are pairwise distinct and none is empty. */
  lemma CatalogIdsDistinct()
    ensures |Catalog| == 10
    ensures forall i, j :: 0 <= i < j < |Catalog| ==> Catalog[i].id != Catalog[j].id
    ensures forall i :: 0 <= i < |Catalog| ==> Catalog[i].id != ""
  {
  }

  predicate DistinctIds(apps: seq<AppDefinition>) {
    forall i, j :: 0 <= i < j < |apps| ==> apps[i].id != apps[j].id
  }

  /** In a list with distinct ids, looking up the id of an entry finds that entry. */
  lemma FindAppUnique(apps: seq<AppDefinition>, a: AppDefinition)
    requires DistinctIds(apps) && a in apps
    ensures FindApp(apps, a.id) == Some(a)
  {
    var k :| 0 <= k < |apps| && apps[k] == a;
    var r := FindApp(apps, a.id);
    var i :| 0 <= i < |apps| && apps[i] == r.value && r.value.id == a.id
             && forall j :: 0 <= j < i ==> apps[j].id != a.id;
    assert apps[k].id == a.id;
    assert !(k < i);
    assert !(i < k);
  }

  /** So the context lookup of the prompt builder finds one catalog entry at most. */
  lemma CatalogLookup()
    ensures forall a :: a in Catalog ==> FindApp(Catalog, a.id) == Some(a)
  {
    CatalogIdsDistinct();
    forall a | a in Catalog ensures FindApp(Catalog, a.id) == Some(a) {
      FindAppUnique(Catalog, a);
    }
  }
}
