/** What the launcher requires of the values of single settings (scripts/ab_launcher.py): JSON objects, integers,
    token budgets and the model registry. Parsing JSON and integers is left to the caller. */
module SettingGrammar {
  import opened ExperimentArms
  import opened ExperimentFile
  import opened Names
  import opened Options

  /** `json.loads` and `int`, with nothing for what they refuse. */
  datatype Grammar = Grammar(parse: string -> Option<Json>, integer: string -> Option<int>)

  const MODELS_CONFIG := "APP_MODELS_CONFIG"
  const DEFAULT_MODEL := "DEFAULT_MODEL"
  const JSON_OBJECT_KEYS := {"APP_CONTEXT_INTENT_RULES"}
  const POSITIVE_KEYS := {"APP_REPOSITORY_CONTEXT_MAX_TOKENS", "APP_CONTEXT_DELTA_CACHE_SIZE"}
  const NON_NEGATIVE_KEYS := {"APP_HISTORY_CAP_TOKENS", "APP_REPOSITORY_CONTEXT_CHANGED_FILES_TTL_SECONDS"}
  const ENTRY_KEYS := ["model", "provider", "base_url", "backend_model"]
  const COUNT_KEYS := ["context_window", "max_output_tokens"]

  function JsonObjectProblems(key: string, value: string, g: Grammar): seq<Problem> {
    match g.parse(value)
    case None => [NotJson(key)]
    case Some(parsed) => if parsed.Obj? then [] else [NotJsonObject(key)]
  }

  function IntProblems(key: string, value: string, text: Text, g: Grammar): seq<Problem> {
    match g.integer(Strip(value, text))
    case None => [NotAnInteger(key)]
    case Some(number) =>
      if number <= 0 && key in POSITIVE_KEYS then [NotPositive(key)]
      else if number < 0 then [IsNegative(key)]
      else []
  }

  /** `s.split(separator)`. */
  function Split(s: string, separator: char): (r: seq<string>)
    ensures r != []
  {
    if separator !in s then [s]
    else if s[|s| - 1] == separator then Split(s[..|s| - 1], separator) + [""]
    else
      var front := Split(s[..|s| - 1], separator);
      front[..|front| - 1] + [front[|front| - 1] + [s[|s| - 1]]]
  }

  /** The position of the first separator, or the length. */
  function FirstOf(s: string, separator: char): (k: nat)
    ensures k <= |s| && (k < |s| ==> s[k] == separator)
  {
    if s == "" || s[0] == separator then 0 else FirstOf(s[1..], separator) + 1
  }

  function BudgetItemProblems(item: string, text: Text, g: Grammar): seq<Problem> {
    var k := FirstOf(item, ':');
    if k == |item| || Blank(item[..k], text) then [BadBudget(item)]
    else
      var tokens := g.integer(Strip(item[k + 1..], text));
      if tokens.None? || tokens.value <= 0 then [BadBudgetTokens(item)] else []
  }

  function Items(parts: seq<string>, text: Text): seq<string> {
    if parts == [] then []
    else
      var last := Strip(parts[|parts| - 1], text);
      Items(parts[..|parts| - 1], text) + (if last == "" then [] else [last])
  }

  function EachBudget(items: seq<string>, text: Text, g: Grammar): seq<Problem> {
    if items == [] then []
    else EachBudget(items[..|items| - 1], text, g) + BudgetItemProblems(items[|items| - 1], text, g)
  }

  function BudgetProblems(value: string, text: Text, g: Grammar): seq<Problem> {
    var items := Items(Split(value, ','), text);
    if items == [] then [NoBudget] else EachBudget(items, text, g)
  }

  predicate NamesSomething(j: Json, text: Text) {
    j.Str? && !Blank(j.s, text)
  }

  predicate IsUrl(s: string) {
    "http://" <= s || "https://" <= s
  }

  /** A JSON boolean is an integer to the language. */
  predicate IsCount(j: Json) {
    (j.Int? && j.i > 0) || (j.Bool? && j.b)
  }

  function LacksCheck(index: nat, fields: map<string, Json>, text: Text): string -> seq<Problem> {
    key => if NamesSomething(Get(fields, key), text) then [] else [EntryLacks(index, key)]
  }

  function CountCheck(index: nat, fields: map<string, Json>): string -> seq<Problem> {
    key => if key in fields && !IsCount(fields[key]) then [EntryCount(index, key)] else []
  }

  function EntryProblems(index: nat, entry: Json, text: Text): seq<Problem> {
    if !entry.Obj? then [EntryNotAnObject(index)]
    else
      var fields := entry.fields;
      var url := Get(fields, "base_url");
      ForKeys(ENTRY_KEYS, LacksCheck(index, fields, text))
      + (if NamesSomething(url, text) && !IsUrl(url.s) then [EntryUrl(index)] else [])
      + (if "timeout" in fields then [EntryTimeout(index)] else [])
      + (if "api_key" in fields then [EntryCredential(index)] else [])
      + ForKeys(COUNT_KEYS, CountCheck(index, fields))
  }

  function EachEntry(entries: seq<Json>, text: Text): seq<Problem> {
    if entries == [] then []
    else EachEntry(entries[..|entries| - 1], text) + EntryProblems(|entries| - 1, entries[|entries| - 1], text)
  }

  function RegistryProblems(value: string, text: Text, g: Grammar): seq<Problem> {
    match g.parse(value)
    case None => [NotJson(MODELS_CONFIG)]
    case Some(parsed) =>
      if !parsed.List? then [ModelsNotAnArray]
      else if parsed.items == [] then [NoModels]
      else EachEntry(parsed.items, text)
  }

  function GrammarProblems(key: string, value: string, text: Text, g: Grammar): seq<Problem> {
    if key in JSON_OBJECT_KEYS then JsonObjectProblems(key, value, g)
    else if key in POSITIVE_KEYS || key in NON_NEGATIVE_KEYS then IntProblems(key, value, text, g)
    else if key == MODELS_CONFIG then RegistryProblems(value, text, g)
    else if key == ALLOW_EMPTY then BudgetProblems(value, text, g)
    else []
  }

  /** A registry entry goes by that name. */
  predicate Declares(entry: Json, model: string) {
    entry.Obj? && Get(entry.fields, "model") == Str(model)
  }

  predicate HasAlias(entry: Json) {
    entry.Obj? && Get(entry.fields, "model").Str?
  }

  function ModelSelectionProblems(shared: map<string, string>, g: Grammar): seq<Problem> {
    if MODELS_CONFIG !in shared || DEFAULT_MODEL !in shared || shared[DEFAULT_MODEL] == "" then []
    else
      match g.parse(shared[MODELS_CONFIG])
      case None => []
      case Some(parsed) =>
        if !parsed.List? then []
        else if forall i :: 0 <= i < |parsed.items| ==> !HasAlias(parsed.items[i]) then []
        else if exists i :: 0 <= i < |parsed.items| && Declares(parsed.items[i], shared[DEFAULT_MODEL]) then []
        else [UnknownModel]
  }

  /** The launcher's own checks of values and of the model. */
  function SourceChecks(text: Text, g: Grammar): Checks {
    Checks((key: string, value: string) => GrammarProblems(key, value, text, g),
           (shared: map<string, string>) => ModelSelectionProblems(shared, g))
  }

  // What they are for.

  lemma {:induction false} EntryHasNone(entries: seq<Json>, text: Text, i: nat)
    requires EachEntry(entries, text) == [] && i < |entries|
    ensures EntryProblems(i, entries[i], text) == []
  {
    if i < |entries| - 1 { EntryHasNone(entries[..|entries| - 1], text, i); }
  }

  /** An entry without problems names a model. */
  lemma EntryNamesModel(index: nat, entry: Json, text: Text)
    requires EntryProblems(index, entry, text) == []
    ensures HasAlias(entry) && Get(entry.fields, "model").s != ""
  {
    assert ENTRY_KEYS[0] == "model";
    NoneForKeys(ENTRY_KEYS, LacksCheck(index, entry.fields, text), "model");
  }

  lemma RequiredIsGiven(shared: map<string, string>, key: string, text: Text)
    requires ForKeys(REQUIRED_SHARED, RequiredCheck(shared, text)) == [] && key in REQUIRED_SHARED && key != ALLOW_EMPTY
    ensures key in shared && !Blank(shared[key], text)
  {
    NoneForKeys(REQUIRED_SHARED, RequiredCheck(shared, text), key);
  }

  lemma ModelKeys(text: Text)
    ensures MODELS_CONFIG in REQUIRED_SHARED && DEFAULT_MODEL in REQUIRED_SHARED
    ensures !IsSecretKey(MODELS_CONFIG, text)
  {
    assert REQUIRED_SHARED[0] == DEFAULT_MODEL && REQUIRED_SHARED[4] == MODELS_CONFIG;
    EndingIsNotSecret(MODELS_CONFIG, text);
  }

  lemma SharedParts(shared: map<string, string>, text: Text, checks: Checks)
    requires SharedSettingProblems(shared, text, checks) == []
    ensures ForKeys(REQUIRED_SHARED, RequiredCheck(shared, text)) == []
    ensures ForKeys(SortedSet(shared.Keys), SharedValueCheck(shared, text, checks)) == []
  {
    NothingInFour(ForKeys(REQUIRED_SHARED, RequiredCheck(shared, text)),
                  if REQUEST_TIMEOUT in shared then [TimeoutInShared] else [],
                  ForKeys(SortedSet(shared.Keys), SharedValueCheck(shared, text, checks)),
                  ForKeys(SortedSet(shared.Keys), CredentialCheck(text)));
  }

  lemma ValueIsChecked(shared: map<string, string>, key: string, text: Text, checks: Checks)
    requires ForKeys(SortedSet(shared.Keys), SharedValueCheck(shared, text, checks)) == []
    requires key in shared && !IsSecretKey(key, text)
    ensures ValueProblems(key, shared[key], text, checks) == []
  {
    NoneForKeys(SortedSet(shared.Keys), SharedValueCheck(shared, text, checks), key);
  }

  lemma RegistryIsChecked(value: string, text: Text, g: Grammar)
    requires ValueProblems(MODELS_CONFIG, value, text, SourceChecks(text, g)) == [] && !Blank(value, text)
    ensures RegistryProblems(value, text, g) == []
  {
  }

  /** The registry of an experiment without problems. */
  lemma RegistryIsSound(shared: map<string, string>, text: Text, g: Grammar)
    requires SharedSettingProblems(shared, text, SourceChecks(text, g)) == []
    ensures MODELS_CONFIG in shared && RegistryProblems(shared[MODELS_CONFIG], text, g) == []
    ensures DEFAULT_MODEL in shared && shared[DEFAULT_MODEL] != ""
  {
    hide SharedSettingProblems, ValueProblems, RegistryProblems, IsSecretKey, ForKeys, SourceChecks;
    ModelKeys(text);
    SharedParts(shared, text, SourceChecks(text, g));
    RequiredIsGiven(shared, MODELS_CONFIG, text);
    RequiredIsGiven(shared, DEFAULT_MODEL, text);
    ValueIsChecked(shared, MODELS_CONFIG, text, SourceChecks(text, g));
    RegistryIsChecked(shared[MODELS_CONFIG], text, g);
  }

  lemma EntriesNameModels(value: string, text: Text, g: Grammar)
    requires RegistryProblems(value, text, g) == []
    ensures var parsed := g.parse(value);
            && parsed.Some? && parsed.value.List? && parsed.value.items != []
            && forall i :: 0 <= i < |parsed.value.items| ==> HasAlias(parsed.value.items[i])
  {
    var items := g.parse(value).value.items;
    forall i | 0 <= i < |items| ensures HasAlias(items[i]) {
      EntryHasNone(items, text, i);
      EntryNamesModel(i, items[i], text);
    }
  }

  lemma SelectionHasNone(shared: map<string, string>, text: Text, g: Grammar)
    requires MODELS_CONFIG in shared && RegistryProblems(shared[MODELS_CONFIG], text, g) == []
    requires DEFAULT_MODEL in shared && shared[DEFAULT_MODEL] != "" && ModelSelectionProblems(shared, g) == []
    ensures var parsed := g.parse(shared[MODELS_CONFIG]);
            && parsed.Some? && parsed.value.List?
            && exists i :: 0 <= i < |parsed.value.items| && Declares(parsed.value.items[i], shared[DEFAULT_MODEL])
  {
    hide RegistryProblems;
    EntriesNameModels(shared[MODELS_CONFIG], text, g);
    assert HasAlias(g.parse(shared[MODELS_CONFIG]).value.items[0]);
  }

  /** In an experiment without problems every registry entry names a model, and one of them is the model that the
      harness asks for. */
  lemma SoundModelIsServed(e: Experiment, text: Text, g: Grammar)
    requires ConfigProblems(e, text, SourceChecks(text, g)) == []
    ensures MODELS_CONFIG in e.sharedEnv && DEFAULT_MODEL in e.sharedEnv
    ensures var parsed := g.parse(e.sharedEnv[MODELS_CONFIG]);
            && parsed.Some? && parsed.value.List?
            && (forall i :: 0 <= i < |parsed.value.items| ==> HasAlias(parsed.value.items[i]))
            && exists i :: 0 <= i < |parsed.value.items| && Declares(parsed.value.items[i], e.sharedEnv[DEFAULT_MODEL])
  {
    hide ConfigProblems, SharedSettingProblems, RegistryProblems;
    PartsHaveNone(e, text, SourceChecks(text, g));
    RegistryIsSound(e.sharedEnv, text, g);
    EntriesNameModels(e.sharedEnv[MODELS_CONFIG], text, g);
    SelectionHasNone(e.sharedEnv, text, g);
  }
}
