/** Exactly which values the launcher of scripts/ab_launcher.py accepts for the settings that have a grammar. */
module SettingCriterion {
  import opened Names
  import opened ExperimentArms
  import opened ExperimentFile
  import opened SettingGrammar
  import opened ExperimentCriterion
  import opened Options

  ghost predicate NonBlankText(fields: map<string, Json>, key: string, text: Text) {
    key in fields && fields[key].Str? && Strip(fields[key].s, text) != ""
  }

  ghost predicate CountOrAbsent(fields: map<string, Json>, key: string) {
    key in fields ==>
      match fields[key]
      case Int(i) => i > 0
      case Bool(b) => b
      case _ => false
  }

  ghost predicate UrlFits(fields: map<string, Json>) {
    && "base_url" in fields && fields["base_url"].Str?
    && ("http://" <= fields["base_url"].s || "https://" <= fields["base_url"].s)
  }

  /** A registry entry says where its model is served and by whom, and neither a timeout nor a credential. */
  ghost predicate EntryFits(entry: Json, text: Text) {
    && entry.Obj?
    && (forall key :: key in {"model", "provider", "base_url", "backend_model"} ==>
          NonBlankText(entry.fields, key, text))
    && UrlFits(entry.fields)
    && "timeout" !in entry.fields && "api_key" !in entry.fields
    && CountOrAbsent(entry.fields, "context_window") && CountOrAbsent(entry.fields, "max_output_tokens")
  }

  /** A colon at place `k`, an intent before it, and a positive number of tokens behind it. */
  ghost predicate BudgetAt(item: string, k: int, text: Text, g: Grammar) {
    && 0 <= k < |item| && item[k] == ':' && ':' !in item[..k]
    && Strip(item[..k], text) != ""
    && g.integer(Strip(item[k + 1..], text)).Some? && g.integer(Strip(item[k + 1..], text)).value > 0
  }

  /** An intent, a colon, and a positive number of tokens. */
  ghost predicate BudgetFits(item: string, text: Text, g: Grammar) {
    exists k :: BudgetAt(item, k, text, g)
  }

  ghost predicate Positive(n: Option<int>) {
    n.Some? && n.value > 0
  }

  ghost predicate NonNegative(n: Option<int>) {
    n.Some? && n.value >= 0
  }

  ghost predicate RegistryFits(parsed: Option<Json>, text: Text) {
    && parsed.Some? && parsed.value.List? && parsed.value.items != []
    && forall i :: 0 <= i < |parsed.value.items| ==> EntryFits(parsed.value.items[i], text)
  }

  ghost predicate BudgetsFit(parts: seq<string>, text: Text, g: Grammar) {
    && (exists i :: 0 <= i < |parts| && Strip(parts[i], text) != "")
    && forall i :: 0 <= i < |parts| && Strip(parts[i], text) != "" ==> BudgetFits(Strip(parts[i], text), text, g)
  }

  /** What the grammar of a setting demands of its value. */
  ghost predicate GrammarFits(key: string, value: string, text: Text, g: Grammar) {
    && (key == "APP_CONTEXT_INTENT_RULES" ==> g.parse(value).Some? && g.parse(value).value.Obj?)
    && (key in {"APP_REPOSITORY_CONTEXT_MAX_TOKENS", "APP_CONTEXT_DELTA_CACHE_SIZE"} ==>
          Positive(g.integer(Strip(value, text))))
    && (key in {"APP_HISTORY_CAP_TOKENS", "APP_REPOSITORY_CONTEXT_CHANGED_FILES_TTL_SECONDS"} ==>
          NonNegative(g.integer(Strip(value, text))))
    && (key == "APP_MODELS_CONFIG" ==> RegistryFits(g.parse(value), text))
    && (key == "APP_REPOSITORY_CONTEXT_INTENT_BUDGETS" ==> BudgetsFit(Split(value, ','), text, g))
  }

  /** Splitting a text gives the pieces between its separators. */
  function Rejoin(pieces: seq<string>, separator: char): string
    requires pieces != []
  {
    if |pieces| == 1 then pieces[0] else Rejoin(pieces[..|pieces| - 1], separator) + [separator] + pieces[|pieces| - 1]
  }

  lemma RejoinMore(pieces: seq<string>, separator: char, piece: string)
    requires pieces != []
    ensures Rejoin(pieces + [piece], separator) == Rejoin(pieces, separator) + [separator] + piece
  {
    assert (pieces + [piece])[..|pieces|] == pieces;
  }

  lemma RejoinLonger(pieces: seq<string>, separator: char, c: char)
    requires pieces != []
    ensures Rejoin(pieces[..|pieces| - 1] + [pieces[|pieces| - 1] + [c]], separator) == Rejoin(pieces, separator) + [c]
  {
    var front, last := pieces[..|pieces| - 1], pieces[|pieces| - 1];
    if front == [] {
      assert front + [last + [c]] == [last + [c]];
    } else {
      RejoinMore(front, separator, last + [c]);
    }
  }

  ghost predicate FreeOf(pieces: seq<string>, separator: char) {
    forall i :: 0 <= i < |pieces| ==> separator !in pieces[i]
  }

  lemma {:induction false} SplitIs(s: string, separator: char)
    ensures Rejoin(Split(s, separator), separator) == s && FreeOf(Split(s, separator), separator)
  {
    if separator in s {
      var front, c := s[..|s| - 1], s[|s| - 1];
      var pieces := Split(front, separator);
      SplitIs(front, separator);
      Rejoined(s);
      if c == separator { RejoinMore(pieces, separator, ""); } else { RejoinLonger(pieces, separator, c); }
    }
  }

  // Entries.

  lemma NamesIff(fields: map<string, Json>, key: string, text: Text)
    ensures NamesSomething(Get(fields, key), text) <==> NonBlankText(fields, key, text)
  {
  }

  lemma EntryKeysAre()
    ensures forall key :: key in ENTRY_KEYS <==> key in {"model", "provider", "base_url", "backend_model"}
  {
    assert ENTRY_KEYS[0] == "model" && ENTRY_KEYS[1] == "provider" && ENTRY_KEYS[2] == "base_url";
    assert ENTRY_KEYS[3] == "backend_model";
  }

  lemma LacksIff(index: nat, fields: map<string, Json>, text: Text)
    ensures ForKeys(ENTRY_KEYS, LacksCheck(index, fields, text)) == [] <==>
            forall key :: key in {"model", "provider", "base_url", "backend_model"} ==> NonBlankText(fields, key, text)
  {
    hide NonBlankText, NamesSomething, ForKeys;
    NothingForKeysIff(ENTRY_KEYS, LacksCheck(index, fields, text));
    forall key ensures LacksCheck(index, fields, text)(key) == [] <==> NonBlankText(fields, key, text) {
      NamesIff(fields, key, text);
    }
    EntryKeysAre();
  }

  lemma CountsIff(index: nat, fields: map<string, Json>)
    ensures ForKeys(COUNT_KEYS, CountCheck(index, fields)) == [] <==>
            CountOrAbsent(fields, "context_window") && CountOrAbsent(fields, "max_output_tokens")
  {
    hide ForKeys;
    NothingForKeysIff(COUNT_KEYS, CountCheck(index, fields));
    forall key ensures CountCheck(index, fields)(key) == [] <==> CountOrAbsent(fields, key) {}
    assert COUNT_KEYS[0] == "context_window" && COUNT_KEYS[1] == "max_output_tokens";
    assert forall key :: key in COUNT_KEYS <==> key in {"context_window", "max_output_tokens"};
  }

  lemma UrlIff(fields: map<string, Json>, text: Text)
    ensures var url := Get(fields, "base_url");
            NonBlankText(fields, "base_url", text) ==>
              (NamesSomething(url, text) && !IsUrl(url.s) <==> !UrlFits(fields))
  {
  }

  lemma EntryParts(index: nat, fields: map<string, Json>, keys: seq<Key>, text: Text)
    ensures var url := Get(fields, "base_url");
            EntryProblems(index, Obj(fields, keys), text) == [] <==>
            && ForKeys(ENTRY_KEYS, LacksCheck(index, fields, text)) == []
            && !(NamesSomething(url, text) && !IsUrl(url.s))
            && "timeout" !in fields && "api_key" !in fields
            && ForKeys(COUNT_KEYS, CountCheck(index, fields)) == []
  {
    hide ForKeys, IsUrl, Get;
    var url := Get(fields, "base_url");
    var a, e := ForKeys(ENTRY_KEYS, LacksCheck(index, fields, text)), ForKeys(COUNT_KEYS, CountCheck(index, fields));
    var b := if NamesSomething(url, text) && !IsUrl(url.s) then [EntryUrl(index)] else [];
    var c := if "timeout" in fields then [EntryTimeout(index)] else [];
    var d := if "api_key" in fields then [EntryCredential(index)] else [];
    assert EntryProblems(index, Obj(fields, keys), text) == a + b + c + d + e;
    assert |a + b + c + d + e| == |a| + |b| + |c| + |d| + |e|;
  }

  lemma EntryIff(index: nat, entry: Json, text: Text)
    ensures EntryProblems(index, entry, text) == [] <==> EntryFits(entry, text)
  {
    hide ForKeys, NonBlankText, CountOrAbsent, UrlFits, IsUrl;
    match entry
    case Obj(fields, keys) =>
      EntryParts(index, fields, keys, text);
      LacksIff(index, fields, text);
      CountsIff(index, fields);
      UrlIff(fields, text);
    case _ =>
  }

  lemma {:induction false} EachEntryIff(entries: seq<Json>, text: Text)
    ensures EachEntry(entries, text) == [] <==> forall i :: 0 <= i < |entries| ==> EntryFits(entries[i], text)
  {
    hide EntryProblems, EntryFits;
    if entries != [] {
      var front, n := entries[..|entries| - 1], |entries| - 1;
      EachEntryIff(front, text);
      EntryIff(n, entries[n], text);
      assert forall i :: 0 <= i < n ==> front[i] == entries[i];
    }
  }

  lemma RegistryIff(value: string, text: Text, g: Grammar)
    ensures RegistryProblems(value, text, g) == [] <==> RegistryFits(g.parse(value), text)
  {
    hide EachEntry, EntryFits;
    match g.parse(value)
    case Some(parsed) => if parsed.List? { EachEntryIff(parsed.items, text); }
    case None =>
  }

  // Budgets.

  lemma {:induction false} FirstOfIs(s: string, separator: char)
    ensures separator !in s[..FirstOf(s, separator)]
    ensures FirstOf(s, separator) == |s| <==> separator !in s
  {
    if s != "" && s[0] != separator {
      FirstOfIs(s[1..], separator);
      var k := FirstOf(s[1..], separator);
      assert s == [s[0]] + s[1..] && s[..k + 1] == [s[0]] + s[1..][..k];
    }
  }

  lemma NotEarlier(s: string, separator: char, k: nat, m: nat)
    requires k < |s| && m <= |s| && s[k] == separator && separator !in s[..m]
    ensures m <= k
  {
    forall i | 0 <= i < m ensures s[i] != separator { assert s[..m][i] in s[..m]; }
  }

  lemma BudgetAtFirst(item: string, text: Text, g: Grammar)
    ensures BudgetItemProblems(item, text, g) == [] <==> BudgetAt(item, FirstOf(item, ':'), text, g)
  {
    hide Strip;
    FirstOfIs(item, ':');
  }

  lemma BudgetAtOnlyFirst(item: string, m: int, text: Text, g: Grammar)
    requires BudgetAt(item, m, text, g)
    ensures m == FirstOf(item, ':')
  {
    hide Strip, FirstOf;
    FirstOfIs(item, ':');
    assert item[m] in item;
    NotEarlier(item, ':', m, FirstOf(item, ':'));
    NotEarlier(item, ':', FirstOf(item, ':'), m);
  }

  lemma BudgetIff(item: string, text: Text, g: Grammar)
    ensures BudgetItemProblems(item, text, g) == [] <==> BudgetFits(item, text, g)
  {
    hide BudgetItemProblems, BudgetAt, FirstOf;
    BudgetAtFirst(item, text, g);
    if BudgetFits(item, text, g) {
      var m :| BudgetAt(item, m, text, g);
      BudgetAtOnlyFirst(item, m, text, g);
    }
  }

  lemma {:induction false} EachBudgetIff(items: seq<string>, text: Text, g: Grammar)
    ensures EachBudget(items, text, g) == [] <==> forall i :: 0 <= i < |items| ==> BudgetFits(items[i], text, g)
  {
    hide BudgetFits, BudgetItemProblems;
    if items != [] {
      var front, n := items[..|items| - 1], |items| - 1;
      EachBudgetIff(front, text, g);
      BudgetIff(items[n], text, g);
      assert forall i :: 0 <= i < n ==> front[i] == items[i];
    }
  }

  lemma {:induction false} ItemFrom(parts: seq<string>, text: Text, item: string)
    requires item in Items(parts, text)
    ensures item != "" && exists i :: 0 <= i < |parts| && Strip(parts[i], text) == item
  {
    hide Strip;
    var front, n := parts[..|parts| - 1], |parts| - 1;
    if item in Items(front, text) {
      ItemFrom(front, text, item);
      var i :| 0 <= i < n && Strip(front[i], text) == item;
      assert Strip(parts[i], text) == item;
    } else {
      assert Strip(parts[n], text) == item;
    }
  }

  lemma {:induction false} ItemInto(parts: seq<string>, text: Text, i: nat)
    requires i < |parts| && Strip(parts[i], text) != ""
    ensures Strip(parts[i], text) in Items(parts, text)
  {
    hide Strip;
    if i < |parts| - 1 { ItemInto(parts[..|parts| - 1], text, i); }
  }

  lemma BudgetsIff(value: string, text: Text, g: Grammar)
    ensures BudgetProblems(value, text, g) == [] <==> BudgetsFit(Split(value, ','), text, g)
  {
    hide Strip, Items, EachBudget, BudgetFits, Split;
    var parts := Split(value, ',');
    var items := Items(parts, text);
    EachBudgetIff(items, text, g);
    forall i | 0 <= i < |parts| && Strip(parts[i], text) != "" ensures Strip(parts[i], text) in items {
      ItemInto(parts, text, i);
    }
    if items != [] { ItemFrom(parts, text, items[0]); }
    if BudgetsFit(parts, text, g) {
      forall i | 0 <= i < |items| ensures BudgetFits(items[i], text, g) {
        ItemFrom(parts, text, items[i]);
        var k :| 0 <= k < |parts| && Strip(parts[k], text) == items[i];
      }
    }
  }

  // The whole.

  lemma IntIff(key: string, value: string, text: Text, g: Grammar)
    requires key in POSITIVE_KEYS || key in NON_NEGATIVE_KEYS
    ensures IntProblems(key, value, text, g) == [] <==>
            if key in POSITIVE_KEYS then Positive(g.integer(Strip(value, text)))
            else NonNegative(g.integer(Strip(value, text)))
  {
  }

  lemma KeysApart(key: string)
    ensures key in POSITIVE_KEYS ==> key !in JSON_OBJECT_KEYS && key !in NON_NEGATIVE_KEYS
    ensures key in NON_NEGATIVE_KEYS ==> key !in JSON_OBJECT_KEYS
    ensures key == MODELS_CONFIG ==> key !in JSON_OBJECT_KEYS && key !in POSITIVE_KEYS && key !in NON_NEGATIVE_KEYS
    ensures key == ALLOW_EMPTY ==>
              key !in JSON_OBJECT_KEYS && key !in POSITIVE_KEYS && key !in NON_NEGATIVE_KEYS && key != MODELS_CONFIG
  {
  }

  /** A setting's value passes the launcher's check if and only if it fits the grammar of its key. */
  lemma GrammarIff(key: string, value: string, text: Text, g: Grammar)
    ensures GrammarProblems(key, value, text, g) == [] <==> GrammarFits(key, value, text, g)
  {
    hide IntProblems, RegistryProblems, BudgetProblems, RegistryFits, BudgetsFit, Positive, NonNegative, Strip, Split;
    KeysApart(key);
    if key in POSITIVE_KEYS || key in NON_NEGATIVE_KEYS { IntIff(key, value, text, g); }
    RegistryIff(value, text, g);
    BudgetsIff(value, text, g);
  }

  /** The model asked for is in the registry, as far as both say something. */
  ghost predicate SelectionFits(shared: map<string, string>, g: Grammar) {
    "APP_MODELS_CONFIG" in shared && "DEFAULT_MODEL" in shared && shared["DEFAULT_MODEL"] != ""
    && g.parse(shared["APP_MODELS_CONFIG"]).Some? && g.parse(shared["APP_MODELS_CONFIG"]).value.List? ==>
      var items := g.parse(shared["APP_MODELS_CONFIG"]).value.items;
      || (forall i :: 0 <= i < |items| && items[i].Obj? && "model" in items[i].fields ==>
            !items[i].fields["model"].Str?)
      || (exists i :: 0 <= i < |items| && items[i].Obj? && "model" in items[i].fields
                      && items[i].fields["model"] == Str(shared["DEFAULT_MODEL"]))
  }

  lemma AliasIff(entry: Json, model: string)
    ensures HasAlias(entry) <==> entry.Obj? && "model" in entry.fields && entry.fields["model"].Str?
    ensures Declares(entry, model) <==>
            entry.Obj? && "model" in entry.fields && entry.fields["model"] == Str(model)
  {
  }

  lemma SelectionIff(shared: map<string, string>, g: Grammar)
    ensures ModelSelectionProblems(shared, g) == [] <==> SelectionFits(shared, g)
  {
    hide HasAlias, Declares;
    if MODELS_CONFIG in shared && DEFAULT_MODEL in shared && g.parse(shared[MODELS_CONFIG]).Some?
       && g.parse(shared[MODELS_CONFIG]).value.List?
    {
      var items := g.parse(shared[MODELS_CONFIG]).value.items;
      forall i | 0 <= i < |items|
        ensures HasAlias(items[i]) <==>
                items[i].Obj? && "model" in items[i].fields && items[i].fields["model"].Str?
        ensures Declares(items[i], shared[DEFAULT_MODEL]) <==>
                items[i].Obj? && "model" in items[i].fields && items[i].fields["model"] == Str(shared[DEFAULT_MODEL])
      {
        AliasIff(items[i], shared[DEFAULT_MODEL]);
      }
    }
  }
}
