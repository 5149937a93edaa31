/** A concrete experiment that meets every configuration check of scripts/ab_launcher.py, and one whose arms differ
    in more than they should without a problem being found. */
module ExperimentCases {
  import opened Names
  import opened ExperimentFile
  import opened ExperimentArms
  import opened SettingGrammar
  import opened Options

  predicate Rooted(path: string) {
    path != "" && path[0] == '/'
  }

  /** Text operations that agree with the platform's on the strings of the experiment below. */
  const PLAIN_TEXT := Text((c: char) => false, (s: string) => s, (c: char) => [c], (r: real) => "300",
                           (s: string) => Rooted(s), (s: string) => s)

  predicate Digits(s: string) {
    forall i :: 0 <= i < |s| ==> '0' <= s[i] <= '9'
  }

  function Decimal(s: string): nat
    requires Digits(s)
  {
    if s == "" then 0 else 10 * Decimal(s[..|s| - 1]) + (s[|s| - 1] as int - '0' as int)
  }

  const REGISTRY := "[{\"model\": \"m\", \"provider\": \"vllm\", \"base_url\": \"http://h\", \"backend_model\": \"b\"}]"

  /** What `REGISTRY` says. */
  function Registry(): Json {
    List([Obj(map["model" := Str("m"), "provider" := Str("vllm"), "base_url" := Str("http://h"),
                  "backend_model" := Str("b")],
              Words(["model", "provider", "base_url", "backend_model"]))])
  }

  /** JSON and integers, as far as the experiment below needs them. */
  const PLAIN_GRAMMAR := Grammar(
    (s: string) => if s == "{}" then Some(Obj(map[], [])) else if s == REGISTRY then Some(Registry()) else None,
    (s: string) => if s != "" && Digits(s) then Some(Decimal(s)) else None)

  /** The launcher's own checks. */
  const CHECKS := SourceChecks(PLAIN_TEXT, PLAIN_GRAMMAR)

  /** A value that each required setting accepts. */
  function PlainValueOf(key: string): string {
    if key == ABSOLUTE_PATH then "/tree"
    else if key in BOOL_KEYS || key in LITERAL_BOOL_KEYS then "true"
    else if key in JSON_OBJECT_KEYS then "{}"
    else if key in POSITIVE_KEYS then "6000"
    else if key in NON_NEGATIVE_KEYS then "0"
    else if key == MODELS_CONFIG then REGISTRY
    else if key == ALLOW_EMPTY then ""
    else if key == DEFAULT_MODEL || key == "APP_DEFAULT_MODEL" then "m"
    else "vllm"
  }

  function PlainArm(armId: string, port: int, log: string, flag: bool): Arm {
    Arm(armId, port, log, flag, map[])
  }

  function PlainExperiment(): Experiment {
    Experiment("pair", "/tree", map key | key in REQUIRED_SHARED :: PlainValueOf(key),
               [PlainArm("off", 8000, "/off", false), PlainArm("on", 8001, "/on", true)],
               Some(300.0), Some(330.0), [], 3, None)
  }

  lemma PlainTextIsNotBlank(s: string)
    requires s != ""
    ensures Strip(s, PLAIN_TEXT) == s && !Blank(s, PLAIN_TEXT)
  {
  }

  lemma RequiredEndings(i: nat)
    requires i < |REQUIRED_SHARED|
    ensures var key := REQUIRED_SHARED[i];
            |key| >= 2 && Plain(key[|key| - 2]) && Plain(key[|key| - 1]) && !SecretEnding(key)
  {
  }

  lemma TimeoutIsNotRequired(i: nat)
    requires i < |REQUIRED_SHARED|
    ensures REQUIRED_SHARED[i] != REQUEST_TIMEOUT
  {
    RequiredEndings(i);
  }

  ghost predicate PlainShared(shared: map<string, string>) {
    && (forall key :: key in shared <==> key in REQUIRED_SHARED)
    && forall key :: key in shared ==> shared[key] == PlainValueOf(key)
  }

  lemma PlainIsGiven(key: string)
    ensures key != ALLOW_EMPTY ==> PlainValueOf(key) != "" && !Blank(PlainValueOf(key), PLAIN_TEXT)
  {
    if key != ALLOW_EMPTY { PlainTextIsNotBlank(PlainValueOf(key)); }
  }

  lemma RequiredIsMet(shared: map<string, string>, key: string)
    requires PlainShared(shared) && key in REQUIRED_SHARED
    ensures RequiredCheck(shared, PLAIN_TEXT)(key) == []
  {
    hide PlainValueOf, Blank, Strip;
    PlainIsGiven(key);
  }

  lemma PlainRequired(shared: map<string, string>)
    requires PlainShared(shared)
    ensures ForKeys(REQUIRED_SHARED, RequiredCheck(shared, PLAIN_TEXT)) == []
  {
    hide PlainShared, RequiredCheck;
    forall i | 0 <= i < |REQUIRED_SHARED| ensures RequiredCheck(shared, PLAIN_TEXT)(REQUIRED_SHARED[i]) == [] {
      RequiredIsMet(shared, REQUIRED_SHARED[i]);
    }
    AllForKeys(REQUIRED_SHARED, RequiredCheck(shared, PLAIN_TEXT));
  }

  lemma PlainNumbers()
    ensures PLAIN_GRAMMAR.integer("6000") == Some(6000) && PLAIN_GRAMMAR.integer("0") == Some(0)
  {
    assert Decimal("") == 0;
    assert "0"[..0] == "" && "6"[..0] == "" && "60"[..1] == "6" && "600"[..2] == "60" && "6000"[..3] == "600";
    assert Decimal("6") == 6 && Decimal("60") == 60 && Decimal("600") == 600;
  }

  lemma IntegerValues(key: string)
    ensures key in POSITIVE_KEYS ==> PlainValueOf(key) == "6000"
    ensures key in NON_NEGATIVE_KEYS ==> PlainValueOf(key) == "0" && key !in POSITIVE_KEYS
  {
  }

  lemma PlainInteger(key: string)
    requires key in POSITIVE_KEYS || key in NON_NEGATIVE_KEYS
    ensures IntProblems(key, PlainValueOf(key), PLAIN_TEXT, PLAIN_GRAMMAR) == []
  {
    hide PlainValueOf, Decimal;
    PlainNumbers();
    IntegerValues(key);
    PlainTextIsNotBlank(PlainValueOf(key));
  }

  lemma PlainFields()
    ensures forall i :: 0 <= i < |ENTRY_KEYS| ==>
              LacksCheck(0, Registry().items[0].fields, PLAIN_TEXT)(ENTRY_KEYS[i]) == []
  {
    PlainTextIsNotBlank("m");
    PlainTextIsNotBlank("vllm");
    PlainTextIsNotBlank("http://h");
    PlainTextIsNotBlank("b");
  }

  lemma NoCounts()
    ensures forall i :: 0 <= i < |COUNT_KEYS| ==> CountCheck(0, Registry().items[0].fields)(COUNT_KEYS[i]) == []
  {
  }

  lemma PlainEntry()
    ensures EntryProblems(0, Registry().items[0], PLAIN_TEXT) == []
  {
    var fields := Registry().items[0].fields;
    PlainFields();
    NoCounts();
    AllForKeys(ENTRY_KEYS, LacksCheck(0, fields, PLAIN_TEXT));
    AllForKeys(COUNT_KEYS, CountCheck(0, fields));
  }

  lemma PlainRegistry()
    ensures RegistryProblems(REGISTRY, PLAIN_TEXT, PLAIN_GRAMMAR) == []
  {
    PlainEntry();
    assert PLAIN_GRAMMAR.parse(REGISTRY) == Some(Registry());
    assert Registry().items[..0] == [];
  }

  predicate HasGrammar(key: string) {
    key in JSON_OBJECT_KEYS || key in POSITIVE_KEYS || key in NON_NEGATIVE_KEYS || key == MODELS_CONFIG
    || key == ALLOW_EMPTY
  }

  lemma PathHasNone()
    ensures !HasGrammar(ABSOLUTE_PATH)
  {
  }

  lemma BooleanHasNone(key: string)
    requires key in BOOL_KEYS
    ensures !HasGrammar(key)
  {
  }

  lemma LiteralHasNone(key: string)
    requires key in LITERAL_BOOL_KEYS
    ensures !HasGrammar(key)
  {
  }

  /** Paths and booleans have no grammar of their own. */
  lemma NoGrammar(key: string, value: string)
    requires key == ABSOLUTE_PATH || key in BOOL_KEYS || key in LITERAL_BOOL_KEYS
    ensures GrammarProblems(key, value, PLAIN_TEXT, PLAIN_GRAMMAR) == []
  {
    hide JsonObjectProblems, IntProblems, RegistryProblems, BudgetProblems;
    PathHasNone();
    if key in BOOL_KEYS { BooleanHasNone(key); }
    if key in LITERAL_BOOL_KEYS { LiteralHasNone(key); }
  }

  lemma EmptyBudgets()
    ensures PlainValueOf(ALLOW_EMPTY) == "" && ValueProblems(ALLOW_EMPTY, "", PLAIN_TEXT, CHECKS) == []
  {
  }

  lemma PlainGrammarValue(key: string)
    requires key != ABSOLUTE_PATH && key !in BOOL_KEYS && key !in LITERAL_BOOL_KEYS && key != ALLOW_EMPTY
    ensures GrammarProblems(key, PlainValueOf(key), PLAIN_TEXT, PLAIN_GRAMMAR) == []
  {
    hide RegistryProblems, IntProblems;
    if key in POSITIVE_KEYS || key in NON_NEGATIVE_KEYS { PlainInteger(key); }
    PlainRegistry();
  }

  lemma PathIsNoSwitch()
    ensures ABSOLUTE_PATH !in BOOL_KEYS && ABSOLUTE_PATH !in LITERAL_BOOL_KEYS
  {
  }

  lemma PlainBasics(key: string)
    requires key != ALLOW_EMPTY && GrammarProblems(key, PlainValueOf(key), PLAIN_TEXT, PLAIN_GRAMMAR) == []
    ensures ValueProblems(key, PlainValueOf(key), PLAIN_TEXT, CHECKS) == []
  {
    hide GrammarProblems;
    PathIsNoSwitch();
    PlainTextIsNotBlank("true");
  }

  lemma PlainValue(key: string)
    ensures ValueProblems(key, PlainValueOf(key), PLAIN_TEXT, CHECKS) == []
  {
    hide GrammarProblems, ValueProblems;
    if key == ALLOW_EMPTY {
      EmptyBudgets();
    } else if key == ABSOLUTE_PATH || key in BOOL_KEYS || key in LITERAL_BOOL_KEYS {
      NoGrammar(key, PlainValueOf(key));
      PlainBasics(key);
    } else {
      PlainGrammarValue(key);
      PlainBasics(key);
    }
  }

  lemma RequiredIsNotSecret(key: string)
    requires key in REQUIRED_SHARED
    ensures !IsSecretKey(key, PLAIN_TEXT)
  {
    var k :| 0 <= k < |REQUIRED_SHARED| && REQUIRED_SHARED[k] == key;
    RequiredEndings(k);
    EndingIsNotSecret(key, PLAIN_TEXT);
  }

  lemma PlainValueIsChecked(shared: map<string, string>, key: string)
    requires PlainShared(shared) && key in shared
    ensures SharedValueCheck(shared, PLAIN_TEXT, CHECKS)(key) == [] && CredentialCheck(PLAIN_TEXT)(key) == []
  {
    hide PlainValueOf, ValueProblems, IsSecretKey;
    RequiredIsNotSecret(key);
    PlainValue(key);
  }

  lemma PlainValues(shared: map<string, string>, keys: seq<string>)
    requires PlainShared(shared) && forall i :: 0 <= i < |keys| ==> keys[i] in shared
    ensures ForKeys(keys, SharedValueCheck(shared, PLAIN_TEXT, CHECKS)) == []
    ensures ForKeys(keys, CredentialCheck(PLAIN_TEXT)) == []
  {
    hide PlainShared, SharedValueCheck, CredentialCheck;
    forall i | 0 <= i < |keys|
      ensures SharedValueCheck(shared, PLAIN_TEXT, CHECKS)(keys[i]) == []
              && CredentialCheck(PLAIN_TEXT)(keys[i]) == []
    {
      PlainValueIsChecked(shared, keys[i]);
    }
    AllForKeys(keys, SharedValueCheck(shared, PLAIN_TEXT, CHECKS));
    AllForKeys(keys, CredentialCheck(PLAIN_TEXT));
  }

  lemma SortedSetIsIn(names: set<string>)
    ensures forall i :: 0 <= i < |SortedSet(names)| ==> SortedSet(names)[i] in names
  {
    forall i | 0 <= i < |SortedSet(names)| ensures SortedSet(names)[i] in names {
      assert SortedSet(names)[i] in SortedSet(names);
    }
  }

  lemma NoTimeoutIn(shared: map<string, string>)
    requires PlainShared(shared)
    ensures REQUEST_TIMEOUT !in shared
  {
    if REQUEST_TIMEOUT in shared {
      var k :| 0 <= k < |REQUIRED_SHARED| && REQUIRED_SHARED[k] == REQUEST_TIMEOUT;
      TimeoutIsNotRequired(k);
    }
  }

  lemma SharedPartsMakeNone(shared: map<string, string>, text: Text, checks: Checks)
    requires ForKeys(REQUIRED_SHARED, RequiredCheck(shared, text)) == [] && REQUEST_TIMEOUT !in shared
    requires ForKeys(SortedSet(shared.Keys), SharedValueCheck(shared, text, checks)) == []
    requires ForKeys(SortedSet(shared.Keys), CredentialCheck(text)) == []
    ensures SharedSettingProblems(shared, text, checks) == []
  {
  }

  lemma PlainSharedSettings(shared: map<string, string>)
    requires PlainShared(shared)
    ensures SharedSettingProblems(shared, PLAIN_TEXT, CHECKS) == []
  {
    PlainRequired(shared);
    SortedSetIsIn(shared.Keys);
    PlainValues(shared, SortedSet(shared.Keys));
    NoTimeoutIn(shared);
    SharedPartsMakeNone(shared, PLAIN_TEXT, CHECKS);
  }

  lemma NoArmSettings(who: Label, arm: Arm)
    requires arm.env == map[]
    ensures ArmEnvProblems(who, arm, PLAIN_TEXT, CHECKS) == []
  {
    assert arm.env.Keys == {};
  }

  /** An arm with a fresh id, port and log and no settings of its own has no problems. */
  lemma FreshArm(arm: Arm, position: nat, seen: Seen)
    requires arm.env == map[] && arm.armId != "" && Rooted(arm.sessionLogPath) && 1 <= arm.port <= 65535
    requires arm.armId !in seen.ids && arm.port !in seen.ports && arm.sessionLogPath !in seen.logs
    ensures OneArm(arm, position, seen, PLAIN_TEXT, CHECKS) == []
  {
    hide ArmEnvProblems, OneArm, Strip;
    NoArmSettings(LabelOf(arm, position, PLAIN_TEXT), arm);
    PlainTextIsNotBlank(arm.armId);
    PlainTextIsNotBlank(arm.sessionLogPath);
    OneArmFromParts(arm, position, seen, PLAIN_TEXT, CHECKS);
  }

  lemma SeenOnlyFirst(a: Arm)
    ensures var seen := SeenAfter(a, 1, Seen(map[], map[], map[]), PLAIN_TEXT);
            && seen.ids.Keys <= {a.armId} && seen.ports.Keys <= {a.port} && seen.logs.Keys <= {a.sessionLogPath}
  {
  }

  predicate Complete(arm: Arm) {
    arm.env == map[] && arm.armId != "" && Rooted(arm.sessionLogPath) && 1 <= arm.port <= 65535
  }

  predicate ToldApart(a: Arm, b: Arm) {
    a.armId != b.armId && a.port != b.port && a.sessionLogPath != b.sessionLogPath
  }

  lemma FreshSecond(a: Arm, b: Arm)
    requires Complete(b) && ToldApart(a, b)
    ensures OneArm(b, 2, SeenAfter(a, 1, Seen(map[], map[], map[]), PLAIN_TEXT), PLAIN_TEXT, CHECKS) == []
  {
    SeenOnlyFirst(a);
    FreshArm(b, 2, SeenAfter(a, 1, Seen(map[], map[], map[]), PLAIN_TEXT));
  }

  /** Two arms without settings of their own, told apart by id, port and log. */
  lemma PlainArms(a: Arm, b: Arm)
    requires Complete(a) && Complete(b) && ToldApart(a, b)
    ensures EachArm([a, b], PLAIN_TEXT, CHECKS) == []
  {
    PairProblems(a, b, PLAIN_TEXT, CHECKS);
    FreshArm(a, 1, Seen(map[], map[], map[]));
    FreshSecond(a, b);
  }

  lemma PlainEnvironmentsAgree(e: Experiment, a: Arm, b: Arm)
    requires a.env == b.env == map[]
    ensures AgreeElsewhere(Environment(e, a, PLAIN_TEXT), Environment(e, b, PLAIN_TEXT))
  {
  }

  lemma PlainIsPlain()
    ensures PlainShared(PlainExperiment().sharedEnv)
  {
  }

  lemma PlainShape()
    ensures ShapeProblems(PlainExperiment(), PLAIN_TEXT) == []
  {
    PlainTextIsNotBlank("pair");
    PlainTextIsNotBlank("/tree");
  }

  lemma PlainRest()
    ensures TimeoutProblems(PlainExperiment()) == [] && HarnessProblems(PlainExperiment(), PLAIN_TEXT) == []
  {
  }

  lemma PlainComparison()
    ensures ComparisonProblems(PlainExperiment(), PLAIN_TEXT) == []
  {
    ComparisonKey();
    PlainTextIsNotBlank("true");
  }

  lemma PlainSymmetry()
    ensures SymmetryProblems(PlainExperiment(), PLAIN_TEXT) == []
  {
    var e := PlainExperiment();
    PlainEnvironmentsAgree(e, e.arms[0], e.arms[1]);
    AgreeingEnvironmentsAreSymmetric(Environments(e, e.arms, PLAIN_TEXT));
  }

  lemma PlainArmProblems()
    ensures ArmProblems(PlainExperiment(), PLAIN_TEXT, CHECKS) == []
  {
    var arms := PlainExperiment().arms;
    TwoOf(arms);
    PlainArms(arms[0], arms[1]);
  }

  lemma PlainModelIsDeclared()
    ensures PLAIN_GRAMMAR.parse(REGISTRY) == Some(Registry())
    ensures Declares(Registry().items[0], "m")
  {
  }

  lemma PlainModelValues()
    ensures PlainValueOf(DEFAULT_MODEL) == "m" && PlainValueOf(MODELS_CONFIG) == REGISTRY
  {
  }

  lemma PlainModelShared(shared: map<string, string>)
    requires PlainShared(shared)
    ensures DEFAULT_MODEL in shared && shared[DEFAULT_MODEL] == "m"
    ensures MODELS_CONFIG in shared && shared[MODELS_CONFIG] == REGISTRY
  {
    hide PlainValueOf;
    PlainModelValues();
    assert REQUIRED_SHARED[0] == DEFAULT_MODEL && REQUIRED_SHARED[4] == MODELS_CONFIG;
  }

  lemma PlainModel(shared: map<string, string>)
    requires PlainShared(shared)
    ensures ModelSelectionProblems(shared, PLAIN_GRAMMAR) == []
  {
    hide PlainShared, Declares;
    PlainModelShared(shared);
    PlainModelIsDeclared();
  }

  /** All configuration checks of the launcher can be met at once. */
  lemma SoundExperimentsExist()
    ensures ConfigProblems(PlainExperiment(), PLAIN_TEXT, CHECKS) == []
  {
    hide ConfigProblems, ShapeProblems, SharedSettingProblems, TimeoutProblems, ArmProblems, ComparisonProblems;
    hide SymmetryProblems, HarnessProblems, ModelSelectionProblems, PlainShared, PlainExperiment;
    PlainIsPlain();
    PlainShape();
    PlainSharedSettings(PlainExperiment().sharedEnv);
    PlainRest();
    PlainArmProblems();
    PlainComparison();
    PlainSymmetry();
    PlainModel(PlainExperiment().sharedEnv);
    PartsMakeNone(PlainExperiment(), PLAIN_TEXT, CHECKS);
  }

  lemma ExtraIsNotRequired()
    ensures "EXTRA" !in REQUIRED_SHARED
  {
    forall i | 0 <= i < |REQUIRED_SHARED| ensures REQUIRED_SHARED[i] != "EXTRA" { assert |REQUIRED_SHARED[i]| > 5; }
  }

  lemma ExtraHasNoGrammar(value: string)
    ensures GrammarProblems("EXTRA", value, PLAIN_TEXT, PLAIN_GRAMMAR) == []
    ensures "EXTRA" != ABSOLUTE_PATH && "EXTRA" !in BOOL_KEYS && "EXTRA" !in LITERAL_BOOL_KEYS
  {
    hide JsonObjectProblems, IntProblems, RegistryProblems, BudgetProblems;
  }

  lemma ExtraIsFresh()
    ensures FreshSetting(PlainExperiment(), "EXTRA", PLAIN_TEXT, CHECKS)
  {
    hide GrammarProblems, PlainValueOf;
    EndingIsNotSecret("EXTRA", PLAIN_TEXT);
    ExtraIsNotRequired();
    ExtraHasNoGrammar(MISSING);
  }

  /** One concrete experiment without problems whose arms differ in a third key. */
  lemma HiddenDifferenceExists()
    ensures var m := WithMarker(PlainExperiment(), "EXTRA");
            && ConfigProblems(m, PLAIN_TEXT, CHECKS) == []
            && !DifferExactly(Environment(m, m.arms[0], PLAIN_TEXT), Environment(m, m.arms[1], PLAIN_TEXT))
  {
    hide ConfigProblems, FreshSetting, Environment;
    SoundExperimentsExist();
    ExtraIsFresh();
    MarkerGoesUnnoticed(PlainExperiment(), "EXTRA", PLAIN_TEXT, CHECKS);
  }
}
