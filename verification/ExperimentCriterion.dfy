/** Exactly which experiments the launcher of scripts/ab_launcher.py finds no configuration problem in. */
module ExperimentCriterion {
  import opened Names
  import opened ExperimentFile
  import opened ExperimentArms
  import opened Options

  ghost predicate IsSwitch(key: string) {
    key in {"APP_REPOSITORY_CONTEXT_ENABLED", "APP_REPOSITORY_EXCLUDE_TESTS", "APP_CONTEXT_DELTA_INJECTION",
            "APP_SESSION_LOG_ENABLED", "APP_HISTORY_CAP_ENABLED", "APP_REPOSITORY_CONTEXT_CHANGED_FILES_ENABLED",
            "APP_REPOSITORY_CONTEXT_CHANGED_FILES_COMPARISON_ENABLED"}
  }

  /** The value is blank, or what its key demands. */
  ghost predicate ValueFits(key: string, value: string, text: Text, checks: Checks) {
    || Strip(value, text) == ""
    || (&& (key == "APP_REPOSITORY_PATH" ==> text.absolute(value))
        && (IsSwitch(key) ==>
              text.lower(Strip(value, text))
              in {"true", "t", "yes", "y", "on", "1", "false", "f", "no", "n", "off", "0"})
        && (key in {"RELATIONSHIP_RANKING_ENABLED", "RELATIONSHIP_EXPANSION_ENABLED"} ==>
              Strip(value, text) in {"true", "false"})
        && checks.value(key, value) == [])
  }

  ghost predicate GoodShape(e: Experiment, text: Text) {
    Strip(e.name, text) != "" && Strip(e.worktree, text) != "" && |e.arms| == 2
  }

  /** Every required setting is there, and none but the intent budgets is blank. */
  ghost predicate RequiredGiven(shared: map<string, string>, text: Text) {
    forall key :: key in REQUIRED_SHARED ==>
      key in shared && (Strip(shared[key], text) != "" || key == "APP_REPOSITORY_CONTEXT_INTENT_BUDGETS")
  }

  ghost predicate NoCredentials(shared: map<string, string>, text: Text) {
    forall key :: key in shared ==> !IsSecretKey(key, text)
  }

  ghost predicate ValuesFit(settings: map<string, string>, text: Text, checks: Checks) {
    forall key :: key in settings ==> ValueFits(key, settings[key], text, checks)
  }

  ghost predicate GoodShared(shared: map<string, string>, text: Text, checks: Checks) {
    && RequiredGiven(shared, text)
    && REQUEST_TIMEOUT !in shared && NoCredentials(shared, text)
    && ValuesFit(shared, text, checks)
  }

  ghost predicate GoodTimeouts(e: Experiment) {
    && e.providerTimeout.Some? && e.harnessTimeout.Some?
    && e.providerTimeout.value > 0.0 && e.harnessTimeout.value >= e.providerTimeout.value + 30.0
  }

  /** The two arms can be told apart, keep to settings of their own with values that fit, and differ in the flag. */
  ghost predicate GoodArms(a: Arm, b: Arm, text: Text, checks: Checks) {
    && Paired(a, b, text)
    && text.absolute(a.sessionLogPath) && text.absolute(b.sessionLogPath)
    && ValuesFit(a.env, text, checks) && ValuesFit(b.env, text, checks)
    && a.changedFilesEnabled != b.changedFilesEnabled
  }

  /** What a setting amounts to for an arm: its own value, the shared one, or the marker for neither. */
  function Effective(e: Experiment, arm: Arm, key: string): string {
    if key in arm.env then arm.env[key] else if key in e.sharedEnv then e.sharedEnv[key] else MISSING
  }

  ghost predicate GoodHarness(e: Experiment, text: Text) {
    && e.repeat >= 1
    && (forall i :: 0 <= i < |e.probes| ==> Strip(e.probes[i], text) != "")
    && (e.maxTokens.Some? ==> e.maxTokens.value > 0)
  }

  /** The comparison is not switched off, and no setting amounts to two different things. */
  ghost predicate GoodComparison(e: Experiment, text: Text)
    requires |e.arms| == 2
  {
    && (COMPARISON in e.sharedEnv ==>
          text.lower(Strip(e.sharedEnv[COMPARISON], text)) !in {"false", "f", "no", "n", "off", "0"})
    && (forall key: string :: Effective(e, e.arms[0], key) == Effective(e, e.arms[1], key))
  }

  ghost predicate Acceptable(e: Experiment, text: Text, checks: Checks) {
    && GoodShape(e, text)
    && GoodShared(e.sharedEnv, text, checks)
    && GoodTimeouts(e)
    && GoodArms(e.arms[0], e.arms[1], text, checks)
    && GoodComparison(e, text)
    && checks.models(e.sharedEnv) == []
    && GoodHarness(e, text)
  }

  // Credentials.

  lemma LongerEnding(u: string, suffix: string, shorter: string)
    requires EndsWith(u, suffix) && EndsWith(suffix, shorter)
    ensures EndsWith(u, shorter)
  {
    assert u == u[..|u| - |suffix|] + suffix;
    assert u == u[..|u| - |suffix|] + suffix[..|suffix| - |shorter|] + shorter;
  }

  lemma NamedSecretsEnd()
    ensures EndsWith("OPENAI_API_KEY", "_API_KEY") && EndsWith("VLLM_API_KEY", "_API_KEY")
    ensures EndsWith("_ACCESS_TOKEN", "_TOKEN")
  {
  }

  /** A setting is a credential exactly when its name, in capitals, ends in one of three ways: the two names and the
      longer ending that are listed besides are covered by them. */
  lemma SecretIff(key: string, text: Text)
    ensures var u := Upper(key, text);
            IsSecretKey(key, text) <==> EndsWith(u, "_API_KEY") || EndsWith(u, "_TOKEN") || EndsWith(u, "_SECRET")
  {
    hide EndsWith, Upper;
    var u := Upper(key, text);
    NamedSecretsEnd();
    if EndsWith(u, "_ACCESS_TOKEN") { LongerEnding(u, "_ACCESS_TOKEN", "_TOKEN"); }
    assert forall suffix :: suffix in SECRET_SUFFIXES <==>
             suffix == "_API_KEY" || suffix == "_ACCESS_TOKEN" || suffix == "_TOKEN" || suffix == "_SECRET";
  }

  /** In a name of plain characters exactly the small letters change. */
  lemma {:induction false} UpperIs(s: string, text: Text)
    requires forall i :: 0 <= i < |s| ==> s[i] as int < 128
    ensures |Upper(s, text)| == |s|
    ensures forall i :: 0 <= i < |s| ==>
              Upper(s, text)[i] as int == if 97 <= s[i] as int <= 122 then s[i] as int - 32 else s[i] as int
  {
    if s != "" { UpperIs(s[..|s| - 1], text); }
  }

  // Part by part.

  lemma PathIsNoSwitch()
    ensures "APP_REPOSITORY_PATH" !in BOOL_KEYS && "APP_REPOSITORY_PATH" !in LITERAL_BOOL_KEYS
  {
  }

  lemma SwitchesAre(key: string)
    ensures key in BOOL_KEYS <==> IsSwitch(key)
  {
  }

  lemma ValueFitsIff(key: string, value: string, text: Text, checks: Checks)
    ensures ValueProblems(key, value, text, checks) == [] <==> ValueFits(key, value, text, checks)
  {
    PathIsNoSwitch();
    SwitchesAre(key);
    hide BOOL_KEYS, IsSwitch;
  }

  lemma {:induction false} NothingForKeysIff(keys: seq<string>, check: string -> seq<Problem>)
    ensures ForKeys(keys, check) == [] <==> forall key :: key in keys ==> check(key) == []
  {
    if ForKeys(keys, check) == [] {
      forall key | key in keys ensures check(key) == [] { NoneForKeys(keys, check, key); }
    }
    if forall key :: key in keys ==> check(key) == [] { AllForKeys(keys, check); }
  }

  lemma ShapeIff(e: Experiment, text: Text)
    ensures ShapeProblems(e, text) == [] <==> GoodShape(e, text)
  {
  }

  lemma RequiredIff(shared: map<string, string>, text: Text)
    ensures ForKeys(REQUIRED_SHARED, RequiredCheck(shared, text)) == [] <==> RequiredGiven(shared, text)
  {
    NothingForKeysIff(REQUIRED_SHARED, RequiredCheck(shared, text));
    forall key
      ensures RequiredCheck(shared, text)(key) == [] <==>
              key in shared && (Strip(shared[key], text) != "" || key == "APP_REPOSITORY_CONTEXT_INTENT_BUDGETS")
    {
    }
  }

  lemma CredentialsIff(shared: map<string, string>, text: Text)
    ensures ForKeys(SortedSet(shared.Keys), CredentialCheck(text)) == [] <==> NoCredentials(shared, text)
  {
    hide IsSecretKey;
    NothingForKeysIff(SortedSet(shared.Keys), CredentialCheck(text));
    forall key ensures CredentialCheck(text)(key) == [] <==> !IsSecretKey(key, text) {}
  }

  lemma SharedValuesIff(shared: map<string, string>, text: Text, checks: Checks)
    requires NoCredentials(shared, text)
    ensures ForKeys(SortedSet(shared.Keys), SharedValueCheck(shared, text, checks)) == []
            <==> ValuesFit(shared, text, checks)
  {
    hide IsSecretKey, ValueFits;
    NothingForKeysIff(SortedSet(shared.Keys), SharedValueCheck(shared, text, checks));
    forall key | key in shared
      ensures SharedValueCheck(shared, text, checks)(key) == [] <==> ValueFits(key, shared[key], text, checks)
    {
      ValueFitsIff(key, shared[key], text, checks);
    }
  }

  lemma SharedIsFourParts(shared: map<string, string>, text: Text, checks: Checks)
    ensures SharedSettingProblems(shared, text, checks) == [] <==>
            && ForKeys(REQUIRED_SHARED, RequiredCheck(shared, text)) == [] && REQUEST_TIMEOUT !in shared
            && ForKeys(SortedSet(shared.Keys), SharedValueCheck(shared, text, checks)) == []
            && ForKeys(SortedSet(shared.Keys), CredentialCheck(text)) == []
  {
    hide ForKeys;
    var required, values := ForKeys(REQUIRED_SHARED, RequiredCheck(shared, text)),
                            ForKeys(SortedSet(shared.Keys), SharedValueCheck(shared, text, checks));
    var timeout := if REQUEST_TIMEOUT in shared then [TimeoutInShared] else [];
    var credentials := ForKeys(SortedSet(shared.Keys), CredentialCheck(text));
    if SharedSettingProblems(shared, text, checks) == [] { NothingInFour(required, timeout, values, credentials); }
  }

  lemma SharedIff(shared: map<string, string>, text: Text, checks: Checks)
    ensures SharedSettingProblems(shared, text, checks) == [] <==> GoodShared(shared, text, checks)
  {
    hide SharedSettingProblems, RequiredGiven, NoCredentials, ValuesFit, ForKeys;
    RequiredIff(shared, text);
    CredentialsIff(shared, text);
    if NoCredentials(shared, text) { SharedValuesIff(shared, text, checks); }
    SharedIsFourParts(shared, text, checks);
  }

  lemma TimeoutsIff(e: Experiment)
    ensures TimeoutProblems(e) == [] <==> GoodTimeouts(e)
  {
  }

  lemma ArmKeyIff(who: Label, arm: Arm, text: Text, checks: Checks, key: string)
    requires key in arm.env
    ensures ArmKeyCheck(who, arm, text, checks)(key) == [] <==>
            && key != REQUEST_TIMEOUT && key !in ALLOWED && key !in REQUIRED_SHARED && !IsSecretKey(key, text)
            && ValueFits(key, arm.env[key], text, checks)
  {
    hide ValueFits, ValueProblems, IsSecretKey;
    ValueFitsIff(key, arm.env[key], text, checks);
  }

  lemma ArmEnvIff(who: Label, arm: Arm, text: Text, checks: Checks)
    ensures ArmEnvProblems(who, arm, text, checks) == [] <==>
            OwnSettingsOnly(arm, text) && ValuesFit(arm.env, text, checks)
  {
    hide ValueFits, IsSecretKey;
    NothingForKeysIff(SortedSet(arm.env.Keys), ArmKeyCheck(who, arm, text, checks));
    forall key | key in arm.env
      ensures ArmKeyCheck(who, arm, text, checks)(key) == [] <==>
              && key != REQUEST_TIMEOUT && key !in ALLOWED && key !in REQUIRED_SHARED && !IsSecretKey(key, text)
              && ValueFits(key, arm.env[key], text, checks)
    {
      ArmKeyIff(who, arm, text, checks, key);
    }
  }

  ghost predicate Unused(arm: Arm, position: nat, seen: Seen, text: Text) {
    && IdProblems(arm, position, seen.ids, text) == []
    && PortProblems(LabelOf(arm, position, text), arm.port, seen.ports) == []
    && SessionLogProblems(LabelOf(arm, position, text), arm.sessionLogPath, seen.logs, text) == []
  }

  lemma OneArmIff(arm: Arm, position: nat, seen: Seen, text: Text, checks: Checks)
    ensures OneArm(arm, position, seen, text, checks) == [] <==>
            Unused(arm, position, seen, text) && OwnSettingsOnly(arm, text) && ValuesFit(arm.env, text, checks)
  {
    hide ValuesFit, OwnSettingsOnly, ArmEnvProblems, IdProblems, PortProblems, SessionLogProblems;
    ArmEnvIff(LabelOf(arm, position, text), arm, text, checks);
    if OneArm(arm, position, seen, text, checks) == [] { OneArmHasNone(arm, position, seen, text, checks); }
  }

  lemma UnusedIff(a: Arm, b: Arm, text: Text)
    ensures var none := Seen(map[], map[], map[]);
            Unused(a, 1, none, text) && Unused(b, 2, SeenAfter(a, 1, none, text), text) <==>
            Apart(a, b, text) && text.absolute(a.sessionLogPath) && text.absolute(b.sessionLogPath)
  {
  }

  lemma TwoArmsIff(a: Arm, b: Arm, text: Text, checks: Checks)
    ensures EachArm([a, b], text, checks) == [] && a.changedFilesEnabled != b.changedFilesEnabled
            <==> GoodArms(a, b, text, checks)
  {
    hide ValuesFit, OwnSettingsOnly, Apart, Unused, OneArm, EachArm, SeenAfter;
    var none := Seen(map[], map[], map[]);
    var seen := SeenAfter(a, 1, none, text);
    PairProblems(a, b, text, checks);
    OneArmIff(a, 1, none, text, checks);
    OneArmIff(b, 2, seen, text, checks);
    UnusedIff(a, b, text);
    if EachArm([a, b], text, checks) == [] {
      NothingInTwo(OneArm(a, 1, none, text, checks), OneArm(b, 2, seen, text, checks));
    }
  }

  lemma ArmsIff(e: Experiment, text: Text, checks: Checks)
    requires |e.arms| == 2
    ensures ArmProblems(e, text, checks) == [] <==> GoodArms(e.arms[0], e.arms[1], text, checks)
  {
    hide GoodArms, EachArm;
    TwoOf(e.arms);
    TwoArmsIff(e.arms[0], e.arms[1], text, checks);
  }

  lemma {:induction false} ProbesIff(probes: seq<string>, text: Text)
    ensures ProbeProblems(probes, text) == [] <==> forall i :: 0 <= i < |probes| ==> Strip(probes[i], text) != ""
  {
    if probes != [] {
      var front := probes[..|probes| - 1];
      ProbesIff(front, text);
      assert forall i :: 0 <= i < |front| ==> front[i] == probes[i];
    }
  }

  lemma HarnessIff(e: Experiment, text: Text)
    ensures HarnessProblems(e, text) == [] <==> GoodHarness(e, text)
  {
    ProbesIff(e.probes, text);
  }

  lemma SymmetryIff(e: Experiment, text: Text)
    requires |e.arms| == 2
    ensures SymmetryProblems(e, text) == [] <==>
            AgreeElsewhere(Environment(e, e.arms[0], text), Environment(e, e.arms[1], text))
  {
    hide AgreeElsewhere, Environment;
    if SymmetryProblems(e, text) == [] { SymmetricArmsAgree(e, text); }
    if AgreeElsewhere(Environment(e, e.arms[0], text), Environment(e, e.arms[1], text)) {
      AgreeingEnvironmentsAreSymmetric(Environments(e, e.arms, text));
    }
  }

  /** Outside the launcher's own keys, an arm that keeps to itself gets what its settings amount to. */
  lemma ValueIsEffective(e: Experiment, arm: Arm, text: Text, key: string)
    requires OwnSettingsOnly(arm, text) && REQUEST_TIMEOUT !in e.sharedEnv && NoCredentials(e.sharedEnv, text)
    requires key !in ALLOWED && key != REQUEST_TIMEOUT
    ensures ValueOr(Environment(e, arm, text), key) == Effective(e, arm, key)
  {
    EnvironmentHas(e, arm, text, key);
  }

  lemma EffectiveAgrees(e: Experiment, text: Text, key: string)
    requires |e.arms| == 2 && OwnSettingsOnly(e.arms[0], text) && OwnSettingsOnly(e.arms[1], text)
    requires REQUEST_TIMEOUT !in e.sharedEnv && NoCredentials(e.sharedEnv, text)
    ensures key !in ALLOWED ==>
              (ValueOr(Environment(e, e.arms[0], text), key) == ValueOr(Environment(e, e.arms[1], text), key)
               <==> Effective(e, e.arms[0], key) == Effective(e, e.arms[1], key))
    ensures key in ALLOWED ==> Effective(e, e.arms[0], key) == Effective(e, e.arms[1], key)
  {
    if key == REQUEST_TIMEOUT {
      EnvironmentHas(e, e.arms[0], text, key);
      EnvironmentHas(e, e.arms[1], text, key);
    } else if key !in ALLOWED {
      ValueIsEffective(e, e.arms[0], text, key);
      ValueIsEffective(e, e.arms[1], text, key);
    }
  }

  lemma AgreementIff(e: Experiment, text: Text)
    requires |e.arms| == 2 && OwnSettingsOnly(e.arms[0], text) && OwnSettingsOnly(e.arms[1], text)
    requires REQUEST_TIMEOUT !in e.sharedEnv && NoCredentials(e.sharedEnv, text)
    ensures AgreeElsewhere(Environment(e, e.arms[0], text), Environment(e, e.arms[1], text)) <==>
            forall key: string :: Effective(e, e.arms[0], key) == Effective(e, e.arms[1], key)
  {
    forall key: string
      ensures key !in ALLOWED ==>
                (ValueOr(Environment(e, e.arms[0], text), key) == ValueOr(Environment(e, e.arms[1], text), key)
                 <==> Effective(e, e.arms[0], key) == Effective(e, e.arms[1], key))
      ensures key in ALLOWED ==> Effective(e, e.arms[0], key) == Effective(e, e.arms[1], key)
    {
      EffectiveAgrees(e, text, key);
    }
  }

  lemma ComparisonIff(e: Experiment, text: Text)
    requires |e.arms| == 2 && OwnSettingsOnly(e.arms[0], text) && OwnSettingsOnly(e.arms[1], text)
    requires REQUEST_TIMEOUT !in e.sharedEnv && NoCredentials(e.sharedEnv, text)
    requires e.arms[0].changedFilesEnabled != e.arms[1].changedFilesEnabled
    ensures ComparisonProblems(e, text) == [] && SymmetryProblems(e, text) == [] <==> GoodComparison(e, text)
  {
    hide Effective, Environment, AgreeElsewhere, SymmetryProblems;
    SymmetryIff(e, text);
    AgreementIff(e, text);
  }

  /** The exact criterion: no configuration problem is found in an experiment if and only if it is acceptable. */
  lemma NoProblemsIff(e: Experiment, text: Text, checks: Checks)
    ensures ConfigProblems(e, text, checks) == [] <==> Acceptable(e, text, checks)
  {
    hide ConfigProblems, ShapeProblems, SharedSettingProblems, TimeoutProblems, ArmProblems, ComparisonProblems;
    hide SymmetryProblems, HarnessProblems, GoodTimeouts, GoodHarness, GoodComparison, ValuesFit, RequiredGiven;
    ShapeIff(e, text);
    SharedIff(e.sharedEnv, text, checks);
    TimeoutsIff(e);
    HarnessIff(e, text);
    if |e.arms| == 2 {
      ArmsIff(e, text, checks);
      if GoodArms(e.arms[0], e.arms[1], text, checks) && GoodShared(e.sharedEnv, text, checks) {
        ComparisonIff(e, text);
      }
    }
    if ConfigProblems(e, text, checks) == [] { PartsHaveNone(e, text, checks); }
    if Acceptable(e, text, checks) { PartsMakeNone(e, text, checks); }
  }
}
