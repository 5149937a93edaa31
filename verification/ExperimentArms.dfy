/** What the two arms of an experiment receive, and the checks made before either is started
    (scripts/ab_launcher.py). */
module ExperimentArms {
  import opened Names
  import opened ExperimentFile
  import opened Options

  const REQUEST_TIMEOUT := "REQUEST_TIMEOUT"
  const SESSION_LOG := "APP_SESSION_LOG_PATH"
  const CHANGED_FILES := "APP_REPOSITORY_CONTEXT_CHANGED_FILES_ENABLED"
  const COMPARISON := "APP_REPOSITORY_CONTEXT_CHANGED_FILES_COMPARISON_ENABLED"
  const ALLOWED := {SESSION_LOG, CHANGED_FILES}

  const REQUIRED_SHARED := [
    "DEFAULT_MODEL", "APP_LOG_LEVEL", "APP_DEFAULT_MODEL", "APP_DEFAULT_PROVIDER", "APP_MODELS_CONFIG",
    "APP_REPOSITORY_PATH", "APP_REPOSITORY_CONTEXT_ENABLED", "APP_REPOSITORY_CONTEXT_MAX_TOKENS",
    "APP_REPOSITORY_CONTEXT_INTENT_BUDGETS", "APP_REPOSITORY_CONTEXT_CHANGED_FILES_TTL_SECONDS", COMPARISON,
    "APP_REPOSITORY_EXCLUDE_TESTS", "APP_REPOSITORY_EXCLUDE_GLOBS", "APP_CONTEXT_DELTA_INJECTION",
    "APP_CONTEXT_DELTA_CACHE_SIZE", "APP_CONTEXT_INTENT_RULES", "RELATIONSHIP_RANKING_ENABLED",
    "RELATIONSHIP_EXPANSION_ENABLED", "APP_SESSION_LOG_ENABLED", "APP_HISTORY_CAP_ENABLED", "APP_HISTORY_CAP_TOKENS"]

  const ALLOW_EMPTY := "APP_REPOSITORY_CONTEXT_INTENT_BUDGETS"
  const ABSOLUTE_PATH := "APP_REPOSITORY_PATH"
  const BOOL_KEYS := {
    "APP_REPOSITORY_CONTEXT_ENABLED", "APP_REPOSITORY_EXCLUDE_TESTS", "APP_CONTEXT_DELTA_INJECTION",
    "APP_SESSION_LOG_ENABLED", "APP_HISTORY_CAP_ENABLED", CHANGED_FILES, COMPARISON}
  const LITERAL_BOOL_KEYS := {"RELATIONSHIP_RANKING_ENABLED", "RELATIONSHIP_EXPANSION_ENABLED"}
  const HARNESS_MARGIN := 30.0
  const MISSING := "\0missing"

  const SECRET_KEYS := {"OPENAI_API_KEY", "VLLM_API_KEY"}
  const SECRET_SUFFIXES := {"_API_KEY", "_ACCESS_TOKEN", "_TOKEN", "_SECRET"}

  function UpperChar(c: char, text: Text): string {
    if 'a' <= c <= 'z' then [(c as int - 32) as char]
    else if c as int < 128 then [c]
    else text.upper(c)
  }

  function Upper(s: string, text: Text): string {
    if s == [] then [] else Upper(s[..|s| - 1], text) + UpperChar(s[|s| - 1], text)
  }

  predicate EndsWith(s: string, suffix: string) {
    |s| >= |suffix| && s[|s| - |suffix|..] == suffix
  }

  predicate IsSecretKey(key: string, text: Text) {
    Upper(key, text) in SECRET_KEYS || exists suffix :: suffix in SECRET_SUFFIXES && EndsWith(Upper(key, text), suffix)
  }

  predicate Plain(c: char) {
    'A' <= c <= 'Z'
  }

  lemma UpperKeepsEnding(key: string, text: Text)
    requires |key| >= 2 && Plain(key[|key| - 2]) && Plain(key[|key| - 1])
    ensures var u := Upper(key, text); |u| >= 2 && u[|u| - 2] == key[|key| - 2] && u[|u| - 1] == key[|key| - 1]
  {
    var front := key[..|key| - 1];
    assert Upper(key, text) == Upper(front, text) + [key[|key| - 1]];
    assert Upper(front, text) == Upper(front[..|front| - 1], text) + [key[|key| - 2]];
  }

  predicate SecretEnding(u: string) {
    |u| >= 2 && u[|u| - 2] == 'E' && (u[|u| - 1] == 'Y' || u[|u| - 1] == 'T' || u[|u| - 1] == 'N')
  }

  lemma SuffixEnding(u: string, suffix: string)
    requires EndsWith(u, suffix) && SecretEnding(suffix)
    ensures SecretEnding(u)
  {
    assert u[|u| - |suffix|..][|suffix| - 1] == u[|u| - 1] && u[|u| - |suffix|..][|suffix| - 2] == u[|u| - 2];
  }

  lemma SecretNamesEnd(name: string)
    requires name in SECRET_KEYS + SECRET_SUFFIXES
    ensures SecretEnding(name)
  {
  }

  /** Every credential name ends in KEY, TOKEN or SECRET, so a key that ends otherwise is not one. */
  lemma EndingIsNotSecret(key: string, text: Text)
    requires |key| >= 2 && Plain(key[|key| - 2]) && Plain(key[|key| - 1]) && !SecretEnding(key)
    ensures !IsSecretKey(key, text)
  {
    UpperKeepsEnding(key, text);
    var u := Upper(key, text);
    if u in SECRET_KEYS { SecretNamesEnd(u); }
    if suffix :| suffix in SECRET_SUFFIXES && EndsWith(u, suffix) {
      SecretNamesEnd(suffix);
      SuffixEnding(u, suffix);
    }
  }

  lemma OwnKeysAreNotSecret(text: Text)
    ensures !IsSecretKey(REQUEST_TIMEOUT, text) && !IsSecretKey(SESSION_LOG, text)
    ensures !IsSecretKey(CHANGED_FILES, text) && !IsSecretKey(COMPARISON, text)
  {
    EndingIsNotSecret(REQUEST_TIMEOUT, text);
    EndingIsNotSecret(SESSION_LOG, text);
    EndingIsNotSecret(CHANGED_FILES, text);
    EndingIsNotSecret(COMPARISON, text);
  }

  // What each arm receives.

  /** Everything the arm is given, credentials still included. */
  function Declared(shared: map<string, string>, provider: Option<real>, arm: Arm, text: Text): map<string, string> {
    (shared + arm.env
     + (match provider case Some(seconds) => map[REQUEST_TIMEOUT := text.number(seconds)] case None => map[]))
    [SESSION_LOG := arm.sessionLogPath][CHANGED_FILES := FormatBool(arm.changedFilesEnabled)]
  }

  function WithoutSecrets(env: map<string, string>, text: Text): map<string, string> {
    map key | key in env && !IsSecretKey(key, text) :: env[key]
  }

  function Environment(e: Experiment, arm: Arm, text: Text): map<string, string> {
    WithoutSecrets(Declared(e.sharedEnv, e.providerTimeout, arm, text), text)
  }

  method ArmEnvironment(e: Experiment, arm: Arm, text: Text) returns (env: map<string, string>)
    ensures env == Environment(e, arm, text)
  {
    env := e.sharedEnv;
    env := env + arm.env;
    if e.providerTimeout.Some? { env := env[REQUEST_TIMEOUT := text.number(e.providerTimeout.value)]; }
    env := env[SESSION_LOG := arm.sessionLogPath];
    env := env[CHANGED_FILES := FormatBool(arm.changedFilesEnabled)];
    assert env == Declared(e.sharedEnv, e.providerTimeout, arm, text);
    env := map key | key in env && !IsSecretKey(key, text) :: env[key];
  }

  function ValueOr(env: map<string, string>, key: string): string {
    if key in env then env[key] else MISSING
  }

  function Environments(e: Experiment, arms: seq<Arm>, text: Text): (r: seq<map<string, string>>)
    ensures |r| == |arms| && forall i :: 0 <= i < |arms| ==> r[i] == Environment(e, arms[i], text)
  {
    if arms == [] then [] else Environments(e, arms[..|arms| - 1], text) + [Environment(e, arms[|arms| - 1], text)]
  }

  function Values(envs: seq<map<string, string>>, key: string): seq<string> {
    if envs == [] then [] else Values(envs[..|envs| - 1], key) + [ValueOr(envs[|envs| - 1], key)]
  }

  function AllKeys(envs: seq<map<string, string>>): (r: set<string>)
    ensures forall key :: key in r <==> exists i :: 0 <= i < |envs| && key in envs[i]
  {
    if envs == [] then {} else AllKeys(envs[..|envs| - 1]) + envs[|envs| - 1].Keys
  }

  /** The values are not all the same. */
  predicate Disagree(values: seq<string>) {
    |values| >= 2 && (values[|values| - 1] != values[0] || Disagree(values[..|values| - 1]))
  }

  /** The keys of a set whose values disagree, each with its value per arm. */
  function DiffOn(envs: seq<map<string, string>>, keys: set<string>): map<string, seq<string>> {
    map key | key in keys && Disagree(Values(envs, key)) :: Values(envs, key)
  }

  lemma TwoValues(envs: seq<map<string, string>>, key: string)
    requires |envs| == 2
    ensures Values(envs, key) == [ValueOr(envs[0], key), ValueOr(envs[1], key)]
    ensures Disagree(Values(envs, key)) <==> ValueOr(envs[0], key) != ValueOr(envs[1], key)
  {
    assert envs[..1][..0] == [] && envs[..1][0] == envs[0];
    assert Values(envs[..1], key) == [ValueOr(envs[0], key)];
    assert Values(envs, key)[..1] == [ValueOr(envs[0], key)];
    assert !Disagree([ValueOr(envs[0], key)]);
  }

  function EnvDiff(envs: seq<map<string, string>>): map<string, seq<string>> {
    DiffOn(envs, AllKeys(envs))
  }

  method CollectEnvironments(e: Experiment, text: Text) returns (envs: seq<map<string, string>>)
    ensures envs == Environments(e, e.arms, text)
  {
    envs := [];
    for i := 0 to |e.arms|
      invariant envs == Environments(e, e.arms[..i], text)
    {
      assert e.arms[..i + 1][..i] == e.arms[..i];
      var env := ArmEnvironment(e, e.arms[i], text);
      envs := envs + [env];
    }
    assert e.arms[..|e.arms|] == e.arms;
  }

  lemma DiffHas(envs: seq<map<string, string>>, keys: set<string>, key: string)
    ensures key in DiffOn(envs, keys) <==> key in keys && Disagree(Values(envs, key))
    ensures key in DiffOn(envs, keys) ==> DiffOn(envs, keys)[key] == Values(envs, key)
  {
  }

  lemma SameMaps(a: map<string, seq<string>>, b: map<string, seq<string>>)
    requires forall key :: key in a <==> key in b
    requires forall key :: key in a ==> a[key] == b[key]
    ensures a == b
  {
  }

  lemma DiffStep(envs: seq<map<string, string>>, before: set<string>, key: string, diff: map<string, seq<string>>)
    requires diff == DiffOn(envs, before)
    ensures var values := Values(envs, key);
            DiffOn(envs, before + {key}) == if Disagree(values) then diff[key := values] else diff
  {
    var values, more := Values(envs, key), DiffOn(envs, before + {key});
    var expected := if Disagree(values) then diff[key := values] else diff;
    forall k ensures (k in more <==> k in expected) && (k in more ==> more[k] == expected[k]) {
      DiffHas(envs, before, k);
      DiffHas(envs, before + {key}, k);
    }
    SameMaps(more, expected);
  }

  function SetOf(keys: seq<string>): set<string> {
    set key | key in keys
  }

  lemma SetOfMore(keys: seq<string>, i: nat)
    requires i < |keys|
    ensures SetOf(keys[..i + 1]) == SetOf(keys[..i]) + {keys[i]}
  {
    assert keys[..i + 1] == keys[..i] + [keys[i]];
  }

  /** The loop over the sorted keys, collecting the ones whose values disagree. */
  method CompareKeys(envs: seq<map<string, string>>, keys: seq<string>) returns (diff: map<string, seq<string>>)
    ensures diff == DiffOn(envs, SetOf(keys))
  {
    diff := map[];
    for i := 0 to |keys|
      invariant diff == DiffOn(envs, SetOf(keys[..i]))
    {
      DiffStep(envs, SetOf(keys[..i]), keys[i], diff);
      SetOfMore(keys, i);
      var values := Values(envs, keys[i]);
      if Disagree(values) { diff := diff[keys[i] := values]; }
    }
    assert keys[..|keys|] == keys;
  }

  method ArmEnvDiff(e: Experiment, text: Text) returns (diff: map<string, seq<string>>)
    ensures diff == EnvDiff(Environments(e, e.arms, text))
  {
    var envs := CollectEnvironments(e, text);
    diff := CompareKeys(envs, SortedSet(AllKeys(envs)));
    assert SetOf(SortedSet(AllKeys(envs))) == AllKeys(envs);
  }

  // The checks.

  /** An arm's name in a problem: its id, or its position. */
  datatype Label = Named(armId: string) | Position(position: nat)

  datatype Problem =
    | NoName | NoWorktree | NotTwoArms(count: nat)
    | MissingShared(key: string) | EmptyShared(key: string) | TimeoutInShared | CredentialInShared(key: string)
    | NotAbsolute(key: string) | NotABoolean(key: string) | NotALiteral(key: string)
    | NotJson(key: string) | NotJsonObject(key: string)
    | NotAnInteger(key: string) | NotPositive(key: string) | IsNegative(key: string)
    | NoBudget | BadBudget(item: string) | BadBudgetTokens(item: string)
    | ModelsNotAnArray | NoModels | EntryNotAnObject(index: nat) | EntryLacks(index: nat, key: string)
    | EntryUrl(index: nat) | EntryTimeout(index: nat) | EntryCredential(index: nat)
    | EntryCount(index: nat, key: string)
    | NoProviderTimeout | BadProviderTimeout | NoHarnessTimeout | BadHarnessTimeout | HarnessTooShort
    | ArmUnnamed(position: nat) | ArmNamedTwice(armId: string)
    | BadPort(arm: Label) | PortUsedTwice(owner: Label, arm: Label)
    | NoSessionLog(arm: Label) | RelativeSessionLog(arm: Label) | SessionLogShared(owner: Label, arm: Label)
    | CredentialInArm(arm: Label, key: string) | TimeoutInArm(arm: Label) | FieldInArm(arm: Label, key: string)
    | SharedOverridden(arm: Label, key: string)
    | SameFlag | ComparisonOff | UnexpectedDifference(key: string) | UnknownModel
    | BadRepeat | BadProbe(index: nat) | BadMaxTokens

  /** The checks of a value's own grammar: JSON, integers, budgets and the model registry. */
  datatype Checks = Checks(value: (string, string) -> seq<Problem>, models: map<string, string> -> seq<Problem>)

  predicate Blank(s: string, text: Text) {
    Strip(s, text) == ""
  }

  function ShapeProblems(e: Experiment, text: Text): seq<Problem> {
    (if Blank(e.name, text) then [NoName] else [])
    + (if Blank(e.worktree, text) then [NoWorktree] else [])
    + (if |e.arms| != 2 then [NotTwoArms(|e.arms|)] else [])
  }

  function ValueProblems(key: string, value: string, text: Text, checks: Checks): seq<Problem> {
    if Blank(value, text) then []
    else if key == ABSOLUTE_PATH && !text.absolute(value) then [NotAbsolute(key)]
    else if key in BOOL_KEYS && text.lower(Strip(value, text)) !in TRUE_VALUES + FALSE_VALUES then [NotABoolean(key)]
    else if key in LITERAL_BOOL_KEYS && Strip(value, text) !in {"true", "false"} then [NotALiteral(key)]
    else checks.value(key, value)
  }

  /** One check made for every key of a list, in order. */
  function ForKeys(keys: seq<string>, check: string -> seq<Problem>): seq<Problem> {
    if keys == [] then [] else ForKeys(keys[..|keys| - 1], check) + check(keys[|keys| - 1])
  }

  lemma {:induction false} NoneForKeys(keys: seq<string>, check: string -> seq<Problem>, key: string)
    requires ForKeys(keys, check) == [] && key in keys
    ensures check(key) == []
  {
    if key != keys[|keys| - 1] {
      assert key in keys[..|keys| - 1];
      NoneForKeys(keys[..|keys| - 1], check, key);
    }
  }

  function RequiredCheck(shared: map<string, string>, text: Text): string -> seq<Problem> {
    key =>
      if key !in shared then [MissingShared(key)]
      else if Blank(shared[key], text) && key != ALLOW_EMPTY then [EmptyShared(key)]
      else []
  }

  function SharedValueCheck(shared: map<string, string>, text: Text, checks: Checks): string -> seq<Problem> {
    key => if key !in shared || IsSecretKey(key, text) then [] else ValueProblems(key, shared[key], text, checks)
  }

  function CredentialCheck(text: Text): string -> seq<Problem> {
    key => if IsSecretKey(key, text) then [CredentialInShared(key)] else []
  }

  function SharedSettingProblems(shared: map<string, string>, text: Text, checks: Checks): seq<Problem> {
    ForKeys(REQUIRED_SHARED, RequiredCheck(shared, text))
    + (if REQUEST_TIMEOUT in shared then [TimeoutInShared] else [])
    + ForKeys(SortedSet(shared.Keys), SharedValueCheck(shared, text, checks))
    + ForKeys(SortedSet(shared.Keys), CredentialCheck(text))
  }

  function TimeoutProblems(e: Experiment): seq<Problem> {
    (match e.providerTimeout
     case None => [NoProviderTimeout]
     case Some(provider) => if provider <= 0.0 then [BadProviderTimeout] else [])
    + (match e.harnessTimeout
       case None => [NoHarnessTimeout]
       case Some(harness) =>
         if harness <= 0.0 then [BadHarnessTimeout]
         else if e.providerTimeout.Some? && e.providerTimeout.value > 0.0
           && harness < e.providerTimeout.value + HARNESS_MARGIN
         then [HarnessTooShort]
         else [])
  }

  /** Who was seen with each arm id, port and session log so far. */
  datatype Seen = Seen(ids: map<string, Label>, ports: map<int, Label>, logs: map<string, Label>)

  function LabelOf(arm: Arm, position: nat, text: Text): Label {
    if Blank(arm.armId, text) then Position(position) else Named(Strip(arm.armId, text))
  }

  function IdProblems(arm: Arm, position: nat, ids: map<string, Label>, text: Text): seq<Problem> {
    if Blank(arm.armId, text) then [ArmUnnamed(position)]
    else if arm.armId in ids then [ArmNamedTwice(arm.armId)]
    else []
  }

  function PortProblems(who: Label, port: int, ports: map<int, Label>): seq<Problem> {
    if !(1 <= port <= 65535) then [BadPort(who)] else if port in ports then [PortUsedTwice(ports[port], who)] else []
  }

  function SessionLogProblems(who: Label, path: string, logs: map<string, Label>, text: Text): seq<Problem> {
    if Blank(path, text) then [NoSessionLog(who)]
    else if !text.absolute(path) then [RelativeSessionLog(who)]
    else if text.normal(path) in logs then [SessionLogShared(logs[text.normal(path)], who)]
    else []
  }

  function ArmKeyCheck(who: Label, arm: Arm, text: Text, checks: Checks): string -> seq<Problem> {
    key =>
      if IsSecretKey(key, text) then [CredentialInArm(who, key)]
      else if key == REQUEST_TIMEOUT then [TimeoutInArm(who)]
      else if key in ALLOWED then [FieldInArm(who, key)]
      else if key in REQUIRED_SHARED then [SharedOverridden(who, key)]
      else if key in arm.env then ValueProblems(key, arm.env[key], text, checks)
      else []
  }

  function ArmEnvProblems(who: Label, arm: Arm, text: Text, checks: Checks): seq<Problem> {
    ForKeys(SortedSet(arm.env.Keys), ArmKeyCheck(who, arm, text, checks))
  }

  function OneArm(arm: Arm, position: nat, seen: Seen, text: Text, checks: Checks): seq<Problem> {
    var who := LabelOf(arm, position, text);
    IdProblems(arm, position, seen.ids, text) + PortProblems(who, arm.port, seen.ports)
    + SessionLogProblems(who, arm.sessionLogPath, seen.logs, text) + ArmEnvProblems(who, arm, text, checks)
  }

  /** What was seen after an arm: only a value that was accepted is remembered. */
  function SeenAfter(arm: Arm, position: nat, seen: Seen, text: Text): Seen {
    var who := LabelOf(arm, position, text);
    Seen(if IdProblems(arm, position, seen.ids, text) == [] then seen.ids[arm.armId := who] else seen.ids,
         if PortProblems(who, arm.port, seen.ports) == [] then seen.ports[arm.port := who] else seen.ports,
         if SessionLogProblems(who, arm.sessionLogPath, seen.logs, text) == []
         then seen.logs[text.normal(arm.sessionLogPath) := who] else seen.logs)
  }

  function SeenIn(arms: seq<Arm>, text: Text): Seen {
    if arms == [] then Seen(map[], map[], map[])
    else SeenAfter(arms[|arms| - 1], |arms|, SeenIn(arms[..|arms| - 1], text), text)
  }

  function EachArm(arms: seq<Arm>, text: Text, checks: Checks): seq<Problem> {
    if arms == [] then []
    else
      EachArm(arms[..|arms| - 1], text, checks)
      + OneArm(arms[|arms| - 1], |arms|, SeenIn(arms[..|arms| - 1], text), text, checks)
  }

  lemma OneMoreArmChecked(arms: seq<Arm>, arm: Arm, text: Text, checks: Checks)
    ensures EachArm(arms + [arm], text, checks)
            == EachArm(arms, text, checks) + OneArm(arm, |arms| + 1, SeenIn(arms, text), text, checks)
    ensures SeenIn(arms + [arm], text) == SeenAfter(arm, |arms| + 1, SeenIn(arms, text), text)
  {
    assert (arms + [arm])[..|arms|] == arms;
  }

  lemma PrefixStep<T>(s: seq<T>, i: nat)
    requires i < |s|
    ensures s[..i + 1] == s[..i] + [s[i]]
  {
  }

  function ArmProblems(e: Experiment, text: Text, checks: Checks): seq<Problem> {
    EachArm(e.arms, text, checks)
    + (if |e.arms| == 2 && e.arms[0].changedFilesEnabled == e.arms[1].changedFilesEnabled then [SameFlag] else [])
  }

  /** The loop over the arms, with the ids, ports and session logs already taken. */
  method CollectArmProblems(e: Experiment, text: Text, checks: Checks) returns (problems: seq<Problem>)
    ensures problems == ArmProblems(e, text, checks)
  {
    problems := [];
    var ids: map<string, Label>, ports: map<int, Label>, logs: map<string, Label> := map[], map[], map[];
    for i := 0 to |e.arms|
      invariant Seen(ids, ports, logs) == SeenIn(e.arms[..i], text)
      invariant problems == EachArm(e.arms[..i], text, checks)
    {
      var arm := e.arms[i];
      PrefixStep(e.arms, i);
      OneMoreArmChecked(e.arms[..i], arm, text, checks);
      ghost var before := Seen(ids, ports, logs);
      var who := LabelOf(arm, i + 1, text);
      var id := IdProblems(arm, i + 1, ids, text);
      var port := PortProblems(who, arm.port, ports);
      var log := SessionLogProblems(who, arm.sessionLogPath, logs, text);
      if id == [] { ids := ids[arm.armId := who]; }
      if port == [] { ports := ports[arm.port := who]; }
      if log == [] { logs := logs[text.normal(arm.sessionLogPath) := who]; }
      assert Seen(ids, ports, logs) == SeenAfter(arm, i + 1, before, text);
      problems := problems + (id + port + log + ArmEnvProblems(who, arm, text, checks));
    }
    assert e.arms[..|e.arms|] == e.arms;
    if |e.arms| == 2 && e.arms[0].changedFilesEnabled == e.arms[1].changedFilesEnabled {
      problems := problems + [SameFlag];
    }
  }

  function ComparisonProblems(e: Experiment, text: Text): seq<Problem> {
    if |e.arms| != 2 || e.arms[0].changedFilesEnabled == e.arms[1].changedFilesEnabled || COMPARISON !in e.sharedEnv
       || text.lower(Strip(e.sharedEnv[COMPARISON], text)) !in FALSE_VALUES
    then []
    else [ComparisonOff]
  }

  function DifferenceCheck(): string -> seq<Problem> {
    key => if key in ALLOWED then [] else [UnexpectedDifference(key)]
  }

  function SymmetryProblems(e: Experiment, text: Text): seq<Problem> {
    ForKeys(SortedSet(EnvDiff(Environments(e, e.arms, text)).Keys), DifferenceCheck())
  }

  function ProbeProblems(probes: seq<string>, text: Text): seq<Problem> {
    if probes == [] then []
    else
      ProbeProblems(probes[..|probes| - 1], text)
      + (if Blank(probes[|probes| - 1], text) then [BadProbe(|probes| - 1)] else [])
  }

  function HarnessProblems(e: Experiment, text: Text): seq<Problem> {
    (if e.repeat < 1 then [BadRepeat] else []) + ProbeProblems(e.probes, text)
    + (if e.maxTokens.Some? && e.maxTokens.value <= 0 then [BadMaxTokens] else [])
  }

  function ConfigProblems(e: Experiment, text: Text, checks: Checks): seq<Problem> {
    ShapeProblems(e, text) + SharedSettingProblems(e.sharedEnv, text, checks) + TimeoutProblems(e)
      + ArmProblems(e, text, checks)
    + ComparisonProblems(e, text) + SymmetryProblems(e, text) + checks.models(e.sharedEnv) + HarnessProblems(e, text)
  }

  lemma NothingInFour<T>(a: seq<T>, b: seq<T>, c: seq<T>, d: seq<T>)
    requires a + b + c + d == []
    ensures a == [] && b == [] && c == [] && d == []
  {
    assert |a + b + c + d| == |a| + |b| + |c| + |d|;
  }

  lemma NothingInTwo<T>(a: seq<T>, b: seq<T>)
    requires a + b == []
    ensures a == [] && b == []
  {
    assert |a + b| == |a| + |b|;
  }

  // What an experiment without problems guarantees.

  lemma PartsHaveNone(e: Experiment, text: Text, checks: Checks)
    requires ConfigProblems(e, text, checks) == []
    ensures ShapeProblems(e, text) == [] && SharedSettingProblems(e.sharedEnv, text, checks) == []
            && TimeoutProblems(e) == []
    ensures ArmProblems(e, text, checks) == [] && ComparisonProblems(e, text) == [] && SymmetryProblems(e, text) == []
    ensures checks.models(e.sharedEnv) == [] && HarnessProblems(e, text) == []
  {
    var shape, shared := ShapeProblems(e, text), SharedSettingProblems(e.sharedEnv, text, checks);
    var timeouts, arms := TimeoutProblems(e), ArmProblems(e, text, checks);
    var comparison, symmetry := ComparisonProblems(e, text), SymmetryProblems(e, text);
    NothingInFour(shape + shared + timeouts + arms + comparison, symmetry, checks.models(e.sharedEnv),
                  HarnessProblems(e, text));
    NothingInTwo(shape + shared + timeouts + arms, comparison);
    NothingInFour(shape, shared, timeouts, arms);
  }

  lemma RequiredIsShared(shared: map<string, string>, text: Text, key: string)
    requires ForKeys(REQUIRED_SHARED, RequiredCheck(shared, text)) == [] && key in REQUIRED_SHARED
    ensures key in shared && (!Blank(shared[key], text) || key == ALLOW_EMPTY)
  {
    NoneForKeys(REQUIRED_SHARED, RequiredCheck(shared, text), key);
  }

  lemma SharedValueIsGood(shared: map<string, string>, text: Text, checks: Checks, key: string)
    requires ForKeys(SortedSet(shared.Keys), SharedValueCheck(shared, text, checks)) == []
    requires key in shared && !IsSecretKey(key, text)
    ensures ValueProblems(key, shared[key], text, checks) == []
  {
    NoneForKeys(SortedSet(shared.Keys), SharedValueCheck(shared, text, checks), key);
  }

  lemma BooleanReads(key: string, value: string, text: Text, checks: Checks)
    requires ValueProblems(key, value, text, checks) == [] && !Blank(value, text) && key in BOOL_KEYS
             && key != ABSOLUTE_PATH
    ensures text.lower(Strip(value, text)) in TRUE_VALUES + FALSE_VALUES
  {
  }

  lemma ComparisonKey()
    ensures COMPARISON in REQUIRED_SHARED && COMPARISON in BOOL_KEYS && COMPARISON !in {ALLOW_EMPTY, ABSOLUTE_PATH}
  {
    assert REQUIRED_SHARED[10] == COMPARISON;
  }

  lemma ComparisonIsShared(shared: map<string, string>, text: Text, checks: Checks)
    requires SharedSettingProblems(shared, text, checks) == []
    ensures COMPARISON in shared && text.lower(Strip(shared[COMPARISON], text)) in TRUE_VALUES + FALSE_VALUES
  {
    ComparisonKey();
    OwnKeysAreNotSecret(text);
    RequiredIsShared(shared, text, COMPARISON);
    SharedValueIsGood(shared, text, checks, COMPARISON);
    BooleanReads(COMPARISON, shared[COMPARISON], text, checks);
  }

  /** An arm's own settings leave the launcher's keys and the shared block alone. */
  ghost predicate OwnSettingsOnly(arm: Arm, text: Text) {
    forall key :: key in arm.env ==>
      key != REQUEST_TIMEOUT && key !in ALLOWED && key !in REQUIRED_SHARED && !IsSecretKey(key, text)
  }

  lemma ArmKeepsToItself(who: Label, arm: Arm, text: Text, checks: Checks)
    requires ArmEnvProblems(who, arm, text, checks) == []
    ensures OwnSettingsOnly(arm, text)
  {
    forall key | key in arm.env
      ensures key != REQUEST_TIMEOUT && key !in ALLOWED && key !in REQUIRED_SHARED && !IsSecretKey(key, text)
    {
      NoneForKeys(SortedSet(arm.env.Keys), ArmKeyCheck(who, arm, text, checks), key);
    }
  }

  predicate Apart(a: Arm, b: Arm, text: Text) {
    && !Blank(a.armId, text) && !Blank(b.armId, text) && a.armId != b.armId
    && 1 <= a.port <= 65535 && 1 <= b.port <= 65535 && a.port != b.port
    && !Blank(a.sessionLogPath, text) && !Blank(b.sessionLogPath, text)
    && text.normal(a.sessionLogPath) != text.normal(b.sessionLogPath)
  }

  /** The two arms can both be started, and what they write is told apart. */
  ghost predicate Paired(a: Arm, b: Arm, text: Text) {
    Apart(a, b, text) && OwnSettingsOnly(a, text) && OwnSettingsOnly(b, text)
  }

  lemma Appended<T>(a: T, b: T)
    ensures [] + [a] == [a] && [a] + [b] == [a, b]
  {
  }

  lemma NothingBefore<T>(s: seq<T>)
    ensures [] + s == s
  {
  }

  lemma PairProblems(a: Arm, b: Arm, text: Text, checks: Checks)
    ensures var none := Seen(map[], map[], map[]);
            EachArm([a, b], text, checks)
              == OneArm(a, 1, none, text, checks) + OneArm(b, 2, SeenAfter(a, 1, none, text), text, checks)
  {
    OneMoreArmChecked([], a, text, checks);
    OneMoreArmChecked([a], b, text, checks);
    Appended(a, b);
    NothingBefore(OneArm(a, 1, Seen(map[], map[], map[]), text, checks));
  }

  lemma OneArmHasNone(arm: Arm, position: nat, seen: Seen, text: Text, checks: Checks)
    requires OneArm(arm, position, seen, text, checks) == []
    ensures IdProblems(arm, position, seen.ids, text) == []
    ensures PortProblems(LabelOf(arm, position, text), arm.port, seen.ports) == []
    ensures SessionLogProblems(LabelOf(arm, position, text), arm.sessionLogPath, seen.logs, text) == []
    ensures ArmEnvProblems(LabelOf(arm, position, text), arm, text, checks) == [] && OwnSettingsOnly(arm, text)
  {
    var who := LabelOf(arm, position, text);
    NothingInFour(IdProblems(arm, position, seen.ids, text), PortProblems(who, arm.port, seen.ports),
                  SessionLogProblems(who, arm.sessionLogPath, seen.logs, text), ArmEnvProblems(who, arm, text, checks));
    ArmKeepsToItself(who, arm, text, checks);
  }

  lemma OneArmFromParts(arm: Arm, position: nat, seen: Seen, text: Text, checks: Checks)
    requires IdProblems(arm, position, seen.ids, text) == []
    requires PortProblems(LabelOf(arm, position, text), arm.port, seen.ports) == []
    requires SessionLogProblems(LabelOf(arm, position, text), arm.sessionLogPath, seen.logs, text) == []
    requires ArmEnvProblems(LabelOf(arm, position, text), arm, text, checks) == []
    ensures OneArm(arm, position, seen, text, checks) == []
  {
  }

  /** What the first arm takes away from the second. */
  lemma SecondIsApart(a: Arm, b: Arm, text: Text)
    requires var none := Seen(map[], map[], map[]); var who := LabelOf(a, 1, text);
             && IdProblems(a, 1, none.ids, text) == [] && PortProblems(who, a.port, none.ports) == []
             && SessionLogProblems(who, a.sessionLogPath, none.logs, text) == []
    requires var seen := SeenAfter(a, 1, Seen(map[], map[], map[]), text); var who := LabelOf(b, 2, text);
             && IdProblems(b, 2, seen.ids, text) == [] && PortProblems(who, b.port, seen.ports) == []
             && SessionLogProblems(who, b.sessionLogPath, seen.logs, text) == []
    ensures Apart(a, b, text)
  {
  }

  lemma TwoArmsArePaired(a: Arm, b: Arm, text: Text, checks: Checks)
    requires EachArm([a, b], text, checks) == []
    ensures Paired(a, b, text)
  {
    var none := Seen(map[], map[], map[]);
    PairProblems(a, b, text, checks);
    NothingInTwo(OneArm(a, 1, none, text, checks), OneArm(b, 2, SeenAfter(a, 1, none, text), text, checks));
    OneArmHasNone(a, 1, none, text, checks);
    OneArmHasNone(b, 2, SeenAfter(a, 1, none, text), text, checks);
    SecondIsApart(a, b, text);
  }

  /** The launcher's own keys in an arm's environment. */
  lemma OwnKeysInEnvironment(e: Experiment, arm: Arm, text: Text)
    requires e.providerTimeout.Some? && OwnSettingsOnly(arm, text)
    ensures var env := Environment(e, arm, text);
            && REQUEST_TIMEOUT in env && env[REQUEST_TIMEOUT] == text.number(e.providerTimeout.value)
            && SESSION_LOG in env && env[SESSION_LOG] == arm.sessionLogPath
            && CHANGED_FILES in env && env[CHANGED_FILES] == FormatBool(arm.changedFilesEnabled)
            && (COMPARISON in e.sharedEnv ==> COMPARISON in env && env[COMPARISON] == e.sharedEnv[COMPARISON])
  {
    OwnKeysAreNotSecret(text);
    assert REQUIRED_SHARED[10] == COMPARISON;
  }

  /** A key is in the environment if it is the launcher's own, shared, or the arm's, and no credential. The
      launcher's own values come first, then the arm's, then the shared ones. */
  lemma EnvironmentHas(e: Experiment, arm: Arm, text: Text, key: string)
    ensures key in Environment(e, arm, text) <==>
            && !IsSecretKey(key, text)
            && (key in e.sharedEnv || key in arm.env || key in ALLOWED
               || (key == REQUEST_TIMEOUT && e.providerTimeout.Some?))
    ensures key in Environment(e, arm, text) ==>
              Environment(e, arm, text)[key] ==
              if key == CHANGED_FILES then FormatBool(arm.changedFilesEnabled)
              else if key == SESSION_LOG then arm.sessionLogPath
              else if key == REQUEST_TIMEOUT && e.providerTimeout.Some? then text.number(e.providerTimeout.value)
              else if key in arm.env then arm.env[key]
              else e.sharedEnv[key]
  {
  }

  lemma DifferencesAreAllowed(envs: seq<map<string, string>>, key: string)
    requires |envs| == 2 && ForKeys(SortedSet(EnvDiff(envs).Keys), DifferenceCheck()) == []
    ensures key !in ALLOWED ==> ValueOr(envs[0], key) == ValueOr(envs[1], key)
  {
    if ValueOr(envs[0], key) != ValueOr(envs[1], key) {
      assert key in envs[0] || key in envs[1];
      TwoValues(envs, key);
      assert key in EnvDiff(envs);
      NoneForKeys(SortedSet(EnvDiff(envs).Keys), DifferenceCheck(), key);
    }
  }

  predicate Differs(a: map<string, string>, b: map<string, string>, key: string) {
    (key in a) != (key in b) || (key in a && key in b && a[key] != b[key])
  }

  /** A setting of one arm whose value is the marker the comparison uses for a setting it lacks. */
  predicate Hides(one: Arm, other: Arm, shared: map<string, string>, key: string) {
    key in one.env && one.env[key] == MISSING && key !in other.env && key !in shared
  }

  lemma HiddenIff(e: Experiment, one: Arm, other: Arm, text: Text, key: string)
    requires OwnSettingsOnly(one, text) && OwnSettingsOnly(other, text) && key !in ALLOWED
    requires ValueOr(Environment(e, one, text), key) == ValueOr(Environment(e, other, text), key)
    ensures Differs(Environment(e, one, text), Environment(e, other, text), key)
            <==> Hides(one, other, e.sharedEnv, key) || Hides(other, one, e.sharedEnv, key)
  {
    EnvironmentHas(e, one, text, key);
    EnvironmentHas(e, other, text, key);
  }

  predicate HiddenAt(e: Experiment, key: string)
    requires |e.arms| == 2
  {
    Hides(e.arms[0], e.arms[1], e.sharedEnv, key) || Hides(e.arms[1], e.arms[0], e.sharedEnv, key)
  }

  ghost predicate NothingHidden(e: Experiment)
    requires |e.arms| == 2
  {
    forall key: string :: !HiddenAt(e, key)
  }

  ghost predicate DifferExactly(a: map<string, string>, b: map<string, string>) {
    forall key: string :: Differs(a, b, key) <==> key in ALLOWED
  }

  ghost predicate AgreeElsewhere(a: map<string, string>, b: map<string, string>) {
    forall key: string :: key !in ALLOWED ==> ValueOr(a, key) == ValueOr(b, key)
  }

  /** What the checks establish together, about the two arms. */
  ghost predicate Comparable(e: Experiment, text: Text) {
    && |e.arms| == 2 && Paired(e.arms[0], e.arms[1], text)
    && e.arms[0].changedFilesEnabled != e.arms[1].changedFilesEnabled
    && e.providerTimeout.Some? && e.harnessTimeout.Some? && e.providerTimeout.value > 0.0
    && e.harnessTimeout.value >= e.providerTimeout.value + HARNESS_MARGIN
    && COMPARISON in e.sharedEnv && text.lower(Strip(e.sharedEnv[COMPARISON], text)) in TRUE_VALUES
    && AgreeElsewhere(Environment(e, e.arms[0], text), Environment(e, e.arms[1], text))
  }

  lemma TwoOf(arms: seq<Arm>)
    requires |arms| == 2
    ensures arms == [arms[0], arms[1]]
  {
  }

  lemma SymmetricArmsAgree(e: Experiment, text: Text)
    requires |e.arms| == 2 && SymmetryProblems(e, text) == []
    ensures AgreeElsewhere(Environment(e, e.arms[0], text), Environment(e, e.arms[1], text))
  {
    forall key: string | key !in ALLOWED
      ensures ValueOr(Environment(e, e.arms[0], text), key) == ValueOr(Environment(e, e.arms[1], text), key)
    {
      DifferencesAreAllowed(Environments(e, e.arms, text), key);
    }
  }

  lemma TimeoutsAreOrdered(e: Experiment)
    requires TimeoutProblems(e) == []
    ensures e.providerTimeout.Some? && e.harnessTimeout.Some? && e.providerTimeout.value > 0.0
    ensures e.harnessTimeout.value >= e.providerTimeout.value + HARNESS_MARGIN
  {
  }

  lemma ArmsArePaired(e: Experiment, text: Text, checks: Checks)
    requires |e.arms| == 2 && ArmProblems(e, text, checks) == []
    ensures Paired(e.arms[0], e.arms[1], text) && e.arms[0].changedFilesEnabled != e.arms[1].changedFilesEnabled
  {
    TwoOf(e.arms);
    TwoArmsArePaired(e.arms[0], e.arms[1], text, checks);
  }

  lemma ComparisonIsOn(e: Experiment, text: Text, checks: Checks)
    requires |e.arms| == 2 && e.arms[0].changedFilesEnabled != e.arms[1].changedFilesEnabled
    requires SharedSettingProblems(e.sharedEnv, text, checks) == [] && ComparisonProblems(e, text) == []
    ensures COMPARISON in e.sharedEnv && text.lower(Strip(e.sharedEnv[COMPARISON], text)) in TRUE_VALUES
  {
    ComparisonIsShared(e.sharedEnv, text, checks);
  }

  /** The shape, shared, timeout, arm, comparison and symmetry checks together. */
  lemma SoundIsComparable(e: Experiment, text: Text, checks: Checks)
    requires ConfigProblems(e, text, checks) == []
    ensures Comparable(e, text)
  {
    PartsHaveNone(e, text, checks);
    TimeoutsAreOrdered(e);
    ArmsArePaired(e, text, checks);
    ComparisonIsOn(e, text, checks);
    SymmetricArmsAgree(e, text);
  }

  /** Comparable arms agree on the provider timeout and on a comparison setting that reads as true. */
  lemma ComparableEnvironments(e: Experiment, text: Text)
    requires Comparable(e, text)
    ensures var a, b := Environment(e, e.arms[0], text), Environment(e, e.arms[1], text);
            && REQUEST_TIMEOUT in a && REQUEST_TIMEOUT in b
               && a[REQUEST_TIMEOUT] == b[REQUEST_TIMEOUT] == text.number(e.providerTimeout.value)
            && COMPARISON in a && COMPARISON in b && a[COMPARISON] == b[COMPARISON]
            && text.lower(Strip(a[COMPARISON], text)) in TRUE_VALUES
            && SESSION_LOG in a && SESSION_LOG in b && a[SESSION_LOG] != b[SESSION_LOG]
            && CHANGED_FILES in a && CHANGED_FILES in b && a[CHANGED_FILES] != b[CHANGED_FILES]
  {
    OwnKeysInEnvironment(e, e.arms[0], text);
    OwnKeysInEnvironment(e, e.arms[1], text);
  }

  lemma KeyDiffersIff(e: Experiment, text: Text, key: string)
    requires Comparable(e, text)
    ensures Differs(Environment(e, e.arms[0], text), Environment(e, e.arms[1], text), key)
            <==> key in ALLOWED || HiddenAt(e, key)
    ensures key in ALLOWED ==> !HiddenAt(e, key)
  {
    ComparableEnvironments(e, text);
    if key !in ALLOWED { HiddenIff(e, e.arms[0], e.arms[1], text, key); }
  }

  /** Comparable arms differ in exactly the two allowed keys, unless a setting only one of them has
      holds the marker for a missing one. */
  lemma ComparableDifferExactlyIff(e: Experiment, text: Text)
    requires Comparable(e, text)
    ensures DifferExactly(Environment(e, e.arms[0], text), Environment(e, e.arms[1], text)) <==> NothingHidden(e)
  {
    var a, b := Environment(e, e.arms[0], text), Environment(e, e.arms[1], text);
    forall key: string
      ensures Differs(a, b, key) <==> key in ALLOWED || HiddenAt(e, key)
      ensures key in ALLOWED ==> !HiddenAt(e, key)
    {
      KeyDiffersIff(e, text, key);
    }
  }

  /** The experiment with one more setting in its first arm, whose value is the marker. */
  function WithMarker(e: Experiment, key: string): Experiment
    requires |e.arms| == 2
  {
    e.(arms := [e.arms[0].(env := e.arms[0].env[key := MISSING]), e.arms[1]])
  }

  ghost predicate FreshSetting(e: Experiment, key: string, text: Text, checks: Checks)
    requires |e.arms| == 2
  {
    && key !in e.sharedEnv && key !in e.arms[0].env && key !in e.arms[1].env
    && key != REQUEST_TIMEOUT && key !in ALLOWED && key !in REQUIRED_SHARED && !IsSecretKey(key, text)
    && ValueProblems(key, MISSING, text, checks) == []
  }

  lemma {:induction false} AllForKeys(keys: seq<string>, check: string -> seq<Problem>)
    requires forall i :: 0 <= i < |keys| ==> check(keys[i]) == []
    ensures ForKeys(keys, check) == []
  {
    if keys != [] {
      var front := keys[..|keys| - 1];
      assert forall i :: 0 <= i < |front| ==> front[i] == keys[i];
      AllForKeys(front, check);
    }
  }

  lemma MarkerIsAcceptedInArm(who: Label, arm: Arm, key: string, text: Text, checks: Checks)
    requires ArmEnvProblems(who, arm, text, checks) == []
    requires key != REQUEST_TIMEOUT && key !in ALLOWED && key !in REQUIRED_SHARED && !IsSecretKey(key, text)
    requires ValueProblems(key, MISSING, text, checks) == []
    ensures ArmEnvProblems(who, arm.(env := arm.env[key := MISSING]), text, checks) == []
  {
    var more := arm.(env := arm.env[key := MISSING]);
    var keys := SortedSet(more.env.Keys);
    forall i | 0 <= i < |keys| ensures ArmKeyCheck(who, more, text, checks)(keys[i]) == [] {
      assert keys[i] in keys;
      if keys[i] != key { NoneForKeys(SortedSet(arm.env.Keys), ArmKeyCheck(who, arm, text, checks), keys[i]); }
    }
    AllForKeys(keys, ArmKeyCheck(who, more, text, checks));
  }

  lemma SeenIgnoresSettings(arm: Arm, env: map<string, string>, seen: Seen, text: Text)
    ensures SeenAfter(arm.(env := env), 1, seen, text) == SeenAfter(arm, 1, seen, text)
    ensures LabelOf(arm.(env := env), 1, text) == LabelOf(arm, 1, text)
    ensures IdProblems(arm.(env := env), 1, seen.ids, text) == IdProblems(arm, 1, seen.ids, text)
  {
  }

  lemma MarkerIsAcceptedInOne(arm: Arm, seen: Seen, key: string, text: Text, checks: Checks)
    requires OneArm(arm, 1, seen, text, checks) == []
    requires key != REQUEST_TIMEOUT && key !in ALLOWED && key !in REQUIRED_SHARED && !IsSecretKey(key, text)
    requires ValueProblems(key, MISSING, text, checks) == []
    ensures OneArm(arm.(env := arm.env[key := MISSING]), 1, seen, text, checks) == []
  {
    OneArmHasNone(arm, 1, seen, text, checks);
    MarkerIsAcceptedInArm(LabelOf(arm, 1, text), arm, key, text, checks);
    SeenIgnoresSettings(arm, arm.env[key := MISSING], seen, text);
    OneArmFromParts(arm.(env := arm.env[key := MISSING]), 1, seen, text, checks);
  }

  lemma MarkerIsAcceptedInArms(a: Arm, b: Arm, key: string, text: Text, checks: Checks)
    requires EachArm([a, b], text, checks) == []
    requires key != REQUEST_TIMEOUT && key !in ALLOWED && key !in REQUIRED_SHARED && !IsSecretKey(key, text)
    requires ValueProblems(key, MISSING, text, checks) == []
    ensures EachArm([a.(env := a.env[key := MISSING]), b], text, checks) == []
  {
    PairProblems(a, b, text, checks);
    PairProblems(a.(env := a.env[key := MISSING]), b, text, checks);
    MarkerIsAcceptedInOne(a, Seen(map[], map[], map[]), key, text, checks);
    SeenIgnoresSettings(a, a.env[key := MISSING], Seen(map[], map[], map[]), text);
  }

  lemma DeclaredWithMarker(shared: map<string, string>, provider: Option<real>, arm: Arm, key: string, text: Text)
    requires key != REQUEST_TIMEOUT && key !in ALLOWED
    ensures Declared(shared, provider, arm.(env := arm.env[key := MISSING]), text)
            == Declared(shared, provider, arm, text)[key := MISSING]
  {
  }

  lemma KeptWithMarker(env: map<string, string>, key: string, text: Text)
    requires !IsSecretKey(key, text)
    ensures WithoutSecrets(env[key := MISSING], text) == WithoutSecrets(env, text)[key := MISSING]
  {
  }

  lemma MarkerEnvironments(e: Experiment, key: string, text: Text, checks: Checks)
    requires |e.arms| == 2 && FreshSetting(e, key, text, checks)
    ensures var m := WithMarker(e, key);
            && Environment(m, m.arms[0], text) == Environment(e, e.arms[0], text)[key := MISSING]
            && Environment(m, m.arms[1], text) == Environment(e, e.arms[1], text)
            && key !in Environment(e, e.arms[0], text) && key !in Environment(e, e.arms[1], text)
  {
    DeclaredWithMarker(e.sharedEnv, e.providerTimeout, e.arms[0], key, text);
    KeptWithMarker(Declared(e.sharedEnv, e.providerTimeout, e.arms[0], text), key, text);
    EnvironmentHas(e, e.arms[0], text, key);
    EnvironmentHas(e, e.arms[1], text, key);
  }

  lemma OnlyAllowedDisagree(envs: seq<map<string, string>>, key: string)
    requires |envs| == 2 && AgreeElsewhere(envs[0], envs[1]) && key in EnvDiff(envs)
    ensures key in ALLOWED
  {
    TwoValues(envs, key);
  }

  lemma AgreeingEnvironmentsAreSymmetric(envs: seq<map<string, string>>)
    requires |envs| == 2 && AgreeElsewhere(envs[0], envs[1])
    ensures ForKeys(SortedSet(EnvDiff(envs).Keys), DifferenceCheck()) == []
  {
    var keys := SortedSet(EnvDiff(envs).Keys);
    forall i | 0 <= i < |keys| ensures DifferenceCheck()(keys[i]) == [] {
      assert keys[i] in keys;
      OnlyAllowedDisagree(envs, keys[i]);
    }
    AllForKeys(keys, DifferenceCheck());
  }

  lemma MarkerAgrees(a: map<string, string>, b: map<string, string>, key: string)
    requires AgreeElsewhere(a, b) && key !in a && key !in b
    ensures AgreeElsewhere(a[key := MISSING], b)
  {
  }

  lemma MarkerIsSymmetric(e: Experiment, key: string, text: Text, checks: Checks)
    requires |e.arms| == 2 && FreshSetting(e, key, text, checks) && SymmetryProblems(e, text) == []
    ensures SymmetryProblems(WithMarker(e, key), text) == []
  {
    SymmetricArmsAgree(e, text);
    MarkerEnvironments(e, key, text, checks);
    MarkerAgrees(Environment(e, e.arms[0], text), Environment(e, e.arms[1], text), key);
    AgreeingEnvironmentsAreSymmetric(Environments(WithMarker(e, key), WithMarker(e, key).arms, text));
  }

  lemma MarkerKeepsTheRest(e: Experiment, key: string, text: Text)
    requires |e.arms| == 2
    ensures var m := WithMarker(e, key);
            && ShapeProblems(m, text) == ShapeProblems(e, text) && TimeoutProblems(m) == TimeoutProblems(e)
            && ComparisonProblems(m, text) == ComparisonProblems(e, text)
               && HarnessProblems(m, text) == HarnessProblems(e, text)
            && m.sharedEnv == e.sharedEnv
  {
  }

  lemma MarkerKeepsArms(e: Experiment, key: string, text: Text, checks: Checks)
    requires |e.arms| == 2 && FreshSetting(e, key, text, checks) && ArmProblems(e, text, checks) == []
    ensures ArmProblems(WithMarker(e, key), text, checks) == []
  {
    TwoOf(e.arms);
    MarkerIsAcceptedInArms(e.arms[0], e.arms[1], key, text, checks);
  }

  lemma PartsMakeNone(e: Experiment, text: Text, checks: Checks)
    requires ShapeProblems(e, text) == [] && SharedSettingProblems(e.sharedEnv, text, checks) == []
             && TimeoutProblems(e) == []
    requires ArmProblems(e, text, checks) == [] && ComparisonProblems(e, text) == [] && SymmetryProblems(e, text) == []
    requires checks.models(e.sharedEnv) == [] && HarnessProblems(e, text) == []
    ensures ConfigProblems(e, text, checks) == []
  {
  }

  lemma MarkerIsSound(e: Experiment, key: string, text: Text, checks: Checks)
    requires ConfigProblems(e, text, checks) == [] && |e.arms| == 2 && FreshSetting(e, key, text, checks)
    ensures ConfigProblems(WithMarker(e, key), text, checks) == []
  {
    PartsHaveNone(e, text, checks);
    MarkerKeepsTheRest(e, key, text);
    MarkerKeepsArms(e, key, text, checks);
    MarkerIsSymmetric(e, key, text, checks);
    PartsMakeNone(WithMarker(e, key), text, checks);
  }

  /** The exception is real: any sound experiment stays sound with such a setting, although its arms
      then differ in a third key. */
  lemma MarkerGoesUnnoticed(e: Experiment, key: string, text: Text, checks: Checks)
    requires ConfigProblems(e, text, checks) == [] && |e.arms| == 2 && FreshSetting(e, key, text, checks)
    ensures var m := WithMarker(e, key);
            && ConfigProblems(m, text, checks) == []
            && Differs(Environment(m, m.arms[0], text), Environment(m, m.arms[1], text), key) && key !in ALLOWED
  {
    MarkerIsSound(e, key, text, checks);
    MarkerEnvironments(e, key, text, checks);
  }

  lemma {:induction false} ProbesAreNotEmpty(probes: seq<string>, text: Text)
    requires ProbeProblems(probes, text) == []
    ensures "" !in probes
  {
    if probes != [] { ProbesAreNotEmpty(probes[..|probes| - 1], text); }
  }

  lemma SoundIsWritable(e: Experiment, text: Text)
    requires |e.arms| == 2 && Paired(e.arms[0], e.arms[1], text)
    requires ShapeProblems(e, text) == [] && ProbeProblems(e.probes, text) == []
    ensures Writable(e)
  {
    ProbesAreNotEmpty(e.probes, text);
  }

  /** An experiment without problems survives being written to a file and read back. */
  lemma SoundExperimentRoundTrips(e: Experiment, text: Text, checks: Checks)
    requires ConfigProblems(e, text, checks) == []
    ensures ExperimentFromDict(ExperimentToDict(e), text) == Ok(e)
  {
    PartsHaveNone(e, text, checks);
    SoundIsComparable(e, text, checks);
    SoundIsWritable(e, text);
    RoundTripIff(e, text);
  }
}
