/** Exactly which configuration problems the launcher of scripts/ab_launcher.py reports. */
module ExperimentReport {
  import opened Names
  import opened ExperimentFile
  import opened ExperimentArms
  import opened Options

  ghost predicate ShapeReports(p: Problem, e: Experiment, text: Text) {
    match p
    case NoName => Strip(e.name, text) == ""
    case NoWorktree => Strip(e.worktree, text) == ""
    case NotTwoArms(count) => count == |e.arms| && count != 2
    case _ => false
  }

  /** A value that is not blank is checked for what its key demands, or else for its own grammar. */
  ghost predicate ValueReports(p: Problem, key: string, value: string, text: Text, checks: Checks) {
    var path := key == "APP_REPOSITORY_PATH" && !text.absolute(value);
    var switch := key in BOOL_KEYS
      && text.lower(Strip(value, text)) !in {"true", "t", "yes", "y", "on", "1", "false", "f", "no", "n", "off", "0"};
    var literal := key in LITERAL_BOOL_KEYS && Strip(value, text) !in {"true", "false"};
    Strip(value, text) != "" &&
    (|| (path && p == NotAbsolute(key)) || (switch && p == NotABoolean(key)) || (literal && p == NotALiteral(key))
     || (!path && !switch && !literal && p in checks.value(key, value)))
  }

  ghost predicate RequiredReports(p: Problem, shared: map<string, string>, text: Text) {
    match p
    case MissingShared(key) => key in REQUIRED_SHARED && key !in shared
    case EmptyShared(key) =>
      && key in REQUIRED_SHARED && key in shared && Strip(shared[key], text) == ""
      && key != "APP_REPOSITORY_CONTEXT_INTENT_BUDGETS"
    case _ => false
  }

  ghost predicate SharedReports(p: Problem, shared: map<string, string>, text: Text, checks: Checks) {
    || RequiredReports(p, shared, text)
    || (p == TimeoutInShared && REQUEST_TIMEOUT in shared)
    || (p.CredentialInShared? && p.key in shared && IsSecretKey(p.key, text))
    || (exists key :: key in shared && !IsSecretKey(key, text) && ValueReports(p, key, shared[key], text, checks))
  }

  ghost predicate TimeoutReports(p: Problem, e: Experiment) {
    match p
    case NoProviderTimeout => e.providerTimeout == None
    case BadProviderTimeout => e.providerTimeout.Some? && e.providerTimeout.value <= 0.0
    case NoHarnessTimeout => e.harnessTimeout == None
    case BadHarnessTimeout => e.harnessTimeout.Some? && e.harnessTimeout.value <= 0.0
    case HarnessTooShort =>
      && e.providerTimeout.Some? && e.harnessTimeout.Some?
      && e.providerTimeout.value > 0.0 && 0.0 < e.harnessTimeout.value < e.providerTimeout.value + 30.0
    case _ => false
  }

  /** A problem names an arm by its id, or by its place when it has none. */
  ghost predicate Calls(who: Label, arms: seq<Arm>, i: nat, text: Text)
    requires i < |arms|
  {
    match who
    case Named(armId) => armId == Strip(arms[i].armId, text) && armId != ""
    case Position(position) => position == i + 1 && Strip(arms[i].armId, text) == ""
  }

  ghost predicate FirstWithPort(arms: seq<Arm>, j: nat, port: int) {
    j < |arms| && arms[j].port == port && forall k :: 0 <= k < j ==> arms[k].port != port
  }

  ghost predicate LogsTo(arm: Arm, path: string, text: Text) {
    && Strip(arm.sessionLogPath, text) != "" && text.absolute(arm.sessionLogPath)
    && text.normal(arm.sessionLogPath) == path
  }

  ghost predicate FirstWithLog(arms: seq<Arm>, j: nat, path: string, text: Text) {
    j < |arms| && LogsTo(arms[j], path, text) && forall k :: 0 <= k < j ==> !LogsTo(arms[k], path, text)
  }

  ghost predicate IdReports(p: Problem, arms: seq<Arm>, i: nat, text: Text)
    requires i < |arms|
  {
    match p
    case ArmUnnamed(position) => position == i + 1 && Strip(arms[i].armId, text) == ""
    case ArmNamedTwice(armId) =>
      armId == arms[i].armId && Strip(armId, text) != "" && exists j :: 0 <= j < i && arms[j].armId == armId
    case _ => false
  }

  /** The port is out of range, or an earlier arm has it: the first that does is its owner. */
  ghost predicate PortReports(p: Problem, arms: seq<Arm>, i: nat, text: Text)
    requires i < |arms|
  {
    match p
    case BadPort(who) => Calls(who, arms, i, text) && !(1 <= arms[i].port <= 65535)
    case PortUsedTwice(owner, who) =>
      && Calls(who, arms, i, text) && 1 <= arms[i].port <= 65535
      && exists j: nat :: FirstWithPort(arms, j, arms[i].port) && j < i && Calls(owner, arms, j, text)
    case _ => false
  }

  ghost predicate LogReports(p: Problem, arms: seq<Arm>, i: nat, text: Text)
    requires i < |arms|
  {
    var path := arms[i].sessionLogPath;
    match p
    case NoSessionLog(who) => Calls(who, arms, i, text) && Strip(path, text) == ""
    case RelativeSessionLog(who) => Calls(who, arms, i, text) && Strip(path, text) != "" && !text.absolute(path)
    case SessionLogShared(owner, who) =>
      && Calls(who, arms, i, text) && Strip(path, text) != "" && text.absolute(path)
      && exists j: nat :: FirstWithLog(arms, j, text.normal(path), text) && j < i && Calls(owner, arms, j, text)
    case _ => false
  }

  /** The arm has a setting it must not have. */
  ghost predicate ForeignReports(p: Problem, arms: seq<Arm>, i: nat, text: Text)
    requires i < |arms|
  {
    var env := arms[i].env;
    match p
    case CredentialInArm(who, key) => Calls(who, arms, i, text) && key in env && IsSecretKey(key, text)
    case TimeoutInArm(who) => Calls(who, arms, i, text) && REQUEST_TIMEOUT in env
    case FieldInArm(who, key) => Calls(who, arms, i, text) && key in env && key in ALLOWED
    case SharedOverridden(who, key) =>
      Calls(who, arms, i, text) && key in env && key in REQUIRED_SHARED && !IsSecretKey(key, text)
    case _ => false
  }

  /** A setting the arm must not have, or one of its own with a value that does not fit. */
  ghost predicate EnvReports(p: Problem, arms: seq<Arm>, i: nat, text: Text, checks: Checks)
    requires i < |arms|
  {
    || ForeignReports(p, arms, i, text)
    || exists key :: && key in arms[i].env
                     && key != REQUEST_TIMEOUT && key !in ALLOWED && key !in REQUIRED_SHARED && !IsSecretKey(key, text)
                     && ValueReports(p, key, arms[i].env[key], text, checks)
  }

  /** Arm `i` gives rise to the problem. */
  ghost predicate ArmReports(p: Problem, arms: seq<Arm>, i: nat, text: Text, checks: Checks)
    requires i < |arms|
  {
    || IdReports(p, arms, i, text) || PortReports(p, arms, i, text) || LogReports(p, arms, i, text)
    || EnvReports(p, arms, i, text, checks)
  }

  ghost predicate ComparisonReports(p: Problem, e: Experiment, text: Text) {
    match p
    case SameFlag => |e.arms| == 2 && e.arms[0].changedFilesEnabled == e.arms[1].changedFilesEnabled
    case ComparisonOff =>
      && |e.arms| == 2 && e.arms[0].changedFilesEnabled != e.arms[1].changedFilesEnabled && COMPARISON in e.sharedEnv
      && text.lower(Strip(e.sharedEnv[COMPARISON], text)) in {"false", "f", "no", "n", "off", "0"}
    case UnexpectedDifference(key) =>
      && key !in ALLOWED
      && exists i, j :: 0 <= i < |e.arms| && 0 <= j < |e.arms|
                        && ValueOr(Environment(e, e.arms[i], text), key)
                           != ValueOr(Environment(e, e.arms[j], text), key)
    case _ => false
  }

  ghost predicate HarnessReports(p: Problem, e: Experiment, text: Text) {
    match p
    case BadRepeat => e.repeat < 1
    case BadProbe(index) => index < |e.probes| && Strip(e.probes[index], text) == ""
    case BadMaxTokens => e.maxTokens.Some? && e.maxTokens.value <= 0
    case _ => false
  }

  /** The experiment gives rise to the problem. */
  ghost predicate Reported(p: Problem, e: Experiment, text: Text, checks: Checks) {
    || ShapeReports(p, e, text) || SharedReports(p, e.sharedEnv, text, checks) || TimeoutReports(p, e)
    || (exists i: nat :: i < |e.arms| && ArmReports(p, e.arms, i, text, checks))
    || ComparisonReports(p, e, text) || p in checks.models(e.sharedEnv) || HarnessReports(p, e, text)
  }

  // Lists of problems.

  lemma {:induction false} InForKeys(keys: seq<string>, check: string -> seq<Problem>, p: Problem)
    ensures p in ForKeys(keys, check) <==> exists key :: key in keys && p in check(key)
  {
    if keys != [] {
      var front, last := keys[..|keys| - 1], keys[|keys| - 1];
      InForKeys(front, check, p);
      assert keys == front + [last];
      if key :| key in keys && p in check(key) { assert key in front || key == last; }
    }
  }

  lemma ShapeIff(p: Problem, e: Experiment, text: Text)
    ensures p in ShapeProblems(e, text) <==> ShapeReports(p, e, text)
  {
  }

  lemma PathIsNoSwitch()
    ensures "APP_REPOSITORY_PATH" !in BOOL_KEYS && "APP_REPOSITORY_PATH" !in LITERAL_BOOL_KEYS
    ensures BOOL_KEYS * LITERAL_BOOL_KEYS == {}
  {
  }

  lemma ValueIff(p: Problem, key: string, value: string, text: Text, checks: Checks)
    ensures p in ValueProblems(key, value, text, checks) <==> ValueReports(p, key, value, text, checks)
  {
    PathIsNoSwitch();
    assert key in BOOL_KEYS && key in LITERAL_BOOL_KEYS ==> key in BOOL_KEYS * LITERAL_BOOL_KEYS;
  }

  // Shared settings.

  lemma RequiredIff(p: Problem, shared: map<string, string>, text: Text)
    ensures p in ForKeys(REQUIRED_SHARED, RequiredCheck(shared, text)) <==> RequiredReports(p, shared, text)
  {
    InForKeys(REQUIRED_SHARED, RequiredCheck(shared, text), p);
  }

  lemma CredentialIff(p: Problem, shared: map<string, string>, text: Text)
    ensures p in ForKeys(SortedSet(shared.Keys), CredentialCheck(text)) <==>
            p.CredentialInShared? && p.key in shared && IsSecretKey(p.key, text)
  {
    hide IsSecretKey;
    InForKeys(SortedSet(shared.Keys), CredentialCheck(text), p);
  }

  lemma SharedValueIff(p: Problem, shared: map<string, string>, text: Text, checks: Checks)
    ensures p in ForKeys(SortedSet(shared.Keys), SharedValueCheck(shared, text, checks)) <==>
            exists key :: key in shared && !IsSecretKey(key, text) && ValueReports(p, key, shared[key], text, checks)
  {
    hide IsSecretKey, ValueReports, ValueProblems;
    InForKeys(SortedSet(shared.Keys), SharedValueCheck(shared, text, checks), p);
    forall key | key in shared
      ensures p in ValueProblems(key, shared[key], text, checks) <==> ValueReports(p, key, shared[key], text, checks)
    {
      ValueIff(p, key, shared[key], text, checks);
    }
  }

  lemma SharedIff(p: Problem, shared: map<string, string>, text: Text, checks: Checks)
    ensures p in SharedSettingProblems(shared, text, checks) <==> SharedReports(p, shared, text, checks)
  {
    hide ForKeys, RequiredReports, IsSecretKey, ValueReports;
    RequiredIff(p, shared, text);
    CredentialIff(p, shared, text);
    SharedValueIff(p, shared, text, checks);
  }

  lemma TimeoutIff(p: Problem, e: Experiment)
    ensures p in TimeoutProblems(e) <==> TimeoutReports(p, e)
  {
  }

  // Arms.

  lemma CallsIff(who: Label, arms: seq<Arm>, i: nat, text: Text)
    requires i < |arms|
    ensures who == LabelOf(arms[i], i + 1, text) <==> Calls(who, arms, i, text)
  {
  }

  /** The table of ids holds those of the first `n` arms. */
  ghost predicate TakenIds(arms: seq<Arm>, n: nat, ids: map<string, Label>, text: Text)
    requires n <= |arms|
  {
    forall id :: id in ids <==> Strip(id, text) != "" && exists j :: 0 <= j < n && arms[j].armId == id
  }

  /** The table of ports holds those of the first `n` arms, under the name of the first that has each. */
  ghost predicate TakenPorts(arms: seq<Arm>, n: nat, ports: map<int, Label>, text: Text)
    requires n <= |arms|
  {
    && (forall port :: port in ports <==> 1 <= port <= 65535 && exists j: nat :: j < n && FirstWithPort(arms, j, port))
    && (forall port, j: nat :: port in ports && j < n && FirstWithPort(arms, j, port) ==>
          Calls(ports[port], arms, j, text))
  }

  ghost predicate TakenLogs(arms: seq<Arm>, n: nat, logs: map<string, Label>, text: Text)
    requires n <= |arms|
  {
    && (forall path :: path in logs <==> exists j: nat :: j < n && FirstWithLog(arms, j, path, text))
    && (forall path, j: nat :: path in logs && j < n && FirstWithLog(arms, j, path, text) ==>
          Calls(logs[path], arms, j, text))
  }

  lemma OnlyOneName(a: Label, b: Label, arms: seq<Arm>, i: nat, text: Text)
    requires i < |arms| && Calls(a, arms, i, text) && Calls(b, arms, i, text)
    ensures a == b
  {
  }

  lemma IdIff(p: Problem, arms: seq<Arm>, n: nat, ids: map<string, Label>, text: Text)
    requires n < |arms| && TakenIds(arms, n, ids, text)
    ensures p in IdProblems(arms[n], n + 1, ids, text) <==> IdReports(p, arms, n, text)
  {
    hide Strip;
  }

  lemma IdsStep(arms: seq<Arm>, n: nat, ids: map<string, Label>, who: Label, text: Text)
    requires n < |arms| && TakenIds(arms, n, ids, text)
    ensures TakenIds(arms, n + 1,
                     if IdProblems(arms[n], n + 1, ids, text) == [] then ids[arms[n].armId := who] else ids, text)
  {
    hide Strip;
  }

  lemma {:induction false} SomeFirstPort(arms: seq<Arm>, i: nat) returns (j: nat)
    requires i < |arms|
    ensures j <= i && FirstWithPort(arms, j, arms[i].port)
  {
    j := i;
    if k :| 0 <= k < i && arms[k].port == arms[i].port { j := SomeFirstPort(arms, k); }
  }

  lemma OnlyFirstPort(arms: seq<Arm>, i: nat, j: nat, port: int)
    requires FirstWithPort(arms, i, port) && FirstWithPort(arms, j, port)
    ensures i == j
  {
  }

  lemma PortIff(p: Problem, arms: seq<Arm>, n: nat, who: Label, ports: map<int, Label>, text: Text)
    requires n < |arms| && Calls(who, arms, n, text) && TakenPorts(arms, n, ports, text)
    ensures p in PortProblems(who, arms[n].port, ports) <==> PortReports(p, arms, n, text)
  {
    var port := arms[n].port;
    if p in PortProblems(who, port, ports) && p.PortUsedTwice? {
      var j: nat :| j < n && FirstWithPort(arms, j, port);
      assert Calls(p.owner, arms, j, text);
    }
    if PortReports(p, arms, n, text) {
      OnlyOneName(p.arm, who, arms, n, text);
      if p.PortUsedTwice? {
        var j: nat :| FirstWithPort(arms, j, port) && j < n && Calls(p.owner, arms, j, text);
        OnlyOneName(p.owner, ports[port], arms, j, text);
      }
    }
  }

  lemma PortsStep(arms: seq<Arm>, n: nat, who: Label, ports: map<int, Label>, text: Text)
    requires n < |arms| && Calls(who, arms, n, text) && TakenPorts(arms, n, ports, text)
    ensures TakenPorts(arms, n + 1,
                       if PortProblems(who, arms[n].port, ports) == [] then ports[arms[n].port := who] else ports, text)
  {
    hide Calls;
    var port := arms[n].port;
    var j := SomeFirstPort(arms, n);
    forall k: nat | FirstWithPort(arms, k, port) ensures k == j { OnlyFirstPort(arms, k, j, port); }
  }

  lemma {:induction false} SomeFirstLog(arms: seq<Arm>, i: nat, path: string, text: Text) returns (j: nat)
    requires i < |arms| && LogsTo(arms[i], path, text)
    ensures j <= i && FirstWithLog(arms, j, path, text)
  {
    j := i;
    if k :| 0 <= k < i && LogsTo(arms[k], path, text) { j := SomeFirstLog(arms, k, path, text); }
  }

  lemma OnlyFirstLog(arms: seq<Arm>, i: nat, j: nat, path: string, text: Text)
    requires FirstWithLog(arms, i, path, text) && FirstWithLog(arms, j, path, text)
    ensures i == j
  {
  }

  lemma LogIff(p: Problem, arms: seq<Arm>, n: nat, who: Label, logs: map<string, Label>, text: Text)
    requires n < |arms| && Calls(who, arms, n, text) && TakenLogs(arms, n, logs, text)
    ensures p in SessionLogProblems(who, arms[n].sessionLogPath, logs, text) <==> LogReports(p, arms, n, text)
  {
    hide Strip, Calls, FirstWithLog;
    var path := text.normal(arms[n].sessionLogPath);
    if p in SessionLogProblems(who, arms[n].sessionLogPath, logs, text) && p.SessionLogShared? {
      var j: nat :| j < n && FirstWithLog(arms, j, path, text);
      assert Calls(p.owner, arms, j, text);
    }
    if LogReports(p, arms, n, text) {
      OnlyOneName(p.arm, who, arms, n, text);
      if p.SessionLogShared? {
        var j: nat :| FirstWithLog(arms, j, path, text) && j < n && Calls(p.owner, arms, j, text);
        OnlyOneName(p.owner, logs[path], arms, j, text);
      }
    }
  }

  lemma LogsStep(arms: seq<Arm>, n: nat, who: Label, logs: map<string, Label>, text: Text)
    requires n < |arms| && Calls(who, arms, n, text) && TakenLogs(arms, n, logs, text)
    ensures var log := arms[n].sessionLogPath;
            TakenLogs(arms, n + 1,
                      if SessionLogProblems(who, log, logs, text) == []
                      then logs[text.normal(log) := who] else logs, text)
  {
    hide Calls, Strip;
    var path := text.normal(arms[n].sessionLogPath);
    if LogsTo(arms[n], path, text) {
      var j := SomeFirstLog(arms, n, path, text);
      forall k: nat | FirstWithLog(arms, k, path, text) ensures k == j { OnlyFirstLog(arms, k, j, path, text); }
    }
  }

  lemma KeySetsApart(key: string, text: Text)
    ensures key in ALLOWED ==> key !in REQUIRED_SHARED && key != REQUEST_TIMEOUT && !IsSecretKey(key, text)
    ensures key in REQUIRED_SHARED ==> key != REQUEST_TIMEOUT
    ensures key == REQUEST_TIMEOUT ==> !IsSecretKey(key, text)
  {
    hide IsSecretKey;
    OwnKeysAreNotSecret(text);
  }

  /** What a setting of an arm gives rise to when the arm must not have it. */
  ghost predicate Foreign(p: Problem, who: Label, key: string, text: Text) {
    || (p == CredentialInArm(who, key) && IsSecretKey(key, text))
    || (p == TimeoutInArm(who) && key == REQUEST_TIMEOUT)
    || (p == FieldInArm(who, key) && key in ALLOWED)
    || (p == SharedOverridden(who, key) && key in REQUIRED_SHARED && !IsSecretKey(key, text))
  }

  lemma ArmKeyIff(p: Problem, arm: Arm, who: Label, key: string, text: Text, checks: Checks)
    requires key in arm.env
    ensures p in ArmKeyCheck(who, arm, text, checks)(key) <==>
            || Foreign(p, who, key, text)
            || (&& key != REQUEST_TIMEOUT && key !in ALLOWED && key !in REQUIRED_SHARED && !IsSecretKey(key, text)
                && ValueReports(p, key, arm.env[key], text, checks))
  {
    hide ALLOWED, REQUIRED_SHARED, REQUEST_TIMEOUT, IsSecretKey, ValueProblems, ValueReports;
    ValueIff(p, key, arm.env[key], text, checks);
    KeySetsApart(key, text);
  }

  /** The same, read from the tag. */
  ghost predicate ForeignAs(p: Problem, who: Label, key: string, text: Text) {
    match p
    case CredentialInArm(w, k) => w == who && k == key && IsSecretKey(key, text)
    case TimeoutInArm(w) => w == who && key == REQUEST_TIMEOUT
    case FieldInArm(w, k) => w == who && k == key && key in ALLOWED
    case SharedOverridden(w, k) => w == who && k == key && key in REQUIRED_SHARED && !IsSecretKey(key, text)
    case _ => false
  }

  lemma ForeignTag(p: Problem, who: Label, key: string, text: Text)
    ensures Foreign(p, who, key, text) <==> ForeignAs(p, who, key, text)
  {
    hide ALLOWED, REQUIRED_SHARED, REQUEST_TIMEOUT, IsSecretKey;
  }

  lemma ForeignIff(p: Problem, arms: seq<Arm>, n: nat, who: Label, text: Text)
    requires n < |arms| && Calls(who, arms, n, text)
    ensures ForeignReports(p, arms, n, text) <==> exists key :: key in arms[n].env && Foreign(p, who, key, text)
  {
    hide ALLOWED, REQUIRED_SHARED, REQUEST_TIMEOUT, IsSecretKey, Calls, Foreign;
    forall key ensures Foreign(p, who, key, text) <==> ForeignAs(p, who, key, text) { ForeignTag(p, who, key, text); }
    if ForeignReports(p, arms, n, text) {
      OnlyOneName(p.arm, who, arms, n, text);
      assert ForeignAs(p, who, if p.TimeoutInArm? then REQUEST_TIMEOUT else p.key, text);
    }
  }

  lemma EnvIff(p: Problem, arms: seq<Arm>, n: nat, who: Label, text: Text, checks: Checks)
    requires n < |arms| && Calls(who, arms, n, text)
    ensures p in ArmEnvProblems(who, arms[n], text, checks) <==> EnvReports(p, arms, n, text, checks)
  {
    hide ALLOWED, REQUIRED_SHARED, REQUEST_TIMEOUT, IsSecretKey, ValueReports, Calls, ArmKeyCheck, ForKeys;
    hide Foreign, ForeignReports;
    var env := arms[n].env;
    InForKeys(SortedSet(env.Keys), ArmKeyCheck(who, arms[n], text, checks), p);
    forall key | key in env
      ensures p in ArmKeyCheck(who, arms[n], text, checks)(key) <==>
              || Foreign(p, who, key, text)
              || (&& key != REQUEST_TIMEOUT && key !in ALLOWED && key !in REQUIRED_SHARED && !IsSecretKey(key, text)
                  && ValueReports(p, key, env[key], text, checks))
    {
      ArmKeyIff(p, arms[n], who, key, text, checks);
    }
    ForeignIff(p, arms, n, who, text);
  }

  lemma ArmIff(p: Problem, arms: seq<Arm>, n: nat, seen: Seen, text: Text, checks: Checks)
    requires n < |arms| && TakenIds(arms, n, seen.ids, text)
    requires TakenPorts(arms, n, seen.ports, text) && TakenLogs(arms, n, seen.logs, text)
    ensures p in OneArm(arms[n], n + 1, seen, text, checks) <==> ArmReports(p, arms, n, text, checks)
    ensures var after := SeenAfter(arms[n], n + 1, seen, text);
            && TakenIds(arms, n + 1, after.ids, text)
            && TakenPorts(arms, n + 1, after.ports, text) && TakenLogs(arms, n + 1, after.logs, text)
  {
    hide IdProblems, PortProblems, SessionLogProblems, ArmEnvProblems, TakenIds, TakenPorts, TakenLogs, Calls;
    hide IdReports, PortReports, LogReports, EnvReports, LabelOf;
    var who := LabelOf(arms[n], n + 1, text);
    CallsIff(who, arms, n, text);
    IdIff(p, arms, n, seen.ids, text);
    PortIff(p, arms, n, who, seen.ports, text);
    LogIff(p, arms, n, who, seen.logs, text);
    EnvIff(p, arms, n, who, text, checks);
    IdsStep(arms, n, seen.ids, who, text);
    PortsStep(arms, n, who, seen.ports, text);
    LogsStep(arms, n, who, seen.logs, text);
  }

  lemma NothingTaken(arms: seq<Arm>, text: Text)
    ensures TakenIds(arms, 0, map[], text) && TakenPorts(arms, 0, map[], text) && TakenLogs(arms, 0, map[], text)
  {
  }

  lemma {:induction false} EachIff(p: Problem, arms: seq<Arm>, n: nat, text: Text, checks: Checks)
    requires n <= |arms|
    ensures p in EachArm(arms[..n], text, checks) <==> exists i: nat :: i < n && ArmReports(p, arms, i, text, checks)
    ensures var seen := SeenIn(arms[..n], text);
            && TakenIds(arms, n, seen.ids, text)
            && TakenPorts(arms, n, seen.ports, text) && TakenLogs(arms, n, seen.logs, text)
  {
    hide TakenIds, TakenPorts, TakenLogs, OneArm, SeenAfter, ArmReports;
    if n == 0 {
      NothingTaken(arms, text);
    } else {
      var seen := SeenIn(arms[..n - 1], text);
      EachIff(p, arms, n - 1, text, checks);
      hide EachArm, SeenIn;
      PrefixStep(arms, n - 1);
      OneMoreArmChecked(arms[..n - 1], arms[n - 1], text, checks);
      ArmIff(p, arms, n - 1, seen, text, checks);
    }
  }

  // The rest.

  lemma {:induction false} DisagreeIff(values: seq<string>)
    ensures Disagree(values) <==> exists i :: 0 < i < |values| && values[i] != values[0]
  {
    if |values| >= 2 {
      var front := values[..|values| - 1];
      DisagreeIff(front);
      assert forall i :: 0 <= i < |front| ==> front[i] == values[i];
    }
  }

  lemma {:induction false} ValuesAre(envs: seq<map<string, string>>, key: string)
    ensures |Values(envs, key)| == |envs|
    ensures forall i :: 0 <= i < |envs| ==> Values(envs, key)[i] == ValueOr(envs[i], key)
  {
    if envs != [] { ValuesAre(envs[..|envs| - 1], key); }
  }

  ghost predicate SomeDiffer(envs: seq<map<string, string>>, key: string) {
    exists i, j :: 0 <= i < |envs| && 0 <= j < |envs| && ValueOr(envs[i], key) != ValueOr(envs[j], key)
  }

  lemma DiffIff(envs: seq<map<string, string>>, key: string)
    ensures key in EnvDiff(envs) <==> SomeDiffer(envs, key)
  {
    hide Disagree;
    ValuesAre(envs, key);
    var values := Values(envs, key);
    DisagreeIff(values);
    DiffHas(envs, AllKeys(envs), key);
    if SomeDiffer(envs, key) {
      var i, j :| 0 <= i < |envs| && 0 <= j < |envs| && ValueOr(envs[i], key) != ValueOr(envs[j], key);
      assert values[i] != values[0] || values[j] != values[0];
      assert key in envs[i] || key in envs[j];
    }
  }

  lemma DifferenceIff(p: Problem, e: Experiment, text: Text)
    ensures p in SymmetryProblems(e, text) <==>
            p.UnexpectedDifference? && p.key !in ALLOWED && SomeDiffer(Environments(e, e.arms, text), p.key)
  {
    hide EnvDiff, Environments, SomeDiffer;
    var envs := Environments(e, e.arms, text);
    InForKeys(SortedSet(EnvDiff(envs).Keys), DifferenceCheck(), p);
    if p.UnexpectedDifference? { DiffIff(envs, p.key); }
  }

  lemma ComparisonIff(p: Problem, e: Experiment, text: Text)
    ensures ComparisonReports(p, e, text) <==>
            || p in ComparisonProblems(e, text) || p in SymmetryProblems(e, text)
            || (p == SameFlag && |e.arms| == 2 && e.arms[0].changedFilesEnabled == e.arms[1].changedFilesEnabled)
  {
    hide SymmetryProblems, Environment, Strip;
    DifferenceIff(p, e, text);
  }

  lemma {:induction false} ProbesIff(p: Problem, probes: seq<string>, text: Text)
    ensures p in ProbeProblems(probes, text) <==>
            p.BadProbe? && p.index < |probes| && Strip(probes[p.index], text) == ""
  {
    hide Strip;
    if probes != [] { ProbesIff(p, probes[..|probes| - 1], text); }
  }

  lemma HarnessIff(p: Problem, e: Experiment, text: Text)
    ensures p in HarnessProblems(e, text) <==> HarnessReports(p, e, text)
  {
    hide Strip, ProbeProblems;
    ProbesIff(p, e.probes, text);
  }

  lemma ConfigParts(p: Problem, e: Experiment, text: Text, checks: Checks)
    ensures p in ConfigProblems(e, text, checks) <==>
            || p in ShapeProblems(e, text) || p in SharedSettingProblems(e.sharedEnv, text, checks)
            || p in TimeoutProblems(e) || p in ArmProblems(e, text, checks) || p in ComparisonProblems(e, text)
            || p in SymmetryProblems(e, text) || p in checks.models(e.sharedEnv) || p in HarnessProblems(e, text)
  {
    hide ShapeProblems, SharedSettingProblems, TimeoutProblems, ArmProblems, ComparisonProblems, SymmetryProblems;
    hide HarnessProblems;
  }

  /** Exactly the problems that an experiment gives rise to are reported, each for the arm, key or place it names. */
  lemma ReportsIff(p: Problem, e: Experiment, text: Text, checks: Checks)
    ensures p in ConfigProblems(e, text, checks) <==> Reported(p, e, text, checks)
  {
    hide ConfigProblems, ShapeProblems, SharedSettingProblems, TimeoutProblems, EachArm, ComparisonProblems;
    hide SymmetryProblems, HarnessProblems;
    hide ShapeReports, SharedReports, TimeoutReports, ArmReports, ComparisonReports, HarnessReports;
    ConfigParts(p, e, text, checks);
    ShapeIff(p, e, text);
    SharedIff(p, e.sharedEnv, text, checks);
    TimeoutIff(p, e);
    assert e.arms[..|e.arms|] == e.arms;
    EachIff(p, e.arms, |e.arms|, text, checks);
    ComparisonIff(p, e, text);
    HarnessIff(p, e, text);
  }
}
