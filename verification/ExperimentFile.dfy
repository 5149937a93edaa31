/** A/B experiments and the file they are written to and read from (scripts/ab_launcher.py). */
module ExperimentFile {
  import opened Names
  import opened Options

  /** A key of a mapping, which only a mapping that was not read from a file can have in another type. */
  datatype Key = Word(word: string) | NotText

  /** Parsed file data. A mapping lists its keys in their own order. */
  datatype Json =
    | Null | Bool(b: bool) | Int(i: int) | Float(r: real) | Str(s: string) | List(items: seq<Json>)
    | Obj(fields: map<string, Json>, keys: seq<Key>)

  datatype Arm = Arm(
    armId: string, port: int, sessionLogPath: string, changedFilesEnabled: bool, env: map<string, string>)

  datatype Experiment = Experiment(
    name: string, worktree: string, sharedEnv: map<string, string>, arms: seq<Arm>,
    providerTimeout: Option<real>, harnessTimeout: Option<real>,
    probes: seq<string>, repeat: int, maxTokens: Option<int>)

  /** Text operations of the language and the platform. */
  datatype Text = Text(
    space: char -> bool, lower: string -> string, upper: char -> string,
    number: real -> string, absolute: string -> bool, normal: string -> string)

  /** Where a field was read: the file's own object, or its n-th arm. */
  datatype Place = Top | InArm(index: nat)

  datatype ReadProblem =
    | NotAnObject | SchemaMismatch | NoArms | ArmNotObject(index: nat) | RepeatMissing
    | Missing(place: Place, key: string) | WrongType(place: Place, key: string) | NotBoolean(place: Place, key: string)
    | BadSetting(place: Place, setting: string) | UnnamedSetting(place: Place)

  /** A value read, with the problems found on the way. */
  datatype Read<T> = Read(value: T, problems: seq<ReadProblem>)

  datatype Result = Ok(experiment: Experiment) | Err(problems: seq<ReadProblem>)

  const SCHEMA_VERSION := 1
  const TRUE_VALUES := {"true", "t", "yes", "y", "on", "1"}
  const FALSE_VALUES := {"false", "f", "no", "n", "off", "0"}

  function FormatBool(b: bool): string {
    if b then "true" else "false"
  }

  function Strip(s: string, text: Text): string {
    if s == [] then s
    else if text.space(s[0]) then Strip(s[1..], text)
    else if text.space(s[|s| - 1]) then Strip(s[..|s| - 1], text)
    else s
  }

  // Writing.

  function WriteSeconds(seconds: Option<real>): Json {
    match seconds case None => Null case Some(r) => Float(r)
  }

  function WriteTokens(tokens: Option<int>): Json {
    match tokens case None => Null case Some(n) => Int(n)
  }

  function Words(names: seq<string>): (keys: seq<Key>)
    ensures forall name :: Word(name) in keys <==> name in names
  {
    var keys := seq(|names|, i requires 0 <= i < |names| => Word(names[i]));
    assert forall i :: 0 <= i < |names| ==> keys[i] == Word(names[i]);
    keys
  }

  function WriteEnv(env: map<string, string>): Json {
    Obj(map key | key in env :: Str(env[key]), Words(SortedSet(env.Keys)))
  }

  function ArmFields(arm: Arm): map<string, Json> {
    map[
      "arm_id" := Str(arm.armId),
      "port" := Int(arm.port),
      "session_log_path" := Str(arm.sessionLogPath),
      "changed_files_enabled" := Bool(arm.changedFilesEnabled),
      "env" := WriteEnv(arm.env)]
  }

  function WriteArm(arm: Arm): Json {
    Obj(ArmFields(arm), Words(["arm_id", "port", "session_log_path", "changed_files_enabled", "env"]))
  }

  function WriteStrings(list: seq<string>): seq<Json> {
    if list == [] then [] else WriteStrings(list[..|list| - 1]) + [Str(list[|list| - 1])]
  }

  function WriteArms(arms: seq<Arm>): seq<Json> {
    if arms == [] then [] else WriteArms(arms[..|arms| - 1]) + [WriteArm(arms[|arms| - 1])]
  }

  function ExperimentFields(e: Experiment): map<string, Json> {
    map[
      "schema" := Int(SCHEMA_VERSION),
      "name" := Str(e.name),
      "worktree" := Str(e.worktree),
      "provider_request_timeout_seconds" := WriteSeconds(e.providerTimeout),
      "harness_timeout_seconds" := WriteSeconds(e.harnessTimeout),
      "harness_probes" := List(WriteStrings(e.probes)),
      "harness_repeat" := Int(e.repeat),
      "harness_max_tokens" := WriteTokens(e.maxTokens),
      "shared_env" := WriteEnv(e.sharedEnv),
      "arms" := List(WriteArms(e.arms))]
  }

  function ExperimentToDict(e: Experiment): Json {
    Obj(ExperimentFields(e),
        Words(["schema", "name", "worktree", "provider_request_timeout_seconds", "harness_timeout_seconds",
               "harness_probes", "harness_repeat", "harness_max_tokens", "shared_env", "arms"]))
  }

  // Reading.

  /** `raw.get(key)`. */
  function Get(raw: map<string, Json>, key: string): Json {
    if key in raw then raw[key] else Null
  }

  function StringField(key: string, raw: map<string, Json>, place: Place): Read<string> {
    match Get(raw, key)
    case Null => Read("", [Missing(place, key)])
    case Str(s) => if s == "" then Read("", [Missing(place, key)]) else Read(s, [])
    case _ => Read("", [WrongType(place, key)])
  }

  function PortField(key: string, raw: map<string, Json>, place: Place): Read<int> {
    match Get(raw, key)
    case Null => Read(0, [Missing(place, key)])
    case Int(i) => Read(i, [])
    case _ => Read(0, [WrongType(place, key)])
  }

  function IntField(key: string, raw: map<string, Json>, default_: int): Read<int> {
    match Get(raw, key)
    case Null => Read(default_, [])
    case Int(i) => Read(i, [])
    case _ => Read(default_, [WrongType(Top, key)])
  }

  function OptionalIntField(key: string, raw: map<string, Json>): Read<Option<int>> {
    match Get(raw, key)
    case Null => Read(None, [])
    case Int(i) => Read(Some(i), [])
    case _ => Read(None, [WrongType(Top, key)])
  }

  function SecondsField(key: string, raw: map<string, Json>): Read<Option<real>> {
    match Get(raw, key)
    case Null => Read(None, [])
    case Int(i) => Read(Some(i as real), [])
    case Float(r) => Read(Some(r), [])
    case _ => Read(None, [WrongType(Top, key)])
  }

  function ParseBool(value: string, place: Place, key: string, text: Text): Read<bool> {
    var lowered := text.lower(Strip(value, text));
    if lowered in TRUE_VALUES then Read(true, [])
    else if lowered in FALSE_VALUES then Read(false, [])
    else Read(false, [NotBoolean(place, key)])
  }

  function BoolField(key: string, raw: map<string, Json>, place: Place, text: Text): Read<bool> {
    if key !in raw then Read(false, [])
    else
      match raw[key]
      case Bool(b) => Read(b, [])
      case Str(s) => ParseBool(s, place, key, text)
      case _ => Read(false, [WrongType(place, key)])
  }

  function KeptStrings(items: seq<Json>): seq<string>
    requires forall i :: 0 <= i < |items| ==> items[i].Str?
  {
    if items == [] then []
    else
      var last := items[|items| - 1].s;
      KeptStrings(items[..|items| - 1]) + (if last != "" then [last] else [])
  }

  function StringList(key: string, raw: map<string, Json>): Read<seq<string>> {
    match Get(raw, key)
    case Null => Read([], [])
    case List(items) =>
      if forall i :: 0 <= i < |items| ==> items[i].Str? then Read(KeptStrings(items), [])
      else Read([], [WrongType(Top, key)])
    case _ => Read([], [WrongType(Top, key)])
  }

  /** How one setting's value is read, if it has a type a setting may have. */
  function Setting(value: Json, text: Text): Option<string> {
    match value
    case Bool(b) => Some(FormatBool(b))
    case Int(i) => Some(text.number(i as real))
    case Float(r) => Some(text.number(r))
    case Str(s) => Some(s)
    case _ => None
  }

  /** The settings read from a mapping's first keys, in its own order. */
  function Settings(keys: seq<Key>, fields: map<string, Json>, text: Text): map<string, string> {
    if keys == [] then map[]
    else
      var front := Settings(keys[..|keys| - 1], fields, text);
      match keys[|keys| - 1]
      case NotText => front
      case Word(name) =>
        match Setting(Get(fields, name), text)
        case Some(value) => front[name := value]
        case None => front
  }

  function KeyProblems(key: Key, fields: map<string, Json>, place: Place, text: Text): seq<ReadProblem> {
    match key
    case NotText => [UnnamedSetting(place)]
    case Word(name) => if Setting(Get(fields, name), text).None? then [BadSetting(place, name)] else []
  }

  /** What is wrong with those keys, one problem at most for each. */
  function SettingProblems(keys: seq<Key>, fields: map<string, Json>, place: Place, text: Text): seq<ReadProblem> {
    if keys == [] then []
    else SettingProblems(keys[..|keys| - 1], fields, place, text) + KeyProblems(keys[|keys| - 1], fields, place, text)
  }

  function EnvField(key: string, raw: map<string, Json>, place: Place, text: Text): Read<map<string, string>> {
    match Get(raw, key)
    case Null => Read(map[], [])
    case Obj(fields, keys) => Read(Settings(keys, fields, text), SettingProblems(keys, fields, place, text))
    case _ => Read(map[], [WrongType(place, key)])
  }

  /** Reads one mapping of setting names to values, filling the environment entry by entry. */
  method EnvFromDict(key: string, raw: map<string, Json>, place: Place, text: Text)
    returns (env: map<string, string>, problems: seq<ReadProblem>)
    ensures Read(env, problems) == EnvField(key, raw, place, text)
  {
    env, problems := map[], [];
    match Get(raw, key)
    case Null => return;
    case Obj(fields, keys) =>
      for i := 0 to |keys|
        invariant env == Settings(keys[..i], fields, text)
        invariant problems == SettingProblems(keys[..i], fields, place, text)
      {
        assert keys[..i + 1][..i] == keys[..i];
        match keys[i]
        case NotText => problems := problems + [UnnamedSetting(place)];
        case Word(name) =>
          match Setting(Get(fields, name), text)
          case Some(value) => env := env[name := value];
          case None => problems := problems + [BadSetting(place, name)];
      }
      assert keys[..|keys|] == keys;
    case _ => problems := [WrongType(place, key)];
  }

  function ReadArm(raw: map<string, Json>, index: nat, text: Text): Read<Arm> {
    var at := InArm(index);
    var id, port := StringField("arm_id", raw, at), PortField("port", raw, at);
    var log := StringField("session_log_path", raw, at);
    var flag, env := BoolField("changed_files_enabled", raw, at, text), EnvField("env", raw, at, text);
    Read(Arm(id.value, port.value, log.value, flag.value, env.value),
         id.problems + port.problems + log.problems + flag.problems + env.problems)
  }

  function ReadArmList(items: seq<Json>, text: Text): Read<seq<Arm>> {
    if items == [] then Read([], [])
    else
      var front := ReadArmList(items[..|items| - 1], text);
      match items[|items| - 1]
      case Obj(fields, _) =>
        var arm := ReadArm(fields, |items|, text);
        Read(front.value + [arm.value], front.problems + arm.problems)
      case _ => Read(front.value, front.problems + [ArmNotObject(|items|)])
  }

  function ArmsField(raw: map<string, Json>, text: Text): Read<seq<Arm>> {
    match Get(raw, "arms")
    case List(items) => if items == [] then Read([], [NoArms]) else ReadArmList(items, text)
    case _ => Read([], [NoArms])
  }

  /** Python compares the declared version as a number, which a boolean is too. */
  predicate IsSchema(raw: map<string, Json>) {
    if "schema" !in raw then true
    else
      match raw["schema"]
      case Int(i) => i == SCHEMA_VERSION
      case Float(r) => r == SCHEMA_VERSION as real
      case Bool(b) => b
      case _ => false
  }

  function ReadFields(raw: map<string, Json>, text: Text): Read<Experiment> {
    var arms := ArmsField(raw, text);
    var name, worktree := StringField("name", raw, Top), StringField("worktree", raw, Top);
    var env := EnvField("shared_env", raw, Top, text);
    var provider := SecondsField("provider_request_timeout_seconds", raw);
    var harness := SecondsField("harness_timeout_seconds", raw);
    var probes := StringList("harness_probes", raw);
    var repeat, tokens := IntField("harness_repeat", raw, 1), OptionalIntField("harness_max_tokens", raw);
    Read(Experiment(name.value, worktree.value, env.value, arms.value, provider.value, harness.value,
                    probes.value, repeat.value, tokens.value),
         (if IsSchema(raw) then [] else [SchemaMismatch]) + arms.problems
         + (if Get(raw, "harness_repeat").Null? then [RepeatMissing] else [])
         + name.problems + worktree.problems + env.problems + provider.problems + harness.problems
         + probes.problems + repeat.problems + tokens.problems)
  }

  function ExperimentFromDict(raw: Json, text: Text): Result {
    match raw
    case Obj(fields, _) =>
      var read := ReadFields(fields, text);
      if read.problems == [] then Ok(read.value) else Err(read.problems)
    case _ => Err([NotAnObject])
  }

  // Reading back what was written.

  predicate ArmWritable(arm: Arm) {
    arm.armId != "" && arm.sessionLogPath != ""
  }

  ghost predicate AllWritable(arms: seq<Arm>) {
    forall i :: 0 <= i < |arms| ==> ArmWritable(arms[i])
  }

  /** What a file can say: the reader takes an empty text for a missing field, and drops empty probes. */
  ghost predicate Writable(e: Experiment) {
    && e.name != "" && e.worktree != "" && e.arms != []
    && AllWritable(e.arms)
    && "" !in e.probes
  }

  lemma Rejoined<T>(s: seq<T>)
    requires s != []
    ensures s == s[..|s| - 1] + [s[|s| - 1]]
  {
  }

  lemma SameWithLast<T>(a: seq<T>, b: seq<T>, last: T)
    requires |a| <= |b|
    ensures a + [last] == b + [last] <==> a == b
    ensures a != b + [last]
  {
    if a + [last] == b + [last] { assert a == (a + [last])[..|a|] && b == (b + [last])[..|a|]; }
  }

  lemma {:induction false} WrittenStrings(list: seq<string>)
    ensures |WriteStrings(list)| == |list| && forall i :: 0 <= i < |list| ==> WriteStrings(list)[i] == Str(list[i])
  {
    if list != [] { WrittenStrings(list[..|list| - 1]); }
  }

  lemma OneMoreString(list: seq<string>)
    requires list != []
    ensures |WriteStrings(list)| == |list|
    ensures WriteStrings(list)[..|list| - 1] == WriteStrings(list[..|list| - 1])
    ensures WriteStrings(list)[|list| - 1] == Str(list[|list| - 1])
  {
    WrittenStrings(list[..|list| - 1]);
  }

  lemma {:induction false} StringsReadBack(list: seq<string>)
    ensures |WriteStrings(list)| == |list| && forall i :: 0 <= i < |list| ==> WriteStrings(list)[i] == Str(list[i])
    ensures |KeptStrings(WriteStrings(list))| <= |list|
    ensures KeptStrings(WriteStrings(list)) == list <==> "" !in list
  {
    WrittenStrings(list);
    if list != [] {
      var front, last := list[..|list| - 1], list[|list| - 1];
      StringsReadBack(front);
      OneMoreString(list);
      Rejoined(list);
      SameWithLast(KeptStrings(WriteStrings(front)), front, last);
    }
  }

  ghost predicate NamesIn(keys: seq<Key>, env: map<string, string>) {
    forall i :: 0 <= i < |keys| ==> keys[i].Word? && keys[i].word in env
  }

  ghost predicate Agrees(read: map<string, string>, env: map<string, string>) {
    forall name :: name in read ==> name in env && read[name] == env[name]
  }

  ghost predicate Covers(read: map<string, string>, keys: seq<Key>) {
    forall i :: 0 <= i < |keys| ==> keys[i].Word? && keys[i].word in read
  }

  lemma WrittenSetting(env: map<string, string>, name: string, text: Text)
    requires name in env
    ensures Setting(Get(WriteEnv(env).fields, name), text) == Some(env[name])
  {
  }

  lemma {:induction false} NoSettingProblems(keys: seq<Key>, env: map<string, string>, place: Place, text: Text)
    requires NamesIn(keys, env)
    ensures SettingProblems(keys, WriteEnv(env).fields, place, text) == []
  {
    if keys != [] {
      NoSettingProblems(keys[..|keys| - 1], env, place, text);
      WrittenSetting(env, keys[|keys| - 1].word, text);
    }
  }

  lemma OneMoreSetting(keys: seq<Key>, env: map<string, string>, text: Text)
    requires NamesIn(keys, env) && keys != []
    ensures var name := keys[|keys| - 1].word;
            Settings(keys, WriteEnv(env).fields, text)
              == Settings(keys[..|keys| - 1], WriteEnv(env).fields, text)[name := env[name]]
  {
    WrittenSetting(env, keys[|keys| - 1].word, text);
  }

  lemma CoversMore(read: map<string, string>, keys: seq<Key>, name: string, value: string)
    requires keys != [] && keys[|keys| - 1] == Word(name) && Covers(read, keys[..|keys| - 1])
    ensures Covers(read[name := value], keys)
  {
    forall i | 0 <= i < |keys| - 1 ensures keys[i].Word? && keys[i].word in read {
      assert keys[..|keys| - 1][i] == keys[i];
    }
  }

  lemma {:induction false} SettingsReadBack(keys: seq<Key>, env: map<string, string>, text: Text)
    requires NamesIn(keys, env)
    ensures Agrees(Settings(keys, WriteEnv(env).fields, text), env)
            && Covers(Settings(keys, WriteEnv(env).fields, text), keys)
  {
    if keys != [] {
      var name := keys[|keys| - 1].word;
      SettingsReadBack(keys[..|keys| - 1], env, text);
      OneMoreSetting(keys, env, text);
      CoversMore(Settings(keys[..|keys| - 1], WriteEnv(env).fields, text), keys, name, env[name]);
    }
  }

  lemma SortedNamesIn(env: map<string, string>)
    ensures NamesIn(Words(SortedSet(env.Keys)), env)
    ensures forall name :: name in env ==> Word(name) in Words(SortedSet(env.Keys))
  {
    var names := SortedSet(env.Keys);
    forall i | 0 <= i < |names| ensures names[i] in env { assert names[i] in names; }
  }

  lemma CoveredIsWhole(read: map<string, string>, keys: seq<Key>, env: map<string, string>)
    requires Agrees(read, env) && Covers(read, keys) && forall name :: name in env ==> Word(name) in keys
    ensures read == env
  {
    forall name | name in env ensures name in read {
      var i :| 0 <= i < |keys| && keys[i] == Word(name);
    }
  }

  lemma EnvReadsBack(key: string, raw: map<string, Json>, env: map<string, string>, place: Place, text: Text)
    requires key in raw && raw[key] == WriteEnv(env)
    ensures EnvField(key, raw, place, text) == Read(env, [])
  {
    var keys := Words(SortedSet(env.Keys));
    SortedNamesIn(env);
    NoSettingProblems(keys, env, place, text);
    SettingsReadBack(keys, env, text);
    CoveredIsWhole(Settings(keys, WriteEnv(env).fields, text), keys, env);
  }

  /** What the file says of one arm, field by field. */
  ghost predicate StatesArm(fields: map<string, Json>, arm: Arm) {
    && "arm_id" in fields && fields["arm_id"] == Str(arm.armId)
    && "port" in fields && fields["port"] == Int(arm.port)
    && "session_log_path" in fields && fields["session_log_path"] == Str(arm.sessionLogPath)
    && "changed_files_enabled" in fields && fields["changed_files_enabled"] == Bool(arm.changedFilesEnabled)
    && "env" in fields && fields["env"] == WriteEnv(arm.env)
  }

  lemma WrittenArm(arm: Arm)
    ensures StatesArm(ArmFields(arm), arm)
  {
  }

  lemma ArmReadsBack(fields: map<string, Json>, arm: Arm, index: nat, text: Text)
    requires StatesArm(fields, arm)
    ensures ArmWritable(arm) ==> ReadArm(fields, index, text) == Read(arm, [])
    ensures !ArmWritable(arm) ==> ReadArm(fields, index, text).problems != []
  {
    EnvReadsBack("env", fields, arm.env, InArm(index), text);
  }

  lemma OneMoreWritable(front: seq<Arm>, last: Arm)
    ensures AllWritable(front + [last]) <==> AllWritable(front) && ArmWritable(last)
  {
    assert (front + [last])[|front|] == last;
    assert forall i :: 0 <= i < |front| ==> (front + [last])[i] == front[i];
  }

  lemma OneMoreArm(items: seq<Json>, item: Json, text: Text)
    requires item.Obj?
    ensures var before, arm := ReadArmList(items, text), ReadArm(item.fields, |items| + 1, text);
            ReadArmList(items + [item], text) == Read(before.value + [arm.value], before.problems + arm.problems)
  {
    assert (items + [item])[..|items|] == items;
  }

  /** Reading went well exactly for writable arms, and then gave those arms. */
  ghost predicate ArmsBack(read: Read<seq<Arm>>, arms: seq<Arm>) {
    && (read.problems == [] <==> AllWritable(arms))
    && (read.problems == [] ==> read.value == arms)
  }

  lemma ArmsBackStep(before: Read<seq<Arm>>, front: seq<Arm>, arm: Read<Arm>, last: Arm)
    requires ArmsBack(before, front)
    requires if ArmWritable(last) then arm == Read(last, []) else arm.problems != []
    ensures ArmsBack(Read(before.value + [arm.value], before.problems + arm.problems), front + [last])
  {
    OneMoreWritable(front, last);
  }

  lemma OneMoreWritten(front: seq<Arm>, last: Arm)
    ensures WriteArms(front + [last]) == WriteArms(front) + [WriteArm(last)]
  {
    assert (front + [last])[..|front|] == front;
  }

  lemma OneMoreRead(front: seq<Arm>, last: Arm, text: Text)
    requires |WriteArms(front)| == |front|
    ensures var before, arm := ReadArmList(WriteArms(front), text), ReadArm(ArmFields(last), |front| + 1, text);
            ReadArmList(WriteArms(front + [last]), text)
            == Read(before.value + [arm.value], before.problems + arm.problems)
    ensures |WriteArms(front + [last])| == |front| + 1
  {
    OneMoreWritten(front, last);
    OneMoreArm(WriteArms(front), WriteArm(last), text);
  }

  lemma ArmReadBack(front: seq<Arm>, last: Arm, text: Text)
    requires |WriteArms(front)| == |front| && ArmsBack(ReadArmList(WriteArms(front), text), front)
    ensures ArmsBack(ReadArmList(WriteArms(front + [last]), text), front + [last])
    ensures |WriteArms(front + [last])| == |front| + 1
  {
    WrittenArm(last);
    ArmReadsBack(ArmFields(last), last, |front| + 1, text);
    OneMoreRead(front, last, text);
    ArmsBackStep(ReadArmList(WriteArms(front), text), front, ReadArm(ArmFields(last), |front| + 1, text), last);
  }

  lemma {:induction false} ArmsReadBack(arms: seq<Arm>, text: Text)
    ensures |WriteArms(arms)| == |arms|
    ensures ArmsBack(ReadArmList(WriteArms(arms), text), arms)
  {
    if arms != [] {
      var front, last := arms[..|arms| - 1], arms[|arms| - 1];
      ArmsReadBack(front, text);
      Rejoined(arms);
      ArmReadBack(front, last, text);
    }
  }

  /** What the file says of the experiment, field by field. */
  ghost predicate States(fields: map<string, Json>, e: Experiment) {
    && "schema" in fields && fields["schema"] == Int(SCHEMA_VERSION)
    && "name" in fields && fields["name"] == Str(e.name)
    && "worktree" in fields && fields["worktree"] == Str(e.worktree)
    && "provider_request_timeout_seconds" in fields
       && fields["provider_request_timeout_seconds"] == WriteSeconds(e.providerTimeout)
    && "harness_timeout_seconds" in fields && fields["harness_timeout_seconds"] == WriteSeconds(e.harnessTimeout)
    && "harness_probes" in fields && fields["harness_probes"] == List(WriteStrings(e.probes))
    && "harness_repeat" in fields && fields["harness_repeat"] == Int(e.repeat)
    && "harness_max_tokens" in fields && fields["harness_max_tokens"] == WriteTokens(e.maxTokens)
    && "shared_env" in fields && fields["shared_env"] == WriteEnv(e.sharedEnv)
    && "arms" in fields && fields["arms"] == List(WriteArms(e.arms))
  }

  lemma WrittenExperiment(e: Experiment)
    ensures States(ExperimentFields(e), e)
  {
  }

  lemma ArmsFieldReadsBack(fields: map<string, Json>, e: Experiment, text: Text)
    requires States(fields, e)
    ensures ArmsField(fields, text).problems == [] <==> e.arms != [] && AllWritable(e.arms)
    ensures ArmsField(fields, text).problems == [] ==> ArmsField(fields, text).value == e.arms
  {
    ArmsReadBack(e.arms, text);
  }

  /** Each of the other fields, read back. */
  lemma FieldsReadBack(fields: map<string, Json>, e: Experiment, text: Text)
    requires States(fields, e)
    ensures StringField("name", fields, Top).problems == [] <==> e.name != ""
    ensures StringField("name", fields, Top).value == e.name
    ensures StringField("worktree", fields, Top).problems == [] <==> e.worktree != ""
    ensures StringField("worktree", fields, Top).value == e.worktree
    ensures EnvField("shared_env", fields, Top, text) == Read(e.sharedEnv, [])
    ensures SecondsField("provider_request_timeout_seconds", fields) == Read(e.providerTimeout, [])
    ensures SecondsField("harness_timeout_seconds", fields) == Read(e.harnessTimeout, [])
    ensures IntField("harness_repeat", fields, 1) == Read(e.repeat, []) && Get(fields, "harness_repeat") != Null
    ensures OptionalIntField("harness_max_tokens", fields) == Read(e.maxTokens, [])
    ensures IsSchema(fields)
  {
    EnvReadsBack("shared_env", fields, e.sharedEnv, Top, text);
  }

  lemma ProbesReadBack(key: string, fields: map<string, Json>, probes: seq<string>)
    requires key in fields && fields[key] == List(WriteStrings(probes))
    ensures StringList(key, fields).problems == []
    ensures StringList(key, fields).value == probes <==> "" !in probes
  {
    StringsReadBack(probes);
  }

  /** An experiment survives being written and read back exactly when a file can say it. */
  lemma RoundTripIff(e: Experiment, text: Text)
    ensures ExperimentFromDict(ExperimentToDict(e), text) == Ok(e) <==> Writable(e)
  {
    WrittenExperiment(e);
    var fields := ExperimentFields(e);
    ArmsFieldReadsBack(fields, e, text);
    FieldsReadBack(fields, e, text);
    ProbesReadBack("harness_probes", fields, e.probes);
  }

  lemma {:induction false} KeptStringsAreNotEmpty(items: seq<Json>)
    requires forall i :: 0 <= i < |items| ==> items[i].Str?
    ensures "" !in KeptStrings(items)
  {
    if items != [] { KeptStringsAreNotEmpty(items[..|items| - 1]); }
  }

  lemma {:induction false} ReadArmsAreWritable(items: seq<Json>, text: Text)
    requires ReadArmList(items, text).problems == []
    ensures |ReadArmList(items, text).value| == |items|
    ensures forall i :: 0 <= i < |items| ==> ArmWritable(ReadArmList(items, text).value[i])
  {
    if items != [] { ReadArmsAreWritable(items[..|items| - 1], text); }
  }

  lemma ReadFieldsAreWritable(fields: map<string, Json>, text: Text)
    requires ReadFields(fields, text).problems == []
    ensures Writable(ReadFields(fields, text).value)
  {
    var arms := ArmsField(fields, text);
    assert arms.problems == [] && StringField("name", fields, Top).problems == [];
    assert StringField("worktree", fields, Top).problems == [];
    var items := Get(fields, "arms").items;
    ReadArmsAreWritable(items, text);
    match Get(fields, "harness_probes")
    case List(probes) => if forall i :: 0 <= i < |probes| ==> probes[i].Str? { KeptStringsAreNotEmpty(probes); }
    case _ =>
  }

  /** Whatever the reader accepts, writing it out and reading it again gives the same experiment:
      coerced settings and dropped probes are settled by the first reading. */
  lemma ReadingSettles(raw: Json, text: Text)
    requires ExperimentFromDict(raw, text).Ok?
    ensures var e := ExperimentFromDict(raw, text).experiment;
            ExperimentFromDict(ExperimentToDict(e), text) == Ok(e)
  {
    ReadFieldsAreWritable(raw.fields, text);
    RoundTripIff(ExperimentFromDict(raw, text).experiment, text);
  }
}
