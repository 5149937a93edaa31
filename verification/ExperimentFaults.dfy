/** Exactly which problems the reader of scripts/ab_launcher.py reports for a file it refuses. */
module ExperimentFaults {
  import opened Names
  import opened ExperimentFile
  import opened ExperimentReading
  import opened Options

  /** The environment at `place` has a name that is no text, or a value that no setting can have. */
  ghost predicate EnvFaulty(p: ReadProblem, v: Json, place: Place, key: string) {
    match v
    case Null => false
    case Obj(fields, keys) =>
      || (p == UnnamedSetting(place) && NotText in keys)
      || (p.BadSetting? && p.place == place && Word(p.setting) in keys
          && (Get(fields, p.setting).Null? || Get(fields, p.setting).List? || Get(fields, p.setting).Obj?))
    case _ => p == WrongType(place, key)
  }

  /** A text that must be there: an empty one counts as missing. */
  ghost predicate TextFaulty(p: ReadProblem, v: Json, place: Place, key: string) {
    || (p == Missing(place, key) && (v == Null || v == Str("")))
    || (p == WrongType(place, key) && v != Null && !v.Str?)
  }

  ghost predicate FlagFaulty(p: ReadProblem, fields: map<string, Json>, place: Place, text: Text) {
    "changed_files_enabled" in fields &&
    match fields["changed_files_enabled"]
    case Bool(_) => false
    case Str(s) =>
      && p == NotBoolean(place, "changed_files_enabled")
      && text.lower(Strip(s, text)) !in {"true", "t", "yes", "y", "on", "1", "false", "f", "no", "n", "off", "0"}
    case _ => p == WrongType(place, "changed_files_enabled")
  }

  ghost predicate ArmFaulty(p: ReadProblem, fields: map<string, Json>, place: Place, text: Text) {
    || TextFaulty(p, Get(fields, "arm_id"), place, "arm_id")
    || TextFaulty(p, Get(fields, "session_log_path"), place, "session_log_path")
    || (p == Missing(place, "port") && Get(fields, "port").Null?)
    || (p == WrongType(place, "port") && !Get(fields, "port").Null? && !Get(fields, "port").Int?)
    || FlagFaulty(p, fields, place, text)
    || EnvFaulty(p, Get(fields, "env"), place, "env")
  }

  /** Arms are counted from one. */
  ghost predicate ItemFaulty(p: ReadProblem, items: seq<Json>, i: nat, text: Text)
    requires i < |items|
  {
    match items[i]
    case Obj(fields, _) => ArmFaulty(p, fields, InArm(i + 1), text)
    case _ => p == ArmNotObject(i + 1)
  }

  ghost predicate ArmsFaulty(p: ReadProblem, v: Json, text: Text) {
    if v.List? && v.items != [] then exists i: nat :: i < |v.items| && ItemFaulty(p, v.items, i, text) else p == NoArms
  }

  ghost predicate NumberFaulty(p: ReadProblem, fields: map<string, Json>) {
    && p.WrongType? && p.place == Top
    && match Get(fields, p.key)
       case Null => false
       case Int(_) => false
       case Float(_) => p.key in {"harness_repeat", "harness_max_tokens"}
       case _ =>
         p.key in {"harness_repeat", "harness_max_tokens",
                   "provider_request_timeout_seconds", "harness_timeout_seconds"}
  }

  ghost predicate ProbesFaulty(p: ReadProblem, v: Json) {
    && p == WrongType(Top, "harness_probes") && v != Null
    && (v.List? ==> exists i :: 0 <= i < |v.items| && !v.items[i].Str?)
  }

  /** The file is at fault in this way. */
  ghost predicate Faulty(p: ReadProblem, raw: Json, text: Text) {
    match raw
    case Obj(fields, _) =>
      || (p == SchemaMismatch && !SchemaFits(fields))
      || ArmsFaulty(p, Get(fields, "arms"), text)
      || (p == RepeatMissing && Get(fields, "harness_repeat").Null?)
      || TextFaulty(p, Get(fields, "name"), Top, "name") || TextFaulty(p, Get(fields, "worktree"), Top, "worktree")
      || EnvFaulty(p, Get(fields, "shared_env"), Top, "shared_env")
      || NumberFaulty(p, fields) || ProbesFaulty(p, Get(fields, "harness_probes"))
    case _ => p == NotAnObject
  }

  // Field by field.

  lemma {:induction false} SettingsIff(p: ReadProblem, keys: seq<Key>, fields: map<string, Json>, place: Place,
                                      text: Text)
    ensures p in SettingProblems(keys, fields, place, text) <==>
            exists key :: key in keys && p in KeyProblems(key, fields, place, text)
  {
    hide KeyProblems;
    if keys != [] {
      var front, last := keys[..|keys| - 1], keys[|keys| - 1];
      SettingsIff(p, front, fields, place, text);
      Rejoined(keys);
      if key :| key in keys && p in KeyProblems(key, fields, place, text) { assert key in front || key == last; }
    }
  }

  lemma EnvFaults(p: ReadProblem, key: string, raw: map<string, Json>, place: Place, text: Text)
    ensures p in EnvField(key, raw, place, text).problems <==> EnvFaulty(p, Get(raw, key), place, key)
  {
    match Get(raw, key)
    case Obj(fields, keys) =>
      SettingsIff(p, keys, fields, place, text);
      if p == UnnamedSetting(place) && NotText in keys { assert p in KeyProblems(NotText, fields, place, text); }
      if EnvFaulty(p, Get(raw, key), place, key) && p.BadSetting? {
        assert p in KeyProblems(Word(p.setting), fields, place, text);
      }
    case _ =>
  }

  lemma TextFaults(p: ReadProblem, key: string, raw: map<string, Json>, place: Place)
    ensures p in StringField(key, raw, place).problems <==> TextFaulty(p, Get(raw, key), place, key)
  {
  }

  lemma FlagFaults(p: ReadProblem, raw: map<string, Json>, place: Place, text: Text)
    ensures p in BoolField("changed_files_enabled", raw, place, text).problems <==> FlagFaulty(p, raw, place, text)
  {
  }

  lemma ArmFaults(p: ReadProblem, fields: map<string, Json>, n: nat, text: Text)
    ensures p in ReadArm(fields, n, text).problems <==> ArmFaulty(p, fields, InArm(n), text)
  {
    hide StringField, BoolField, EnvField, TextFaulty, FlagFaulty, EnvFaulty;
    TextFaults(p, "arm_id", fields, InArm(n));
    TextFaults(p, "session_log_path", fields, InArm(n));
    FlagFaults(p, fields, InArm(n), text);
    EnvFaults(p, "env", fields, InArm(n), text);
  }

  lemma {:induction false} ItemsFaults(p: ReadProblem, items: seq<Json>, text: Text)
    ensures p in ReadArmList(items, text).problems <==> exists i: nat :: i < |items| && ItemFaulty(p, items, i, text)
  {
    hide ReadArm, ArmFaulty;
    if items != [] {
      var front, n := items[..|items| - 1], |items| - 1;
      ItemsFaults(p, front, text);
      forall i: nat | i < n ensures ItemFaulty(p, front, i, text) <==> ItemFaulty(p, items, i, text) {
        assert front[i] == items[i];
      }
      if items[n].Obj? { ArmFaults(p, items[n].fields, n + 1, text); }
      assert p in ReadArmList(items, text).problems <==>
             p in ReadArmList(front, text).problems || ItemFaulty(p, items, n, text);
    }
  }

  lemma ArmsFaults(p: ReadProblem, raw: map<string, Json>, text: Text)
    ensures p in ArmsField(raw, text).problems <==> ArmsFaulty(p, Get(raw, "arms"), text)
  {
    hide ReadArmList, ItemFaulty;
    match Get(raw, "arms")
    case List(items) => ItemsFaults(p, items, text);
    case _ =>
  }

  lemma NumberFaults(p: ReadProblem, raw: map<string, Json>)
    ensures NumberFaulty(p, raw) <==>
            || p in SecondsField("provider_request_timeout_seconds", raw).problems
            || p in SecondsField("harness_timeout_seconds", raw).problems
            || p in IntField("harness_repeat", raw, 1).problems
            || p in OptionalIntField("harness_max_tokens", raw).problems
  {
    hide Get;
  }

  lemma ProbesFaults(p: ReadProblem, raw: map<string, Json>)
    ensures p in StringList("harness_probes", raw).problems <==> ProbesFaulty(p, Get(raw, "harness_probes"))
  {
  }

  lemma FaultParts(p: ReadProblem, raw: map<string, Json>, text: Text)
    ensures p in ReadFields(raw, text).problems <==>
            || (p == SchemaMismatch && !IsSchema(raw)) || p in ArmsField(raw, text).problems
            || (p == RepeatMissing && Get(raw, "harness_repeat").Null?)
            || p in StringField("name", raw, Top).problems || p in StringField("worktree", raw, Top).problems
            || p in EnvField("shared_env", raw, Top, text).problems
            || p in SecondsField("provider_request_timeout_seconds", raw).problems
            || p in SecondsField("harness_timeout_seconds", raw).problems
            || p in StringList("harness_probes", raw).problems || p in IntField("harness_repeat", raw, 1).problems
            || p in OptionalIntField("harness_max_tokens", raw).problems
  {
    hide IsSchema, ArmsField, StringField, EnvField, SecondsField, StringList, IntField, OptionalIntField, Get;
  }

  lemma FieldsFaults(p: ReadProblem, fields: map<string, Json>, keys: seq<Key>, text: Text)
    ensures p in ReadFields(fields, text).problems <==> Faulty(p, Obj(fields, keys), text)
  {
    hide IsSchema, ArmsField, StringField, EnvField, SecondsField, StringList, IntField, OptionalIntField, Get;
    hide ReadFields, SchemaFits, ArmsFaulty, TextFaulty, EnvFaulty, NumberFaulty, ProbesFaulty;
    FaultParts(p, fields, text);
    SchemaIff(fields);
    ArmsFaults(p, fields, text);
    TextFaults(p, "name", fields, Top);
    TextFaults(p, "worktree", fields, Top);
    EnvFaults(p, "shared_env", fields, Top, text);
    NumberFaults(p, fields);
    ProbesFaults(p, fields);
  }

  /** A refused file is reported with exactly the problems it has, each at its place. */
  lemma FaultsIff(raw: Json, text: Text, p: ReadProblem)
    ensures ExperimentFromDict(raw, text).Err? && p in ExperimentFromDict(raw, text).problems <==> Faulty(p, raw, text)
  {
    hide ReadFields;
    match raw
    case Obj(fields, keys) =>
      hide Faulty;
      FieldsFaults(p, fields, keys, text);
    case _ =>
  }
}
