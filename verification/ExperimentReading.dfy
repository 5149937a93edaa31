/** Exactly what the reader of scripts/ab_launcher.py accepts, and what it makes of it. */
module ExperimentReading {
  import opened Names
  import opened ExperimentFile
  import opened Options

  ghost predicate AllSpace(s: string, text: Text) {
    forall i :: 0 <= i < |s| ==> text.space(s[i])
  }

  /** `core` is `s` without the white space around it. */
  ghost predicate Stripped(s: string, before: string, core: string, after: string, text: Text) {
    && s == before + core + after && AllSpace(before, text) && AllSpace(after, text)
    && (core != "" ==> !text.space(core[0]) && !text.space(core[|core| - 1]))
  }

  lemma {:induction false} StripIs(s: string, text: Text) returns (before: string, after: string)
    ensures Stripped(s, before, Strip(s, text), after, text)
  {
    before, after := "", "";
    if s != "" {
      if text.space(s[0]) {
        before, after := StripIs(s[1..], text);
        before := [s[0]] + before;
      } else if text.space(s[|s| - 1]) {
        before, after := StripIs(s[..|s| - 1], text);
        after := after + [s[|s| - 1]];
      }
    }
  }

  ghost predicate StringReads(v: Json, s: string) {
    v == Str(s) && s != ""
  }

  /** A missing flag is off; a text is read as one of the spellings of a boolean. */
  ghost predicate FlagReads(fields: map<string, Json>, flag: bool, text: Text) {
    if "changed_files_enabled" !in fields then !flag
    else
      match fields["changed_files_enabled"]
      case Bool(b) => flag == b
      case Str(s) =>
        var word := text.lower(Strip(s, text));
        if flag then word in {"true", "t", "yes", "y", "on", "1"} else word in {"false", "f", "no", "n", "off", "0"}
      case _ => false
  }

  ghost predicate SecondsRead(v: Json, seconds: Option<real>) {
    match v
    case Null => seconds == None
    case Int(i) => seconds == Some(i as real)
    case Float(r) => seconds == Some(r)
    case _ => false
  }

  ghost predicate TokensRead(v: Json, tokens: Option<int>) {
    match v
    case Null => tokens == None
    case Int(i) => tokens == Some(i)
    case _ => false
  }

  /** `kept` is the texts of a list without the empty ones, in order. */
  ghost predicate Keeps(items: seq<Json>, kept: seq<string>, at: seq<nat>) {
    && (forall i :: 0 <= i < |items| ==> items[i].Str?)
    && |at| == |kept|
    && (forall k :: 0 <= k < |at| ==> at[k] < |items| && items[at[k]] == Str(kept[k]) && kept[k] != "")
    && (forall k, l :: 0 <= k < l < |at| ==> at[k] < at[l])
    && (forall i: nat :: i < |items| && items[i] != Str("") ==> i in at)
  }

  ghost predicate ProbesRead(v: Json, probes: seq<string>) {
    match v
    case Null => probes == []
    case List(items) => exists at :: Keeps(items, probes, at)
    case _ => false
  }

  ghost predicate SettingReads(v: Json, value: string, text: Text) {
    match v
    case Bool(b) => value == if b then "true" else "false"
    case Int(i) => value == text.number(i as real)
    case Float(r) => value == text.number(r)
    case Str(s) => value == s
    case _ => false
  }

  /** Every key is a text whose value can be a setting, and the environment holds these settings and no others. */
  ghost predicate EnvReads(v: Json, env: map<string, string>, text: Text) {
    match v
    case Null => env == map[]
    case Obj(fields, keys) =>
      && (forall i :: 0 <= i < |keys| ==>
            keys[i].Word? && keys[i].word in env && SettingReads(Get(fields, keys[i].word), env[keys[i].word], text))
      && (forall name :: name in env ==> Word(name) in keys)
    case _ => false
  }

  ghost predicate ArmReads(v: Json, arm: Arm, text: Text) {
    && v.Obj?
    && StringReads(Get(v.fields, "arm_id"), arm.armId)
    && Get(v.fields, "port") == Int(arm.port)
    && StringReads(Get(v.fields, "session_log_path"), arm.sessionLogPath)
    && FlagReads(v.fields, arm.changedFilesEnabled, text)
    && EnvReads(Get(v.fields, "env"), arm.env, text)
  }

  ghost predicate EachArmReads(items: seq<Json>, arms: seq<Arm>, text: Text) {
    |items| == |arms| && forall i :: 0 <= i < |items| ==> ArmReads(items[i], arms[i], text)
  }

  ghost predicate SchemaFits(fields: map<string, Json>) {
    "schema" in fields ==> fields["schema"] in {Int(1), Float(1.0), Bool(true)}
  }

  /** The file says this experiment. */
  ghost predicate Reads(raw: Json, e: Experiment, text: Text) {
    && raw.Obj? && SchemaFits(raw.fields)
    && StringReads(Get(raw.fields, "name"), e.name) && StringReads(Get(raw.fields, "worktree"), e.worktree)
    && Get(raw.fields, "arms").List? && Get(raw.fields, "arms").items != []
    && EachArmReads(Get(raw.fields, "arms").items, e.arms, text)
    && EnvReads(Get(raw.fields, "shared_env"), e.sharedEnv, text)
    && SecondsRead(Get(raw.fields, "provider_request_timeout_seconds"), e.providerTimeout)
    && SecondsRead(Get(raw.fields, "harness_timeout_seconds"), e.harnessTimeout)
    && ProbesRead(Get(raw.fields, "harness_probes"), e.probes)
    && Get(raw.fields, "harness_repeat") == Int(e.repeat)
    && TokensRead(Get(raw.fields, "harness_max_tokens"), e.maxTokens)
  }

  // Field by field.

  lemma StringIff(key: string, raw: map<string, Json>, place: Place, s: string)
    ensures StringField(key, raw, place) == Read(s, []) <==> StringReads(Get(raw, key), s)
  {
  }

  lemma BooleansDiffer()
    ensures TRUE_VALUES * FALSE_VALUES == {}
  {
  }

  lemma FlagIff(raw: map<string, Json>, place: Place, text: Text, flag: bool)
    ensures BoolField("changed_files_enabled", raw, place, text) == Read(flag, []) <==> FlagReads(raw, flag, text)
  {
    BooleansDiffer();
  }

  lemma SecondsIff(key: string, raw: map<string, Json>, seconds: Option<real>)
    ensures SecondsField(key, raw) == Read(seconds, []) <==> SecondsRead(Get(raw, key), seconds)
  {
  }

  lemma TokensIff(key: string, raw: map<string, Json>, tokens: Option<int>)
    ensures OptionalIntField(key, raw) == Read(tokens, []) <==> TokensRead(Get(raw, key), tokens)
  {
  }

  lemma KeepsMore(items: seq<Json>, kept: seq<string>, at: seq<nat>, last: Json)
    requires Keeps(items, kept, at) && last.Str?
    ensures Keeps(items + [last], kept + (if last.s != "" then [last.s] else []),
                  at + (if last.s != "" then [|items|] else []))
  {
    var all := items + [last];
    forall i: nat | i < |all| && all[i] != Str("") ensures i in at + (if last.s != "" then [|items|] else []) {
      if i < |items| { assert items[i] != Str("") && i in at; }
    }
  }

  lemma {:induction false} KeptAt(items: seq<Json>) returns (at: seq<nat>)
    requires forall i :: 0 <= i < |items| ==> items[i].Str?
    ensures Keeps(items, KeptStrings(items), at)
  {
    at := [];
    if items != [] {
      var front, last := items[..|items| - 1], items[|items| - 1];
      var before := KeptAt(front);
      at := before + (if last.s != "" then [|items| - 1] else []);
      KeepsMore(front, KeptStrings(front), before, last);
      Rejoined(items);
    }
  }

  /** The next position of one list is not before that of the other. */
  lemma NotEarlier(items: seq<Json>, a: seq<string>, p: seq<nat>, b: seq<string>, q: seq<nat>, k: nat)
    requires Keeps(items, a, p) && Keeps(items, b, q) && k < |p| && k <= |q| && p[..k] == q[..k]
    ensures k < |q| && q[k] <= p[k]
  {
    assert items[p[k]] != Str("");
    var m :| 0 <= m < |q| && q[m] == p[k];
    forall i | 0 <= i < k ensures p[i] == q[i] { assert p[..k][i] == q[..k][i]; }
  }

  lemma {:induction false} EarlierSame(items: seq<Json>, a: seq<string>, p: seq<nat>, b: seq<string>, q: seq<nat>,
                                      k: nat)
    requires Keeps(items, a, p) && Keeps(items, b, q) && k <= |p| && k <= |q|
    ensures p[..k] == q[..k]
  {
    if k > 0 {
      EarlierSame(items, a, p, b, q, k - 1);
      NotEarlier(items, a, p, b, q, k - 1);
      NotEarlier(items, b, q, a, p, k - 1);
    }
  }

  lemma SamePositions(items: seq<Json>, a: seq<string>, p: seq<nat>, b: seq<string>, q: seq<nat>)
    requires Keeps(items, a, p) && Keeps(items, b, q)
    ensures a == b
  {
    var k := if |p| <= |q| then |p| else |q|;
    EarlierSame(items, a, p, b, q, k);
    if |p| > k { NotEarlier(items, a, p, b, q, k); }
    if |q| > k { NotEarlier(items, b, q, a, p, k); }
    forall i | 0 <= i < |a| ensures a[i] == b[i] { assert p[..k][i] == q[..k][i]; }
  }

  /** There is only one such list. */
  lemma {:induction false} KeepsOne(items: seq<Json>, a: seq<string>, p: seq<nat>, b: seq<string>, q: seq<nat>)
    requires Keeps(items, a, p) && Keeps(items, b, q)
    ensures a == b
  {
    SamePositions(items, a, p, b, q);
  }

  lemma ProbesIff(key: string, raw: map<string, Json>, probes: seq<string>)
    ensures StringList(key, raw) == Read(probes, []) <==> ProbesRead(Get(raw, key), probes)
  {
    match Get(raw, key)
    case List(items) =>
      if forall i :: 0 <= i < |items| ==> items[i].Str? {
        var at := KeptAt(items);
        if ProbesRead(Get(raw, key), probes) {
          var other :| Keeps(items, probes, other);
          KeepsOne(items, probes, other, KeptStrings(items), at);
        }
      }
    case _ =>
  }

  // Settings.

  lemma SettingIff(v: Json, value: string, text: Text)
    ensures Setting(v, text) == Some(value) <==> SettingReads(v, value, text)
  {
  }

  /** The first keys give these settings without a problem. */
  ghost predicate KeysRead(keys: seq<Key>, fields: map<string, Json>, env: map<string, string>, text: Text) {
    && (forall i :: 0 <= i < |keys| ==>
          keys[i].Word? && keys[i].word in env && Setting(Get(fields, keys[i].word), text) == Some(env[keys[i].word]))
    && (forall name :: name in env ==> Word(name) in keys)
  }

  lemma KeysReadMore(keys: seq<Key>, fields: map<string, Json>, env: map<string, string>, name: string, value: string,
                     text: Text)
    requires KeysRead(keys, fields, env, text) && Setting(Get(fields, name), text) == Some(value)
    ensures KeysRead(keys + [Word(name)], fields, env[name := value], text)
  {
    var all, more := keys + [Word(name)], env[name := value];
    forall n | n in more ensures Word(n) in all { if n != name { assert Word(n) in keys; } }
    assert all[|keys|] == Word(name);
  }

  ghost predicate AllSettings(keys: seq<Key>, fields: map<string, Json>, text: Text) {
    forall i :: 0 <= i < |keys| ==> keys[i].Word? && Setting(Get(fields, keys[i].word), text).Some?
  }

  lemma OneMoreKey(front: seq<Key>, last: Key, fields: map<string, Json>, text: Text)
    ensures AllSettings(front + [last], fields, text) <==>
            AllSettings(front, fields, text) && last.Word? && Setting(Get(fields, last.word), text).Some?
  {
    hide Setting, Get;
    assert (front + [last])[|front|] == last;
    assert forall i :: 0 <= i < |front| ==> (front + [last])[i] == front[i];
  }

  lemma KeyIff(key: Key, fields: map<string, Json>, place: Place, text: Text)
    ensures KeyProblems(key, fields, place, text) == [] <==>
            key.Word? && Setting(Get(fields, key.word), text).Some?
  {
  }

  lemma {:induction false} NoSettingProblemsIff(keys: seq<Key>, fields: map<string, Json>, place: Place, text: Text)
    ensures SettingProblems(keys, fields, place, text) == [] <==> AllSettings(keys, fields, text)
  {
    hide Setting, Get, KeyProblems;
    if keys != [] {
      var front, last := keys[..|keys| - 1], keys[|keys| - 1];
      NoSettingProblemsIff(front, fields, place, text);
      KeyIff(last, fields, place, text);
      hide AllSettings;
      OneMoreKey(front, last, fields, text);
      Rejoined(keys);
    }
  }

  lemma {:induction false} SettingsAreRead(keys: seq<Key>, fields: map<string, Json>, text: Text)
    requires AllSettings(keys, fields, text)
    ensures KeysRead(keys, fields, Settings(keys, fields, text), text)
  {
    hide Setting, Get;
    if keys != [] {
      var front, last := keys[..|keys| - 1], keys[|keys| - 1];
      Rejoined(keys);
      OneMoreKey(front, last, fields, text);
      SettingsAreRead(front, fields, text);
      hide KeysRead, AllSettings;
      KeysReadMore(front, fields, Settings(front, fields, text), last.word,
                   Setting(Get(fields, last.word), text).value, text);
    }
  }

  lemma ReadKeysAreSettings(keys: seq<Key>, fields: map<string, Json>, env: map<string, string>, text: Text)
    requires KeysRead(keys, fields, env, text)
    ensures AllSettings(keys, fields, text)
  {
    hide Setting, Get;
  }

  lemma SameSettings(keys: seq<Key>, fields: map<string, Json>, a: map<string, string>, b: map<string, string>,
                     text: Text)
    requires KeysRead(keys, fields, a, text) && KeysRead(keys, fields, b, text)
    ensures a == b
  {
    forall name ensures name in a <==> name in b {
      if name in a { var i :| 0 <= i < |keys| && keys[i] == Word(name); }
      if name in b { var i :| 0 <= i < |keys| && keys[i] == Word(name); }
    }
    forall name | name in a ensures a[name] == b[name] {
      var i :| 0 <= i < |keys| && keys[i] == Word(name);
    }
  }

  lemma KeysReadIff(keys: seq<Key>, fields: map<string, Json>, env: map<string, string>, text: Text)
    ensures KeysRead(keys, fields, env, text) <==> EnvReads(Obj(fields, keys), env, text)
  {
    forall i | 0 <= i < |keys| && keys[i].Word? && keys[i].word in env
      ensures Setting(Get(fields, keys[i].word), text) == Some(env[keys[i].word])
              <==> SettingReads(Get(fields, keys[i].word), env[keys[i].word], text)
    {
      SettingIff(Get(fields, keys[i].word), env[keys[i].word], text);
    }
  }

  lemma SettingsIff(keys: seq<Key>, fields: map<string, Json>, env: map<string, string>, place: Place, text: Text)
    ensures Settings(keys, fields, text) == env && SettingProblems(keys, fields, place, text) == [] <==>
            EnvReads(Obj(fields, keys), env, text)
  {
    hide *;
    NoSettingProblemsIff(keys, fields, place, text);
    KeysReadIff(keys, fields, env, text);
    if AllSettings(keys, fields, text) { SettingsAreRead(keys, fields, text); }
    if KeysRead(keys, fields, env, text) {
      ReadKeysAreSettings(keys, fields, env, text);
      SettingsAreRead(keys, fields, text);
      SameSettings(keys, fields, env, Settings(keys, fields, text), text);
    }
  }

  lemma EnvIff(key: string, raw: map<string, Json>, place: Place, text: Text, env: map<string, string>)
    ensures EnvField(key, raw, place, text) == Read(env, []) <==> EnvReads(Get(raw, key), env, text)
  {
    hide Settings, SettingProblems;
    match Get(raw, key)
    case Obj(fields, keys) => SettingsIff(keys, fields, env, place, text);
    case _ =>
  }

  /** Reading an arm finds nothing exactly when reading its fields does. */
  lemma ArmParts(fields: map<string, Json>, index: nat, text: Text)
    ensures var at := InArm(index);
            ReadArm(fields, index, text).problems == [] <==>
            && StringField("arm_id", fields, at).problems == [] && PortField("port", fields, at).problems == []
            && StringField("session_log_path", fields, at).problems == []
            && BoolField("changed_files_enabled", fields, at, text).problems == []
            && EnvField("env", fields, at, text).problems == []
  {
    hide StringField, PortField, BoolField, EnvField;
    var at := InArm(index);
    var id, port := StringField("arm_id", fields, at).problems, PortField("port", fields, at).problems;
    var log := StringField("session_log_path", fields, at).problems;
    var flag := BoolField("changed_files_enabled", fields, at, text).problems;
    var env := EnvField("env", fields, at, text).problems;
    assert |id + port + log + flag + env| == |id| + |port| + |log| + |flag| + |env|;
  }

  // Arms and the whole.

  lemma ArmIff(fields: map<string, Json>, keys: seq<Key>, index: nat, arm: Arm, text: Text)
    ensures ReadArm(fields, index, text) == Read(arm, []) <==> ArmReads(Obj(fields, keys), arm, text)
  {
    hide StringField, BoolField, EnvField, StringReads, FlagReads, EnvReads;
    StringIff("arm_id", fields, InArm(index), arm.armId);
    StringIff("session_log_path", fields, InArm(index), arm.sessionLogPath);
    FlagIff(fields, InArm(index), text, arm.changedFilesEnabled);
    EnvIff("env", fields, InArm(index), text, arm.env);
    ArmParts(fields, index, text);
  }

  lemma NotAnArm(item: Json, arm: Arm, text: Text)
    requires !item.Obj?
    ensures !ArmReads(item, arm, text)
  {
  }

  lemma LastSame<T>(a: seq<T>, x: T, b: seq<T>, y: T)
    requires a + [x] == b + [y]
    ensures a == b && x == y
  {
    assert a == (a + [x])[..|a|] && b == (b + [y])[..|b|];
    assert (a + [x])[|a|] == x && (b + [y])[|b|] == y;
  }

  lemma ArmListStep(items: seq<Json>, item: Json, arms: seq<Arm>, arm: Arm, text: Text)
    ensures ReadArmList(items + [item], text) == Read(arms + [arm], []) <==>
            ReadArmList(items, text) == Read(arms, []) && ArmReads(item, arm, text)
  {
    hide ReadArm, ArmReads;
    assert (items + [item])[..|items|] == items;
    var before := ReadArmList(items, text);
    match item
    case Obj(fields, keys) =>
      ArmIff(fields, keys, |items| + 1, arm, text);
      var read := ReadArm(fields, |items| + 1, text);
      if before.value + [read.value] == arms + [arm] { LastSame(before.value, read.value, arms, arm); }
    case _ => NotAnArm(item, arm, text);
  }

  /** A list that is read without a problem gives an arm for each item. */
  lemma {:induction false} SomeArmRead(items: seq<Json>, text: Text)
    ensures ReadArmList(items, text).problems == [] ==> |ReadArmList(items, text).value| == |items|
  {
    if items != [] { SomeArmRead(items[..|items| - 1], text); }
  }

  lemma {:induction false} ArmListIff(items: seq<Json>, arms: seq<Arm>, text: Text)
    ensures ReadArmList(items, text) == Read(arms, []) <==> EachArmReads(items, arms, text)
  {
    hide ArmReads, ReadArm;
    if items != [] && arms != [] {
      var front, armsFront := items[..|items| - 1], arms[..|arms| - 1];
      ArmListIff(front, armsFront, text);
      ArmListStep(front, items[|items| - 1], armsFront, arms[|arms| - 1], text);
      Rejoined(items);
      Rejoined(arms);
    } else if items != [] {
      SomeArmRead(items, text);
    }
  }

  lemma ArmsIff(raw: map<string, Json>, arms: seq<Arm>, text: Text)
    ensures ArmsField(raw, text) == Read(arms, []) <==>
            && Get(raw, "arms").List? && Get(raw, "arms").items != []
            && EachArmReads(Get(raw, "arms").items, arms, text)
  {
    hide ReadArmList, EachArmReads;
    match Get(raw, "arms")
    case List(items) => ArmListIff(items, arms, text);
    case _ =>
  }

  lemma SchemaIff(raw: map<string, Json>)
    ensures IsSchema(raw) <==> SchemaFits(raw)
  {
  }

  lemma RepeatIff(raw: map<string, Json>, repeat: int)
    ensures IntField("harness_repeat", raw, 1) == Read(repeat, []) && !Get(raw, "harness_repeat").Null?
            <==> Get(raw, "harness_repeat") == Int(repeat)
  {
  }

  /** Reading the fields finds nothing exactly when reading each of them does. */
  lemma FieldParts(raw: map<string, Json>, text: Text)
    ensures ReadFields(raw, text).problems == [] <==>
            && IsSchema(raw) && ArmsField(raw, text).problems == [] && !Get(raw, "harness_repeat").Null?
            && StringField("name", raw, Top).problems == [] && StringField("worktree", raw, Top).problems == []
            && EnvField("shared_env", raw, Top, text).problems == []
            && SecondsField("provider_request_timeout_seconds", raw).problems == []
            && SecondsField("harness_timeout_seconds", raw).problems == []
            && StringList("harness_probes", raw).problems == []
            && IntField("harness_repeat", raw, 1).problems == []
            && OptionalIntField("harness_max_tokens", raw).problems == []
  {
    hide IsSchema, ArmsField, StringField, EnvField, SecondsField, StringList, IntField, OptionalIntField, Get;
    var a := if IsSchema(raw) then [] else [SchemaMismatch];
    var b, c := ArmsField(raw, text).problems, if Get(raw, "harness_repeat").Null? then [RepeatMissing] else [];
    var d, f := StringField("name", raw, Top).problems, StringField("worktree", raw, Top).problems;
    var g, h := EnvField("shared_env", raw, Top, text).problems,
                SecondsField("provider_request_timeout_seconds", raw).problems;
    var i, j := SecondsField("harness_timeout_seconds", raw).problems, StringList("harness_probes", raw).problems;
    var k, l := IntField("harness_repeat", raw, 1).problems, OptionalIntField("harness_max_tokens", raw).problems;
    assert ReadFields(raw, text).problems == a + b + c + d + f + g + h + i + j + k + l;
    assert |a + b + c + d + f + g + h + i + j + k + l|
           == |a| + |b| + |c| + |d| + |f| + |g| + |h| + |i| + |j| + |k| + |l|;
  }

  lemma FieldsIff(raw: map<string, Json>, keys: seq<Key>, e: Experiment, text: Text)
    ensures ReadFields(raw, text) == Read(e, []) <==> Reads(Obj(raw, keys), e, text)
  {
    hide IsSchema, ArmsField, StringField, EnvField, SecondsField, StringList, IntField, OptionalIntField;
    hide StringReads, EnvReads, SecondsRead, TokensRead, ProbesRead, EachArmReads, SchemaFits, Get;
    FieldParts(raw, text);
    SchemaIff(raw);
    ArmsIff(raw, e.arms, text);
    StringIff("name", raw, Top, e.name);
    StringIff("worktree", raw, Top, e.worktree);
    EnvIff("shared_env", raw, Top, text, e.sharedEnv);
    SecondsIff("provider_request_timeout_seconds", raw, e.providerTimeout);
    SecondsIff("harness_timeout_seconds", raw, e.harnessTimeout);
    ProbesIff("harness_probes", raw, e.probes);
    RepeatIff(raw, e.repeat);
    TokensIff("harness_max_tokens", raw, e.maxTokens);
  }

  /** The reader accepts a file as an experiment if and only if the file says that experiment, field by field. */
  lemma ReadsIff(raw: Json, e: Experiment, text: Text)
    ensures ExperimentFromDict(raw, text) == Ok(e) <==> Reads(raw, e, text)
  {
    hide ReadFields;
    match raw
    case Obj(fields, keys) =>
      hide Reads;
      FieldsIff(fields, keys, e, text);
    case _ =>
  }
}
