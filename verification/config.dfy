/** Configuration (src/modules/configuration): environment lookup through a
    process-wide cache, the ConfigService accessors, the number transform,
    default setting and start-up validation of every mapped variable.

    `process.env` and the module-level cache of `getEnv` are the two maps of
    `EnvState`; every operation that reads the environment takes the state
    and returns the state after it. */
module Config {
  import opened Wrappers
  import opened Text

  datatype EnvState = EnvState(env: map<string, string>, cache: map<string, string>)

  /** A value paired with the state after the operation that produced it */
  datatype Step<T> = Step(result: T, state: EnvState)

  /** A transform's outcome: Failure when it throws, Success(None) for a
      null or undefined value */
  type Transform = Option<string> -> Result<Option<int>, string>

  /** One mapping entry: the variable name, whether it is required, and an
      optional transform */
  datatype ConfigEntry = ConfigEntry(env: string, required: bool, transform: Option<Transform>)

  /** One key of the mapping object and its entry, in declaration order */
  datatype Binding = Binding(key: string, entry: ConfigEntry)

  datatype ConfigError =
    | ConfigNotFound(message: string, key: string)   // ConfigNotFoundError
    | ConfigFailure(message: string)                  // any other thrown Error

  /** The mapping of src/modules/configuration/mapping.ts: every variable is
      required except DEBUG, and none has a transform */
  const SourceMapping: seq<Binding> := [
    Binding("serviceId", ConfigEntry("SERVICE_ID", true, None)),
    Binding("timezone", ConfigEntry("TZ", true, None)),
    Binding("redisUrl", ConfigEntry("REDIS_URL", true, None)),
    Binding("airtableApiBaseUrl", ConfigEntry("AIRTABLE_API_BASE_URL", true, None)),
    Binding("airtableApiKey", ConfigEntry("AIRTABLE_API_KEY", true, None)),
    Binding("airtableBaseId", ConfigEntry("AIRTABLE_BASE_ID", true, None)),
    Binding("airtableStartupsTableId", ConfigEntry("AIRTABLE_STARTUPS_TABLE_ID", true, None)),
    Binding("airtableUsersTableId", ConfigEntry("AIRTABLE_USERS_TABLE_ID", true, None)),
    Binding("jwtSecret", ConfigEntry("JWT_SECRET", true, None)),
    Binding("jwtIssuer", ConfigEntry("JWT_ISSUER", true, None)),
    Binding("jwtAudience", ConfigEntry("JWT_AUDIENCE", true, None)),
    Binding("isDebugMode", ConfigEntry("DEBUG", false, None))
  ]

  // ---------------------------------------------------------------------
  // getEnv, setDefaultEnvVar, transformNumber (util.ts)

  /** What getEnv returns for `name` in state `s` */
  function Effective(s: EnvState, name: string): Option<string> {
    if name in s.cache then Some(s.cache[name])
    else if name in s.env then Some(s.env[name])
    else None
  }

  /** getEnv: `envCache[name] ??= process.env[name]`. A defined value is cached
      on first read; an undefined read leaves the cache as it was. */
  function GetEnv(s: EnvState, name: string): (r: Step<Option<string>>)
    ensures r.result == Effective(s, name)
    ensures r.state.env == s.env
    ensures forall n :: Effective(r.state, n) == Effective(s, n)
    ensures r.result.Some? ==> name in r.state.cache && r.state.cache[name] == r.result.value
    ensures r.result.None? ==> r.state == s
  {
    if name in s.cache then Step(Some(s.cache[name]), s)
    else if name in s.env then Step(Some(s.env[name]), s.(cache := s.cache[name := s.env[name]]))
    else Step(None, s)
  }

  /** setDefaultEnvVar: `process.env[name] ??= value` */
  function SetDefaultEnvVar(s: EnvState, name: string, value: string): (r: EnvState)
    ensures name in s.env ==> r == s
    ensures name !in s.env ==> r.env == s.env[name := value] && r.cache == s.cache
  {
    if name in s.env then s else s.(env := s.env[name := value])
  }

  /** transformNumber: a missing or empty value is "not set"; otherwise
      `parseInt(value, 10)`, where NaN is "not a number" */
  function TransformNumber(envKey: string, value: Option<string>): (r: Result<int, string>)
    ensures value.None? || value == Some("") ==> r == Failure(envKey + " is not set")
    ensures value.Some? && value.value != "" ==>
      (r.Success? <==> ParseInt(value.value).Some?)
      && (r.Success? ==> r.value == ParseInt(value.value).value)
      && (r.Failure? ==> r.error == envKey + " is not a number")
  {
    if value.None? || value.value == "" then Failure(envKey + " is not set")
    else
      match ParseInt(value.value)
      case None => Failure(envKey + " is not a number")
      case Some(n) => Success(n)
  }

  // ---------------------------------------------------------------------
  // ConfigService (config.service.ts)

  /** The entry a key is bound to */
  function Lookup(m: seq<Binding>, key: string): (r: Option<ConfigEntry>)
    ensures r.Some? <==> exists i :: 0 <= i < |m| && m[i].key == key
  {
    if |m| == 0 then None
    else if m[0].key == key then Some(m[0].entry)
    else
      var rest := Lookup(m[1..], key);
      assert forall i :: 1 <= i < |m| ==> m[i] == m[1..][i - 1];
      rest
  }

  /** The non-empty value among `first` and `second`, in that order: the
      JavaScript `first || second || null` over optional strings */
  function OrElse(first: Option<string>, second: Option<string>): (r: Option<string>)
    ensures r.Some? ==> r.value != ""
    ensures first.Some? && first.value != "" ==> r == first
    ensures !(first.Some? && first.value != "") ==> (second.Some? && second.value != "" ==> r == second)
    ensures r.None? ==> (first.None? || first.value == "") && (second.None? || second.value == "")
  {
    if first.Some? && first.value != "" then first
    else if second.Some? && second.value != "" then second
    else None
  }

  /** get(key, defaultValue): the variable if non-empty, else the default if
      non-empty, else null */
  function Get(s: EnvState, m: seq<Binding>, key: string, default: Option<string>): (r: Step<Option<string>>)
    requires Lookup(m, key).Some?
    ensures r.result.Some? ==> r.result.value != ""
    ensures r.result == OrElse(Effective(s, Lookup(m, key).value.env), default)
    ensures forall n :: Effective(r.state, n) == Effective(s, n)
  {
    var read := GetEnv(s, Lookup(m, key).value.env);
    Step(OrElse(read.result, default), read.state)
  }

  /** getRequired(key): the value of get(key), or ConfigNotFoundError */
  function GetRequired(s: EnvState, m: seq<Binding>, key: string): (r: Step<Result<string, ConfigError>>)
    requires Lookup(m, key).Some?
    ensures var v := Effective(s, Lookup(m, key).value.env);
      && (r.result.Success? <==> v.Some? && v.value != "")
      && (r.result.Success? ==> r.result.value == v.value)
      && (r.result.Failure? ==>
            r.result.error == ConfigNotFound("Missing required environment variable: " + key, key))
    ensures forall n :: Effective(r.state, n) == Effective(s, n)
  {
    var got := Get(s, m, key, None);
    match got.result
    case Some(v) => Step(Success(v), got.state)
    case None => Step(Failure(ConfigNotFound("Missing required environment variable: " + key, key)), got.state)
  }

  /** getTransformed(key): throws for a key without a transform, otherwise
      applies the transform to get(key) */
  function GetTransformed(s: EnvState, m: seq<Binding>, key: string): (r: Step<Result<Option<int>, ConfigError>>)
    requires Lookup(m, key).Some?
    ensures Lookup(m, key).value.transform.None? ==>
      r == Step(Failure(ConfigFailure("No transformation function found for key: " + key)), s)
    ensures Lookup(m, key).value.transform.Some? ==>
      var out := Lookup(m, key).value.transform.value(OrElse(Effective(s, Lookup(m, key).value.env), None));
      && (r.result.Success? <==> out.Success?)
      && (out.Success? ==> r.result.value == out.value)
      && (out.Failure? ==> r.result.error == ConfigFailure(out.error))
  {
    var entry := Lookup(m, key).value;
    match entry.transform
    case None => Step(Failure(ConfigFailure("No transformation function found for key: " + key)), s)
    case Some(f) =>
      var got := Get(s, m, key, None);
      match f(got.result)
      case Failure(e) => Step(Failure(ConfigFailure(e)), got.state)
      case Success(v) => Step(Success(v), got.state)
  }

  /** getNamespacedKey(key, namespace = 'default', delimiter = ':'): the
      service id, namespace and key joined by the delimiter. Absent
      arguments take their defaults. */
  function GetNamespacedKey(s: EnvState, m: seq<Binding>, key: string,
                            namespace: Option<string>, delimiter: Option<string>): (r: Step<Result<string, ConfigError>>)
    requires Lookup(m, "serviceId").Some?
    ensures r.result.Success? <==> GetRequired(s, m, "serviceId").result.Success?
    ensures r.result.Success? ==>
      var d := delimiter.GetOr(":");
      r.result.value == GetRequired(s, m, "serviceId").result.value + d + namespace.GetOr("default") + d + key
  {
    var service := GetRequired(s, m, "serviceId");
    match service.result
    case Failure(e) => Step(Failure(e), service.state)
    case Success(name) =>
      var d := delimiter.GetOr(":");
      Step(Success(name + d + namespace.GetOr("default") + d + key), service.state)
  }

  /** isDebugMode: the value of the debug key, lower-cased, is exactly "true" */
  function IsDebugMode(s: EnvState, m: seq<Binding>): (r: Step<bool>)
    requires Lookup(m, "isDebugMode").Some?
    ensures var v := Effective(s, Lookup(m, "isDebugMode").value.env);
      r.result <==> v.Some? && Lower(v.value) == "true"
  {
    var got := Get(s, m, "isDebugMode", None);
    Step(got.result.Some? && Lower(got.result.value) == "true", got.state)
  }

  // ---------------------------------------------------------------------
  // validateEnvVars (index.ts)

  datatype EntryStatus = Defined | Missing | Invalid

  /** How one entry is classified from the value getEnv returns for it: a
      throwing transform is invalid; a null or undefined (transformed) value
      is missing. An empty string without a transform is defined. */
  function StatusOf(entry: ConfigEntry, value: Option<string>): EntryStatus {
    match entry.transform
    case None => if value.None? then Missing else Defined
    case Some(f) =>
      match f(value)
      case Failure(_) => Invalid
      case Success(v) => if v.None? then Missing else Defined
  }

  /** The four name lists the validation collects */
  datatype Problems = Problems(
    missingRequired: seq<string>,
    missingOptional: seq<string>,
    invalidRequired: seq<string>,
    invalidOptional: seq<string>)

  /** Whether an entry belongs in the list for (required, status) */
  predicate Selected(s: EnvState, e: ConfigEntry, required: bool, status: EntryStatus) {
    e.required == required && StatusOf(e, Effective(s, e.env)) == status
  }

  /** The names of the selected entries, in mapping order */
  function Names(s: EnvState, values: seq<ConfigEntry>, required: bool, status: EntryStatus): seq<string>
    decreases |values|
  {
    if |values| == 0 then []
    else
      var last := values[|values| - 1];
      Names(s, values[..|values| - 1], required, status)
      + (if Selected(s, last, required, status) then [last.env] else [])
  }

  /** The lists after classifying `values` against state `s` */
  function Classify(s: EnvState, values: seq<ConfigEntry>): Problems {
    Problems(
      Names(s, values, true, Missing),
      Names(s, values, false, Missing),
      Names(s, values, true, Invalid),
      Names(s, values, false, Invalid))
  }

  /** Adds one entry's name to the list its status and requiredness select */
  function Record(p: Problems, entry: ConfigEntry, status: EntryStatus): Problems {
    match status
    case Defined => p
    case Missing =>
      if entry.required then p.(missingRequired := p.missingRequired + [entry.env])
      else p.(missingOptional := p.missingOptional + [entry.env])
    case Invalid =>
      if entry.required then p.(invalidRequired := p.invalidRequired + [entry.env])
      else p.(invalidOptional := p.invalidOptional + [entry.env])
  }

  datatype EnvCheck = Throws(message: string) | Warns(message: string) | Clean

  /** The verdict: any required problem throws, listing missing names before
      invalid ones; otherwise any optional problem is a warning */
  function Verdict(p: Problems): EnvCheck {
    if |p.missingRequired| > 0 || |p.invalidRequired| > 0 then
      Throws("Missing or invalid required environment variables: " + Join(p.missingRequired + p.invalidRequired, ", "))
    else if |p.missingOptional| > 0 || |p.invalidOptional| > 0 then
      Warns("Warning: Missing or invalid environment variables: " + Join(p.missingOptional + p.invalidOptional, ", "))
    else Clean
  }

  /** validateEnvVars over the mapped entries, reading each through getEnv */
  method ValidateEnvVars(s: EnvState, values: seq<ConfigEntry>) returns (check: EnvCheck, after: EnvState)
    ensures check == Verdict(Classify(s, values))
    ensures forall n :: Effective(after, n) == Effective(s, n)
  {
    var problems := Problems([], [], [], []);
    var st := s;
    var k := 0;
    while k < |values|
      invariant 0 <= k <= |values|
      invariant forall n :: Effective(st, n) == Effective(s, n)
      invariant problems == Classify(s, values[..k])
    {
      var entry := values[k];
      var read := GetEnv(st, entry.env);
      st := read.state;
      assert values[..k + 1][..k] == values[..k];
      problems := Record(problems, entry, StatusOf(entry, read.result));
      k := k + 1;
    }
    assert values[..|values|] == values;
    check := Verdict(problems);
    after := st;
  }

  // ---------------------------------------------------------------------
  // Lemmas

  /** Once a defined value is read, later changes to the environment are not
      seen for that name */
  lemma GetEnvCachesFirstValue(s: EnvState, name: string, newEnv: map<string, string>)
    requires GetEnv(s, name).result.Some?
    ensures GetEnv(GetEnv(s, name).state.(env := newEnv), name).result == GetEnv(s, name).result
  {
  }

  /** An undefined read is not cached: a value set afterwards is seen */
  lemma UndefinedReadNotCached(s: EnvState, name: string, value: string)
    requires GetEnv(s, name).result.None?
    ensures GetEnv(SetDefaultEnvVar(GetEnv(s, name).state, name, value), name).result == Some(value)
  {
  }

  /** setDefaultEnvVar never overwrites, and applying it twice is applying it once */
  lemma SetDefaultNeverOverwrites(s: EnvState, name: string, v1: string, v2: string)
    ensures name in s.env ==> SetDefaultEnvVar(s, name, v1).env[name] == s.env[name]
    ensures SetDefaultEnvVar(SetDefaultEnvVar(s, name, v1), name, v2) == SetDefaultEnvVar(s, name, v1)
  {
  }

  /** transformNumber reads back every integer's decimal text, "3000" among them */
  lemma TransformNumberOfDecimal(envKey: string, n: int)
    ensures TransformNumber(envKey, Some(IntToString(n))) == Success(n)
    ensures TransformNumber(envKey, Some("3000")) == Success(3000)
  {
    ParseIntOfIntToString(n);
    ParseIntOfIntToString(3000);
    assert IntToString(3000) == "3000" by {
      assert NatToString(3) == "3";
      assert NatToString(30) == "30";
      assert NatToString(300) == "300";
    }
  }

  /** A value without a leading integer is "not a number" */
  lemma TransformNumberRejectsText(envKey: string)
    ensures TransformNumber(envKey, Some("abc")) == Failure(envKey + " is not a number")
  {
    assert TrimStart("abc") == "abc";
    assert Unsigned("abc") == "abc";
  }

  /** A leading integer is enough: the rest of the text is ignored */
  lemma TransformNumberReadsPrefix(envKey: string)
    ensures TransformNumber(envKey, Some("12px")) == Success(12)
  {
    assert TrimStart("12px") == "12px";
    assert Unsigned("12px") == "12px";
    DigitPrefixOf12px();
    DigitsValueOf12();
  }

  lemma DigitPrefixOf12px()
    ensures DigitPrefix("12px") == "12"
  {
    assert DigitPrefix("px") == "";
    assert "2px"[1..] == "px";
    assert DigitPrefix("2px") == "2";
    assert "12px"[1..] == "2px";
  }

  lemma DigitsValueOf12()
    ensures DigitsValue("12") == 12
  {
    assert DigitsValue("1") == 1 by {
      assert "1"[..0] == "";
    }
    assert "12"[..1] == "1";
  }

  /** get treats an empty variable as missing and falls back to the default */
  lemma EmptyCountsAsMissing(s: EnvState, m: seq<Binding>, key: string, default: string)
    requires Lookup(m, key).Some? && default != ""
    requires Effective(s, Lookup(m, key).value.env) == Some("")
    ensures Get(s, m, key, Some(default)).result == Some(default)
    ensures Get(s, m, key, None).result.None?
    ensures GetRequired(s, m, key).result.Failure?
  {
  }

  /** With no arguments the namespaced key is service:default:key, and a
      one-character delimiter absent from the parts splits it back */
  lemma NamespacedKeySplits(s: EnvState, m: seq<Binding>, key: string, namespace: string, d: char)
    requires Lookup(m, "serviceId").Some?
    requires GetRequired(s, m, "serviceId").result.Success?
    requires var service := GetRequired(s, m, "serviceId").result.value;
      d !in service && d !in namespace && d !in key
    ensures var service := GetRequired(s, m, "serviceId").result.value;
      Split(GetNamespacedKey(s, m, key, Some(namespace), Some([d])).result.value, d) == [service, namespace, key]
    ensures GetNamespacedKey(s, m, key, None, None).result.value ==
      GetRequired(s, m, "serviceId").result.value + ":default:" + key
  {
    var service := GetRequired(s, m, "serviceId").result.value;
    SplitThree(service, namespace, key, d);
  }

  /** Debug mode needs exactly "true" up to ASCII case */
  lemma DebugModeExamples(s: EnvState, m: seq<Binding>)
    requires Lookup(m, "isDebugMode").Some?
    ensures Effective(s, Lookup(m, "isDebugMode").value.env) == Some("TRUE") ==> IsDebugMode(s, m).result
    ensures Effective(s, Lookup(m, "isDebugMode").value.env) == Some(" true") ==> !IsDebugMode(s, m).result
    ensures Effective(s, Lookup(m, "isDebugMode").value.env).None? ==> !IsDebugMode(s, m).result
  {
    assert Lower("TRUE") == "true";
    assert Lower(" true")[0] == ' ';
  }

  /** A name is in a list exactly when some entry of that name is selected
      for it */
  lemma {:induction false} NamesMembership(s: EnvState, values: seq<ConfigEntry>, required: bool, status: EntryStatus, n: string)
    ensures n in Names(s, values, required, status) <==>
      exists j :: 0 <= j < |values| && values[j].env == n && Selected(s, values[j], required, status)
    decreases |values|
  {
    if |values| > 0 {
      var init := values[..|values| - 1];
      NamesMembership(s, init, required, status, n);
      forall j | 0 <= j < |init| ensures init[j] == values[j] { }
      if exists j :: 0 <= j < |values| && values[j].env == n && Selected(s, values[j], required, status) {
        var j :| 0 <= j < |values| && values[j].env == n && Selected(s, values[j], required, status);
        if j < |init| {
          assert init[j].env == n && Selected(s, init[j], required, status);
        }
      }
    }
  }

  /** Each list keeps mapping order: the names of two consecutive runs of
      entries are the names of the first run followed by those of the second */
  lemma {:induction false} NamesConcat(s: EnvState, v1: seq<ConfigEntry>, v2: seq<ConfigEntry>, required: bool, status: EntryStatus)
    ensures Names(s, v1 + v2, required, status) == Names(s, v1, required, status) + Names(s, v2, required, status)
    decreases |v2|
  {
    if |v2| > 0 {
      var last := v2[|v2| - 1];
      assert (v1 + v2)[..|v1 + v2| - 1] == v1 + v2[..|v2| - 1];
      NamesConcat(s, v1, v2[..|v2| - 1], required, status);
    } else {
      assert v1 + v2 == v1;
    }
  }

  /** A list is non-empty exactly when some entry is selected for it */
  lemma NamesNonEmpty(s: EnvState, values: seq<ConfigEntry>, required: bool, status: EntryStatus)
    ensures |Names(s, values, required, status)| > 0 <==>
      exists j :: 0 <= j < |values| && Selected(s, values[j], required, status)
  {
    var names := Names(s, values, required, status);
    if |names| > 0 {
      NamesMembership(s, values, required, status, names[0]);
    }
    if exists j :: 0 <= j < |values| && Selected(s, values[j], required, status) {
      var j :| 0 <= j < |values| && Selected(s, values[j], required, status);
      NamesMembership(s, values, required, status, values[j].env);
    }
  }

  /** validateEnvVars throws exactly when some required entry is missing or
      invalid, and is clean exactly when every entry is defined */
  lemma VerdictCharacterised(s: EnvState, values: seq<ConfigEntry>)
    ensures Verdict(Classify(s, values)).Throws? <==>
      exists i :: 0 <= i < |values| && values[i].required && StatusOf(values[i], Effective(s, values[i].env)) != Defined
    ensures Verdict(Classify(s, values)) == Clean <==>
      forall i :: 0 <= i < |values| ==> StatusOf(values[i], Effective(s, values[i].env)) == Defined
  {
    NamesNonEmpty(s, values, true, Missing);
    NamesNonEmpty(s, values, false, Missing);
    NamesNonEmpty(s, values, true, Invalid);
    NamesNonEmpty(s, values, false, Invalid);
    if exists i :: 0 <= i < |values| && values[i].required && StatusOf(values[i], Effective(s, values[i].env)) != Defined {
      var i :| 0 <= i < |values| && values[i].required && StatusOf(values[i], Effective(s, values[i].env)) != Defined;
      assert Selected(s, values[i], true, StatusOf(values[i], Effective(s, values[i].env)));
    }
    if !(forall i :: 0 <= i < |values| ==> StatusOf(values[i], Effective(s, values[i].env)) == Defined) {
      var i :| 0 <= i < |values| && StatusOf(values[i], Effective(s, values[i].env)) != Defined;
      assert Selected(s, values[i], values[i].required, StatusOf(values[i], Effective(s, values[i].env)));
    }
  }

  /** Problems with optional entries alone never throw */
  lemma OptionalProblemsOnlyWarn(s: EnvState, values: seq<ConfigEntry>)
    requires forall i :: 0 <= i < |values| && values[i].required ==>
      StatusOf(values[i], Effective(s, values[i].env)) == Defined
    ensures !Verdict(Classify(s, values)).Throws?
  {
    VerdictCharacterised(s, values);
  }

  /** Every variable of the source mapping is required except DEBUG, and
      none has a transform */
  lemma SourceMappingShape()
    ensures forall i :: 0 <= i < |SourceMapping| ==> SourceMapping[i].entry.transform.None?
    ensures forall i :: 0 <= i < |SourceMapping| ==>
      (SourceMapping[i].entry.required <==> SourceMapping[i].entry.env != "DEBUG")
  {
  }
}
