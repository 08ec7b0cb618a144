/** Configuration loading of `config.py`: built-in defaults, overridden by the
    `app`, `llm` and `detector` sections of `config.yaml`, overridden in turn by three
    environment variables. A YAML mapping is a `Section` of dynamic values; a section
    only ever overwrites keys the configuration object already has. */
module Config {
  import opened Results
  import opened Packets

  /** One configuration object (a dataclass instance), field name to value. */
  type Section = map<string, Value>

  /** A top-level entry of the YAML document: a mapping with string keys, a mapping
      with some key that is not a string (`2:`, or `on:` which YAML 1.1 reads as
      true), or any other value (null, a list, a scalar). */
  datatype Node = Mapping(section: Section) | NonStringKeys | NotMapping

  /** What `yaml.safe_load` returns: a mapping of top-level keys, a falsy value
      (null, an empty list, 0, ""), or another truthy value such as a list. */
  datatype Document = Top(entries: map<string, Node>) | Falsy | OtherTruthy

  const AppDefaults: Section := map[
    "db_url" := VStr("sqlite+aiosqlite:///./gateway_guard.db"),
    "host" := VStr("0.0.0.0"),
    "port" := VInt(8000),
    "debug" := VBool(true)]

  const LlmDefaults: Section := map[
    "provider" := VStr("openai"),
    "openai_api_key" := VStr(""),
    "openai_base_url" := VStr("https://api.openai.com/v1"),
    "openai_model" := VStr("gpt-4o-mini"),
    "ollama_base_url" := VStr("http://localhost:11434"),
    "ollama_model" := VStr("qwen2.5:7b"),
    "max_tokens" := VInt(2048),
    "temperature" := VReal(0.3)]

  const DetectorDefaults: Section := map[
    "rule_enabled" := VBool(true),
    "ml_enabled" := VBool(true),
    "frequency_threshold" := VReal(3.0),
    "iforest_contamination" := VReal(0.05),
    "anomaly_window_size" := VInt(100)]

  /** The loaded configuration: the application object and its two nested objects. */
  datatype AppConfig = AppConfig(app: Section, llm: Section, detector: Section)

  /** `_apply_section`: every key of `section` the target already has is overwritten;
      unknown keys are ignored. */
  function ApplySection(target: Section, section: Section): (r: Section)
    ensures r.Keys == target.Keys
  {
    map k | k in target.Keys :: if k in section then section[k] else target[k]
  }

  /** Applying a section twice is the same as applying it once. */
  lemma ApplySectionIdempotent(target: Section, section: Section)
    ensures ApplySection(ApplySection(target, section), section) == ApplySection(target, section)
  {
  }

  /** A key the section sets is taken from the section; every other key keeps its value. */
  lemma ApplySectionOverrides(target: Section, section: Section)
    ensures forall k :: k in target && k in section ==> ApplySection(target, section)[k] == section[k]
    ensures forall k :: k in target && k !in section ==> ApplySection(target, section)[k] == target[k]
    ensures section.Keys !! target.Keys ==> ApplySection(target, section) == target
  {
  }

  /** `data.get(name, {})` ready for `.items()`: an absent key reads as an empty
      section, and a value that is not a mapping has no `items`. */
  function SectionOf(doc: map<string, Node>, name: string): (r: Result<Section>)
    ensures r.Success? <==> SectionReadable(doc, name)
    ensures r.Failure? ==> (r.error.AttributeError? <==> doc[name].NotMapping?)
    ensures r.Failure? ==> (r.error.TypeError? <==> doc[name].NonStringKeys?)
    ensures name !in doc ==> r == Success(map[])
  {
    if name !in doc then Success(map[])
    else match doc[name]
      case Mapping(section) => Success(section)
      case NonStringKeys => Failure(TypeError("attribute name must be string"))
      case NotMapping => Failure(AttributeError("object has no attribute 'items'"))
  }

  predicate SectionReadable(doc: map<string, Node>, name: string) {
    name in doc ==> doc[name].Mapping?
  }

  /** A document `load_config` can read: absent or falsy (read as `{}`), or a mapping
      whose three sections, where present, are mappings. */
  predicate Readable(file: Option<Document>) {
    || file.None?
    || file.value.Falsy?
    || (&& file.value.Top?
        && SectionReadable(file.value.entries, "app")
        && SectionReadable(file.value.entries, "llm")
        && SectionReadable(file.value.entries, "detector"))
  }

  /** `os.getenv(name)` taken only when set and non-empty. */
  function EnvOverride(section: Section, key: string, env: map<string, string>, name: string): (r: Section)
    requires key in section
    ensures r.Keys == section.Keys
  {
    if name in env && env[name] != "" then section[key := VStr(env[name])] else section
  }

  /** `load_config`: defaults, then the YAML sections (an absent or falsy file reads
      as an empty document), then `OPENAI_API_KEY`, `LLM_PROVIDER` and `OLLAMA_URL`.
      A truthy document that is not a mapping has no `get`, and a present section
      that is not a mapping has no `items`: both raise AttributeError. A section key
      that is not a string makes `hasattr` raise TypeError. */
  function LoadConfig(file: Option<Document>, env: map<string, string>): (r: Result<AppConfig>)
    ensures r.Success? <==> Readable(file)
    ensures r.Failure? ==> r.error.AttributeError? || r.error.TypeError?
    ensures file == Some(OtherTruthy) ==> r.Failure? && r.error.AttributeError?
    ensures file.Some? && file.value.Top? && "app" in file.value.entries && file.value.entries["app"].NonStringKeys? ==>
      r == Failure(TypeError("attribute name must be string"))
    ensures r.Failure? && r.error.TypeError? ==>
      file.Some? && file.value.Top? && exists name :: name in file.value.entries && file.value.entries[name].NonStringKeys?
    ensures r.Success? ==>
      && r.value.app.Keys == AppDefaults.Keys
      && r.value.llm.Keys == LlmDefaults.Keys
      && r.value.detector.Keys == DetectorDefaults.Keys
  {
    var doc :- DocumentEntries(file);
    var appData :- SectionOf(doc, "app");
    var app := ApplySection(AppDefaults, appData);
    var llmData :- SectionOf(doc, "llm");
    var llm := ApplySection(LlmDefaults, llmData);
    var detectorData :- SectionOf(doc, "detector");
    var detector := ApplySection(DetectorDefaults, detectorData);
    var llm := EnvOverride(llm, "openai_api_key", env, "OPENAI_API_KEY");
    var llm := EnvOverride(llm, "provider", env, "LLM_PROVIDER");
    var llm := EnvOverride(llm, "ollama_base_url", env, "OLLAMA_URL");
    Success(AppConfig(app, llm, detector))
  }

  /** `_load_yaml() or {}` read as a mapping of top-level entries. */
  function DocumentEntries(file: Option<Document>): (r: Result<map<string, Node>>)
    ensures r.Success? <==> file.None? || !file.value.OtherTruthy?
    ensures r.Failure? ==> r.error.AttributeError?
    ensures r.Success? && file.Some? && file.value.Top? ==> r.value == file.value.entries
    ensures r.Success? && !(file.Some? && file.value.Top?) ==> r.value == map[]
  {
    if file.None? then Success(map[])
    else match file.value
      case Top(entries) => Success(entries)
      case Falsy => Success(map[])
      case OtherTruthy => Failure(AttributeError("object has no attribute 'get'"))
  }

  /** A `detector:` key whose entries are all commented out loads as null, and the
      configuration cannot be loaded; nor can it with an `on:` key in that section. */
  lemma NullSectionRaises(env: map<string, string>)
    ensures LoadConfig(Some(Top(map["detector" := NotMapping])), env).Failure?
    ensures LoadConfig(Some(OtherTruthy), env).Failure?
    ensures LoadConfig(Some(Top(map["detector" := NonStringKeys])), env)
      == Failure(TypeError("attribute name must be string"))
  {
    assert !SectionReadable(map["detector" := NotMapping], "detector");
  }

  /** Without a file and without environment overrides the configuration is the
      built-in defaults. */
  lemma LoadConfigDefaults(env: map<string, string>)
    requires forall name :: name in env ==> env[name] == ""
    ensures LoadConfig(None, env) == Success(AppConfig(AppDefaults, LlmDefaults, DetectorDefaults))
    ensures LoadConfig(Some(Falsy), env) == LoadConfig(None, env)
  {
    ApplySectionOverrides(AppDefaults, map[]);
    ApplySectionOverrides(LlmDefaults, map[]);
    ApplySectionOverrides(DetectorDefaults, map[]);
    EnvOverrideSpec(LlmDefaults, "openai_api_key", env, "OPENAI_API_KEY");
    EnvOverrideSpec(LlmDefaults, "provider", env, "LLM_PROVIDER");
    EnvOverrideSpec(LlmDefaults, "ollama_base_url", env, "OLLAMA_URL");
  }

  /** The environment wins over the file: a non-empty environment variable fixes its
      field whatever the YAML says, and a YAML value reaches a field no variable
      overrides. */
  lemma LoadConfigPrecedence(file: Option<Document>, env: map<string, string>)
    requires Readable(file)
    ensures var c := LoadConfig(file, env).value;
      && ("OPENAI_API_KEY" in env && env["OPENAI_API_KEY"] != "" ==> c.llm["openai_api_key"] == VStr(env["OPENAI_API_KEY"]))
      && ("LLM_PROVIDER" in env && env["LLM_PROVIDER"] != "" ==> c.llm["provider"] == VStr(env["LLM_PROVIDER"]))
      && ("OLLAMA_URL" in env && env["OLLAMA_URL"] != "" ==> c.llm["ollama_base_url"] == VStr(env["OLLAMA_URL"]))
      && (file.Some? && file.value.Top? && "detector" in file.value.entries ==>
            var section := file.value.entries["detector"].section;
            forall k :: k in DetectorDefaults && k in section ==> c.detector[k] == section[k])
      && (file.Some? && file.value.Top? && "llm" in file.value.entries
            && "openai_model" in file.value.entries["llm"].section ==>
            c.llm["openai_model"] == file.value.entries["llm"].section["openai_model"])
  {
    var doc := DocumentEntries(file).value;
    var llmData, detectorData := SectionOf(doc, "llm").value, SectionOf(doc, "detector").value;
    var llm0 := ApplySection(LlmDefaults, llmData);
    var llm1 := EnvOverride(llm0, "openai_api_key", env, "OPENAI_API_KEY");
    var llm2 := EnvOverride(llm1, "provider", env, "LLM_PROVIDER");
    var llm3 := EnvOverride(llm2, "ollama_base_url", env, "OLLAMA_URL");
    var c := LoadConfig(file, env).value;
    assert c.llm == llm3 && c.detector == ApplySection(DetectorDefaults, detectorData) by {
      LoadConfigUnfold(file, env);
    }
    EnvOverrideSpec(llm0, "openai_api_key", env, "OPENAI_API_KEY");
    EnvOverrideSpec(llm1, "provider", env, "LLM_PROVIDER");
    EnvOverrideSpec(llm2, "ollama_base_url", env, "OLLAMA_URL");
    ApplySectionOverrides(LlmDefaults, llmData);
    ApplySectionOverrides(DetectorDefaults, detectorData);
    if file.Some? && file.value.Top? && "detector" in file.value.entries {
      assert detectorData == file.value.entries["detector"].section;
    }
    if file.Some? && file.value.Top? && "llm" in file.value.entries {
      assert llmData == file.value.entries["llm"].section;
    }
  }

  /** A readable document loads as its three sections applied to the defaults, then
      the three environment overrides. */
  lemma LoadConfigUnfold(file: Option<Document>, env: map<string, string>)
    requires Readable(file)
    ensures var doc := DocumentEntries(file).value;
      var llm := ApplySection(LlmDefaults, SectionOf(doc, "llm").value);
      var llm := EnvOverride(llm, "openai_api_key", env, "OPENAI_API_KEY");
      var llm := EnvOverride(llm, "provider", env, "LLM_PROVIDER");
      var llm := EnvOverride(llm, "ollama_base_url", env, "OLLAMA_URL");
      LoadConfig(file, env) == Success(AppConfig(
        ApplySection(AppDefaults, SectionOf(doc, "app").value),
        llm,
        ApplySection(DetectorDefaults, SectionOf(doc, "detector").value)))
  {
  }

  /** A set, non-empty variable replaces its key; every other key keeps its value. */
  lemma EnvOverrideSpec(section: Section, key: string, env: map<string, string>, name: string)
    requires key in section
    ensures name in env && env[name] != "" ==> EnvOverride(section, key, env, name)[key] == VStr(env[name])
    ensures !(name in env && env[name] != "") ==> EnvOverride(section, key, env, name) == section
    ensures forall k :: k in section && k != key ==> EnvOverride(section, key, env, name)[k] == section[k]
  {
  }

  /** The detector's typed view of its section: the switches are read for truthiness,
      the threshold as a number (a boolean counts as 0 or 1, as in Python arithmetic). */
  datatype DetectorSettings = DetectorSettings(ruleEnabled: bool, mlEnabled: bool, frequencyThreshold: real, contamination: Value)

  function AsNumber(v: Value): Option<real> {
    match v
    case VBool(b) => Some(if b then 1.0 else 0.0)
    case VInt(i) => Some(i as real)
    case VReal(r) => Some(r)
    case _ => None
  }

  /** The typed view of a loaded detector section; `None` when the threshold is not a
      number. */
  function DetectorSettingsOf(c: AppConfig): (r: Option<DetectorSettings>)
    requires c.detector.Keys == DetectorDefaults.Keys
    ensures r.Some? <==> AsNumber(c.detector["frequency_threshold"]).Some?
    ensures r.Some? ==>
      && r.value.ruleEnabled == Truthy(c.detector["rule_enabled"])
      && r.value.mlEnabled == Truthy(c.detector["ml_enabled"])
      && Some(r.value.frequencyThreshold) == AsNumber(c.detector["frequency_threshold"])
  {
    match AsNumber(c.detector["frequency_threshold"])
    case None => None
    case Some(t) => Some(DetectorSettings(
      Truthy(c.detector["rule_enabled"]),
      Truthy(c.detector["ml_enabled"]),
      t,
      c.detector["iforest_contamination"]))
  }

  /** The default detector settings: both stages on, threshold 3.0, contamination 0.05. */
  lemma DefaultDetectorSettings(env: map<string, string>)
    ensures DetectorSettingsOf(LoadConfig(None, env).value)
      == Some(DetectorSettings(true, true, 3.0, VReal(0.05)))
  {
  }
}
