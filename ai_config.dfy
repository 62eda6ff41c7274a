/** The AI provider configuration kept in the browser: the default model of
    each provider, model validation, the file-name form of a model id, and
    the restore of a saved configuration. */
module AiConfig {
  import opened Wrappers
  import opened Strings
  import opened Json
  import DS = DashScopeModels

  datatype Provider = Neversight | DashScope | OpenAI

  datatype AIConfig = AIConfig(provider: Provider, apiKey: string, selectedModel: string, language: string, superPrompt: bool)

  /** The model ids of the Neversight and OpenAI tables. The tables
      themselves are not part of this model; both are non-empty lists. */
  datatype Catalog = Catalog(neversight: seq<string>, openai: seq<string>)

  predicate ValidCatalog(c: Catalog) {
    c.neversight != [] && c.openai != []
  }

  /** The ids of the DashScope table, in order. */
  function DashScopeIds(): (r: seq<string>)
    ensures |r| == |DS.DASHSCOPE_MODELS|
    ensures forall i :: 0 <= i < |r| ==> r[i] == DS.DASHSCOPE_MODELS[i].id
  {
    seq(|DS.DASHSCOPE_MODELS|, i requires 0 <= i < |DS.DASHSCOPE_MODELS| => DS.DASHSCOPE_MODELS[i].id)
  }

  /** The model ids offered for a provider. */
  function ModelIds(c: Catalog, p: Provider): seq<string> {
    match p
    case DashScope => DashScopeIds()
    case OpenAI => c.openai
    case Neversight => c.neversight
  }

  /** `getDefaultModelForProvider`: the first model of the provider's table. */
  function DefaultModelForProvider(c: Catalog, p: Provider): (r: string)
    requires ValidCatalog(c)
    ensures r == ModelIds(c, p)[0]
    ensures p == DashScope ==> r == "qwen3-coder-plus"
  {
    match p
    case DashScope => DS.DASHSCOPE_MODELS[0].id
    case OpenAI => c.openai[0]
    case Neversight => c.neversight[0]
  }

  /** `isValidModel`: the id belongs to the provider's table. */
  function IsValidModel(c: Catalog, p: Provider, id: string): (r: bool)
    ensures r <==> id in ModelIds(c, p)
  {
    match p
    case DashScope =>
      var m := DS.GetDashScopeModelById(id);
      if m.Some? then
        var i :| 0 <= i < |DS.DASHSCOPE_MODELS| && DS.DASHSCOPE_MODELS[i] == m.value;
        assert DashScopeIds()[i] == id;
        true
      else false
    case OpenAI => id in c.openai
    case Neversight => id in c.neversight
  }

  /** The default model of a provider is valid for it. */
  lemma DefaultModelValid(c: Catalog, p: Provider)
    requires ValidCatalog(c)
    ensures IsValidModel(c, p, DefaultModelForProvider(c, p))
  {
  }

  // ---------------------------------------------------------------- model name

  /** The characters of `[a-z0-9._-]`. */
  predicate IsNameChar(c: char) {
    ('a' <= c <= 'z') || ('0' <= c <= '9') || c == '.' || c == '_' || c == '-'
  }

  predicate NoDoubleDash(s: string) {
    forall i :: 0 <= i < |s| - 1 ==> !(s[i] == '-' && s[i + 1] == '-')
  }

  /** `replace(/[^a-z0-9._-]+/g, "-")`: each run of other characters becomes
      one dash; `inRun` says the character before `s` was such a character. */
  function Dashify(s: string, inRun: bool): (r: string)
    ensures |r| <= |s|
    ensures forall i :: 0 <= i < |r| ==> IsNameChar(r[i])
  {
    if s == [] then []
    else if IsNameChar(s[0]) then [s[0]] + Dashify(s[1..], false)
    else (if inRun then "" else "-") + Dashify(s[1..], true)
  }

  /** `replace(/-+/g, "-")`: each run of dashes becomes one; `inRun` says a
      dash was just kept. */
  function CollapseDashes(s: string, inRun: bool): (r: string)
    ensures |r| <= |s|
    ensures forall i :: 0 <= i < |r| ==> r[i] in s
    ensures NoDoubleDash(r)
    ensures inRun && r != [] ==> r[0] != '-'
  {
    if s == [] then []
    else if s[0] == '-' then (if inRun then "" else "-") + CollapseDashes(s[1..], true)
    else [s[0]] + CollapseDashes(s[1..], false)
  }

  /** `replace(/^-|-$/g, "")`: drops one leading and one trailing dash. */
  function StripDashEnds(s: string): (r: string)
    ensures |r| <= |s|
    ensures forall i :: 0 <= i < |r| ==> r[i] in s
    ensures NoDoubleDash(s) ==> NoDoubleDash(r) && (r == [] || (r[0] != '-' && r[|r| - 1] != '-'))
  {
    var a := if s != [] && s[0] == '-' then s[1..] else s;
    var b := if a != [] && a[|a| - 1] == '-' then a[..|a| - 1] else a;
    assert forall i :: 0 <= i < |a| ==> a[i] in s;
    b
  }

  /** The form of a model id usable in a file name. */
  predicate CleanName(s: string) {
    (forall i :: 0 <= i < |s| ==> IsNameChar(s[i])) && NoDoubleDash(s)
    && (s == [] || (s[0] != '-' && s[|s| - 1] != '-'))
  }

  /** The three replacements after lower-casing. */
  function FileNameForm(s: string): (r: string)
    ensures CleanName(r)
  {
    var c := CollapseDashes(Dashify(ToLower(s), false), false);
    assert forall i :: 0 <= i < |c| ==> IsNameChar(c[i]);
    StripDashEnds(c)
  }

  /** `getModelName`: the model id lower-cased, other characters turned into
      single dashes, and no dash at either end; `model` when no model is set. */
  function GetModelName(config: AIConfig): (r: string)
    ensures CleanName(r)
    ensures config.selectedModel == "" ==> r == "model"
  {
    if config.selectedModel != "" then FileNameForm(config.selectedModel)
    else
      ModelIsClean();
      FileNameForm("model")
  }

  lemma ModelIsClean()
    ensures FileNameForm("model") == "model"
  {
    var m := "model";
    assert forall i :: 0 <= i < |m| ==> IsNameChar(m[i]);
    CleanNameUnchanged(m);
  }

  lemma {:induction false} DashifyClean(s: string, inRun: bool)
    requires forall i :: 0 <= i < |s| ==> IsNameChar(s[i])
    ensures Dashify(s, inRun) == s
  {
    if s != [] {
      DashifyClean(s[1..], false);
    }
  }

  lemma {:induction false} CollapseClean(s: string, inRun: bool)
    requires NoDoubleDash(s)
    requires inRun && s != [] ==> s[0] != '-'
    ensures CollapseDashes(s, inRun) == s
  {
    if s != [] {
      CollapseClean(s[1..], s[0] == '-');
    }
  }

  /** A name already in file-name form goes through every step unchanged. */
  lemma CleanNameUnchanged(s: string)
    requires CleanName(s)
    ensures FileNameForm(s) == s
  {
    assert ToLower(s) == s;
    DashifyClean(s, false);
    CollapseClean(s, false);
  }

  /** Converting a converted name again changes nothing, unless the first
      conversion left nothing at all. */
  lemma ModelNameIdempotent(config: AIConfig)
    requires GetModelName(config) != ""
    ensures GetModelName(config.(selectedModel := GetModelName(config))) == GetModelName(config)
  {
    CleanNameUnchanged(GetModelName(config));
  }

  // ---------------------------------------------------------------- restore

  /** The configuration used when nothing usable is saved. */
  function DefaultConfig(c: Catalog): (r: AIConfig)
    requires ValidCatalog(c)
    ensures r.provider == Neversight && IsValidModel(c, r.provider, r.selectedModel)
  {
    AIConfig(Neversight, "", c.neversight[0], "english", true)
  }

  /** The provider of a saved configuration: only the exact strings
      `dashscope` and `openai` select those providers. */
  function SavedProvider(v: JsonValue): (p: Provider)
    ensures p == DashScope <==> v == Str("dashscope")
    ensures p == OpenAI <==> v == Str("openai")
  {
    if v == Str("dashscope") then DashScope
    else if v == Str("openai") then OpenAI
    else Neversight
  }

  /** `raw.key` when it is a string, else the fallback. */
  function StringField(raw: JsonValue, key: string, fallback: string): (r: string)
    requires !raw.Missing? && !raw.Null?
    ensures (Field(raw, key).value.Str? && r == Field(raw, key).value.s) || (!Field(raw, key).value.Str? && r == fallback)
  {
    match Field(raw, key).value
    case Str(s) => s
    case _ => fallback
  }

  /** The parsed saved configuration, when the restore gets past `JSON.parse`
      and the property reads: `None` when nothing is saved, the text does
      not parse, or it parses to `null`. */
  function SavedObject(saved: Option<string>, parse: string -> Option<JsonValue>): (r: Option<JsonValue>)
    ensures r.Some? ==> !r.value.Missing? && !r.value.Null?
  {
    if saved.None? || saved.value == "" then None
    else match parse(saved.value)
      case None => None
      case Some(v) => if v.Missing? || v.Null? then None else Some(v)
  }

  /** The configuration restored by `useAIConfig`. `parse` is `JSON.parse`,
      `None` where it throws. */
  method RestoreConfig(c: Catalog, inBrowser: bool, saved: Option<string>, parse: string -> Option<JsonValue>)
    returns (config: AIConfig)
    requires ValidCatalog(c)
    ensures IsValidModel(c, config.provider, config.selectedModel)
    ensures !inBrowser || SavedObject(saved, parse).None? ==> config == DefaultConfig(c)
    ensures inBrowser && SavedObject(saved, parse).Some? ==>
      var raw := SavedObject(saved, parse).value;
      && config.provider == SavedProvider(Field(raw, "provider").value)
      && config.apiKey == StringField(raw, "apiKey", "")
      && config.language == StringField(raw, "language", "english")
      && config.superPrompt == (if Field(raw, "superPrompt").value.Bool? then Field(raw, "superPrompt").value.b else true)
      && (Field(raw, "selectedModel").value.Str? && IsValidModel(c, config.provider, Field(raw, "selectedModel").value.s)
          ==> config.selectedModel == Field(raw, "selectedModel").value.s)
      && (!(Field(raw, "selectedModel").value.Str? && IsValidModel(c, config.provider, Field(raw, "selectedModel").value.s))
          ==> config.selectedModel == DefaultModelForProvider(c, config.provider))
  {
    var defaultConfig := DefaultConfig(c);
    if !inBrowser {
      return defaultConfig;
    }
    var raw := SavedObject(saved, parse);
    if raw.None? {
      return defaultConfig;
    }
    var obj := raw.value;
    var provider := SavedProvider(Field(obj, "provider").value);
    var sp := Field(obj, "superPrompt").value;
    var merged := AIConfig(
      provider,
      StringField(obj, "apiKey", defaultConfig.apiKey),
      StringField(obj, "selectedModel", DefaultModelForProvider(c, provider)),
      StringField(obj, "language", defaultConfig.language),
      if sp.Bool? then sp.b else defaultConfig.superPrompt);
    if !IsValidModel(c, merged.provider, merged.selectedModel) {
      merged := merged.(selectedModel := DefaultModelForProvider(c, merged.provider));
    }
    DefaultModelValid(c, provider);
    return merged;
  }
}
