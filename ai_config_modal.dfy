/** The state changes of the AI settings dialog: the restore of the saved
    configuration when it opens, a provider switch, the start guard and the
    reset. */
module AiConfigModal {
  import opened Wrappers
  import opened Strings
  import opened Json
  import opened AiConfig

  /** The dialog's own restore: like `useAIConfig`, except that the saved
      super-prompt switch is ignored and always comes back on. `parse` is
      `JSON.parse`, `None` where it throws. */
  method RestoreModalConfig(c: Catalog, saved: Option<string>, parse: string -> Option<JsonValue>)
    returns (config: AIConfig)
    requires ValidCatalog(c)
    ensures config.superPrompt
    ensures IsValidModel(c, config.provider, config.selectedModel)
    ensures SavedObject(saved, parse).None? ==> config == DefaultConfig(c)
    ensures SavedObject(saved, parse).Some? ==>
      var raw := SavedObject(saved, parse).value;
      && config.provider == SavedProvider(Field(raw, "provider").value)
      && config.apiKey == StringField(raw, "apiKey", "")
      && config.language == StringField(raw, "language", "english")
      && (Field(raw, "selectedModel").value.Str? && IsValidModel(c, config.provider, Field(raw, "selectedModel").value.s)
          ==> config.selectedModel == Field(raw, "selectedModel").value.s)
      && (!(Field(raw, "selectedModel").value.Str? && IsValidModel(c, config.provider, Field(raw, "selectedModel").value.s))
          ==> config.selectedModel == DefaultModelForProvider(c, config.provider))
  {
    var defaultConfig := DefaultConfig(c);
    var raw := SavedObject(saved, parse);
    if raw.None? {
      return defaultConfig;
    }
    var obj := raw.value;
    var provider := SavedProvider(Field(obj, "provider").value);
    var merged := AIConfig(
      provider,
      StringField(obj, "apiKey", defaultConfig.apiKey),
      StringField(obj, "selectedModel", DefaultModelForProvider(c, provider)),
      StringField(obj, "language", defaultConfig.language),
      true);
    if !IsValidModel(c, merged.provider, merged.selectedModel) {
      merged := merged.(selectedModel := DefaultModelForProvider(c, merged.provider));
    }
    DefaultModelValid(c, provider);
    return merged;
  }

  /** `handleProviderChange`: the new provider with its default model. */
  function ChangeProvider(c: Catalog, prev: AIConfig, p: Provider): (r: AIConfig)
    requires ValidCatalog(c)
    ensures r.provider == p && r.selectedModel == ModelIds(c, p)[0]
    ensures IsValidModel(c, r.provider, r.selectedModel)
    ensures r.apiKey == prev.apiKey && r.language == prev.language && r.superPrompt == prev.superPrompt
  {
    prev.(provider := p, selectedModel := DefaultModelForProvider(c, p))
  }

  /** What starting the analysis does: refuse for want of a Neversight key,
      or save the configuration and start. */
  datatype StartOutcome = KeyMissing | Started(saved: AIConfig)

  /** `handleStartAnalysis`. */
  function StartAnalysis(config: AIConfig): (r: StartOutcome)
    ensures r.KeyMissing? <==> config.provider == Neversight && Trim(config.apiKey) == ""
    ensures r.Started? ==> r.saved == config
  {
    if config.provider == Neversight && Trim(config.apiKey) == "" then KeyMissing else Started(config)
  }

  /** A key of white space only does not count as a key. */
  lemma BlankKeyRefused(config: AIConfig)
    requires config.provider == Neversight
    requires forall i :: 0 <= i < |config.apiKey| ==> IsSpace(config.apiKey[i])
    ensures StartAnalysis(config) == KeyMissing
  {
  }

  /** The server-side providers never need a key in the browser. */
  lemma ServerProvidersStart(c: Catalog, prev: AIConfig, p: Provider)
    requires ValidCatalog(c) && p != Neversight
    ensures StartAnalysis(ChangeProvider(c, prev, p)) == Started(ChangeProvider(c, prev, p))
  {
  }

  /** `handleReset`: the Neversight default. */
  function Reset(c: Catalog): (r: AIConfig)
    requires ValidCatalog(c)
    ensures r.provider == Neversight && r.apiKey == "" && r.selectedModel == c.neversight[0]
    ensures r.language == "english" && r.superPrompt
    ensures StartAnalysis(r) == KeyMissing
  {
    AIConfig(Neversight, "", c.neversight[0], "english", true)
  }
}
