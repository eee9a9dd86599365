/** Process startup: the settings check, then the main window. */
module App {
  import opened Wrappers
  import opened Settings
  import opened Voices
  import opened Ui

  /**
   * Checks the settings; when either key is missing or empty, startup fails
   * before the window (and its voice listing request) is created. `listing`
   * stands for the provider's answer to the listing request.
   */
  method Startup(settings: SettingsStore, listing: seq<Voice>, speechDir: string, files: map<string, seq<byte>>)
    returns (window: TtsWindow?)
    modifies settings
    ensures settings.values == Seeded(old(settings.values))
    ensures window == null <==> !Complete(old(settings.values))
    ensures window != null ==>
      && fresh(window) && fresh(window.synthesizer) && window.Valid()
      && window.synthesizer.serviceUrl == old(settings.values)[ServiceUrlKey]
      && window.synthesizer.apiKey == old(settings.values)[ApiKeyKey]
      && window.synthesizer.listing == listing && window.synthesizer.requests == []
      && window.filename == None && !window.playEnabled
  {
    var fail := CheckWatsonSettings(settings);
    if fail {
      window := null;
    } else {
      var serviceUrl := settings.Value(ServiceUrlKey);
      var apiKey := settings.Value(ApiKeyKey);
      window := new TtsWindow(serviceUrl.value, apiKey.value, listing, speechDir, files);
    }
  }
}
