/**
 * The startup check of the persisted configuration: the "Watson" group of the
 * settings must hold a non-empty `service_url` and `api_key`; each one that is
 * missing or empty is seeded with an empty placeholder and startup fails.
 */
module Settings {
  import opened Wrappers

  const ServiceUrlKey: string := "service_url"
  const ApiKeyKey: string := "api_key"

  /** The key is absent or holds the empty string. */
  predicate Missing(values: map<string, string>, key: string)
  {
    key !in values || values[key] == ""
  }

  predicate Complete(values: map<string, string>)
  {
    !Missing(values, ServiceUrlKey) && !Missing(values, ApiKeyKey)
  }

  function SeedKey(values: map<string, string>, key: string): map<string, string>
  {
    if Missing(values, key) then values[key := ""] else values
  }

  /** The settings after the check: both keys present, an absent one as the empty string. */
  function Seeded(values: map<string, string>): (r: map<string, string>)
    ensures r.Keys == values.Keys + {ServiceUrlKey, ApiKeyKey}
    ensures forall k :: k in r ==> r[k] == (if k in values then values[k] else "")
  {
    SeedKey(SeedKey(values, ServiceUrlKey), ApiKeyKey)
  }

  /** The settings group, as the configuration library holds it in memory. */
  class SettingsStore {
    var values: map<string, string>

    constructor (values: map<string, string>)
      ensures this.values == values
    {
      this.values := values;
    }

    method Contains(key: string) returns (present: bool)
      ensures present <==> key in values
    {
      present := key in values;
    }

    /** The stored value, or None for an absent key. */
    method Value(key: string) returns (v: Option<string>)
      ensures key in values ==> v == Some(values[key])
      ensures key !in values ==> v == None
    {
      v := if key in values then Some(values[key]) else None;
    }

    method SetValue(key: string, value: string)
      modifies this
      ensures values == old(values)[key := value]
    {
      values := values[key := value];
    }
  }

  /** Checks both keys, seeding each missing one; `fail` reports whether either was missing. */
  method CheckWatsonSettings(settings: SettingsStore) returns (fail: bool)
    modifies settings
    ensures fail <==> !Complete(old(settings.values))
    ensures settings.values == Seeded(old(settings.values))
  {
    fail := false;
    var present := settings.Contains(ServiceUrlKey);
    var value := settings.Value(ServiceUrlKey);
    if !present || value == Some("") {
      settings.SetValue(ServiceUrlKey, "");
      fail := true;
    }
    present := settings.Contains(ApiKeyKey);
    value := settings.Value(ApiKeyKey);
    if !present || value == Some("") {
      settings.SetValue(ApiKeyKey, "");
      fail := true;
    }
  }

  /** After seeding, a key holds the empty placeholder exactly when it was missing. */
  lemma SeededPlaceholders(values: map<string, string>)
    ensures Seeded(values)[ServiceUrlKey] == "" <==> Missing(values, ServiceUrlKey)
    ensures Seeded(values)[ApiKeyKey] == "" <==> Missing(values, ApiKeyKey)
    ensures Complete(Seeded(values)) <==> Complete(values)
  {
  }

  /** Checking again changes nothing: seeding is idempotent. */
  lemma SeededIdempotent(values: map<string, string>)
    ensures Seeded(Seeded(values)) == Seeded(values)
  {
  }
}
