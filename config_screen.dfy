/**
 * The settings screen's save action, up to the point where it writes to
 * storage: every field must be non-blank, and the base URL is stored trimmed
 * and with exactly one guaranteed trailing "/". Storage and the test request
 * that follow are not part of this model.
 */
module ConfigScreen {
  import opened JsString

  /** The three settings the app stores. */
  datatype Config = Config(baseUrl: string, key: string, token: string)

  /** A save is either refused (an alert, nothing stored, no request) or
      stores the given settings. */
  datatype SaveOutcome = Refused | Store(config: Config)

  predicate EndsWithSlash(s: string) {
    |s| > 0 && s[|s| - 1] == '/'
  }

  /** Appends "/" unless the URL already ends in one. */
  function WithTrailingSlash(url: string): (r: string)
    ensures EndsWithSlash(r)
    ensures url <= r && |r| <= |url| + 1
    ensures EndsWithSlash(url) <==> r == url
  {
    if EndsWithSlash(url) then url else url + "/"
  }

  /** `saveConfig` up to the storage writes. */
  function SaveConfig(apiBaseUrl: string, apiKey: string, apiToken: string): (r: SaveOutcome)
    ensures r.Refused? <==> Trim(apiBaseUrl) == [] || Trim(apiKey) == [] || Trim(apiToken) == []
    ensures r.Store? ==> r.config.key == apiKey && r.config.token == apiToken
    ensures r.Store? ==> Trim(apiBaseUrl) <= r.config.baseUrl && EndsWithSlash(r.config.baseUrl)
    ensures r.Store? ==> |r.config.baseUrl| <= |Trim(apiBaseUrl)| + 1
    ensures r.Store? ==> (r.config.baseUrl == Trim(apiBaseUrl) <==> EndsWithSlash(Trim(apiBaseUrl)))
  {
    if Trim(apiBaseUrl) == [] || Trim(apiKey) == [] || Trim(apiToken) == [] then
      Refused
    else
      Store(Config(WithTrailingSlash(Trim(apiBaseUrl)), apiKey, apiToken))
  }

  /** A save is refused exactly when some field is empty or white space only. */
  lemma RefusedIffBlank(apiBaseUrl: string, apiKey: string, apiToken: string)
    ensures SaveConfig(apiBaseUrl, apiKey, apiToken).Refused? <==>
      || (forall k :: 0 <= k < |apiBaseUrl| ==> IsWhiteSpace(apiBaseUrl[k]))
      || (forall k :: 0 <= k < |apiKey| ==> IsWhiteSpace(apiKey[k]))
      || (forall k :: 0 <= k < |apiToken| ==> IsWhiteSpace(apiToken[k]))
  {
  }

  /** Normalisation is idempotent: saving the stored settings again stores
      exactly the same settings. */
  lemma {:induction false} SaveIsIdempotent(apiBaseUrl: string, apiKey: string, apiToken: string)
    requires SaveConfig(apiBaseUrl, apiKey, apiToken).Store?
    ensures var c := SaveConfig(apiBaseUrl, apiKey, apiToken).config;
      SaveConfig(c.baseUrl, c.key, c.token) == Store(c)
  {
    var c := SaveConfig(apiBaseUrl, apiKey, apiToken).config;
    var t := Trim(apiBaseUrl);
    assert c.baseUrl == WithTrailingSlash(t);
    SlashedTrimmedIsTrimmed(t);
    TrimOfTrimmed(c.baseUrl);
    assert Trim(c.baseUrl) == c.baseUrl;
    assert WithTrailingSlash(c.baseUrl) == c.baseUrl;
  }

  /** A trimmed, non-empty URL stays trimmed when a "/" is appended. */
  lemma SlashedTrimmedIsTrimmed(t: string)
    requires Trimmed(t) && t != []
    ensures Trimmed(WithTrailingSlash(t))
  {
    var u := WithTrailingSlash(t);
    assert u[0] == t[0];
    assert u[|u| - 1] == '/';
    assert !IsWhiteSpace('/');
  }
}
