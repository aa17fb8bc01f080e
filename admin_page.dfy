/**
 * The state of the admin dashboard (frontend/app/admin/page.tsx:18-58, 93-97):
 * the settings map, the key inputs, the list of providers whose key is stored,
 * and the handlers that update them after a `PUT` to the admin API. The `PUT`
 * itself is a parameter saying whether it threw.
 */
module AdminPage {
  import opened Wrappers
  import Schemas

  /** The providers offered on the dashboard, in display order. */
  const KeyProviders: seq<string> :=
    ["SESSION_SECRET", "TURNSTILE_SECRET_KEY", "GITHUB_TOKEN", "OPENAI_API_KEY",
     "ANTHROPIC_API_KEY", "GEMINI_API_KEY", "DEEPSEEK_API_KEY"]

  const AutoDevKey: string := "auto_dev_mode"
  const RepoUrlKey: string := "github_repo_url"

  /** The `value` argument of `handleSettingChange`: `string | boolean`. */
  datatype SettingValue = Text(text: string) | Flag(flag: bool)

  /** What the two initial `GET`s return. */
  datatype InitialData = InitialData(settings: map<string, string>, keys: seq<string>)

  /** `String(value)`: a string as it is, a boolean as `"true"` or `"false"`. */
  function StringOf(v: SettingValue): (s: string)
    ensures v.Text? ==> s == v.text
    ensures v.Flag? ==> (s == "true" <==> v.flag) && (s == "false" <==> !v.flag)
  {
    match v
    case Text(t) => t
    case Flag(b) => if b then "true" else "false"
  }

  /** `record[key] || ''`: a missing entry reads as the empty string. */
  function Lookup(m: map<string, string>, key: string): (r: string)
    ensures key in m ==> r == m[key]
    ensures key !in m ==> r == ""
  {
    if key in m then m[key] else ""
  }

  /** `checked={settings.auto_dev_mode === 'true'}`: a missing entry reads as off. */
  predicate AutoDevOn(settings: map<string, string>): (on: bool)
    ensures on <==> Lookup(settings, AutoDevKey) == "true"
    ensures AutoDevKey !in settings ==> !on
  {
    AutoDevKey in settings && settings[AutoDevKey] == "true"
  }

  /** Storing the negation of the switch's state flips the switch. */
  lemma ToggleFlipsSwitch(settings: map<string, string>)
    ensures AutoDevOn(settings[AutoDevKey := StringOf(Flag(!AutoDevOn(settings)))]) == !AutoDevOn(settings)
  {
  }

  // ---------------------------------------------------------------------------
  // The `keysPresent` list
  // ---------------------------------------------------------------------------

  /** No provider is listed twice. */
  predicate NoDup(xs: seq<string>)
  {
    forall i, j :: 0 <= i < j < |xs| ==> xs[i] != xs[j]
  }

  /** `[...new Set(xs)]`: each element once, at the place of its first occurrence. */
  function Dedupe(xs: seq<string>): (r: seq<string>)
    ensures NoDup(r)
    ensures forall x :: x in r <==> x in xs
  {
    if xs == [] then []
    else
      var d := Dedupe(xs[..|xs| - 1]);
      var last := xs[|xs| - 1];
      assert xs == xs[..|xs| - 1] + [last];
      if last in d then d else d + [last]
  }

  /** A list without duplicates is its own set. */
  lemma {:induction false} DedupeOfNoDup(xs: seq<string>)
    requires NoDup(xs)
    ensures Dedupe(xs) == xs
  {
    if xs != [] {
      var init := xs[..|xs| - 1];
      assert NoDup(init);
      DedupeOfNoDup(init);
      assert xs[|xs| - 1] !in init;
      assert init + [xs[|xs| - 1]] == xs;
    }
  }

  /** Saving a key for a listed provider keeps the list; for another, appends it once at the end. */
  lemma AddProviderOnce(keys: seq<string>, p: string)
    requires NoDup(keys)
    ensures Dedupe(keys + [p]) == if p in keys then keys else keys + [p]
  {
    DedupeOfNoDup(keys);
    assert (keys + [p])[..|keys|] == keys;
  }

  /** `xs.filter(k => k !== p)`. */
  function Without(xs: seq<string>, p: string): (r: seq<string>)
    ensures p !in r
    ensures forall x :: x != p ==> (x in r <==> x in xs)
    ensures |r| <= |xs|
  {
    if xs == [] then []
    else (if xs[0] == p then [] else [xs[0]]) + Without(xs[1..], p)
  }

  /** Filtering distributes over concatenation. */
  lemma {:induction false} WithoutAppend(a: seq<string>, b: seq<string>, p: string)
    ensures Without(a + b, p) == Without(a, p) + Without(b, p)
  {
    if a == [] {
      assert a + b == b;
    } else {
      var head := if a[0] == p then [] else [a[0]];
      assert (a + b)[0] == a[0];
      assert (a + b)[1..] == a[1..] + b;
      WithoutAppend(a[1..], b, p);
      assert Without(a + b, p) == head + (Without(a[1..], p) + Without(b, p));
      assert Without(a, p) == head + Without(a[1..], p);
    }
  }

  /** Filtering out an absent provider changes nothing. */
  lemma {:induction false} WithoutAbsent(xs: seq<string>, p: string)
    requires p !in xs
    ensures Without(xs, p) == xs
  {
    if xs != [] {
      WithoutAbsent(xs[1..], p);
      assert [xs[0]] + xs[1..] == xs;
    }
  }

  /** Removing a provider listed once leaves the others exactly as they were, in order. */
  lemma RemoveProvider(a: seq<string>, p: string, b: seq<string>)
    requires p !in a && p !in b
    ensures Without(a + [p] + b, p) == a + b
  {
    WithoutAppend(a + [p], b, p);
    WithoutAppend(a, [p], p);
    WithoutAbsent(a, p);
    WithoutAbsent(b, p);
    assert Without([p], p) == [] by { assert [p][1..] == []; }
    assert Without(a + [p], p) == a;
  }

  /** Filtering keeps a list free of duplicates. */
  lemma {:induction false} WithoutKeepsNoDup(xs: seq<string>, p: string)
    requires NoDup(xs)
    ensures NoDup(Without(xs, p))
  {
    if xs != [] {
      var tail := xs[1..];
      assert NoDup(tail);
      WithoutKeepsNoDup(tail, p);
      assert xs[0] !in tail;
      assert xs[0] !in Without(tail, p);
    }
  }

  // ---------------------------------------------------------------------------
  // The key fields, one per provider
  // ---------------------------------------------------------------------------

  const SavedPlaceholder: string :=
    "\U{2022}\U{2022}\U{2022}\U{2022}\U{2022}\U{2022}\U{2022}\U{2022}\U{2022}\U{2022}\U{2022}\U{2022}\U{2022}\U{2022}\U{2022}\U{2022} (Saved)"
  const EmptyPlaceholder: string := "Enter key..."

  /** What the key field of one provider shows. */
  datatype KeyField = KeyField(provider: string, value: string, placeholder: string)

  /**
   * The key fields in display order: the typed text (empty when none), and a
   * placeholder saying whether the backend holds a key for that provider.
   */
  function KeyFields(apiKeys: map<string, string>, keysPresent: seq<string>): (r: seq<KeyField>)
    ensures |r| == |KeyProviders|
    ensures forall i :: 0 <= i < |r| ==> r[i].provider == KeyProviders[i]
    ensures forall i :: 0 <= i < |r| ==> r[i].value == Lookup(apiKeys, KeyProviders[i])
    ensures forall i :: 0 <= i < |r| ==> (r[i].placeholder == SavedPlaceholder <==> KeyProviders[i] in keysPresent)
  {
    seq(|KeyProviders|, i requires 0 <= i < |KeyProviders| =>
      var p := KeyProviders[i];
      KeyField(p, Lookup(apiKeys, p), if p in keysPresent then SavedPlaceholder else EmptyPlaceholder))
  }

  /** After a key is saved, its field is cleared and marked as saved; the other fields are as before. */
  lemma SavedKeyField(apiKeys: map<string, string>, keysPresent: seq<string>, k: int)
    requires 0 <= k < |KeyProviders|
    ensures var p := KeyProviders[k];
      var after := KeyFields(apiKeys[p := ""], Dedupe(keysPresent + [p]));
      && after[k] == KeyField(p, "", SavedPlaceholder)
      && forall i :: 0 <= i < |KeyProviders| && i != k ==> after[i] == KeyFields(apiKeys, keysPresent)[i]
  {
    var p := KeyProviders[k];
    forall i | 0 <= i < |KeyProviders| && i != k
      ensures KeyProviders[i] != p
    {
      assert KeyProviders[i] != KeyProviders[k];
    }
  }

  /** After a key is deleted, its field is no longer marked as saved; the other fields are as before. */
  lemma DeletedKeyField(apiKeys: map<string, string>, keysPresent: seq<string>, k: int)
    requires 0 <= k < |KeyProviders|
    ensures var p := KeyProviders[k];
      var after := KeyFields(apiKeys, Without(keysPresent, p));
      && after[k] == KeyField(p, Lookup(apiKeys, p), EmptyPlaceholder)
      && forall i :: 0 <= i < |KeyProviders| && i != k ==> after[i] == KeyFields(apiKeys, keysPresent)[i]
  {
    var p := KeyProviders[k];
    forall i | 0 <= i < |KeyProviders| && i != k
      ensures KeyProviders[i] != p
    {
      assert KeyProviders[i] != KeyProviders[k];
    }
  }

  /** The dashboard's state. */
  class Admin {
    var settings: map<string, string>
    var apiKeys: map<string, string>
    var keysPresent: seq<string>
    var isLoading: bool

    /** Empty settings, no key typed, no key known, loading. */
    constructor ()
      ensures settings == map[] && apiKeys == map[] && keysPresent == [] && isLoading
    {
      settings := map[];
      apiKeys := map[];
      keysPresent := [];
      isLoading := true;
    }

    /**
     * One run of the loading effect: on success both answers are stored; on
     * failure (`fetched` is None) nothing is; loading ends either way.
     */
    method LoadInitialData(fetched: Option<InitialData>)
      modifies this`settings, this`keysPresent, this`isLoading
      ensures !isLoading
      ensures fetched.Some? ==> settings == fetched.value.settings && keysPresent == fetched.value.keys
      ensures fetched.None? ==> settings == old(settings) && keysPresent == old(keysPresent)
    {
      if fetched.Some? {
        settings := fetched.value.settings;
        keysPresent := fetched.value.keys;
      }
      isLoading := false;
    }

    /** The key input's `onChange`. */
    method EditApiKey(provider: string, text: string)
      modifies this`apiKeys
      ensures apiKeys == old(apiKeys)[provider := text]
    {
      apiKeys := apiKeys[provider := text];
    }

    /**
     * `handleApiKeySave`: `sent` is the body of the `PUT /admin/keys`;
     * `putOk` is false when that request threw, which the handler catches.
     */
    method HandleApiKeySave(provider: string, putOk: bool) returns (sent: Schemas.KeyUpdate)
      modifies this`keysPresent, this`apiKeys
      ensures sent == Schemas.KeyUpdate(provider, Lookup(old(apiKeys), provider))
      ensures !putOk ==> keysPresent == old(keysPresent) && apiKeys == old(apiKeys)
      ensures putOk && sent.apiKey != "" ==>
        keysPresent == Dedupe(old(keysPresent) + [provider]) && apiKeys == old(apiKeys)[provider := ""]
      ensures putOk && sent.apiKey == "" ==>
        keysPresent == Without(old(keysPresent), provider) && apiKeys == old(apiKeys)
      ensures NoDup(old(keysPresent)) ==> NoDup(keysPresent)
    {
      var apiKey := Lookup(apiKeys, provider);
      sent := Schemas.KeyUpdate(provider, apiKey);
      if !putOk {
        return;
      }
      if apiKey != "" {
        keysPresent := Dedupe(keysPresent + [provider]);
        apiKeys := apiKeys[provider := ""];
      } else {
        if NoDup(keysPresent) {
          WithoutKeepsNoDup(keysPresent, provider);
        }
        keysPresent := Without(keysPresent, provider);
      }
    }

    /**
     * `handleSettingChange`: `sent` is the body of the `PUT /admin/settings`;
     * when that request throws, the error reaches the caller and `settings`
     * is left as it was.
     */
    method HandleSettingChange(key: string, value: SettingValue, putOk: bool)
      returns (sent: Schemas.SettingsUpdate, outcome: Outcome<string>)
      modifies this`settings
      ensures sent == Schemas.SettingsUpdate(key, StringOf(value))
      ensures outcome.Pass? <==> putOk
      ensures putOk ==> settings == old(settings)[key := StringOf(value)]
      ensures !putOk ==> settings == old(settings)
    {
      var stringValue := StringOf(value);
      sent := Schemas.SettingsUpdate(key, stringValue);
      if !putOk {
        return sent, Fail("PUT /admin/settings failed");
      }
      settings := settings[key := stringValue];
      outcome := Pass;
    }

    /** A click on the auto-dev switch: submit the negation of its state. */
    method ToggleAutoDev(putOk: bool) returns (outcome: Outcome<string>)
      modifies this`settings
      ensures putOk ==> AutoDevOn(settings) == !AutoDevOn(old(settings))
      ensures putOk ==> forall k :: k != AutoDevKey ==> (k in settings <==> k in old(settings))
      ensures putOk ==> forall k :: k in settings && k != AutoDevKey ==> settings[k] == old(settings)[k]
      ensures !putOk ==> settings == old(settings)
      ensures outcome.Pass? <==> putOk
    {
      var checked := AutoDevOn(settings);
      ToggleFlipsSwitch(settings);
      var _, o := HandleSettingChange(AutoDevKey, Flag(!checked), putOk);
      outcome := o;
    }

    /** The repository field's `onChange`: a local edit, not yet saved. */
    method EditRepoUrl(text: string)
      modifies this`settings
      ensures settings == old(settings)[RepoUrlKey := text]
    {
      settings := settings[RepoUrlKey := text];
    }

    /** The repository field's `onBlur`: save what it shows. */
    method CommitRepoUrl(putOk: bool) returns (outcome: Outcome<string>)
      modifies this`settings
      ensures outcome.Pass? <==> putOk
      ensures putOk ==> settings == old(settings)[RepoUrlKey := Lookup(old(settings), RepoUrlKey)]
      ensures !putOk ==> settings == old(settings)
    {
      var _, o := HandleSettingChange(RepoUrlKey, Text(Lookup(settings, RepoUrlKey)), putOk);
      outcome := o;
    }
  }
}
