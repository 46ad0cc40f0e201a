/** The build settings of one configuration and the rewrite the action applies
    to them: the provisioning profile specifier (replaced or appended to), then
    the team, the bundle identifier and the two code-sign identity keys, each
    overwritten only when its parameter is given. */
module Settings {
  import opened Results

  /** A build setting is a single string or a list of strings. */
  datatype SettingValue = Str(s: string) | List(items: seq<string>)

  type BuildSettings = map<string, SettingValue>

  const SpecifierKey: string := "PROVISIONING_PROFILE_SPECIFIER"
  const TeamKey: string := "DEVELOPMENT_TEAM"
  const BundleKey: string := "PRODUCT_BUNDLE_IDENTIFIER"
  const IdentityKey: string := "CODE_SIGN_IDENTITY"
  const SdkIdentityKey: string := "CODE_SIGN_IDENTITY[sdk=iphoneos*]"
  const InfoPlistKey: string := "INFOPLIST_FILE"

  /** The only keys the rewrite may touch. */
  const SigningKeys: set<string> := {SpecifierKey, TeamKey, BundleKey, IdentityKey, SdkIdentityKey}

  /** The action's parameters, fixed for the whole run. */
  datatype Params = Params(
    target: Option<string>,
    newSpecifier: string,
    append: bool,
    teamId: Option<string>,
    bundleId: Option<string>,
    codeSignIdentity: Option<string>,
    gameName: Option<string>)

  /** Key `k` is present in both or absent from both, with the same value. */
  ghost predicate SameAt(s: BuildSettings, s': BuildSettings, k: string) {
    (k in s <==> k in s') && (k in s ==> s[k] == s'[k])
  }

  /** `k` holds `v` when `v` is given, and is as it was otherwise. */
  ghost predicate OverwrittenIfGiven(s: BuildSettings, s': BuildSettings, k: string, v: Option<string>) {
    if v.Some? then k in s' && s'[k] == Str(v.value) else SameAt(s, s', k)
  }

  /** Appending is defined only onto a present string value. */
  predicate CanAppend(s: BuildSettings) {
    SpecifierKey in s && s[SpecifierKey].Str?
  }

  predicate Updatable(s: BuildSettings, p: Params) {
    !p.append || CanAppend(s)
  }

  /** Reference definition: `s'` is what the rewrite of `s` under `p` must be. */
  ghost predicate SettingsUpdated(s: BuildSettings, p: Params, s': BuildSettings) {
    && Updatable(s, p)
    && SpecifierKey in s'
    && s'[SpecifierKey] == (if p.append then Str(s[SpecifierKey].s + p.newSpecifier) else Str(p.newSpecifier))
    && OverwrittenIfGiven(s, s', TeamKey, p.teamId)
    && OverwrittenIfGiven(s, s', BundleKey, p.bundleId)
    && OverwrittenIfGiven(s, s', IdentityKey, p.codeSignIdentity)
    && OverwrittenIfGiven(s, s', SdkIdentityKey, p.codeSignIdentity)
    && forall k :: k !in SigningKeys ==> SameAt(s, s', k)
  }

  /** Step 1: replace the specifier, or append `spec` to the current string. */
  function ApplySpecifier(s: BuildSettings, spec: string, append: bool): (r: Result<BuildSettings>)
    ensures r.Ok? <==> !append || CanAppend(s)
    ensures append && SpecifierKey !in s ==> r == Err(AppendToMissing)
    ensures append && SpecifierKey in s && s[SpecifierKey].List? ==> r == Err(AppendToList)
    ensures r.Ok? ==> r.value.Keys == s.Keys + {SpecifierKey}
    ensures r.Ok? ==> forall k :: k in s && k != SpecifierKey ==> r.value[k] == s[k]
    ensures r.Ok? && !append ==> r.value[SpecifierKey] == Str(spec)
    ensures r.Ok? && append ==> r.value[SpecifierKey] == Str(s[SpecifierKey].s + spec)
  {
    if !append then
      Ok(s[SpecifierKey := Str(spec)])
    else if SpecifierKey !in s then
      Err(AppendToMissing)
    else
      match s[SpecifierKey]
      case Str(cur) => Ok(s[SpecifierKey := Str(cur + spec)])
      case List(_) => Err(AppendToList)
  }

  /** Steps 2-4: overwrite `k` when a value is given. */
  function SetIfGiven(s: BuildSettings, k: string, v: Option<string>): (r: BuildSettings)
    ensures OverwrittenIfGiven(s, r, k, v)
    ensures forall k' :: k' != k ==> SameAt(s, r, k')
    ensures s.Keys <= r.Keys
  {
    if v.Some? then s[k := Str(v.value)] else s
  }

  /** The whole per-configuration rewrite, failing only where appending fails. */
  function UpdateSettings(s: BuildSettings, p: Params): (r: Result<BuildSettings>)
    ensures r.Ok? <==> Updatable(s, p)
    ensures r.Err? ==> r.error == (if SpecifierKey in s then AppendToList else AppendToMissing)
  {
    match ApplySpecifier(s, p.newSpecifier, p.append)
    case Err(e) => Err(e)
    case Ok(s1) =>
      var s2 := SetIfGiven(s1, TeamKey, p.teamId);
      var s3 := SetIfGiven(s2, BundleKey, p.bundleId);
      var s4 := SetIfGiven(s3, IdentityKey, p.codeSignIdentity);
      Ok(SetIfGiven(s4, SdkIdentityKey, p.codeSignIdentity))
  }

  /** The rewrite meets the reference definition, and it adds no key beyond
      the signing keys and removes none. */
  lemma UpdateSettingsSound(s: BuildSettings, p: Params)
    requires Updatable(s, p)
    ensures SettingsUpdated(s, p, UpdateSettings(s, p).value)
    ensures s.Keys <= UpdateSettings(s, p).value.Keys <= s.Keys + SigningKeys
  {
    var s1 := ApplySpecifier(s, p.newSpecifier, p.append).value;
    var s2 := SetIfGiven(s1, TeamKey, p.teamId);
    var s3 := SetIfGiven(s2, BundleKey, p.bundleId);
    var s4 := SetIfGiven(s3, IdentityKey, p.codeSignIdentity);
    var s5 := SetIfGiven(s4, SdkIdentityKey, p.codeSignIdentity);
    assert UpdateSettings(s, p).value == s5;
    assert SameAt(s1, s5, SpecifierKey);
    assert OverwrittenIfGiven(s, s5, TeamKey, p.teamId) by {
      assert SameAt(s, s1, TeamKey) && SameAt(s2, s5, TeamKey);
    }
    assert OverwrittenIfGiven(s, s5, BundleKey, p.bundleId) by {
      assert SameAt(s, s2, BundleKey) && SameAt(s3, s5, BundleKey);
    }
    assert OverwrittenIfGiven(s, s5, IdentityKey, p.codeSignIdentity) by {
      assert SameAt(s, s3, IdentityKey) && SameAt(s4, s5, IdentityKey);
    }
    assert OverwrittenIfGiven(s, s5, SdkIdentityKey, p.codeSignIdentity) by {
      assert SameAt(s, s4, SdkIdentityKey);
    }
    forall k | k !in SigningKeys ensures SameAt(s, s5, k) {
      assert SameAt(s, s1, k) && SameAt(s1, s2, k) && SameAt(s2, s3, k) && SameAt(s3, s4, k) && SameAt(s4, s5, k);
    }
  }

  /** The reference definition fixes the result: at most one map satisfies it. */
  lemma SettingsUpdatedUnique(s: BuildSettings, p: Params, a: BuildSettings, b: BuildSettings)
    requires SettingsUpdated(s, p, a) && SettingsUpdated(s, p, b)
    ensures a == b
  {
    forall k ensures SameAt(a, b, k) {
      if k !in SigningKeys {
        assert SameAt(s, a, k) && SameAt(s, b, k);
      } else if k == TeamKey {
        assert OverwrittenIfGiven(s, a, k, p.teamId) && OverwrittenIfGiven(s, b, k, p.teamId);
      } else if k == BundleKey {
        assert OverwrittenIfGiven(s, a, k, p.bundleId) && OverwrittenIfGiven(s, b, k, p.bundleId);
      } else if k == IdentityKey || k == SdkIdentityKey {
        assert OverwrittenIfGiven(s, a, k, p.codeSignIdentity) && OverwrittenIfGiven(s, b, k, p.codeSignIdentity);
      }
    }
    assert a.Keys == b.Keys by {
      forall k ensures k in a <==> k in b { assert SameAt(a, b, k); }
    }
    forall k | k in a ensures a[k] == b[k] { assert SameAt(a, b, k); }
  }

  /** Both directions: the function computes exactly the reference result. */
  lemma UpdateSettingsIff(s: BuildSettings, p: Params, s': BuildSettings)
    ensures UpdateSettings(s, p) == Ok(s') <==> SettingsUpdated(s, p, s')
  {
    if SettingsUpdated(s, p, s') {
      UpdateSettingsSound(s, p);
      SettingsUpdatedUnique(s, p, UpdateSettings(s, p).value, s');
    }
    if UpdateSettings(s, p) == Ok(s') {
      UpdateSettingsSound(s, p);
    }
  }

  /** With append off, rewriting an already rewritten map changes nothing. */
  lemma ReplaceIdempotent(s: BuildSettings, p: Params)
    requires !p.append
    ensures UpdateSettings(s, p).Ok?
    ensures UpdateSettings(UpdateSettings(s, p).value, p) == UpdateSettings(s, p)
  {
    var s1 := UpdateSettings(s, p).value;
    UpdateSettingsSound(s, p);
    assert SettingsUpdated(s1, p, s1) by {
      forall k | k !in SigningKeys ensures SameAt(s1, s1, k) { }
    }
    UpdateSettingsIff(s1, p, s1);
  }

  /** With append on, a second rewrite appends the specifier a second time. */
  lemma AppendTwice(s: BuildSettings, p: Params)
    requires p.append && CanAppend(s)
    ensures UpdateSettings(s, p).Ok?
    ensures var s1 := UpdateSettings(s, p).value;
      UpdateSettings(s1, p).Ok? &&
      UpdateSettings(s1, p).value[SpecifierKey] == Str(s[SpecifierKey].s + p.newSpecifier + p.newSpecifier)
  {
    var s1 := UpdateSettings(s, p).value;
    assert s1[SpecifierKey] == Str(s[SpecifierKey].s + p.newSpecifier);
  }

  /** "Foo" with "Bar" appended is "FooBar": no separator is inserted. */
  lemma AppendExample()
    ensures var p := Params(None, "Bar", true, None, None, None, None);
      UpdateSettings(map[SpecifierKey := Str("Foo")], p) == Ok(map[SpecifierKey := Str("FooBar")])
  {
    var p := Params(None, "Bar", true, None, None, None, None);
    UpdateSettingsIff(map[SpecifierKey := Str("Foo")], p, map[SpecifierKey := Str("FooBar")]);
  }

  /** A list-valued specifier cannot be appended to: the action fails. */
  lemma AppendToListFails()
    ensures var p := Params(None, "C", true, None, None, None, None);
      UpdateSettings(map[SpecifierKey := List(["A", "B"])], p) == Err(AppendToList)
  {
  }
}
