/** The action itself: an opened project whose build settings are changed in
    place, one assignment at a time, while property lists are read, patched
    and written back along the way; the project file is saved once, at the
    end, and only if nothing failed. */
module Action {
  import opened Results
  import opened Settings
  import opened Plist
  import opened Engine
  import opened Locator

  /** `ts` with the settings of configuration `j` of target `i` replaced by `s`. */
  function WithSettings(ts: seq<Target>, i: nat, j: nat, s: BuildSettings): (r: seq<Target>)
    requires i < |ts| && j < |ts[i].configs|
    ensures |r| == |ts| && r[i].name == ts[i].name && |r[i].configs| == |ts[i].configs|
    ensures r[i].configs[j].settings == s
  {
    ts[i := ts[i].(configs := ts[i].configs[j := ts[i].configs[j].(settings := s)])]
  }

  lemma WithSettingsTwice(ts: seq<Target>, i: nat, j: nat, s1: BuildSettings, s2: BuildSettings)
    requires i < |ts| && j < |ts[i].configs|
    ensures WithSettings(WithSettings(ts, i, j, s1), i, j, s2) == WithSettings(ts, i, j, s2)
  {
    var cs := ts[i].configs;
    assert cs[j := cs[j].(settings := s1)][j := cs[j].(settings := s2)] == cs[j := cs[j].(settings := s2)];
  }

  class XcodeProject {
    /** The in-memory working copy of the project's targets. */
    var targets: seq<Target>
    /** The targets as the project descriptor file on disk holds them. */
    var saved: seq<Target>

    /** The project as `Xcodeproj::Project.open` hands it over. */
    constructor Open(descriptor: seq<Target>)
      ensures targets == descriptor && saved == descriptor
    {
      targets := descriptor;
      saved := descriptor;
    }

    /** `project.save`: the descriptor file now holds the working copy. */
    method Save()
      modifies this
      ensures saved == targets && targets == old(targets)
    {
      saved := targets;
    }

    /** `config.build_settings[key] = value` for configuration `j` of target `i`. */
    method Assign(i: nat, j: nat, key: string, value: SettingValue)
      requires i < |targets| && j < |targets[i].configs|
      modifies this
      ensures saved == old(saved)
      ensures targets == WithSettings(old(targets), i, j, old(targets[i].configs[j].settings)[key := value])
    {
      var t := targets[i];
      var c := t.configs[j];
      targets := targets[i := t.(configs := t.configs[j := c.(settings := c.settings[key := value])])];
    }

    /** The specifier step: the specifier is appended to or replaced; appending
        onto a missing or list value fails and assigns nothing. */
    method AssignSpecifier(i: nat, j: nat, spec: string, append: bool) returns (err: Option<Error>)
      requires i < |targets| && j < |targets[i].configs|
      modifies this
      ensures saved == old(saved)
      ensures var r := ApplySpecifier(old(targets[i].configs[j].settings), spec, append);
        && (r.Ok? ==> err == None && targets == WithSettings(old(targets), i, j, r.value))
        && (r.Err? ==> err == Some(r.error) && targets == old(targets))
    {
      var s := targets[i].configs[j].settings;
      err := None;
      if append {
        if SpecifierKey !in s {
          return Some(AppendToMissing);
        }
        match s[SpecifierKey] {
          case List(_) =>
            return Some(AppendToList);
          case Str(cur) =>
            Assign(i, j, SpecifierKey, Str(cur + spec));
        }
      } else {
        Assign(i, j, SpecifierKey, Str(spec));
      }
    }

    /** One of the signing-key steps: overwrite `key` when a value is given. */
    method AssignIfGiven(i: nat, j: nat, key: string, v: Option<string>)
      requires i < |targets| && j < |targets[i].configs|
      modifies this
      ensures saved == old(saved)
      ensures targets == WithSettings(old(targets), i, j, SetIfGiven(old(targets[i].configs[j].settings), key, v))
    {
      if v.Some? {
        Assign(i, j, key, Str(v.value));
      } else {
        assert targets[i].configs[j] == targets[i].configs[j].(settings := targets[i].configs[j].settings);
        assert targets[i].configs == targets[i].configs[j := targets[i].configs[j]];
        assert targets == targets[i := targets[i]];
      }
    }

    /** All the settings steps: the build settings of configuration `j` of target `i`
        are rewritten in place as `UpdateSettings` says, or left alone when
        appending fails. */
    method AssignSettings(i: nat, j: nat, p: Params) returns (err: Option<Error>)
      requires i < |targets| && j < |targets[i].configs|
      modifies this
      ensures saved == old(saved)
      ensures var r := UpdateSettings(old(targets[i].configs[j].settings), p);
        && (r.Ok? ==> err == None && targets == WithSettings(old(targets), i, j, r.value))
        && (r.Err? ==> err == Some(r.error) && targets == old(targets))
    {
      ghost var ts0 := targets;
      ghost var s := targets[i].configs[j].settings;
      err := AssignSpecifier(i, j, p.newSpecifier, p.append);
      if err.Some? {
        return;
      }
      ghost var s1 := targets[i].configs[j].settings;
      AssignIfGiven(i, j, TeamKey, p.teamId);
      WithSettingsTwice(ts0, i, j, s1, SetIfGiven(s1, TeamKey, p.teamId));
      ghost var s2 := targets[i].configs[j].settings;
      AssignIfGiven(i, j, BundleKey, p.bundleId);
      WithSettingsTwice(ts0, i, j, s2, SetIfGiven(s2, BundleKey, p.bundleId));
      ghost var s3 := targets[i].configs[j].settings;
      AssignIfGiven(i, j, IdentityKey, p.codeSignIdentity);
      WithSettingsTwice(ts0, i, j, s3, SetIfGiven(s3, IdentityKey, p.codeSignIdentity));
      ghost var s4 := targets[i].configs[j].settings;
      AssignIfGiven(i, j, SdkIdentityKey, p.codeSignIdentity);
      WithSettingsTwice(ts0, i, j, s4, SetIfGiven(s4, SdkIdentityKey, p.codeSignIdentity));
    }

    /** The whole body of the inner loop for configuration `j` of target `i`: the settings are
        assigned first, then the display name is patched; a failing patch
        leaves the assignments made (they are only lost because nothing is
        saved). */
    method UpdateConfiguration(i: nat, j: nat, p: Params, store: PlistStore) returns (err: Option<Error>)
      requires i < |targets| && j < |targets[i].configs|
      modifies this, store
      ensures saved == old(saved)
      ensures var s := old(targets[i].configs[j].settings);
        var step := ConfigureStep(old(store.docs), s, p);
        && (step.Ok? ==>
              err == None && store.docs == step.value.files && targets == WithSettings(old(targets), i, j, step.value.settings))
        && (step.Err? ==> err == Some(step.error) && store.docs == old(store.docs))
        && (step.Err? && !Updatable(s, p) ==> targets == old(targets))
        && (step.Err? && Updatable(s, p) ==> targets == WithSettings(old(targets), i, j, UpdateSettings(s, p).value))
    {
      err := AssignSettings(i, j, p);
      if err.Some? || p.gameName.None? {
        return;
      }
      var settings := targets[i].configs[j].settings;
      if InfoPlistKey !in settings {
        return Some(InfoPlistMissing);
      }
      match settings[InfoPlistKey] {
        case List(_) =>
          return Some(InfoPlistNotString);
        case Str(path) =>
          err := store.PatchDisplayName(path, p.gameName.value);
      }
    }

    /** The inner loop over the configurations of target `i`. */
    method UpdateTarget(i: nat, p: Params, store: PlistStore) returns (err: Option<Error>)
      requires i < |targets|
      modifies this, store
      ensures saved == old(saved)
      ensures match ProcessConfigs(old(targets[i].configs), old(store.docs), p)
        case Done(cs, f) =>
          err == None && store.docs == f && targets == old(targets)[i := old(targets[i]).(configs := cs)]
        case Aborted(e, f) =>
          err == Some(e) && store.docs == f
    {
      ghost var ts0, cs0, docs0 := targets, targets[i].configs, store.docs;
      err := None;
      var j := 0;
      while j < |targets[i].configs|
        invariant 0 <= j <= |cs0|
        invariant saved == old(saved) && err == None
        invariant |targets| == |ts0| && |targets[i].configs| == |cs0|
        invariant targets == ts0[i := ts0[i].(configs := targets[i].configs)]
        invariant targets[i].configs[j..] == cs0[j..]
        invariant ProcessConfigs(cs0[..j], docs0, p) == Done(targets[i].configs[..j], store.docs)
      {
        ghost var before, docs := targets[i].configs, store.docs;
        assert before[j] == cs0[j];
        err := UpdateConfiguration(i, j, p, store);
        ghost var step := ConfigureStep(docs, cs0[j].settings, p);
        if err.Some? {
          ConfigsHalt(cs0, j, docs0, p, before[..j], docs, err.value);
          return;
        }
        ConfigsAdvance(cs0, j, docs0, p, before, docs, step.value);
        assert targets[i].configs == before[j := cs0[j].(settings := step.value.settings)];
        j := j + 1;
      }
      assert cs0[..j] == cs0;
      assert targets[i].configs[..j] == targets[i].configs;
    }

    /** The outer loop over the targets the filter keeps;
        nothing is saved here. */
    method UpdateTargets(p: Params, store: PlistStore, matches: (string, string) -> bool) returns (err: Option<Error>)
      modifies this, store
      ensures saved == old(saved)
      ensures match ProcessTargets(old(targets), old(store.docs), p, matches)
        case Done(ts, f) => err == None && targets == ts && store.docs == f
        case Aborted(e, f) => err == Some(e) && store.docs == f
    {
      ghost var ts0, docs0 := targets, store.docs;
      err := None;
      var i := 0;
      while i < |targets|
        invariant 0 <= i <= |ts0|
        invariant saved == old(saved) && err == None
        invariant |targets| == |ts0| && targets[i..] == ts0[i..]
        invariant ProcessTargets(ts0[..i], docs0, p, matches) == Done(targets[..i], store.docs)
      {
        ghost var before, docs := targets, store.docs;
        assert before[i] == ts0[i];
        if Selected(targets[i].name, p.target, matches) {
          err := UpdateTarget(i, p, store);
          if err.Some? {
            TargetsHalt(ts0, i, docs0, p, matches, before[..i], docs, err.value, store.docs);
            return;
          }
        }
        TargetsAdvance(ts0, i, docs0, p, matches, before, docs, targets[i], store.docs);
        assert targets == before[i := targets[i]];
        i := i + 1;
      }
      assert ts0[..i] == ts0;
      assert targets[..i] == targets;
    }

    /** `self.run`: check that the project descriptor exists, rewrite every
        configuration of every target the filter keeps, then save. On an
        error nothing is saved, but property lists written before it stay
        written. */
    method Run(p: Params, xcodeproj: Option<string>, listing: seq<string>, existing: set<string>,
               store: PlistStore, matches: (string, string) -> bool) returns (err: Option<Error>)
      modifies this, store
      ensures Locate(xcodeproj, listing, existing).Err? ==>
                && err == Some(Locate(xcodeproj, listing, existing).error)
                && targets == old(targets) && saved == old(saved) && store.docs == old(store.docs)
      ensures Locate(xcodeproj, listing, existing).Ok? ==>
                match ProcessTargets(old(targets), old(store.docs), p, matches)
                case Done(ts, f) => err == None && targets == ts && saved == ts && store.docs == f
                case Aborted(e, f) => err == Some(e) && saved == old(saved) && store.docs == f
    {
      var located := Locate(xcodeproj, listing, existing);
      if located.Err? {
        return Some(located.error);
      }
      err := UpdateTargets(p, store, matches);
      if err.None? {
        Save();
      }
    }
  }
}
