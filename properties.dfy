/** What a whole run of the action promises, stated over `ProcessTargets`,
    which `Action.XcodeProject.Run` follows step by step: which targets are
    touched, what every kept configuration ends up holding, which property
    lists are patched, when the run fails and what a failure leaves behind. */
module Properties {
  import opened Results
  import opened Settings
  import opened Plist
  import opened Engine

  /** Some kept configuration names `q` as its property list. */
  ghost predicate Referenced(ts: seq<Target>, p: Params, matches: (string, string) -> bool, q: string) {
    exists i, j :: Kept(ts, p, matches, i, j) && InfoPlistPath(ts[i].configs[j].settings) == Ok(q)
  }

  // ---------------------------------------------------------------------
  // Targets and configurations

  /** A target the filter does not keep comes out exactly as it went in. */
  lemma SkippedTargetsUntouched(ts: seq<Target>, files: Files, p: Params, matches: (string, string) -> bool)
    requires ProcessTargets(ts, files, p, matches).Done?
    ensures var ts' := ProcessTargets(ts, files, p, matches).value;
      forall i :: 0 <= i < |ts| && !Selected(ts[i].name, p.target, matches) ==> ts'[i] == ts[i]
  {
    TargetsDone(ts, files, p, matches);
    var ts' := ProcessTargets(ts, files, p, matches).value;
    forall i | 0 <= i < |ts| && !Selected(ts[i].name, p.target, matches) ensures ts'[i] == ts[i] {
      assert TargetFacts(ts[i], ts'[i], files, p, matches);
    }
  }

  /** Targets and configurations keep their names, their number and their
      order: only build settings change. */
  lemma StructurePreserved(ts: seq<Target>, files: Files, p: Params, matches: (string, string) -> bool)
    requires ProcessTargets(ts, files, p, matches).Done?
    ensures var ts' := ProcessTargets(ts, files, p, matches).value;
      && |ts'| == |ts|
      && (forall i :: 0 <= i < |ts| ==> ts'[i].name == ts[i].name && |ts'[i].configs| == |ts[i].configs|)
      && (forall i, j :: 0 <= i < |ts| && 0 <= j < |ts[i].configs| ==> ts'[i].configs[j].name == ts[i].configs[j].name)
  {
    TargetsDone(ts, files, p, matches);
    var ts' := ProcessTargets(ts, files, p, matches).value;
    forall i, j | 0 <= i < |ts| && 0 <= j < |ts[i].configs|
      ensures ts'[i].configs[j].name == ts[i].configs[j].name
    {
      assert TargetFacts(ts[i], ts'[i], files, p, matches);
      if Selected(ts[i].name, p.target, matches) {
        assert ConfigFacts(ts[i].configs[j], ts'[i].configs[j], files, p);
      }
    }
  }

  /** Every kept configuration holds exactly the reference rewrite of its
      settings, and lost no key and gained none beyond the signing keys. */
  lemma KeptConfigsRewritten(ts: seq<Target>, files: Files, p: Params, matches: (string, string) -> bool)
    requires ProcessTargets(ts, files, p, matches).Done?
    ensures var ts' := ProcessTargets(ts, files, p, matches).value;
      forall i, j :: Kept(ts, p, matches, i, j) ==>
        var s, s' := ts[i].configs[j].settings, ts'[i].configs[j].settings;
        SettingsUpdated(s, p, s') && s.Keys <= s'.Keys <= s.Keys + SigningKeys
  {
    TargetsDone(ts, files, p, matches);
    var ts' := ProcessTargets(ts, files, p, matches).value;
    forall i, j | Kept(ts, p, matches, i, j)
      ensures var s, s' := ts[i].configs[j].settings, ts'[i].configs[j].settings;
        SettingsUpdated(s, p, s') && s.Keys <= s'.Keys <= s.Keys + SigningKeys
    {
      assert TargetFacts(ts[i], ts'[i], files, p, matches);
      var s, s' := ts[i].configs[j].settings, ts'[i].configs[j].settings;
      assert ConfigFacts(ts[i].configs[j], ts'[i].configs[j], files, p);
      UpdateSettingsSound(s, p);
    }
  }

  /** Without a target filter every configuration of every target is rewritten. */
  lemma NoFilterRewritesAll(ts: seq<Target>, files: Files, p: Params, matches: (string, string) -> bool)
    requires p.target.None? && ProcessTargets(ts, files, p, matches).Done?
    ensures var ts' := ProcessTargets(ts, files, p, matches).value;
      forall i, j :: 0 <= i < |ts| && 0 <= j < |ts[i].configs| ==>
        UpdateSettings(ts[i].configs[j].settings, p) == Ok(ts'[i].configs[j].settings)
  {
    TargetsDone(ts, files, p, matches);
    var ts' := ProcessTargets(ts, files, p, matches).value;
    forall i, j | 0 <= i < |ts| && 0 <= j < |ts[i].configs|
      ensures UpdateSettings(ts[i].configs[j].settings, p) == Ok(ts'[i].configs[j].settings)
    {
      assert TargetFacts(ts[i], ts'[i], files, p, matches);
      assert ConfigFacts(ts[i].configs[j], ts'[i].configs[j], files, p);
    }
  }

  /** Replacing: without a display name the run cannot fail, and every kept
      configuration ends up with the new specifier. */
  lemma ReplaceEverywhere(ts: seq<Target>, files: Files, p: Params, matches: (string, string) -> bool)
    requires !p.append
    ensures p.gameName.None? ==> ProcessTargets(ts, files, p, matches).Done?
    ensures ProcessTargets(ts, files, p, matches).Done? ==>
      var ts' := ProcessTargets(ts, files, p, matches).value;
      forall i, j :: Kept(ts, p, matches, i, j) ==>
        SpecifierKey in ts'[i].configs[j].settings && ts'[i].configs[j].settings[SpecifierKey] == Str(p.newSpecifier)
  {
    if ProcessTargets(ts, files, p, matches).Aborted? {
      var i, j := TargetsAborted(ts, files, p, matches);
    } else {
      KeptConfigsRewritten(ts, files, p, matches);
    }
  }

  /** Appending: every kept configuration held a string specifier, which now
      has the new one appended with no separator. */
  lemma AppendEverywhere(ts: seq<Target>, files: Files, p: Params, matches: (string, string) -> bool)
    requires p.append && ProcessTargets(ts, files, p, matches).Done?
    ensures var ts' := ProcessTargets(ts, files, p, matches).value;
      forall i, j :: Kept(ts, p, matches, i, j) ==>
        var s, s' := ts[i].configs[j].settings, ts'[i].configs[j].settings;
        CanAppend(s) && SpecifierKey in s' && s'[SpecifierKey] == Str(s[SpecifierKey].s + p.newSpecifier)
  {
    KeptConfigsRewritten(ts, files, p, matches);
  }

  // ---------------------------------------------------------------------
  // Success and failure

  /** The run goes through exactly when every kept configuration does on the
      files as they were at the start. */
  lemma RunSucceedsIff(ts: seq<Target>, files: Files, p: Params, matches: (string, string) -> bool)
    ensures ProcessTargets(ts, files, p, matches).Done? <==>
              forall i, j :: Kept(ts, p, matches, i, j) ==> ConfigOk(files, ts[i].configs[j].settings, p)
  {
    if ProcessTargets(ts, files, p, matches).Aborted? {
      var i, j := TargetsAborted(ts, files, p, matches);
    } else {
      TargetsDone(ts, files, p, matches);
      var ts' := ProcessTargets(ts, files, p, matches).value;
      forall i, j | Kept(ts, p, matches, i, j) ensures ConfigOk(files, ts[i].configs[j].settings, p) {
        assert TargetFacts(ts[i], ts'[i], files, p, matches);
        assert ConfigFacts(ts[i].configs[j], ts'[i].configs[j], files, p);
      }
    }
  }

  /** A failed run stops at the first kept configuration that fails and
      reports that configuration's error. Property lists patched for the
      kept configurations before it stay patched: nothing is rolled back. */
  lemma AbortedRun(ts: seq<Target>, files: Files, p: Params, matches: (string, string) -> bool)
      returns (i: nat, j: nat)
    requires ProcessTargets(ts, files, p, matches).Aborted?
    ensures Kept(ts, p, matches, i, j) && !ConfigOk(files, ts[i].configs[j].settings, p)
    ensures ProcessTargets(ts, files, p, matches).error == ConfigureStep(files, ts[i].configs[j].settings, p).error
    ensures forall i', j' :: Kept(ts, p, matches, i', j') && Before(i', j', i, j) ==>
              ConfigOk(files, ts[i'].configs[j'].settings, p)
    ensures var f' := ProcessTargets(ts, files, p, matches).files;
      && f'.Keys == files.Keys
      && (p.gameName.Some? ==>
            forall i', j' :: Kept(ts, p, matches, i', j') && Before(i', j', i, j) ==>
              var s := ts[i'].configs[j'].settings;
              PlistResolvable(files, s) && f'[s[InfoPlistKey].s] == WithDisplayName(files[s[InfoPlistKey].s], p.gameName.value))
      && (forall q :: q in files && !Referenced(ts, p, matches, q) ==> f'[q] == files[q])
  {
    i, j := TargetsAborted(ts, files, p, matches);
    var f' := ProcessTargets(ts, files, p, matches).files;
    var P := TouchedByTargets(ts[..i], p, matches) + Touched(ts[i].configs[..j], p);
    if p.gameName.Some? {
      forall i', j' | Kept(ts, p, matches, i', j') && Before(i', j', i, j)
        ensures var s := ts[i'].configs[j'].settings;
          PlistResolvable(files, s) && f'[s[InfoPlistKey].s] == WithDisplayName(files[s[InfoPlistKey].s], p.gameName.value)
      {
        var s := ts[i'].configs[j'].settings;
        assert ConfigOk(files, s, p);
        var q := s[InfoPlistKey].s;
        assert q in TouchedBy(s, p);
        if i' < i {
          assert ts[..i][i'] == ts[i'];
          TouchedContains(ts[i'].configs, p, j');
          TouchedByTargetsContains(ts[..i], p, matches, i');
        } else {
          assert ts[i].configs[..j][j'] == ts[i].configs[j'];
          TouchedContains(ts[i].configs[..j], p, j');
        }
        assert q in P;
      }
    }
    forall q | q in P ensures Referenced(ts, p, matches, q) {
      if q in TouchedByTargets(ts[..i], p, matches) {
        var i', j' := TouchedByTargetsWitness(ts[..i], p, matches, q);
        assert ts[..i][i'] == ts[i'];
        assert Kept(ts, p, matches, i', j') && InfoPlistPath(ts[i'].configs[j'].settings) == Ok(q);
      } else {
        var j' := TouchedWitness(ts[i].configs[..j], p, q);
        assert ts[i].configs[..j][j'] == ts[i].configs[j'];
        assert Kept(ts, p, matches, i, j') && InfoPlistPath(ts[i].configs[j'].settings) == Ok(q);
      }
    }
  }

  // ---------------------------------------------------------------------
  // Property lists

  lemma {:induction false} TouchedWitness(cs: seq<BuildConfiguration>, p: Params, q: string) returns (j: nat)
    requires q in Touched(cs, p)
    ensures j < |cs| && q in TouchedBy(cs[j].settings, p)
    decreases |cs|
  {
    var n := |cs| - 1;
    if q in TouchedBy(cs[n].settings, p) {
      j := n;
    } else {
      j := TouchedWitness(cs[..n], p, q);
      assert cs[..n][j] == cs[j];
    }
  }

  lemma {:induction false} TouchedByTargetsWitness(ts: seq<Target>, p: Params, matches: (string, string) -> bool, q: string)
      returns (i: nat, j: nat)
    requires q in TouchedByTargets(ts, p, matches)
    ensures Kept(ts, p, matches, i, j) && q in TouchedBy(ts[i].configs[j].settings, p)
    decreases |ts|
  {
    var n := |ts| - 1;
    if Selected(ts[n].name, p.target, matches) && q in Touched(ts[n].configs, p) {
      i := n;
      j := TouchedWitness(ts[n].configs, p, q);
    } else {
      i, j := TouchedByTargetsWitness(ts[..n], p, matches, q);
      assert ts[..n][i] == ts[i];
    }
  }

  /** The paths a run patches are exactly those its kept configurations name,
      and only when a display name is given. */
  lemma TouchedIffReferenced(ts: seq<Target>, p: Params, matches: (string, string) -> bool, q: string)
    ensures q in TouchedByTargets(ts, p, matches) <==> p.gameName.Some? && Referenced(ts, p, matches, q)
  {
    if q in TouchedByTargets(ts, p, matches) {
      var i, j := TouchedByTargetsWitness(ts, p, matches, q);
      assert InfoPlistPath(ts[i].configs[j].settings) == Ok(q);
    }
    if p.gameName.Some? && Referenced(ts, p, matches, q) {
      var i, j :| Kept(ts, p, matches, i, j) && InfoPlistPath(ts[i].configs[j].settings) == Ok(q);
      TouchedContains(ts[i].configs, p, j);
      TouchedByTargetsContains(ts, p, matches, i);
    }
  }

  /** With a display name, every property list a kept configuration names
      has exactly its nested display name set, and every other file is left
      as it was. */
  lemma DisplayNameEverywhere(ts: seq<Target>, files: Files, p: Params, matches: (string, string) -> bool)
    requires p.gameName.Some? && ProcessTargets(ts, files, p, matches).Done?
    ensures var f' := ProcessTargets(ts, files, p, matches).files;
      && f'.Keys == files.Keys
      && (forall q :: Referenced(ts, p, matches, q) ==> q in files && DisplayNamePatched(files[q], p.gameName.value, f'[q]))
      && (forall q :: q in files && !Referenced(ts, p, matches, q) ==> f'[q] == files[q])
  {
    TargetsDone(ts, files, p, matches);
    var ts', f' := ProcessTargets(ts, files, p, matches).value, ProcessTargets(ts, files, p, matches).files;
    var name := p.gameName.value;
    forall q | Referenced(ts, p, matches, q) ensures q in files && DisplayNamePatched(files[q], name, f'[q]) {
      var i, j :| Kept(ts, p, matches, i, j) && InfoPlistPath(ts[i].configs[j].settings) == Ok(q);
      assert TargetFacts(ts[i], ts'[i], files, p, matches);
      assert ConfigFacts(ts[i].configs[j], ts'[i].configs[j], files, p);
      TouchedIffReferenced(ts, p, matches, q);
      assert f'[q] == WithDisplayName(files[q], name);
      assert SetDisplayName(files[q], name).value == f'[q];
    }
    forall q | q in files && !Referenced(ts, p, matches, q) ensures f'[q] == files[q] {
      TouchedIffReferenced(ts, p, matches, q);
    }
  }

  /** Without a display name no property list is written, whether the run
      succeeds or fails. */
  lemma NoGameNameNoPlistWrite(ts: seq<Target>, files: Files, p: Params, matches: (string, string) -> bool)
    requires p.gameName.None?
    ensures ProcessTargets(ts, files, p, matches).files == files
  {
    if ProcessTargets(ts, files, p, matches).Done? {
      TargetsDone(ts, files, p, matches);
      assert PatchAll(files, TouchedByTargets(ts, p, matches), p) == files;
    } else {
      var i, j := TargetsAborted(ts, files, p, matches);
      assert PatchAll(files, TouchedByTargets(ts[..i], p, matches) + Touched(ts[i].configs[..j], p), p) == files;
    }
  }

  // ---------------------------------------------------------------------
  // Re-running

  /** A configuration that the step leaves as it is. */
  ghost predicate Fixed(files: Files, s: BuildSettings, p: Params) {
    ConfigureStep(files, s, p) == Ok(Step(s, files))
  }

  lemma {:induction false} ConfigsFixed(cs: seq<BuildConfiguration>, files: Files, p: Params)
    requires forall j :: 0 <= j < |cs| ==> Fixed(files, cs[j].settings, p)
    ensures ProcessConfigs(cs, files, p) == Done(cs, files)
    decreases |cs|
  {
    if cs != [] {
      var n := |cs| - 1;
      var pre := cs[..n];
      forall j | 0 <= j < |pre| ensures Fixed(files, pre[j].settings, p) {
        assert pre[j] == cs[j];
      }
      ConfigsFixed(pre, files, p);
      assert Fixed(files, cs[n].settings, p);
      ConfigsLast(cs, files, p, pre, files, Step(cs[n].settings, files));
      assert cs[n].(settings := cs[n].settings) == cs[n];
      assert pre + [cs[n]] == cs;
    }
  }

  /** Every kept configuration is fixed. */
  ghost predicate KeptFixed(ts: seq<Target>, files: Files, p: Params, matches: (string, string) -> bool) {
    forall i, j :: Kept(ts, p, matches, i, j) ==> Fixed(files, ts[i].configs[j].settings, p)
  }

  lemma {:induction false} TargetsFixed(ts: seq<Target>, files: Files, p: Params, matches: (string, string) -> bool)
    requires KeptFixed(ts, files, p, matches)
    ensures ProcessTargets(ts, files, p, matches) == Done(ts, files)
    decreases |ts|
  {
    if ts != [] {
      var n := |ts| - 1;
      var pre, t := ts[..n], ts[n];
      KeptFixedPrefix(ts, files, p, matches);
      TargetsFixed(pre, files, p, matches);
      if Selected(t.name, p.target, matches) {
        KeptFixedLast(ts, files, p, matches);
        assert t.(configs := t.configs) == t;
      }
      TargetsLast(ts, files, p, matches, pre, files, t, files);
      assert pre + [t] == ts;
    }
  }

  /** Dropping the last target keeps every remaining kept configuration fixed. */
  lemma KeptFixedPrefix(ts: seq<Target>, files: Files, p: Params, matches: (string, string) -> bool)
    requires ts != [] && KeptFixed(ts, files, p, matches)
    ensures KeptFixed(ts[..|ts| - 1], files, p, matches)
  {
    var pre := ts[..|ts| - 1];
    forall i, j | Kept(pre, p, matches, i, j) ensures Fixed(files, pre[i].configs[j].settings, p) {
      assert pre[i] == ts[i] && Kept(ts, p, matches, i, j);
    }
  }

  /** A kept last target whose configurations are all fixed passes through the inner loop unchanged. */
  lemma KeptFixedLast(ts: seq<Target>, files: Files, p: Params, matches: (string, string) -> bool)
    requires ts != [] && KeptFixed(ts, files, p, matches) && Selected(ts[|ts| - 1].name, p.target, matches)
    ensures ProcessConfigs(ts[|ts| - 1].configs, files, p) == Done(ts[|ts| - 1].configs, files)
  {
    var n := |ts| - 1;
    forall j | 0 <= j < |ts[n].configs| ensures Fixed(files, ts[n].configs[j].settings, p) {
      assert Kept(ts, p, matches, n, j);
    }
    ConfigsFixed(ts[n].configs, files, p);
  }

  /** A configuration rewritten by replacing, against the files the run
      left behind, is a fixed point of the step. */
  lemma RewrittenIsFixed(files: Files, s: BuildSettings, s': BuildSettings, p: Params, f': Files)
    requires !p.append && ConfigOk(files, s, p) && UpdateSettings(s, p) == Ok(s')
    requires f'.Keys == files.Keys
    requires p.gameName.Some? ==>
               f'[s[InfoPlistKey].s] == WithDisplayName(files[s[InfoPlistKey].s], p.gameName.value)
    ensures Fixed(f', s', p)
  {
    ReplaceIdempotent(s, p);
    UpdateSettingsSound(s, p);
    assert SameAt(s, s', InfoPlistKey);
    if p.gameName.Some? {
      var name := p.gameName.value;
      var q := s[InfoPlistKey].s;
      WithDisplayNameIdempotent(files[q], name);
      assert f'[q := WithDisplayName(f'[q], name)] == f';
    }
  }

  /** Replacing is idempotent: running the action again, with the same
      parameters, on the targets and files a successful run produced,
      succeeds and changes nothing. */
  lemma ReplaceRunIdempotent(ts: seq<Target>, files: Files, p: Params, matches: (string, string) -> bool)
    requires !p.append && ProcessTargets(ts, files, p, matches).Done?
    ensures var r := ProcessTargets(ts, files, p, matches);
      ProcessTargets(r.value, r.files, p, matches) == r
  {
    var r := ProcessTargets(ts, files, p, matches);
    var ts', f' := r.value, r.files;
    TargetsDone(ts, files, p, matches);
    forall i, j | Kept(ts', p, matches, i, j) ensures Fixed(f', ts'[i].configs[j].settings, p) {
      assert TargetFacts(ts[i], ts'[i], files, p, matches);
      assert Kept(ts, p, matches, i, j);
      var s := ts[i].configs[j].settings;
      assert ConfigFacts(ts[i].configs[j], ts'[i].configs[j], files, p);
      if p.gameName.Some? {
        TouchedContains(ts[i].configs, p, j);
        TouchedByTargetsContains(ts, p, matches, i);
        assert s[InfoPlistKey].s in TouchedByTargets(ts, p, matches);
      }
      RewrittenIsFixed(files, s, ts'[i].configs[j].settings, p, f');
    }
    assert KeptFixed(ts', f', p, matches);
    TargetsFixed(ts', f', p, matches);
  }
}
