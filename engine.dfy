/** The run as a specification: the targets in order, the filter, and for each
    kept target its configurations in order, each rewritten and, when a display
    name is given, followed by a patch of its property list. The recursion is
    on the last element so that it follows the loops of `Action.XcodeProject.Run`
    one step at a time. */
module Engine {
  import opened Results
  import opened Settings
  import opened Plist

  datatype BuildConfiguration = BuildConfiguration(name: string, settings: BuildSettings)

  datatype Target = Target(name: string, configs: seq<BuildConfiguration>)

  /** One configuration's outcome: its new settings and the files after its patch. */
  datatype Step = Step(settings: BuildSettings, files: Files)

  /** A run either completes or stops at an error; either way plist writes
      already made stay in `files`. */
  datatype Run<+T> = Done(value: T, files: Files) | Aborted(error: Error, files: Files)

  /** `!target || t.name.match(target)`; `matches` stands for Ruby's `String#match`. */
  function Selected(name: string, filter: Option<string>, matches: (string, string) -> bool): (r: bool)
    ensures filter.None? ==> r
    ensures filter.Some? ==> (r <==> matches(name, filter.value))
  {
    filter.None? || matches(name, filter.value)
  }

  /** The path a configuration names in `INFOPLIST_FILE`. */
  function InfoPlistPath(s: BuildSettings): (r: Result<string>)
    ensures r.Ok? <==> InfoPlistKey in s && s[InfoPlistKey].Str?
    ensures r.Ok? ==> s[InfoPlistKey] == Str(r.value)
    ensures r.Err? ==> r.error == (if InfoPlistKey in s then InfoPlistNotString else InfoPlistMissing)
  {
    if InfoPlistKey !in s then Err(InfoPlistMissing)
    else match s[InfoPlistKey]
      case Str(path) => Ok(path)
      case List(_) => Err(InfoPlistNotString)
  }

  /** The display-name patch can be applied for settings `s` on `files`. */
  predicate PlistResolvable(files: Files, s: BuildSettings) {
    InfoPlistKey in s && s[InfoPlistKey].Str? && s[InfoPlistKey].s in files && HasDict(files[s[InfoPlistKey].s])
  }

  /** One configuration goes through without an error. */
  predicate ConfigOk(files: Files, s: BuildSettings, p: Params) {
    Updatable(s, p) && (p.gameName.Some? ==> PlistResolvable(files, s))
  }

  /** The display-name step for one configuration: read `INFOPLIST_FILE`, then patch
      the document stored there. */
  function PatchConfigPlist(files: Files, s: BuildSettings, name: string): (r: Result<Files>)
    ensures r.Ok? <==> PlistResolvable(files, s)
    ensures InfoPlistKey !in s ==> r == Err(InfoPlistMissing)
    ensures InfoPlistKey in s && s[InfoPlistKey].List? ==> r == Err(InfoPlistNotString)
    ensures InfoPlistKey in s && s[InfoPlistKey].Str? ==> r == PatchFile(files, s[InfoPlistKey].s, name)
  {
    match InfoPlistPath(s)
    case Err(e) => Err(e)
    case Ok(path) => PatchFile(files, path, name)
  }

  /** The body of the inner loop for one configuration: the settings are
      rewritten first; only if that succeeds is the display name patched. */
  function ConfigureStep(files: Files, s: BuildSettings, p: Params): (r: Result<Step>)
    ensures r.Ok? <==> ConfigOk(files, s, p)
    ensures !Updatable(s, p) ==> r == Err(UpdateSettings(s, p).error)
    ensures Updatable(s, p) && p.gameName.Some? && r.Err? ==>
              r == Err(PatchConfigPlist(files, s, p.gameName.value).error)
    ensures r.Ok? ==> UpdateSettings(s, p) == Ok(r.value.settings)
    ensures r.Ok? && p.gameName.None? ==> r.value.files == files
    ensures r.Ok? && p.gameName.Some? ==> r.value.files == PatchConfigPlist(files, s, p.gameName.value).value
  {
    match UpdateSettings(s, p)
    case Err(e) => Err(e)
    case Ok(s') =>
      assert SameAt(s, s', InfoPlistKey);
      if p.gameName.None? then Ok(Step(s', files))
      else
        match PatchConfigPlist(files, s', p.gameName.value)
        case Err(e) => Err(e)
        case Ok(files') => Ok(Step(s', files'))
  }

  /** The inner loop: every configuration of one target, in order. */
  function ProcessConfigs(cs: seq<BuildConfiguration>, files: Files, p: Params): (r: Run<seq<BuildConfiguration>>)
    ensures r.Done? ==> |r.value| == |cs|
    ensures r.Done? ==> forall j :: 0 <= j < |cs| ==> r.value[j].name == cs[j].name
    decreases |cs|
  {
    if cs == [] then Done([], files)
    else
      match ProcessConfigs(cs[..|cs| - 1], files, p)
      case Aborted(e, f) => Aborted(e, f)
      case Done(done, f) =>
        var c := cs[|cs| - 1];
        match ConfigureStep(f, c.settings, p)
        case Err(e) => Aborted(e, f)
        case Ok(st) => Done(done + [c.(settings := st.settings)], st.files)
  }

  /** The outer loop: every target, in order; unselected ones are passed over. */
  function ProcessTargets(ts: seq<Target>, files: Files, p: Params, matches: (string, string) -> bool): (r: Run<seq<Target>>)
    ensures r.Done? ==> |r.value| == |ts|
    ensures r.Done? ==> forall i :: 0 <= i < |ts| ==>
              r.value[i].name == ts[i].name && |r.value[i].configs| == |ts[i].configs|
    decreases |ts|
  {
    if ts == [] then Done([], files)
    else
      match ProcessTargets(ts[..|ts| - 1], files, p, matches)
      case Aborted(e, f) => Aborted(e, f)
      case Done(done, f) =>
        var t := ts[|ts| - 1];
        if !Selected(t.name, p.target, matches) then Done(done + [t], f)
        else
          match ProcessConfigs(t.configs, f, p)
          case Aborted(e, f') => Aborted(e, f')
          case Done(cs, f') => Done(done + [t.(configs := cs)], f')
  }

  /** One pass of the inner loop: `configs` is the configuration list
      whose first `j` entries have been rewritten, with `docs` the files so
      far; a successful step on entry `j` extends the rewritten prefix. */
  lemma ConfigsAdvance(cs0: seq<BuildConfiguration>, j: nat, files: Files, p: Params,
                       configs: seq<BuildConfiguration>, docs: Files, st: Step)
    requires j < |cs0| == |configs| && configs[j..] == cs0[j..]
    requires ProcessConfigs(cs0[..j], files, p) == Done(configs[..j], docs)
    requires ConfigureStep(docs, cs0[j].settings, p) == Ok(st)
    ensures var configs' := configs[j := cs0[j].(settings := st.settings)];
      configs'[j + 1..] == cs0[j + 1..] && ProcessConfigs(cs0[..j + 1], files, p) == Done(configs'[..j + 1], st.files)
  {
    var c' := cs0[j].(settings := st.settings);
    PrefixAt(cs0, j);
    ConfigsLast(cs0[..j + 1], files, p, configs[..j], docs, st);
    UpdateAt(configs, j, c');
    assert configs[j + 1..] == cs0[j + 1..] by { assert configs[j + 1..] == configs[j..][1..]; }
  }

  /** The prefix up to entry `i` ends with that entry. */
  lemma PrefixAt<T>(s: seq<T>, i: nat)
    requires i < |s|
    ensures |s[..i + 1]| == i + 1 && s[..i + 1][..i] == s[..i] && s[..i + 1][i] == s[i]
  {
  }

  /** Replacing entry `i` extends the prefix before it by the new entry and
      leaves the suffix after it alone. */
  lemma UpdateAt<T>(s: seq<T>, i: nat, x: T)
    requires i < |s|
    ensures s[i := x][..i + 1] == s[..i] + [x] && s[i := x][i + 1..] == s[i + 1..]
  {
  }

  /** The recursion of `ProcessConfigs` at its last entry. */
  lemma ConfigsLast(cs: seq<BuildConfiguration>, files: Files, p: Params,
                    done: seq<BuildConfiguration>, docs: Files, st: Step)
    requires cs != [] && ProcessConfigs(cs[..|cs| - 1], files, p) == Done(done, docs)
    requires ConfigureStep(docs, cs[|cs| - 1].settings, p) == Ok(st)
    ensures ProcessConfigs(cs, files, p) == Done(done + [cs[|cs| - 1].(settings := st.settings)], st.files)
  {
  }

  /** A failing step on entry `j` ends the inner loop with that error. */
  lemma ConfigsHalt(cs0: seq<BuildConfiguration>, j: nat, files: Files, p: Params,
                    done: seq<BuildConfiguration>, docs: Files, e: Error)
    requires j < |cs0|
    requires ProcessConfigs(cs0[..j], files, p) == Done(done, docs)
    requires ConfigureStep(docs, cs0[j].settings, p) == Err(e)
    ensures ProcessConfigs(cs0, files, p) == Aborted(e, docs)
  {
    assert cs0[..j + 1][..j] == cs0[..j];
    ConfigsAbortSticks(cs0, j + 1, files, p);
  }

  /** One pass of the outer loop: target `i` is either skipped or has all
      of its configurations rewritten into `t'`. */
  lemma TargetsAdvance(ts0: seq<Target>, i: nat, files: Files, p: Params, matches: (string, string) -> bool,
                       targets: seq<Target>, docs: Files, t': Target, docs': Files)
    requires i < |ts0| == |targets| && targets[i..] == ts0[i..]
    requires ProcessTargets(ts0[..i], files, p, matches) == Done(targets[..i], docs)
    requires !Selected(ts0[i].name, p.target, matches) ==> t' == ts0[i] && docs' == docs
    requires Selected(ts0[i].name, p.target, matches) ==>
               t' == ts0[i].(configs := t'.configs) && ProcessConfigs(ts0[i].configs, docs, p) == Done(t'.configs, docs')
    ensures targets[i := t'][i + 1..] == ts0[i + 1..]
    ensures ProcessTargets(ts0[..i + 1], files, p, matches) == Done(targets[i := t'][..i + 1], docs')
  {
    PrefixAt(ts0, i);
    TargetsLast(ts0[..i + 1], files, p, matches, targets[..i], docs, t', docs');
    UpdateAt(targets, i, t');
  }

  /** The recursion of `ProcessTargets` at its last entry. */
  lemma TargetsLast(ts: seq<Target>, files: Files, p: Params, matches: (string, string) -> bool,
                    done: seq<Target>, docs: Files, t': Target, docs': Files)
    requires ts != [] && ProcessTargets(ts[..|ts| - 1], files, p, matches) == Done(done, docs)
    requires var t := ts[|ts| - 1]; !Selected(t.name, p.target, matches) ==> t' == t && docs' == docs
    requires var t := ts[|ts| - 1]; Selected(t.name, p.target, matches) ==>
               t' == t.(configs := t'.configs) && ProcessConfigs(t.configs, docs, p) == Done(t'.configs, docs')
    ensures ProcessTargets(ts, files, p, matches) == Done(done + [t'], docs')
  {
  }

  /** A failing configuration of a kept target ends the whole run. */
  lemma TargetsHalt(ts0: seq<Target>, i: nat, files: Files, p: Params, matches: (string, string) -> bool,
                    done: seq<Target>, docs: Files, e: Error, docs': Files)
    requires i < |ts0| && Selected(ts0[i].name, p.target, matches)
    requires ProcessTargets(ts0[..i], files, p, matches) == Done(done, docs)
    requires ProcessConfigs(ts0[i].configs, docs, p) == Aborted(e, docs')
    ensures ProcessTargets(ts0, files, p, matches) == Aborted(e, docs')
  {
    assert ts0[..i + 1][..i] == ts0[..i];
    TargetsAbortSticks(ts0, i + 1, files, p, matches);
  }

  /** Once the inner loop has stopped at an error, later configurations are
      never reached: the whole run stops with the same error and files. */
  lemma {:induction false} ConfigsAbortSticks(cs: seq<BuildConfiguration>, k: nat, files: Files, p: Params)
    requires k <= |cs| && ProcessConfigs(cs[..k], files, p).Aborted?
    ensures ProcessConfigs(cs, files, p) == ProcessConfigs(cs[..k], files, p)
    decreases |cs|
  {
    if k < |cs| {
      var n := |cs| - 1;
      assert cs[..n][..k] == cs[..k];
      ConfigsAbortSticks(cs[..n], k, files, p);
    } else {
      assert cs[..k] == cs;
    }
  }

  lemma {:induction false} TargetsAbortSticks(ts: seq<Target>, k: nat, files: Files, p: Params, matches: (string, string) -> bool)
    requires k <= |ts| && ProcessTargets(ts[..k], files, p, matches).Aborted?
    ensures ProcessTargets(ts, files, p, matches) == ProcessTargets(ts[..k], files, p, matches)
    decreases |ts|
  {
    if k < |ts| {
      var n := |ts| - 1;
      assert ts[..n][..k] == ts[..k];
      TargetsAbortSticks(ts[..n], k, files, p, matches);
    } else {
      assert ts[..k] == ts;
    }
  }

  // ---------------------------------------------------------------------
  // Which property lists a run patches.

  /** The path one configuration's display-name patch writes, if any. */
  ghost function TouchedBy(s: BuildSettings, p: Params): set<string> {
    if p.gameName.Some? && InfoPlistKey in s && s[InfoPlistKey].Str? then {s[InfoPlistKey].s} else {}
  }

  ghost function Touched(cs: seq<BuildConfiguration>, p: Params): set<string>
    decreases |cs|
  {
    if cs == [] then {} else Touched(cs[..|cs| - 1], p) + TouchedBy(cs[|cs| - 1].settings, p)
  }

  ghost function TouchedByTargets(ts: seq<Target>, p: Params, matches: (string, string) -> bool): set<string>
    decreases |ts|
  {
    if ts == [] then {}
    else
      TouchedByTargets(ts[..|ts| - 1], p, matches) +
      (if Selected(ts[|ts| - 1].name, p.target, matches) then Touched(ts[|ts| - 1].configs, p) else {})
  }

  /** `files` with the document at every path of `P` patched once (and only
      when a display name is given and the document has a dictionary). */
  ghost function PatchAll(files: Files, P: set<string>, p: Params): (r: Files)
    ensures r.Keys == files.Keys
  {
    map q | q in files ::
      if q in P && p.gameName.Some? && HasDict(files[q]) then WithDisplayName(files[q], p.gameName.value)
      else files[q]
  }

  lemma PatchAllNone(files: Files, p: Params)
    ensures PatchAll(files, {}, p) == files
  {
  }

  /** Patching keeps every document's dictionary, so whether a configuration
      goes through does not depend on earlier patches. */
  lemma ConfigOkStable(files: Files, P: set<string>, s: BuildSettings, p: Params)
    ensures ConfigOk(PatchAll(files, P, p), s, p) <==> ConfigOk(files, s, p)
  {
    var f := PatchAll(files, P, p);
    if InfoPlistKey in s && s[InfoPlistKey].Str? && s[InfoPlistKey].s in files {
      var q := s[InfoPlistKey].s;
      assert HasDict(f[q]) <==> HasDict(files[q]);
    }
  }

  /** Earlier patches do not change which error a failing configuration reports. */
  lemma StepErrorStable(files: Files, P: set<string>, s: BuildSettings, p: Params)
    requires !ConfigOk(files, s, p)
    ensures ConfigureStep(PatchAll(files, P, p), s, p) == ConfigureStep(files, s, p)
  {
    var f := PatchAll(files, P, p);
    ConfigOkStable(files, P, s, p);
    if Updatable(s, p) && InfoPlistKey in s && s[InfoPlistKey].Str? && s[InfoPlistKey].s in files {
      var q := s[InfoPlistKey].s;
      assert HasDict(f[q]) <==> HasDict(files[q]);
    }
  }

  /** One more patch of a document at `q` extends the patched set by `q`. */
  lemma PatchAllAdd(files: Files, P: set<string>, q: string, p: Params)
    requires p.gameName.Some? && q in files && HasDict(files[q])
    ensures var f := PatchAll(files, P, p);
      HasDict(f[q]) &&
      PatchAll(files, P + {q}, p) == f[q := WithDisplayName(f[q], p.gameName.value)]
  {
    var name := p.gameName.value;
    var f := PatchAll(files, P, p);
    if q in P {
      WithDisplayNameIdempotent(files[q], name);
    }
    var g := f[q := WithDisplayName(f[q], name)];
    var h := PatchAll(files, P + {q}, p);
    assert h.Keys == g.Keys;
    forall x | x in h ensures h[x] == g[x] {
      if x != q {
        assert g[x] == f[x];
      }
    }
  }

  /** One configuration's step moves the patched set by its own path. */
  lemma StepPatches(files: Files, P: set<string>, s: BuildSettings, p: Params)
    requires ConfigOk(files, s, p)
    ensures ConfigureStep(PatchAll(files, P, p), s, p).Ok?
    ensures ConfigureStep(PatchAll(files, P, p), s, p).value.files == PatchAll(files, P + TouchedBy(s, p), p)
  {
    var f := PatchAll(files, P, p);
    ConfigOkStable(files, P, s, p);
    if p.gameName.Some? {
      var name := p.gameName.value;
      var q := s[InfoPlistKey].s;
      assert TouchedBy(s, p) == {q};
      PatchAllAdd(files, P, q, p);
    } else {
      assert P + TouchedBy(s, p) == P;
    }
  }

  /** What a completed run promises of one kept configuration: it keeps its
      name, went through without an error and holds the rewritten settings. */
  ghost predicate ConfigFacts(c: BuildConfiguration, c': BuildConfiguration, files: Files, p: Params) {
    c'.name == c.name && ConfigOk(files, c.settings, p) && UpdateSettings(c.settings, p) == Ok(c'.settings)
  }

  lemma ConfigFactsSnoc(pre: seq<BuildConfiguration>, done: seq<BuildConfiguration>,
                        c: BuildConfiguration, c': BuildConfiguration, files: Files, p: Params)
    requires |done| == |pre|
    requires forall j :: 0 <= j < |pre| ==> ConfigFacts(pre[j], done[j], files, p)
    requires ConfigFacts(c, c', files, p)
    ensures var cs, cs' := pre + [c], done + [c'];
      forall j :: 0 <= j < |cs| ==> ConfigFacts(cs[j], cs'[j], files, p)
  {
    var cs, cs' := pre + [c], done + [c'];
    forall j | 0 <= j < |cs| ensures ConfigFacts(cs[j], cs'[j], files, p) {
      if j < |pre| {
        assert cs[j] == pre[j] && cs'[j] == done[j];
      }
    }
  }

  /** The inner loop, on completion: exactly the property lists that the
      configurations name were patched. */
  lemma {:induction false} ConfigsDoneFiles(cs: seq<BuildConfiguration>, f0: Files, p: Params, files: Files, P: set<string>)
    requires f0 == PatchAll(files, P, p)
    requires ProcessConfigs(cs, f0, p).Done?
    ensures ProcessConfigs(cs, f0, p).files == PatchAll(files, P + Touched(cs, p), p)
    decreases |cs|
  {
    if cs != [] {
      var n := |cs| - 1;
      var pre, c := cs[..n], cs[n];
      assert cs[..n] == pre;
      ConfigsDoneFiles(pre, f0, p, files, P);
      var f := ProcessConfigs(pre, f0, p).files;
      var P' := P + Touched(pre, p);
      assert ConfigureStep(f, c.settings, p).Ok?;
      assert ProcessConfigs(cs, f0, p).files == ConfigureStep(f, c.settings, p).value.files;
      StepPatches(files, P', c.settings, p);
      assert Touched(cs, p) == Touched(pre, p) + TouchedBy(c.settings, p);
      assert P' + TouchedBy(c.settings, p) == P + Touched(cs, p);
    }
  }

  /** The inner loop, on completion: every configuration was fine and was
      rewritten. */
  lemma {:induction false} ConfigsDone(cs: seq<BuildConfiguration>, f0: Files, p: Params, files: Files, P: set<string>)
    requires f0 == PatchAll(files, P, p)
    requires ProcessConfigs(cs, f0, p).Done?
    ensures var cs' := ProcessConfigs(cs, f0, p).value;
      forall j :: 0 <= j < |cs| ==> ConfigFacts(cs[j], cs'[j], files, p)
    ensures ProcessConfigs(cs, f0, p).files == PatchAll(files, P + Touched(cs, p), p)
    decreases |cs|
  {
    ConfigsDoneFiles(cs, f0, p, files, P);
    if cs != [] {
      var n := |cs| - 1;
      var pre, c := cs[..n], cs[n];
      assert cs[..n] == pre;
      ConfigsDone(pre, f0, p, files, P);
      var done, f := ProcessConfigs(pre, f0, p).value, ProcessConfigs(pre, f0, p).files;
      var st := ConfigureStep(f, c.settings, p).value;
      ConfigOkStable(files, P + Touched(pre, p), c.settings, p);
      var c' := c.(settings := st.settings);
      assert ProcessConfigs(cs, f0, p).value == done + [c'];
      assert pre + [c] == cs;
      ConfigFactsSnoc(pre, done, c, c', files, p);
    }
  }

  /** The inner loop, on an abort: configuration `k` is the first that failed
      and exactly the ones before it had their property lists patched. */
  lemma {:induction false} ConfigsAborted(cs: seq<BuildConfiguration>, f0: Files, p: Params, files: Files, P: set<string>)
      returns (k: nat)
    requires f0 == PatchAll(files, P, p)
    requires ProcessConfigs(cs, f0, p).Aborted?
    ensures k < |cs| && !ConfigOk(files, cs[k].settings, p)
    ensures ProcessConfigs(cs, f0, p).error == ConfigureStep(files, cs[k].settings, p).error
    ensures forall j :: 0 <= j < k ==> ConfigOk(files, cs[j].settings, p)
    ensures ProcessConfigs(cs, f0, p).files == PatchAll(files, P + Touched(cs[..k], p), p)
    decreases |cs|
  {
    var n := |cs| - 1;
    var pre, c := cs[..n], cs[n];
    if ProcessConfigs(pre, f0, p).Aborted? {
      k := ConfigsAborted(pre, f0, p, files, P);
      assert pre[..k] == cs[..k];
      assert ProcessConfigs(cs, f0, p).files == ProcessConfigs(pre, f0, p).files;
    } else {
      ConfigsDone(pre, f0, p, files, P);
      var f := ProcessConfigs(pre, f0, p).files;
      ConfigOkStable(files, P + Touched(pre, p), c.settings, p);
      k := n;
      assert cs[..k] == pre;
      assert ProcessConfigs(cs, f0, p).files == f;
      StepErrorStable(files, P + Touched(pre, p), c.settings, p);
    }
    forall j | 0 <= j < k ensures ConfigOk(files, cs[j].settings, p) {
      assert cs[j] == pre[j];
    }
  }

  /** Every path a kept configuration names is among those patched. */
  lemma {:induction false} TouchedContains(cs: seq<BuildConfiguration>, p: Params, j: nat)
    requires j < |cs|
    ensures TouchedBy(cs[j].settings, p) <= Touched(cs, p)
    decreases |cs|
  {
    if j < |cs| - 1 {
      TouchedContains(cs[..|cs| - 1], p, j);
    }
  }

  lemma {:induction false} TouchedByTargetsContains(ts: seq<Target>, p: Params, matches: (string, string) -> bool, i: nat)
    requires i < |ts| && Selected(ts[i].name, p.target, matches)
    ensures Touched(ts[i].configs, p) <= TouchedByTargets(ts, p, matches)
    decreases |ts|
  {
    if i < |ts| - 1 {
      TouchedByTargetsContains(ts[..|ts| - 1], p, matches, i);
    }
  }

  /** True when target `i`, configuration `j` is a kept configuration of `ts`. */
  predicate Kept(ts: seq<Target>, p: Params, matches: (string, string) -> bool, i: int, j: int) {
    0 <= i < |ts| && Selected(ts[i].name, p.target, matches) && 0 <= j < |ts[i].configs|
  }

  /** Configuration (i, j) comes before (i', j') in iteration order. */
  predicate Before(i: int, j: int, i': int, j': int) {
    i < i' || (i == i' && j < j')
  }

  /** What a completed run promises of one target: the same name and number
      of configurations; an unselected target is unchanged, and each
      configuration of a selected one keeps its name, went through without
      an error and holds the rewritten settings. */
  ghost predicate TargetFacts(t: Target, t': Target, files: Files, p: Params, matches: (string, string) -> bool) {
    && t'.name == t.name
    && |t'.configs| == |t.configs|
    && (!Selected(t.name, p.target, matches) ==> t' == t)
    && (Selected(t.name, p.target, matches) ==>
          forall j :: 0 <= j < |t.configs| ==> ConfigFacts(t.configs[j], t'.configs[j], files, p))
  }

  lemma SelectedTargetFacts(t: Target, cs: seq<BuildConfiguration>, files: Files, p: Params, matches: (string, string) -> bool)
    requires Selected(t.name, p.target, matches) && |cs| == |t.configs|
    requires forall j :: 0 <= j < |cs| ==> ConfigFacts(t.configs[j], cs[j], files, p)
    ensures TargetFacts(t, t.(configs := cs), files, p, matches)
  {
  }

  lemma {:induction false} TargetFactsSnoc(pre: seq<Target>, done: seq<Target>, t: Target, t': Target,
                                           files: Files, p: Params, matches: (string, string) -> bool)
    requires |done| == |pre|
    requires forall i :: 0 <= i < |pre| ==> TargetFacts(pre[i], done[i], files, p, matches)
    requires TargetFacts(t, t', files, p, matches)
    ensures var ts, ts' := pre + [t], done + [t'];
      forall i :: 0 <= i < |ts| ==> TargetFacts(ts[i], ts'[i], files, p, matches)
  {
    var ts, ts' := pre + [t], done + [t'];
    forall i | 0 <= i < |ts| ensures TargetFacts(ts[i], ts'[i], files, p, matches) {
      if i < |pre| {
        assert ts[i] == pre[i] && ts'[i] == done[i];
      }
    }
  }

  /** The outer loop, on completion: every target keeps its name, unselected
      targets are untouched, every kept configuration was fine and was
      rewritten, and exactly the property lists the kept configurations name
      were patched. */
  lemma {:induction false} TargetsDone(ts: seq<Target>, files: Files, p: Params, matches: (string, string) -> bool)
    requires ProcessTargets(ts, files, p, matches).Done?
    ensures var ts' := ProcessTargets(ts, files, p, matches).value;
      forall i :: 0 <= i < |ts| ==> TargetFacts(ts[i], ts'[i], files, p, matches)
    ensures ProcessTargets(ts, files, p, matches).files == PatchAll(files, TouchedByTargets(ts, p, matches), p)
    decreases |ts|
  {
    if ts == [] {
      PatchAllNone(files, p);
    } else {
      var n := |ts| - 1;
      var pre, t := ts[..n], ts[n];
      TargetsDone(pre, files, p, matches);
      var done, f := ProcessTargets(pre, files, p, matches).value, ProcessTargets(pre, files, p, matches).files;
      var P := TouchedByTargets(pre, p, matches);
      assert ts[..n] == pre;
      var t', f' := t, f;
      if Selected(t.name, p.target, matches) {
        ConfigsDone(t.configs, f, p, files, P);
        var cs := ProcessConfigs(t.configs, f, p).value;
        SelectedTargetFacts(t, cs, files, p, matches);
        t' := t.(configs := cs);
        f' := ProcessConfigs(t.configs, f, p).files;
        assert TouchedByTargets(ts, p, matches) == P + Touched(t.configs, p);
      } else {
        assert TouchedByTargets(ts, p, matches) == P;
      }
      assert ProcessTargets(ts, files, p, matches) == Done(done + [t'], f');
      assert pre + [t] == ts;
      TargetFactsSnoc(pre, done, t, t', files, p, matches);
    }
  }

  /** The outer loop, on an abort: configuration (i, j) is the first kept one
      that failed, and exactly the property lists of the kept configurations
      before it were patched; nothing is rolled back. */
  lemma {:induction false} TargetsAborted(ts: seq<Target>, files: Files, p: Params, matches: (string, string) -> bool)
      returns (i: nat, j: nat)
    requires ProcessTargets(ts, files, p, matches).Aborted?
    ensures Kept(ts, p, matches, i, j) && !ConfigOk(files, ts[i].configs[j].settings, p)
    ensures ProcessTargets(ts, files, p, matches).error == ConfigureStep(files, ts[i].configs[j].settings, p).error
    ensures forall i', j' :: Kept(ts, p, matches, i', j') && Before(i', j', i, j) ==>
              ConfigOk(files, ts[i'].configs[j'].settings, p)
    ensures ProcessTargets(ts, files, p, matches).files ==
              PatchAll(files, TouchedByTargets(ts[..i], p, matches) + Touched(ts[i].configs[..j], p), p)
    decreases |ts|
  {
    var n := |ts| - 1;
    var pre, t := ts[..n], ts[n];
    assert forall i', j' :: 0 <= i' < n ==> (Kept(pre, p, matches, i', j') <==> Kept(ts, p, matches, i', j'));
    if ProcessTargets(pre, files, p, matches).Aborted? {
      i, j := TargetsAborted(pre, files, p, matches);
      assert pre[..i] == ts[..i];
    } else {
      TargetsDone(pre, files, p, matches);
      var f := ProcessTargets(pre, files, p, matches).files;
      var P := TouchedByTargets(pre, p, matches);
      var k := ConfigsAborted(t.configs, f, p, files, P);
      i, j := n, k;
      assert ts[..n] == pre;
    }
  }
}
