# update_provisioning_profile_specifier, modelled in Dafny

This project models the fastlane action `update_provisioning_profile_specifier`.
The action opens an Xcode project and rewrites the code-signing build settings
of every build configuration of every target whose name matches an optional
filter:

- `PROVISIONING_PROFILE_SPECIFIER` is replaced, or has the new value appended;
- `DEVELOPMENT_TEAM`, `PRODUCT_BUNDLE_IDENTIFIER`, `CODE_SIGN_IDENTITY` and
  `CODE_SIGN_IDENTITY[sdk=iphoneos*]` are overwritten when a value is given;
- with a game name, the property list that each configuration names in
  `INFOPLIST_FILE` is read, gets `CFBundleDisplayName` set under its `dict`
  entry, and is written back straight away.

The project file is saved once, at the end. Any error stops the run. The
project is then not saved, but property lists already written stay written.

Modules:

- `Results`: the optional parameters, the error kinds and the result type.
- `Settings`: one configuration's rewrite (`UpdateSettings`) and its reference
  definition `SettingsUpdated`.
- `Plist`: property-list documents, the display-name patch and a `PlistStore`
  class for the files on disk.
- `Locator`: how the project directory is chosen and checked.
- `Engine`: the whole run as functions. `ProcessConfigs` is the inner loop and
  `ProcessTargets` the outer one. Both recurse on the last element, just as
  the loops extend what they have processed. Lemmas give the run's outcome on
  success and on failure.
- `Action`: the `XcodeProject` class. It holds an in-memory copy of the
  targets and the targets as saved on disk. Its methods assign settings one
  key at a time in nested `while` loops, and each method is proved against
  the `Engine` functions.
- `Properties`: what a whole run promises, stated over `ProcessTargets`.

The target filter is the parameter `matches`. The action calls
`t.name.match(target)`, and `matches` stands for that regular-expression
test.

## Model

| member | source | states |
|---|---|---|
| Settings.ApplySpecifier | lib/fastlane/plugin/update_provisioning_profile_specifier/actions/update_provisioning_profile_specifier_action.rb:28-33 | succeeds exactly when replacing, or when appending onto a string value. A missing value gives `AppendToMissing` and a list gives `AppendToList`. Only the specifier key changes: it becomes the new value, or the old string followed by the new one |
| Settings.SetIfGiven | lib/fastlane/plugin/update_provisioning_profile_specifier/actions/update_provisioning_profile_specifier_action.rb:35-45 | a given value overwrites the key; without one the key is as before. Every other key is unchanged and no key is removed |
| Settings.UpdateSettings | lib/fastlane/plugin/update_provisioning_profile_specifier/actions/update_provisioning_profile_specifier_action.rb:28-45 | succeeds exactly when the settings are updatable (`Updatable`). The only failures are the two append errors, and which one is determined by the settings |
| Settings.UpdateSettingsSound | lib/fastlane/plugin/update_provisioning_profile_specifier/actions/update_provisioning_profile_specifier_action.rb:28-45 | the rewrite meets the reference definition: the specifier is replaced or appended, the four signing keys are overwritten if given, every other key is kept. No key is removed, and none is added beyond the signing keys |
| Settings.SettingsUpdatedUnique | lib/fastlane/plugin/update_provisioning_profile_specifier/actions/update_provisioning_profile_specifier_action.rb:28-45 | the reference definition allows at most one result |
| Settings.UpdateSettingsIff | lib/fastlane/plugin/update_provisioning_profile_specifier/actions/update_provisioning_profile_specifier_action.rb:28-45 | both directions: the rewrite yields `s'` exactly when `s'` meets the reference definition |
| Settings.ReplaceIdempotent | lib/fastlane/plugin/update_provisioning_profile_specifier/actions/update_provisioning_profile_specifier_action.rb:31-32 | replacing never fails, and rewriting an already rewritten map changes nothing |
| Settings.AppendTwice | lib/fastlane/plugin/update_provisioning_profile_specifier/actions/update_provisioning_profile_specifier_action.rb:28-30 | appending twice puts two copies of the new value after the old one, so append is not idempotent |
| Settings.AppendExample | lib/fastlane/plugin/update_provisioning_profile_specifier/actions/update_provisioning_profile_specifier_action.rb:29-30 | "Foo" with "Bar" appended is "FooBar", with no separator |
| Settings.AppendToListFails | lib/fastlane/plugin/update_provisioning_profile_specifier/actions/update_provisioning_profile_specifier_action.rb:29-30 | appending "C" to the list ["A", "B"] fails with `AppendToList` |
| Plist.SetDisplayName | lib/fastlane/plugin/update_provisioning_profile_specifier/actions/update_provisioning_profile_specifier_action.rb:51 | succeeds exactly when the document has a dictionary under "dict" (otherwise `NoDictEntry`). On success only the nested `CFBundleDisplayName` is set (`DisplayNamePatched`) |
| Plist.SetDisplayNameIff | lib/fastlane/plugin/update_provisioning_profile_specifier/actions/update_provisioning_profile_specifier_action.rb:51 | both directions: the patch yields `doc'` exactly when `doc'` meets the reference definition |
| Plist.WithDisplayName | lib/fastlane/plugin/update_provisioning_profile_specifier/actions/update_provisioning_profile_specifier_action.rb:51 | the nested assignment into the dictionary under "dict"; the result still has that dictionary. Its meaning, that only `dict.CFBundleDisplayName` is set, is pinned by `SetDisplayName` and `DisplayNamePatched` |
| Plist.WithDisplayNameIdempotent | lib/fastlane/plugin/update_provisioning_profile_specifier/actions/update_provisioning_profile_specifier_action.rb:51 | patching an already patched document changes nothing |
| Plist.SetDisplayNameIdempotent | lib/fastlane/plugin/update_provisioning_profile_specifier/actions/update_provisioning_profile_specifier_action.rb:51 | the same idempotence, stated for the failing-or-succeeding patch |
| Plist.PatchFile | lib/fastlane/plugin/update_provisioning_profile_specifier/actions/update_provisioning_profile_specifier_action.rb:49-52 | succeeds exactly when a document is stored at the path and has a dictionary. A missing document gives `PlistNotFound(path)`, no dictionary gives `NoDictEntry`. On success only that path's document is replaced, by its patched form |
| Plist.PatchFileEffect | lib/fastlane/plugin/update_provisioning_profile_specifier/actions/update_provisioning_profile_specifier_action.rb:50-52 | after a write-back the same paths exist, the patched document meets the reference definition, and every other document is unchanged |
| Plist.PlistStore.Read | lib/fastlane/plugin/update_provisioning_profile_specifier/actions/update_provisioning_profile_specifier_action.rb:50 | reading gives the stored document, or `PlistNotFound(path)` |
| Plist.PlistStore.Write | lib/fastlane/plugin/update_provisioning_profile_specifier/actions/update_provisioning_profile_specifier_action.rb:52 | writing replaces the document at the path and no other |
| Plist.PlistStore.PatchDisplayName | lib/fastlane/plugin/update_provisioning_profile_specifier/actions/update_provisioning_profile_specifier_action.rb:49-52 | read, patch and write back leave the store as `PatchFile` says. On an error nothing is written and the error is reported |
| Locator.JoinPath | lib/fastlane/plugin/update_provisioning_profile_specifier/actions/update_provisioning_profile_specifier_action.rb:13 | the result ends with the file name. Before it stands the directory itself when that already ends in '/', and otherwise the directory followed by one '/' |
| Locator.ChosenDir | lib/fastlane/plugin/update_provisioning_profile_specifier/actions/update_provisioning_profile_specifier_action.rb:10 | an explicit path wins. Otherwise the first listed `*.xcodeproj` entry is chosen. There is no directory only when no path is given and nothing is listed |
| Locator.Locate | lib/fastlane/plugin/update_provisioning_profile_specifier/actions/update_provisioning_profile_specifier_action.rb:10-14 | succeeds exactly when a directory was chosen and its `project.pbxproj` exists. Otherwise the error is `ProjectDirMissing`, or `ConfigurationNotFound` naming the joined path |
| Engine.Selected | lib/fastlane/plugin/update_provisioning_profile_specifier/actions/update_provisioning_profile_specifier_action.rb:19-24 | a target is kept exactly when no filter is given or `matches(name, filter)` holds |
| Engine.InfoPlistPath | lib/fastlane/plugin/update_provisioning_profile_specifier/actions/update_provisioning_profile_specifier_action.rb:49 | the path is found exactly when `INFOPLIST_FILE` holds a string, and it is that string. Otherwise the error is `InfoPlistMissing` or `InfoPlistNotString` |
| Engine.PatchConfigPlist | lib/fastlane/plugin/update_provisioning_profile_specifier/actions/update_provisioning_profile_specifier_action.rb:47-53 | succeeds exactly when the configuration's property list resolves. Each failure reports its own error, and a resolved path is patched as `PatchFile` says |
| Engine.ConfigureStep | lib/fastlane/plugin/update_provisioning_profile_specifier/actions/update_provisioning_profile_specifier_action.rb:28-53 | one configuration succeeds exactly when `ConfigOk` holds: the settings are updatable and, given a game name, the property list resolves. The settings become `UpdateSettings`'s result. Without a game name the files are unchanged; with one they are patched. Each failure reports its own error |
| Engine.ProcessConfigs | lib/fastlane/plugin/update_provisioning_profile_specifier/actions/update_provisioning_profile_specifier_action.rb:26-54 | on completion the same number of configurations, with the same names, in the same order |
| Engine.ProcessTargets | lib/fastlane/plugin/update_provisioning_profile_specifier/actions/update_provisioning_profile_specifier_action.rb:18-55 | on completion the same targets, names and configuration counts |
| Engine.ConfigOkStable | lib/fastlane/plugin/update_provisioning_profile_specifier/actions/update_provisioning_profile_specifier_action.rb:47-53 | earlier display-name patches never decide whether a later configuration goes through |
| Engine.StepErrorStable | lib/fastlane/plugin/update_provisioning_profile_specifier/actions/update_provisioning_profile_specifier_action.rb:47-53 | earlier patches do not change the error a failing configuration reports |
| Engine.ConfigsDone | lib/fastlane/plugin/update_provisioning_profile_specifier/actions/update_provisioning_profile_specifier_action.rb:26-54 | a completed inner loop had every configuration go through and be rewritten, and patched exactly the paths they name |
| Engine.ConfigsAborted | lib/fastlane/plugin/update_provisioning_profile_specifier/actions/update_provisioning_profile_specifier_action.rb:26-54 | an aborted inner loop failed at its first failing configuration, with that configuration's error. Only the configurations before it had their property lists patched |
| Engine.TargetsDone | lib/fastlane/plugin/update_provisioning_profile_specifier/actions/update_provisioning_profile_specifier_action.rb:18-55 | after a completed outer loop, every skipped target is unchanged and every kept configuration went through and was rewritten. The files are the start files with exactly the named paths patched |
| Engine.TargetsAborted | lib/fastlane/plugin/update_provisioning_profile_specifier/actions/update_provisioning_profile_specifier_action.rb:18-55 | an aborted outer loop failed at the first failing kept configuration, in iteration order, with that configuration's error. Only the property lists of the kept configurations before it were patched |
| Action.XcodeProject.Open | lib/fastlane/plugin/update_provisioning_profile_specifier/actions/update_provisioning_profile_specifier_action.rb:17 | the opened project's working copy and saved copy both hold the descriptor's targets |
| Action.XcodeProject.Save | lib/fastlane/plugin/update_provisioning_profile_specifier/actions/update_provisioning_profile_specifier_action.rb:56 | the saved copy becomes the working copy |
| Action.XcodeProject.Assign | lib/fastlane/plugin/update_provisioning_profile_specifier/actions/update_provisioning_profile_specifier_action.rb:30-44 | one `build_settings[key] = value` changes that key of that configuration and nothing else |
| Action.XcodeProject.AssignSpecifier | lib/fastlane/plugin/update_provisioning_profile_specifier/actions/update_provisioning_profile_specifier_action.rb:28-33 | the in-place specifier update matches `ApplySpecifier`, and a failed append assigns nothing |
| Action.XcodeProject.AssignIfGiven | lib/fastlane/plugin/update_provisioning_profile_specifier/actions/update_provisioning_profile_specifier_action.rb:35-45 | the in-place conditional overwrite matches `SetIfGiven` |
| Action.XcodeProject.AssignSettings | lib/fastlane/plugin/update_provisioning_profile_specifier/actions/update_provisioning_profile_specifier_action.rb:28-45 | the sequence of assignments leaves the configuration holding `UpdateSettings`'s result, or untouched when appending fails |
| Action.XcodeProject.UpdateConfiguration | lib/fastlane/plugin/update_provisioning_profile_specifier/actions/update_provisioning_profile_specifier_action.rb:28-53 | the project and the store change as `ConfigureStep` says. A failing property-list step leaves the settings assignments made and writes nothing |
| Action.XcodeProject.UpdateTarget | lib/fastlane/plugin/update_provisioning_profile_specifier/actions/update_provisioning_profile_specifier_action.rb:26-54 | the inner `while` loop leaves the target's configurations and the store as `ProcessConfigs` says, or reports its error |
| Action.XcodeProject.UpdateTargets | lib/fastlane/plugin/update_provisioning_profile_specifier/actions/update_provisioning_profile_specifier_action.rb:18-55 | the outer `while` loop leaves the targets and the store as `ProcessTargets` says, or reports its error. Nothing is saved |
| Action.XcodeProject.Run | lib/fastlane/plugin/update_provisioning_profile_specifier/actions/update_provisioning_profile_specifier_action.rb:4-59 | a failed `Locate` stops the run before anything changes. Otherwise, on success the project is saved as `ProcessTargets` computes it; on an error nothing is saved, the error is reported and the written property lists stay |
| Properties.SkippedTargetsUntouched | lib/fastlane/plugin/update_provisioning_profile_specifier/actions/update_provisioning_profile_specifier_action.rb:19-23 | a target the filter does not keep comes out exactly as it went in |
| Properties.StructurePreserved | lib/fastlane/plugin/update_provisioning_profile_specifier/actions/update_provisioning_profile_specifier_action.rb:18-55 | targets and configurations keep their number, names and order |
| Properties.KeptConfigsRewritten | lib/fastlane/plugin/update_provisioning_profile_specifier/actions/update_provisioning_profile_specifier_action.rb:26-45 | every kept configuration holds exactly the reference rewrite of its settings. It has lost no key and gained none beyond the signing keys |
| Properties.NoFilterRewritesAll | lib/fastlane/plugin/update_provisioning_profile_specifier/actions/update_provisioning_profile_specifier_action.rb:19 | without a filter every configuration of every target is rewritten |
| Properties.ReplaceEverywhere | lib/fastlane/plugin/update_provisioning_profile_specifier/actions/update_provisioning_profile_specifier_action.rb:31-32 | when replacing without a game name the run cannot fail, and every kept configuration ends with exactly the new specifier |
| Properties.AppendEverywhere | lib/fastlane/plugin/update_provisioning_profile_specifier/actions/update_provisioning_profile_specifier_action.rb:28-30 | after a successful append, every kept configuration's old string specifier has the new value appended with no separator |
| Properties.RunSucceedsIff | lib/fastlane/plugin/update_provisioning_profile_specifier/actions/update_provisioning_profile_specifier_action.rb:18-55 | both directions: the run succeeds exactly when every kept configuration goes through on the start files |
| Properties.AbortedRun | lib/fastlane/plugin/update_provisioning_profile_specifier/actions/update_provisioning_profile_specifier_action.rb:47-56 | a failed run stops at the first failing kept configuration and reports its error. Earlier property lists stay patched (no rollback), and files no kept configuration names are untouched |
| Properties.TouchedIffReferenced | lib/fastlane/plugin/update_provisioning_profile_specifier/actions/update_provisioning_profile_specifier_action.rb:47-52 | both directions: a completed run patches a path exactly when a game name is given and a kept configuration names that path (an aborted run patches only a prefix of these, see `AbortedRun`) |
| Properties.DisplayNameEverywhere | lib/fastlane/plugin/update_provisioning_profile_specifier/actions/update_provisioning_profile_specifier_action.rb:47-53 | with a game name, every property list a kept configuration names has only its nested display name set. Every other file is unchanged and no file appears or disappears |
| Properties.NoGameNameNoPlistWrite | lib/fastlane/plugin/update_provisioning_profile_specifier/actions/update_provisioning_profile_specifier_action.rb:47 | without a game name, no property list is written, whether the run succeeds or fails |
| Properties.ConfigsFixed | lib/fastlane/plugin/update_provisioning_profile_specifier/actions/update_provisioning_profile_specifier_action.rb:26-54 | an inner loop over configurations that each step leaves alone changes nothing |
| Properties.TargetsFixed | lib/fastlane/plugin/update_provisioning_profile_specifier/actions/update_provisioning_profile_specifier_action.rb:18-55 | an outer loop whose kept configurations the step leaves alone changes nothing |
| Properties.RewrittenIsFixed | lib/fastlane/plugin/update_provisioning_profile_specifier/actions/update_provisioning_profile_specifier_action.rb:28-53 | a configuration rewritten by replacing is left alone by a second step on the files the run produced |
| Properties.ReplaceRunIdempotent | lib/fastlane/plugin/update_provisioning_profile_specifier/actions/update_provisioning_profile_specifier_action.rb:18-55 | a second replacing run with the same parameters, on what a successful run produced, succeeds and changes nothing |

## Left out

- Logging (`UI.success`, `UI.important`, `puts`) is not modelled: it changes no state.
- The final success message names `params[:xcodeproj]`; it is logging and is left out.
- Regular-expression matching of target names is not modelled. The model takes the test as the parameter `matches`.
- The directory listing and the file-existence check become the parameters `listing` and `existing`. Scanning the disk is not modelled.
- `Xcodeproj::Project.open` parsing and `project.save` serialising the `.pbxproj` file are not modelled. The project is its targets in memory (`targets`), and the file on disk is a second copy (`saved`).
- `Xcodeproj::Plist.read_from_path` and `write_to_path` are not modelled as file I/O. `PlistStore` keeps whole documents by path.
- Locator.JoinPath: follows `File.join` only for a directory and a plain file name: a '/' is added unless the directory already ends with one. Ruby's other separator clean-ups (repeated or leading '/' in the parts) are not modelled.
- Engine.InfoPlistPath: a list-valued `INFOPLIST_FILE` is an error (`InfoPlistNotString`). Ruby would pass the list on to the plist reader, which the model cannot see.
- Settings.ApplySpecifier: appending onto a list fails with `AppendToList`, because the code evaluates `Array + String`, which raises. A design that appends `new_specifier` as a new list element is not what the code does, so this model does not do it either.
- Settings.ApplySpecifier: appending onto a missing specifier fails with `AppendToMissing`, matching `nil + String` in the code. It is not treated as a replace.
- Plist.SetDisplayName: the code assigns into `infoPlist["dict"]`. The model takes "dict" literally as a key of the document the reader returns, and any value there other than a dictionary becomes `NoDictEntry`. Ruby would raise on nil, and on a string it would run `String#[]=` instead.
- Integer widths, string encodings and Unicode are not relevant to this code and are not modelled.
- Property-list values are strings, arrays and dictionaries only. Booleans, integers, reals, dates and data are not modelled; the patch never looks at any entry other than the dictionary under "dict", and keeps every other entry as it is.
- The action's `description`, `authors`, `available_options` and `is_supported?` methods are not modelled. They only describe the action to fastlane.
- The option check that an explicit `xcodeproj` path exists (lines 76-78) belongs to the option metadata and is not modelled. The descriptor check in `Locate` fails for such a path anyway.
- Options that are not given default to `false`. Ruby treats `false` and `nil` alike as "not given", and both are `None` in the model.
