# Egregoria interface logic in Dafny

This project models the logic behind several windows and tools of the
Egregoria city-builder's user interface, together with the script that
restores the game's assets:

- **Localisation** (`i18n.dfy`). The two interface languages with their
  codes, display names and byte discriminants. The translator looks a key
  up in the current language, then in English, then falls back to the key
  itself. `tr_args` substitutes `{name}` placeholders with Rust's
  replace-all semantics. Prototype labels fall back to the prototype's own
  label.
- **Settings window** (`settings.dfy`). The auto-save interval, the
  `Settings` record with its defaults and its persisted form (`time_warp`
  is not saved), and one frame of the window: the widgets' edits are
  applied and the settings are written out only when they changed.
- **Network window** (`network.dfy`). From single player, the player can
  start a server or connect to one; both need a name. While playing
  networked, the simulation's hash table can be shown; it is cached and
  refreshed every hundredth tick.
- **Load window** (`saveload.dfy`, `load.dfy`). New game, loading the
  recorded world replay, the loading progress text and the playback
  buttons.
- **Menu bar** (`menu.dfy`). The save button and the exit dialog: the
  `ExitState` machine and the save request it shares with the saving
  thread.
- **Road editor** (`roadedit.dfy`). The properties panel of an inspected
  intersection: the light policy, the turn toggles, the roundabout with its
  radius, and the `dirty` flag.
- **Train composition** (`train.dfy`). Removing all wagons or one wagon,
  appending rolling-stock prototypes, and keeping the statistics in step
  with the wagon list.
- **Asset downloader** (`download_assets.dfy`). The sorted manifest of
  asset files and the keep / restore / replace decision for each file. A
  small Git LFS pointer counts as missing. The outcomes are tallied and the
  script exits with status 0 exactly when nothing failed.

`common.dfy` holds `Option` and the unsigned integer types. `text.dfy`
holds the string operations the models share: substring search, Rust's
`str::replace`, code-point order (the order of Rust's `String`, Python's
`str` and a `BTreeMap` keyed by strings) and decimal formatting.

The engine and the UI toolkit are not modelled; their effects come in as
parameters:

- what a widget reports in a frame (a click, the new value of a drag);
- what the file system and the network yield;
- the dictionaries read from disk;
- the simulation's tick and hash table;
- the start-server and start-client calls;
- the replay loader's binding and tick step.

Objects that the Rust code mutates in place are classes whose methods
state their whole new state. Examples are the translator, the settings
resource, the network connection info, the load state, the save/load
state, the exit state, the road editor and the train spawner. Each such
method is proved against a pure function of the old state and the frame's
input. The properties of that function are proved as lemmas.

## Model

| member | source | states |
|---|---|---|
| Localisation.Code | native_app/src/i18n.rs:42-49 | each language's code is two characters |
| Localisation.DisplayName | native_app/src/i18n.rs:60-67 | a display name is never mistaken for a language code |
| Localisation.Deserialize | native_app/src/i18n.rs:22-34 | fails exactly when the value is not a string the deserializer can lend; Russian exactly for "ru" or "Русский"; every other string reads as English |
| Localisation.FromU8 | native_app/src/i18n.rs:51-58 | Russian exactly for byte 1, English for every other byte |
| Localisation.SerializeRoundTrip | native_app/src/i18n.rs:5-67 | deserialising the code or the display name, and converting the discriminant back, give the language back |
| Localisation.ConversionsInjective | native_app/src/i18n.rs:42-67 | distinct languages have distinct codes, display names and discriminants |
| Localisation.Placeholder | native_app/src/i18n.rs:118-124 | the placeholder is the argument name wrapped in braces |
| Localisation.ApplyArgsNoBrace | native_app/src/i18n.rs:118-124 | a translation without `{` is returned unchanged, whatever the arguments |
| Localisation.SingleArgument | native_app/src/i18n.rs:118-124 | one argument whose placeholder occurs once is substituted in place, keeping the text around it |
| Localisation.I18n.constructor | native_app/src/i18n.rs:76-85 | starts in English, with the English dictionary both as fallback and as current dictionary |
| Localisation.I18n.SetLanguage | native_app/src/i18n.rs:91-96 | switches the language and reloads its dictionary, even when it is the same language; the English fallback is kept |
| Localisation.I18n.Tr | native_app/src/i18n.rs:101-109 | the current dictionary's entry, else the English entry, else the key itself |
| Localisation.I18n.TryTrAgreesWithTr | native_app/src/i18n.rs:111-116 | `try_tr` fails exactly when neither dictionary has the key; otherwise it agrees with `tr`, and on failure `tr` returns the key |
| Localisation.I18n.TrArgs | native_app/src/i18n.rs:118-124 | the translation with the arguments substituted one after the other in list order; no arguments give `tr` itself |
| Localisation.I18n.ProtoLabelFallback | native_app/src/i18n.rs:126-129 | the label is the translation of `proto.<type>.<name>` when one exists, and the given fallback otherwise |
| Text.ContainsAt | download_assets.py:33 | a text that holds the pattern at some position contains it (Python's `in` on strings) |
| Text.ReplaceFirstOccurrence | native_app/src/i18n.rs:118-124 | replace-all on a text with one occurrence of the pattern, after pattern-free text, replaces exactly that occurrence |
| Text.LessTransitive | download_assets.py:148 | code-point order is transitive |
| Text.LessTotal | download_assets.py:148 | any two distinct strings are ordered one way or the other |
| Text.LessAsymmetric | download_assets.py:148 | no two strings are each less than the other |
| Text.Decimal | native_app/src/gui/hud/windows/load.rs:78-83 | `format!("{n}")` writes a non-empty string of digits without a leading zero |
| Text.DecimalRoundTrip | native_app/src/gui/hud/windows/load.rs:78-83 | the decimal text of a number parses back to that number |
| SettingsWindow.AutoSaveFromU8 | native_app/src/gui/hud/windows/settings.rs:91-100 | bytes 1 and 2 pick one minute and five minutes; every other byte is "never" |
| SettingsWindow.AutoSaveSeconds | native_app/src/gui/hud/windows/settings.rs:81-89 | "never" alone has no interval |
| SettingsWindow.AutoSaveRoundTrip | native_app/src/gui/hud/windows/settings.rs:73-100 | the combo-box index of an interval converts back to that interval and is at most 2 |
| SettingsWindow.AutoSaveConversionsInjective | native_app/src/gui/hud/windows/settings.rs:81-110 | distinct intervals have distinct durations and labels; one minute is shorter than five |
| SettingsWindow.DefaultSettings | native_app/src/gui/hud/windows/settings.rs:52-71 | defaults: time warp 1, auto-save every five minutes, English, smoothing on, border move and low-DPI off, all volumes 100 %, the engine's graphics defaults |
| SettingsWindow.PersistRoundTrip | native_app/src/gui/hud/windows/settings.rs:28-50 | saving and loading keep every setting except the time warp, which comes back as the default 1 |
| SettingsWindow.ApplyInput | native_app/src/gui/hud/windows/settings.rs:144-437 | the frame never touches the time warp; the auto-save pick sets the interval; Russian wins over English when both are clicked; the tightness changes only while smoothing is on |
| SettingsWindow.IdleFrameChangesNothing | native_app/src/gui/hud/windows/settings.rs:144-446 | a frame without edits leaves the settings as they are, so nothing is written |
| SettingsWindow.ToggleTwiceRestores | native_app/src/gui/hud/windows/settings.rs:164-259 | two frames that click the same checkboxes, and edit nothing else, restore the settings |
| SettingsWindow.SettingsResource.constructor | native_app/src/gui/hud/windows/settings.rs:144-146 | the resource holds the given settings and nothing has been written |
| SettingsWindow.SettingsResource.SettingsFrame | native_app/src/gui/hud/windows/settings.rs:144-446 | the settings become the edited ones, and the persisted form is written exactly when they differ from the frame's snapshot |
| SaveLoad.NewSimulation | native_app/src/gui/hud/windows/load.rs:51-53 | a new game is a fresh world with no loader steps applied |
| LoadWindow.Press | native_app/src/gui/hud/windows/load.rs:94-125 | a button sets its speed; a step button also pauses and requests its step; replay and progress are kept |
| LoadWindow.ApplyControls | native_app/src/gui/hud/windows/load.rs:94-125 | with a step clicked, playback pauses and the largest clicked step is requested; otherwise the fastest clicked speed applies; without clicks nothing changes |
| LoadWindow.ButtonRow | native_app/src/gui/hud/windows/load.rs:94-125 | handling the eight buttons one after the other gives `ApplyControls` |
| LoadWindow.ProgressArgs | native_app/src/gui/hud/windows/load.rs:77-83 | the arguments `done` and `total` are decimal texts that read back as the ticks replayed and the replay's last tick |
| LoadWindow.LoadState.constructor | native_app/src/gui/hud/windows/load.rs:21-29 | no failure yet; loading is offered exactly when the replay file exists |
| LoadWindow.LoadState.LoadFrame | native_app/src/gui/hud/windows/load.rs:33-131 | a successful load hands over the bound replay advanced once, overriding a new-game click; a missing replay sets the failure text; a pending loader takes the playback buttons and yields its progress arguments; the save flags are untouched |
| Menu.SaveWindowFrame | native_app/src/gui/hud/menu.rs:54-141 | the save button requests a save only while none runs; no step withdraws a save request; not exiting is left only through the exit button, towards asking; saving is entered only from asking and with a save requested, and save-and-exit (in the dialog or on the bar) does enter it; saving lasts until the dialog is closed or the process ends; while saving the process ends exactly when no save is requested or running; from asking it ends only by "exit without saving"; cancel, closing the dialog or the Close action end the dialog |
| Menu.ExitMenu.SaveWindow | native_app/src/gui/hud/menu.rs:54-141 | one frame of the window, step by step, ends in the state `SaveWindowFrame` describes; the running-save flag and the load requests are untouched |
| Menu.ExitMenu.Dialog | native_app/src/gui/hud/menu.rs:54-117 | the save button and the exit dialog, step by step, end in the state `SaveAndDialog` describes |
| NetworkWindow.SortedNamesDistinct | native_app/src/gui/hud/windows/network.rs:98-120 | the hash table, ordered by name, holds no name twice |
| NetworkWindow.NextCache | native_app/src/gui/hud/windows/network.rs:108-111 | at every hundredth tick, or when the cache is empty, the simulation's table and the tick are taken; otherwise the cache is kept |
| NetworkWindow.NextCacheIdempotent | native_app/src/gui/hud/windows/network.rs:108-111 | looking twice at the same tick of the same simulation gives the same cache |
| NetworkWindow.CacheWithinWindow | native_app/src/gui/hud/windows/network.rs:98-120 | over consecutive ticks with the display on, the table shown was taken in the current hundred-tick window, never more than 99 ticks ago |
| NetworkWindow.NetworkConnectionInfo.constructor | native_app/src/gui/hud/windows/network.rs:18-30 | read back from its record, the info keeps name and address; error, display toggle and cache take their defaults |
| NetworkWindow.NetworkConnectionInfo.Network | native_app/src/gui/hud/windows/network.rs:38-96 | the record saved is the frame's starting name and address; in single player, an empty name stops the frame; otherwise each clicked start is tried, a handle switches the state, connecting overrides serving, and the last attempt leaves its error; networked, the state is kept and the hash display runs |
| NetworkWindow.NetworkConnectionInfo.ShowHashes | native_app/src/gui/hud/windows/network.rs:98-120 | the checkbox flips the display; when shown, the cache is refreshed as `NextCache` says and its rows are shown in name order; name, address and error are untouched |
| RoadEditor.PolicyAfterMeaning | native_app/src/gui/hud/toolbox/roadedit.rs:50-69 | without clicks the light policy stays; otherwise the last clicked button's policy is selected |
| RoadEditor.ShownSelected | native_app/src/gui/hud/toolbox/roadedit.rs:50-69 | a light button is drawn selected exactly when it matches the policy as it stands after the buttons to its left |
| RoadEditor.PolicyAfterSource | native_app/src/gui/hud/toolbox/roadedit.rs:50-69 | the policy after some buttons is the starting policy or that of a clicked button |
| RoadEditor.PolicyStableWithoutClicks | native_app/src/gui/hud/toolbox/roadedit.rs:50-69 | buttons that are not clicked do not change the policy |
| RoadEditor.LastClickDecides | native_app/src/gui/hud/toolbox/roadedit.rs:50-69 | after a clicked button and no later click, the policy is that button's |
| RoadEditor.AtMostOneShownSelected | native_app/src/gui/hud/toolbox/roadedit.rs:50-69 | no two light buttons are drawn selected in the same frame |
| RoadEditor.ShownSelectedWithoutClicks | native_app/src/gui/hud/toolbox/roadedit.rs:50-69 | without clicks exactly the current policy's button is drawn selected |
| RoadEditor.RoundaboutAfter | native_app/src/gui/hud/toolbox/roadedit.rs:123-134 | a roundabout exists exactly when its toggle is on; a new one starts from the default; the radius widget's value, when it changed, is the new radius |
| RoadEditor.EditView | native_app/src/gui/hud/toolbox/roadedit.rs:16-137 | the light policy follows the clicked buttons; each turn flag is flipped exactly when its toggle was clicked |
| RoadEditor.QuietFrameChangesNothing | native_app/src/gui/hud/toolbox/roadedit.rs:16-137 | a frame without clicks or radius edits changes nothing and does not raise `dirty` |
| RoadEditor.ToggleTwice | native_app/src/gui/hud/toolbox/roadedit.rs:96-130 | clicking a turn toggle in two frames restores the intersection, except that a roundabout switched off and on comes back as the default one |
| RoadEditor.LightButtons | native_app/src/gui/hud/toolbox/roadedit.rs:50-69 | the loop yields `PolicyAfter`, draws `ShownSelected`, and reports a click exactly when a button was clicked |
| RoadEditor.TurnButtons | native_app/src/gui/hud/toolbox/roadedit.rs:96-121 | each flag is flipped exactly when clicked, is drawn crossed out exactly when off afterwards, and any click is reported |
| RoadEditor.SyncRoundabout | native_app/src/gui/hud/toolbox/roadedit.rs:123-134 | the roundabout becomes `RoundaboutAfter`; a change is reported when the toggle changed it or the radius was edited on a roundabout |
| RoadEditor.EditPanel | native_app/src/gui/hud/toolbox/roadedit.rs:23-136 | the panel yields `EditView`, raises `dirty` as `RaisesDirty` says, draws `ShownSelected`, and crosses out the toggles that end up off |
| RoadEditor.RoadEditorResource.RoadEditProperties | native_app/src/gui/hud/toolbox/roadedit.rs:16-137 | without an inspected intersection nothing happens; otherwise it becomes `EditView`, and `dirty` is raised by any edit and never lowered |
| TrainComposition.RemoveAt | native_app/src/gui/hud/toolbox/train.rs:54-57 | one wagon fewer; the others keep their order |
| TrainComposition.RemoveAtInverse | native_app/src/gui/hud/toolbox/train.rs:54-57 | putting the removed wagon back at its place restores the list |
| TrainComposition.LastClicked | native_app/src/gui/hud/toolbox/train.rs:41-53 | none exactly when no wagon button was clicked; otherwise the clicked wagon with no clicked wagon after it |
| TrainComposition.Picked | native_app/src/gui/hud/toolbox/train.rs:62-75 | only catalogue prototypes are appended, never more than there are buttons, and none without clicks |
| TrainComposition.ClickedIndices | native_app/src/gui/hud/toolbox/train.rs:63-74 | the clicked buttons, each once, in the order they are shown |
| TrainComposition.PickedInOrder | native_app/src/gui/hud/toolbox/train.rs:62-75 | one prototype is appended per clicked button, in catalogue order |
| TrainComposition.PickedMembers | native_app/src/gui/hud/toolbox/train.rs:62-75 | a prototype is appended exactly when one of its buttons was clicked |
| TrainComposition.AfterRemovals | native_app/src/gui/hud/toolbox/train.rs:21-57 | remove-all empties the list; otherwise exactly the last clicked wagon is removed, with the others kept in order; without clicks the list is unchanged |
| TrainComposition.WagonRow | native_app/src/gui/hud/toolbox/train.rs:41-53 | the loop remembers the last clicked wagon |
| TrainComposition.TrainSpawnResource.constructor | native_app/src/gui/hud/toolbox/train.rs:10-12 | an empty composition with zeroed statistics |
| TrainComposition.TrainSpawnResource.SetZero | native_app/src/gui/hud/toolbox/train.rs:21-24 | zeroes the statistics and keeps the wagons |
| TrainComposition.TrainSpawnResource.Calculate | native_app/src/gui/hud/toolbox/train.rs:54-57 | the statistics are computed from the current wagons |
| TrainComposition.TrainSpawnResource.PrototypeRow | native_app/src/gui/hud/toolbox/train.rs:62-75 | the clicked prototypes are appended in catalogue order, and the statistics are recomputed whenever one was |
| TrainComposition.TrainSpawnResource.TrainProperties | native_app/src/gui/hud/toolbox/train.rs:10-79 | the wagons become the remaining ones plus the picked prototypes; the statistics describe the wagon list after every change |
| AssetDownloader.Prefixed | download_assets.py:71-146 | each name is prefixed with its directory, in the same order |
| AssetDownloader.AscendingUnique | download_assets.py:148 | the sorted manifest holds no file twice |
| AssetDownloader.Insert | download_assets.py:148 | inserting adds exactly the new name |
| AssetDownloader.InsertAscending | download_assets.py:148 | inserting keeps the list strictly ascending |
| AssetDownloader.SortedSet | download_assets.py:148 | `sorted(set(...))` is strictly ascending and holds exactly the listed names |
| AssetDownloader.BaseFilesUnderAssets | download_assets.py:41-68 | every base file lies under `assets/` |
| AssetDownloader.PrefixedUnderAssets | download_assets.py:71-146 | files listed under a directory inside `assets/` lie under `assets/` |
| AssetDownloader.RawFilesUnderAssets | download_assets.py:37-146 | every listed file lies under `assets/` |
| AssetDownloader.GetFilesList | download_assets.py:37-148 | the manifest is strictly ascending, holds exactly the listed files and only paths under `assets/` |
| AssetDownloader.FirstLine | download_assets.py:28-35 | the first line is a prefix of the text, with no line break before its end |
| AssetDownloader.DownloadFile | download_assets.py:150-209 | kept exactly when present and not a small LFS placeholder; otherwise OK exactly when the download succeeds and is not a placeholder again, failed otherwise |
| AssetDownloader.LargeFilesKept | download_assets.py:158-167 | a file of 300 bytes or more is never replaced |
| AssetDownloader.UnreadableFilesKept | download_assets.py:28-35 | a file that cannot be read is not a placeholder and is kept |
| AssetDownloader.FirstLineStopsAtNewline | download_assets.py:28-35 | the first line ends at the first line break, which it keeps |
| AssetDownloader.PointerRecognised | download_assets.py:28-35 | a text whose first line mentions "git-lfs" is recognised as a placeholder |
| AssetDownloader.Outcomes | download_assets.py:265-266 | one outcome per file, in manifest order |
| AssetDownloader.CountsPartition | download_assets.py:265-274 | every outcome is counted exactly once |
| AssetDownloader.FailedFiles | download_assets.py:272-274 | as many failed files as failures, each from the manifest |
| AssetDownloader.DownloadAll | download_assets.py:254-300 | the counts add up to the total and match the outcomes; the failed files are listed in order; the exit code is 0 exactly when nothing failed |
| AssetDownloader.FailureReport | download_assets.py:286-291 | at most the first ten failed files are listed, then the number of the rest |

## Left out

- Drawing: layout, colours, icons, fonts, progress bars and the texts shown. The toolkit is external; the model keeps what is drawn only where it carries a decision (selected light buttons, crossed-out turn toggles, the hash rows, the progress arguments).
- The drag widgets' ranges, steps and clamping (tightness, field of view, GUI scale, volumes, the roundabout radius step). The widgets are external; their outcome in a frame is given as the new value.
- The graphics settings displayed without being edited here: frame-rate and frame-time smoothing, the keybind editor (settings.rs:338-423) and `manage_settings` (settings.rs:452-467). They deal with timing, input capture and the engine's renderer and audio, which are not part of this model.
- `ShadowQuality` is kept as its `u8` index. Its own conversion belongs to the engine's graphics crate.
- Reading and parsing `assets/i18n/<code>.json` (`load_lang`, i18n.rs:138-155) is file I/O. Its result is the parameter `load`.
- Locking of the shared resources (`UiWorld` read and write guards, the atomic `saving_status`). Each frame is modelled as a single step with exclusive access.
- `std::process::exit(0)` is reported as the `exit` result; the process is not modelled. `save_to_disk` and the clock read for `last_save` are reported as `saveToDisk`.
- The load window's progress ratio `ticks_done / ticks_total` (load.rs:86) is an `f32` division: for an empty replay 0/0 gives NaN, and x/0 gives infinity. Floating point is left out; only the text arguments are modelled.
- Reading the replay from disk, `Simulation::from_replay` and the loader's tick step are external. They are the parameters `replayOnDisk`, `bind` and `advance`.
- The simulation's hash table and tick, and `start_server`/`start_client`, are external. Their results are inputs.
- The statistics of a train (acceleration, deceleration, length) come from the prototypes' data, which is external. Statistics are modelled by the wagon list they were computed from. The order of the prototype catalogue is an input.
- Only the radius of a roundabout is edited here. Its other fields are not modelled.
- The downloader's command-line and working-directory handling, the GitHub URL and SSL setup, and all console output. The `[RESTORE]`/`[REPLACE]` messages are printed only.
- AssetDownloader.DownloadFile: the script inspects the local file twice (lines 158-162 and 170-175). The model reads it once, so a file that changes between the two checks is not modelled.
- Decoding a file as UTF-8 with undecodable bytes dropped is taken as given: file contents are the decoded text.
- Float values (`f32`) are modelled as mathematical reals. Rounding and NaN comparisons in the "settings changed" test are not modelled.
