# galaxy-reset, modelled in Dafny

The reset script (`V6.py`) returns Samsung Galaxy phones attached over `adb` to
a known baseline. For each attached device it runs, in a fixed order:

- an optional language change through the `LocaleChanger` helper;
- removal of every account that is not a Samsung account;
- clearing of the Google apps' data;
- uninstallation of the user-installed apps outside an exclude list;
- a wipe of internal storage, then the logs, call log, contacts and app caches;
- a deep clean of the gallery trash, then the media store and the thumbnail caches;
- the wallpaper of the device's series and a Tasker trigger;
- installation of the essential apps that are missing.

The on-device helper `LocaleChanger.java` checks its arguments and parses every
locale tag it is given into a (language, country) pair.

The model covers this as follows:

- Every `adb` invocation is an argument vector (`Adb.Argv`).
- The class `Adb.Bridge` keeps the ordered trace of the vectors issued.
- What a command prints comes from an oracle, `World.respond`, which is a
  function of everything issued before it.
- The host's `os.path.exists` and the bundled-asset resolution `resource_path`
  are oracles of the same `World`.

Each stage is a method that appends to the trace. It is proved against a
plan function: the exact list of commands it issues, given the serial, the
oracles and the replies.

Properties are then proved of the plans:

- which commands are issued, and in what order;
- which are issued exactly when;
- which are never issued, for example an uninstall of an excluded package,
  or a locale change other than the chosen one.

The parsers are modelled with Python's own `str` semantics in module `PyStr`:
`strip`, `rstrip('}')`, `split` with a separator, `splitlines` and the
substring test. `LocaleChanger`'s tag splitting is modelled with Java's
`String.split`, which drops trailing empty strings.

Some behaviours of the code are modelled as written and stated as lemmas:

- `Accounts.ParseSwappedFields`: the account parser reads its fields by
  position, not by key.
- `Stages.ExtendedNameCountsInstalled`: the installed-package test is a
  substring test.
- `LocaleTags.OnlySeparatorsFail`: a tag made only of separators makes
  `parseLocale` throw.

A `check_output` call whose command exits non-zero raises. `process_device`
has no handler for it, so the run of that device ends at that point; the model
says so (`Pipeline.Completes`).

Modules: `Wrappers`/`Seqs` (`wrappers.dfy`), `PyStr` (`py_str.dfy`), `Adb`
(`adb.dfy`), `Devices` (`devices.dfy`), `Accounts` (`accounts.dfy`), `Language`
(`language.dfy`), `LocaleTags` (`locale_changer.dfy`), `Stages` (`stages.dfy`),
`Pipeline` (`pipeline.dfy`).

## Model

| member | source | states |
|---|---|---|
| Adb.Checked | V6.py:347-350 | `check_output` yields the output exactly when the exit status is 0; otherwise it raises (`None`) |
| Adb.Bridge.Run | V6.py:23-30 | `run_command` appends its command to the trace and returns the device's reply to that command given everything issued before |
| Adb.Bridge.CheckOutput | V6.py:480-482 | `check_output` appends its command to the trace and yields the output, or `None` when the command fails |
| Devices.DeviceEntryIff | V6.py:38-40 | a line yields a serial exactly when, once stripped, it is a tab-free serial, a tab and `device` |
| Devices.OtherStateSkipped | V6.py:39 | a line in any other state (`unauthorized`, `offline`, ...) yields no serial |
| Devices.ConnectedSerialsMembers | V6.py:37-41 | the first line of the stripped output is never read; a serial is listed exactly when some later line yields it |
| Devices.ParseDeviceList | V6.py:36-41 | the append loop over the lines after the header returns the serial list the listing specifies |
| Devices.GetConnectedDevices | V6.py:33-41 | issues `adb devices` through `check_output`; `None` when it fails, otherwise the serials of the output |
| Devices.EntryLineRead | V6.py:38-40 | a device line as `adb` prints it yields its serial exactly when its state is `device` |
| Devices.ReadListing | V6.py:35-41 | reading a listing made of a header, device lines and blank padding gives the serials in state `device`, in listing order |
| Devices.DetectSeries | V6.py:44-58 | the series the serial map gives the serial; `S24` when the map is unreadable or lacks the serial |
| Devices.WallpaperFor | V6.py:508 | the wallpaper is always one of `S23.png`, `S24.png`, `S25.png` |
| Devices.WallpaperIff | V6.py:508 | the wallpaper is `<series>.png` exactly for the series S23, S24 and S25; every other series, mapped or not, gets `S24.png` |
| Devices.UnmappedSerialDefaults | V6.py:50-58 | an unknown serial or an unreadable map gives series `S24`, and so wallpaper `S24.png` |
| Accounts.MatchesAnyPrefixIff | V6.py:173-178 | the early-return prefix loop accepts exactly when some listed prefix starts the type |
| Accounts.SamsungAccountIff | V6.py:143-147 | a type is a Samsung account exactly when it starts with one of the three trusted prefixes, equivalently with `com.osp.app.signin` or `com.samsung` |
| Accounts.SamsungPrefixExtended | V6.py:143-147 | a trusted prefix itself, and any extension of it, is a Samsung account |
| Accounts.NonSamsungMembers | V6.py:232 | the post-check keeps exactly the re-queried accounts whose type is not Samsung, and never more of them |
| Accounts.NonSamsungAppend | V6.py:232 | the post-check keeps the order of the re-queried list |
| Accounts.AccountLineShape | V6.py:160-167 | a line gives a record exactly when, stripped, it starts with `Account {` and contains both `type=` and `name=` |
| Accounts.AccountsInLineOrder | V6.py:159-170 | records follow line order, and a record is listed exactly when some line yields it |
| Accounts.MissingNameSkipped | V6.py:164-169 | a record line lacking `name=` is skipped (the `IndexError` is caught), not recorded |
| Accounts.TypeOfFormat | V6.py:165 | the type field of a printed record (text after the first `type=`, less trailing `}`, stripped) is the account type |
| Accounts.NameOfFormat | V6.py:166 | the name field of a printed record (text after the first `name=` up to the first comma, stripped) is the account name |
| Accounts.ParseFormattedAccount | V6.py:159-167 | an indented record line as `dumpsys account` prints it parses back to the account it prints |
| Accounts.ParseSwappedFields | V6.py:165-166 | with `type=` before `name=`, the parser reads type `t, name=n` and name `n}`: fields are taken by position |
| Language.Decide | V6.py:91-97 | a decisive answer other than the skip key selects one of the five menu locales |
| Language.DecidePadded | V6.py:91-98 | surrounding whitespace is ignored; `0` skips, a menu key selects its locale, anything else is rejected |
| Language.BlankRejected | V6.py:90-98 | an empty or blank answer is rejected and the prompt repeats |
| Language.MenuLocalesParse | V6.py:71-77 | every menu locale parses on the device into a two-letter language and a two-letter country |
| LocaleTags.DropTrailingEmpty | LocaleChanger.java:50 | the split result is the longest prefix of the fields that does not end in an empty field; all dropped fields are empty |
| LocaleTags.SeparatorsInterchangeable | LocaleChanger.java:50 | tags that differ only in using `_` or `-` at the same places parse alike |
| LocaleTags.SingleSegment | LocaleChanger.java:54 | a single-segment tag sets the language to the whole tag and no country |
| LocaleTags.TwoSegments | LocaleChanger.java:51-52 | `language-country` gives that language and that country |
| LocaleTags.TrailingSeparatorDropped | LocaleChanger.java:50-54 | `language-` splits into the language and an empty field, the empty field is dropped, and the tag is read as the language alone |
| LocaleTags.ExtraSegmentsIgnored | LocaleChanger.java:51-52 | segments after the second are ignored |
| LocaleTags.OnlySeparatorsFail | LocaleChanger.java:50-54 | `parseLocale` throws exactly for a non-empty tag made only of `-` and `_` |
| LocaleTags.ParseArguments | LocaleChanger.java:13-46 | no argument ends with the usage error; otherwise one locale per argument, in order, into a list of the same length, and a failure exactly when some argument fails to parse |
| Stages.RunEach | V6.py:287-288 | a loop over a fixed list appends one command per element, in list order |
| Stages.PushDexIfNeeded | V6.py:101-109 | pushes the helper exactly when it is bundled, and reports whether it did |
| Stages.SetDeviceLanguage | V6.py:112-135 | issues the language plan: nothing for a falsy locale, else the helper push and, when bundled, the locale change |
| Stages.GetDeviceAccounts | V6.py:150-170 | issues one account query and returns the records of its output; an empty output gives none |
| Stages.RemoveNonSamsungAccounts | V6.py:181-240 | issues the account plan; a result exactly when the removal ran, which is the non-Samsung accounts of the second listing |
| Stages.ClearGoogleAppsHistory | V6.py:361-376 | one `pm clear` per Google app |
| Stages.UninstallUnlessExcluded | V6.py:354-358 | one package: an uninstall unless it is excluded |
| Stages.UninstallEach | V6.py:353-358 | the uninstall loop issues the uninstall plan of the listed packages |
| Stages.DeleteUserInstalledApps | V6.py:338-358 | lists the packages, then issues the uninstall plan; reports whether the listing succeeded |
| Stages.WipeInternalStorage | V6.py:464-469 | removes the visible, then the hidden, entries of internal storage |
| Stages.ClearLogsAndCache | V6.py:379-399 | the SMS clear, the call-log and contacts deletes, then the five cache clears, in order |
| Stages.StopGalleryApps | V6.py:251-255 | step A: force-stop the gallery, then the file manager |
| Stages.RemoveTrashPaths | V6.py:257-288 | step B: one removal per trash path, in list order |
| Stages.DeleteTrashedRows | V6.py:290-309 | step C: the three deletes of trashed media rows |
| Stages.ClearGalleryProviders | V6.py:311-320 | step D: the six data clears |
| Stages.DeepCleanGalleryTrash | V6.py:247-331 | steps A to E, in order |
| Stages.ClearMediaStore | V6.py:402-416 | one delete per media-store table |
| Stages.RemoveThumbnailCaches | V6.py:525-527 | one thumbnail-cache removal per card folder, in list order |
| Stages.PushDefaultWallpaper | V6.py:419-452 | issues the wallpaper plan |
| Stages.TriggerTaskerTask | V6.py:455-461 | the Tasker broadcast |
| Stages.InstallIfMissing | V6.py:485-494 | one essential app: an install when it is missing from the listing and its APK is bundled |
| Stages.InstallEach | V6.py:484-494 | the install loop over the essential apps, in order |
| Stages.EnsureEssentialAppsInstalled | V6.py:472-494 | lists all packages, then issues the install plan; reports whether the listing succeeded |
| Stages.ListingLineRead | V6.py:351 | a listing line `package:<p>` names `p` |
| Stages.Kept | V6.py:353-354 | a package is kept exactly when it is listed and not excluded |
| Stages.UninstallPlanIsKept | V6.py:353-358 | the uninstalls are exactly one per listed package outside the exclude list, in listing order |
| Stages.ExcludedNeverUninstalled | V6.py:340-358 | no excluded package is uninstalled, whatever the listing |
| Stages.EmptyListingUninstallsNothing | V6.py:347-358 | an empty or blank listing issues only the listing |
| Stages.BlankLinesSkipped | V6.py:351 | blank lines yield no package |
| Stages.LanguagePlanChange | V6.py:112-128 | a falsy locale issues nothing; otherwise the only locale change is for the chosen locale, issued exactly when the helper is bundled |
| Stages.AccountRemovalIff | V6.py:186-208 | the removal helper runs exactly when an account was listed and the helper is bundled; no account issues only the query |
| Stages.InstallPlanMembers | V6.py:484-494 | an install is issued exactly for each essential app not listed whose APK is bundled |
| Stages.ExtendedNameCountsInstalled | V6.py:485 | a listed package whose name extends an essential app's hides that app, which is then not installed |
| Stages.GalleryTrashOrder | V6.py:259-328 | two force-stops; one removal per trash path in list order; then the three trashed-row deletes, the six data clears and the rescan |
| Stages.GalleryBlocks | V6.py:287-328 | the same order for any list of trash paths |
| Stages.MediaStoreOrder | V6.py:405-415 | exactly one delete per media-store table, in list order |
| Stages.GooglePlanOrder | V6.py:363-375 | exactly one `pm clear` per Google app, in table order |
| Stages.WallpaperPlanShape | V6.py:419-445 | a missing image issues nothing; otherwise the image is pushed, and the setter runs exactly when its helper is bundled |
| Pipeline.RunHead | V6.py:511-515 | the language, account and Google stages, in order |
| Pipeline.CleanStorage | V6.py:517-527 | the wipe, logs, gallery trash, media store and thumbnail stages, in order |
| Pipeline.RunMiddle | V6.py:517-530 | the clean-up, the wallpaper and the Tasker trigger, in order |
| Pipeline.RunRest | V6.py:517-531 | the stages after the app removal; reports whether the package listing succeeded |
| Pipeline.RunTail | V6.py:516-531 | the app removal and, unless its listing raised, the rest; completes exactly when neither listing fails |
| Pipeline.ProcessDevice | V6.py:501-531 | the whole device plan in stage order, with the series wallpaper; completes exactly when neither package listing fails |
| Pipeline.NeutralGallery | V6.py:247-331 | the gallery clean-up neither uninstalls nor changes the locale |
| Pipeline.NeutralClean | V6.py:517-527 | nor do the wipe, logs, media store and thumbnail stages |
| Pipeline.NeutralWallpaper | V6.py:419-461 | nor do the wallpaper stage and the Tasker trigger |
| Pipeline.NeutralEssential | V6.py:472-494 | nor does the essential-app stage |
| Pipeline.NeutralRest | V6.py:517-531 | nor do all the stages after the app removal |
| Pipeline.LanguageSafe | V6.py:112-128 | the language stage neither uninstalls nor removes, and changes only to the chosen locale |
| Pipeline.AccountsSafe | V6.py:181-208 | the account stage neither uninstalls, removes nor changes the locale |
| Pipeline.GoogleSafe | V6.py:361-376 | the Google stage neither uninstalls, removes nor changes the locale |
| Pipeline.HeadCommands | V6.py:511-515 | the first three stages together neither uninstall nor remove, and change only to the chosen locale |
| Pipeline.AppsSafe | V6.py:338-358 | the app removal changes no locale and targets no excluded package |
| Pipeline.TailCommands | V6.py:516-531 | the app removal and the later stages change no locale and target no excluded package |
| Pipeline.ExcludedAppsSurvive | V6.py:501-531 | no uninstall of a device run targets an excluded package, whatever the devices answer |
| Pipeline.OnlyChosenLocale | V6.py:501-531 | the only locale change of a device run is the chosen one; none without a locale |
| Pipeline.FailedListingKeepsStorage | V6.py:516-517 | when the app listing raises, the run ends with that listing, removes no file tree and does not complete |
| Pipeline.DeviceWallpaperPushed | V6.py:507-529 | if the app listing succeeds, the series wallpaper is pushed whenever it is bundled |
| Pipeline.SkipKeepsLanguage | V6.py:92-115 | answering the skip key means the device run issues no locale change |
| Pipeline.MenuChoiceApplied | V6.py:94-128 | a menu choice reaches the device unchanged, and the helper reads it as a two-letter language and country |

## Left out

- Running processes and the host file system are oracles of `World`: the
  replies of `subprocess.run`/`check_output`, `os.path.exists` and
  `resource_path`.
- `run_command` is always called without `check`, so its `CalledProcessError`
  branch never runs. `Adb.Bridge.Run` always returns the reply.
- Output is taken as already-decoded text; UTF-8 decoding errors are not modelled.
- The serial map's JSON file is a parameter: the loaded map, or `None` when it
  cannot be opened or parsed. `Devices.DetectSeries` takes a map from strings
  to strings. A file whose top level is not an object, or whose values are not
  strings, is not modelled. For such a file the `in` test and the lookup of
  V6.py:50-53 could return a non-string series or raise.
- Python's `str` is modelled as a sequence of characters, with the
  `isspace()` and `splitlines()` character sets of CPython.
- `select_language`: the menu printing and the `while True` prompt loop are
  console I/O. One answer's decision is modelled (`Language.Decide`); a
  rejected answer repeats the prompt.
- Logging and the `time.sleep` settle waits have no effect on the commands issued.
- The checks for `SUCCESS` in the output of the language and wallpaper
  helpers only choose a log message.
- The parsing of the `AccountRemover` output only chooses log messages.
- The outcome of the post-removal check is only logged. The model returns the
  leftover non-Samsung accounts instead.
- `main` of the script is left out. Its device loop runs one thread per device
  and joins them, and it reads operator input between batches. Both are
  concurrency and console handling.
- An exception raised inside `process_device` ends that device's thread only;
  the model ends the device's trace there and does not model other threads.
- `RecentTasksCleaner.java` is not part of this model. It is a reflection
  wrapper over hidden Android APIs.
- `LocaleChanger`: the reflective calls that install the locale list, the
  `LocaleList`/`Locale` internals (case normalisation, `toLanguageTags`) and
  the printed messages are left out. The outcome stops at the parsed
  (language, country) pairs.
- `LocaleTags.JavaSplit` models `String.split` for a literal separator
  without regular-expression metacharacters (the only use is `"-"`).
