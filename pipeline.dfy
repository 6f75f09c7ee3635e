/**
  * `process_device`: the stages of one device reset, in their fixed order,
  * over the command trace of the bridge. The package listing of
  * `delete_user_installed_apps` and the one of
  * `ensure_essential_apps_installed` go through `check_output`; when either
  * fails, the exception leaves `process_device` and the stages after it are
  * not run.
  */
module Pipeline {
  import opened Wrappers
  import opened PyStr
  import opened Seqs
  import opened Adb
  import opened Devices
  import opened Stages
  import opened Language
  import opened LocaleTags

  /** The commands of the stages before `delete_user_installed_apps`, the trace before them being `t`. */
  function HeadPlan(w: World, t: seq<Argv>, serial: string, locale: Option<string>): seq<Argv> {
    var language := LanguagePlan(w, serial, locale);
    language + AccountsPlan(w, t + language, serial) + GooglePlan(serial)
  }

  /** The storage clean-up stages between the app removal and the wallpaper. */
  function CleanPlan(serial: string): seq<Argv> {
    WipePlan(serial) + LogsPlan(serial) + GalleryTrashPlan(serial) + MediaStorePlan(serial) + ThumbnailPlan(serial)
  }

  /** The stages after the app removal and before the essential apps. */
  function MiddlePlan(w: World, serial: string, wallpaper: string): seq<Argv> {
    CleanPlan(serial) + WallpaperPlan(w, serial, wallpaper) + [TaskerTrigger(serial)]
  }

  /** The wallpaper file `process_device` picks for a device. */
  function DeviceWallpaper(mapping: Option<map<string, string>>, serial: string): string {
    WallpaperFor(DetectSeries(mapping, serial))
  }

  /** The stages after the app removal, the trace before them being `t`: clean-up, wallpaper, Tasker, essential apps. */
  function RestPlan(w: World, t: seq<Argv>, serial: string, wallpaper: string): seq<Argv> {
    var middle := MiddlePlan(w, serial, wallpaper);
    middle + EssentialAppsPlan(w, t + middle, serial)
  }

  /** The app removal and, unless its listing failed, the stages after it. */
  function TailPlan(w: World, t: seq<Argv>, serial: string, wallpaper: string): seq<Argv> {
    var apps := DeleteAppsPlan(w, t, serial);
    if ListingFails(w, t, serial) then apps else apps + RestPlan(w, t + apps, serial, wallpaper)
  }

  /**
    * The commands of `process_device`, the trace before it being `t`: the
    * head stages, the app removal, and, unless its listing failed, the
    * clean-up, the wallpaper picked from the series, the Tasker trigger and
    * the essential apps.
    */
  function DevicePlan(w: World, t: seq<Argv>, serial: string, locale: Option<string>,
                      mapping: Option<map<string, string>>): seq<Argv>
  {
    var head := HeadPlan(w, t, serial, locale);
    head + TailPlan(w, t + head, serial, DeviceWallpaper(mapping, serial))
  }

  /** The stages from the app removal on return normally: neither package listing fails. */
  predicate TailCompletes(w: World, t: seq<Argv>, serial: string, wallpaper: string) {
    var apps := DeleteAppsPlan(w, t, serial);
    !ListingFails(w, t, serial) && !PackagesFail(w, t + apps + MiddlePlan(w, serial, wallpaper), serial)
  }

  /** `process_device` returns normally: neither package listing failed. */
  predicate Completes(w: World, t: seq<Argv>, serial: string, locale: Option<string>,
                      mapping: Option<map<string, string>>)
  {
    TailCompletes(w, t + HeadPlan(w, t, serial, locale), serial, DeviceWallpaper(mapping, serial))
  }

  /** The language, account and Google stages, in order. */
  method RunHead(b: Bridge, serial: string, locale: Option<string>)
    modifies b
    ensures b.trace == old(b.trace) + HeadPlan(b.world, old(b.trace), serial, locale)
  {
    ghost var t := b.trace;
    SetDeviceLanguage(b, serial, locale);
    ghost var language := LanguagePlan(b.world, serial, locale);
    var _ := RemoveNonSamsungAccounts(b, serial);
    ClearGoogleAppsHistory(b, serial);
    AppendThree(t, language, AccountsPlan(b.world, t + language, serial), GooglePlan(serial));
  }

  /** The wipe, the log and cache clears, the gallery trash, the media store and the thumbnails, in order. */
  method CleanStorage(b: Bridge, serial: string)
    modifies b
    ensures b.trace == old(b.trace) + CleanPlan(serial)
  {
    ghost var t := b.trace;
    WipeInternalStorage(b, serial);
    ClearLogsAndCache(b, serial);
    DeepCleanGalleryTrash(b, serial);
    ClearMediaStore(b, serial);
    RemoveThumbnailCaches(b, serial);
    AppendFive(t, WipePlan(serial), LogsPlan(serial), GalleryTrashPlan(serial), MediaStorePlan(serial), ThumbnailPlan(serial));
  }

  /** The clean-up, the wallpaper and the Tasker trigger, in order. */
  method RunMiddle(b: Bridge, serial: string, wallpaper: string)
    modifies b
    ensures b.trace == old(b.trace) + MiddlePlan(b.world, serial, wallpaper)
  {
    ghost var t := b.trace;
    CleanStorage(b, serial);
    PushDefaultWallpaper(b, serial, wallpaper);
    TriggerTaskerTask(b, serial);
    AppendThree(t, CleanPlan(serial), WallpaperPlan(b.world, serial, wallpaper), [TaskerTrigger(serial)]);
  }

  /** The stages after the app removal; `listed` is false when the package listing failed. */
  method RunRest(b: Bridge, serial: string, wallpaper: string) returns (listed: bool)
    modifies b
    ensures b.trace == old(b.trace) + RestPlan(b.world, old(b.trace), serial, wallpaper)
    ensures listed <==> !PackagesFail(b.world, old(b.trace) + MiddlePlan(b.world, serial, wallpaper), serial)
  {
    ghost var t := b.trace;
    RunMiddle(b, serial, wallpaper);
    ghost var middle := MiddlePlan(b.world, serial, wallpaper);
    ghost var before := b.trace;
    assert before == t + middle;
    listed := EnsureEssentialAppsInstalled(b, serial);
    assert listed <==> !PackagesFail(b.world, before, serial);
    ghost var essential := EssentialAppsPlan(b.world, before, serial);
    AppendTwo(t, middle, essential);
  }

  /** The app removal and, unless its listing failed, the stages after it. */
  method RunTail(b: Bridge, serial: string, wallpaper: string) returns (completed: bool)
    modifies b
    ensures b.trace == old(b.trace) + TailPlan(b.world, old(b.trace), serial, wallpaper)
    ensures completed <==> TailCompletes(b.world, old(b.trace), serial, wallpaper)
  {
    ghost var t := b.trace;
    var listed := DeleteUserInstalledApps(b, serial);
    ghost var apps := DeleteAppsPlan(b.world, t, serial);
    ghost var before := b.trace;
    assert before == t + apps;
    if !listed {
      return false;
    }
    completed := RunRest(b, serial, wallpaper);
    assert completed <==> !PackagesFail(b.world, before + MiddlePlan(b.world, serial, wallpaper), serial);
    ghost var rest := RestPlan(b.world, before, serial, wallpaper);
    AppendTwo(t, apps, rest);
  }

  /**
    * `process_device`: pick the wallpaper from the detected series, then run
    * the stages in order. `completed` is false when a package listing failed
    * and the exception cut the run short.
    */
  method ProcessDevice(b: Bridge, serial: string, locale: Option<string>, mapping: Option<map<string, string>>)
    returns (completed: bool)
    modifies b
    ensures b.trace == old(b.trace) + DevicePlan(b.world, old(b.trace), serial, locale, mapping)
    ensures completed <==> Completes(b.world, old(b.trace), serial, locale, mapping)
  {
    ghost var t := b.trace;
    var series := DetectSeries(mapping, serial);
    var wallpaper := WallpaperFor(series);
    RunHead(b, serial, locale);
    ghost var head := HeadPlan(b.world, t, serial, locale);
    completed := RunTail(b, serial, wallpaper);
    ghost var tail := TailPlan(b.world, t + head, serial, wallpaper);
    AppendTwo(t, head, tail);
  }

  // ---------------------------------------------------------------------
  // What a device run issues, and what it never issues
  // ---------------------------------------------------------------------

  /** No command of `cs` uninstalls a package or changes the locale. */
  predicate AllNeutral(cs: seq<Argv>) {
    forall c :: c in cs ==> Neutral(c)
  }

  /** No command of `cs` removes a file tree. */
  predicate KeepsStorage(cs: seq<Argv>) {
    forall c :: c in cs ==> !IsRemoval(c)
  }

  /** The package an uninstall command names: its last argument. */
  function Target(c: Argv): string
    requires IsUninstall(c)
  {
    c[|c| - 1]
  }

  /** The command builders of the clean-up stages build neither uninstalls nor locale changes nor (but one) removals. */
  lemma BuildersNeutral(serial: string)
    ensures forall x :: Neutral(PmClear(serial, x)) && !IsRemoval(PmClear(serial, x))
    ensures forall x :: Neutral(RemoveTree(serial, x))
    ensures forall x :: Neutral(ContentDelete(serial, x))
    ensures forall x :: Neutral(TrashedDelete(serial, x))
    ensures forall x :: Neutral(ForceStop(serial, x))
    ensures forall x, y :: Neutral(Push(serial, x, y)) && !IsRemoval(Push(serial, x, y))
    ensures forall x :: Neutral(Install(serial, x))
    ensures forall x :: Neutral(ThumbnailRemoval(serial, x))
  {
  }

  /** A loop issuing one neutral command per element issues only neutral commands. */
  lemma NeutralMapWith(f: (string, string) -> Argv, serial: string, xs: seq<string>)
    requires forall x :: Neutral(f(serial, x))
    ensures AllNeutral(MapWith(f, serial, xs))
  {
    MapWithIndex(f, serial, xs);
    forall c | c in MapWith(f, serial, xs) ensures Neutral(c) {
      var k :| 0 <= k < |xs| && MapWith(f, serial, xs)[k] == c;
    }
  }

  /** Neutrality of a concatenation is neutrality of both parts. */
  lemma NeutralAppend(a: seq<Argv>, b: seq<Argv>)
    ensures AllNeutral(a + b) <==> AllNeutral(a) && AllNeutral(b)
  {
    if AllNeutral(a) && AllNeutral(b) {
      forall c | c in a + b ensures Neutral(c) {
      }
    }
  }

  /** The force-stops of the gallery stage are neutral. */
  lemma NeutralStops(serial: string)
    ensures AllNeutral(GalleryStops(serial))
  {
    BuildersNeutral(serial);
  }

  /** The deletes of trashed rows are neutral. */
  lemma NeutralRows(serial: string)
    ensures AllNeutral(TrashedRows(serial))
  {
    BuildersNeutral(serial);
  }

  /** The data clears of the gallery stage are neutral. */
  lemma NeutralClears(serial: string)
    ensures AllNeutral(ProviderClears(serial))
  {
    BuildersNeutral(serial);
  }

  /** The rescan broadcast is neutral. */
  lemma NeutralRescan(serial: string)
    ensures AllNeutral([MediaMounted(serial)])
  {
    assert Neutral(MediaMounted(serial));
  }

  /** The gallery clean-up issues neither uninstalls nor locale changes. */
  lemma NeutralGallery(serial: string)
    ensures AllNeutral(GalleryTrashPlan(serial))
  {
    BuildersNeutral(serial);
    NeutralMapWith(RemoveTree, serial, TRASH_PATHS);
    NeutralStops(serial);
    NeutralRows(serial);
    NeutralClears(serial);
    NeutralRescan(serial);
    NeutralAppend(GalleryStops(serial), TrashRemovals(serial));
    NeutralAppend(GalleryStops(serial) + TrashRemovals(serial), TrashedRows(serial));
    NeutralAppend(GalleryStops(serial) + TrashRemovals(serial) + TrashedRows(serial), ProviderClears(serial));
    NeutralAppend(GalleryStops(serial) + TrashRemovals(serial) + TrashedRows(serial) + ProviderClears(serial), [MediaMounted(serial)]);
  }

  /** The wipe is neutral. */
  lemma NeutralWipe(serial: string)
    ensures AllNeutral(WipePlan(serial))
  {
    BuildersNeutral(serial);
  }

  /** The log and cache clears are neutral. */
  lemma NeutralLogs(serial: string)
    ensures AllNeutral(LogsPlan(serial))
  {
    BuildersNeutral(serial);
  }

  /** Neither do the wipe, the log clears, the media store and the thumbnail removals. */
  lemma NeutralClean(serial: string)
    ensures AllNeutral(CleanPlan(serial))
  {
    BuildersNeutral(serial);
    NeutralWipe(serial);
    NeutralLogs(serial);
    NeutralGallery(serial);
    NeutralMapWith(ContentDelete, serial, MEDIA_URIS);
    NeutralMapWith(ThumbnailRemoval, serial, THUMBNAIL_DIRS);
    NeutralAppend(WipePlan(serial), LogsPlan(serial));
    NeutralAppend(WipePlan(serial) + LogsPlan(serial), GalleryTrashPlan(serial));
    NeutralAppend(WipePlan(serial) + LogsPlan(serial) + GalleryTrashPlan(serial), MediaStorePlan(serial));
    NeutralAppend(WipePlan(serial) + LogsPlan(serial) + GalleryTrashPlan(serial) + MediaStorePlan(serial), ThumbnailPlan(serial));
  }

  /** Neither do the wallpaper stage and the Tasker trigger. */
  lemma NeutralWallpaper(w: World, serial: string, wallpaper: string)
    ensures AllNeutral(WallpaperPlan(w, serial, wallpaper) + [TaskerTrigger(serial)])
  {
    BuildersNeutral(serial);
  }

  /** Nor does the essential-app stage. */
  lemma NeutralEssential(w: World, t: seq<Argv>, serial: string)
    ensures AllNeutral(EssentialAppsPlan(w, t, serial))
  {
    BuildersNeutral(serial);
    forall c | c in EssentialAppsPlan(w, t, serial) ensures Neutral(c) {
      if c != ListAllPackages(serial) {
        var listing := Checked(w.respond(t, ListAllPackages(serial))).value;
        InstallPlanMembers(InstallContext(w, serial, listing), ESSENTIAL_APPS, c);
      }
    }
  }

  /** Neither do the stages after the app removal. */
  lemma NeutralRest(w: World, t: seq<Argv>, serial: string, wallpaper: string)
    ensures AllNeutral(RestPlan(w, t, serial, wallpaper))
  {
    NeutralClean(serial);
    NeutralWallpaper(w, serial, wallpaper);
    NeutralEssential(w, t + MiddlePlan(w, serial, wallpaper), serial);
  }

  /**
    * No command of `cs` uninstalls or removes anything, and the only locale
    * change among them is the one for the chosen locale.
    */
  predicate HeadSafe(cs: seq<Argv>, serial: string, locale: Option<string>) {
    forall c :: c in cs ==>
      !IsUninstall(c) && !IsRemoval(c) && (IsLocaleChange(c) ==> !Falsy(locale) && c == LocaleChange(serial, locale.value))
  }

  /** No command of `cs` changes the locale, and no uninstall among them targets an excluded package. */
  predicate TailSafe(cs: seq<Argv>) {
    forall c :: c in cs ==> !IsLocaleChange(c) && (IsUninstall(c) ==> Target(c) !in EXCLUDE_APPS)
  }

  /** `set_device_language` is safe in the sense of `HeadSafe`. */
  lemma LanguageSafe(w: World, serial: string, locale: Option<string>)
    ensures HeadSafe(LanguagePlan(w, serial, locale), serial, locale)
  {
    BuildersNeutral(serial);
    LanguagePlanChange(w, serial, locale);
  }

  /** So is `remove_non_samsung_accounts`. */
  lemma AccountsSafe(w: World, t: seq<Argv>, serial: string, locale: Option<string>)
    ensures HeadSafe(AccountsPlan(w, t, serial), serial, locale)
  {
    BuildersNeutral(serial);
    assert Neutral(AccountRemoval(serial)) && !IsRemoval(AccountRemoval(serial));
  }

  /** And so is `clear_google_apps_history`. */
  lemma GoogleSafe(serial: string, locale: Option<string>)
    ensures HeadSafe(GooglePlan(serial), serial, locale)
  {
    BuildersNeutral(serial);
    MapWithIndex(PmClear, serial, GOOGLE_APPS);
    forall c | c in GooglePlan(serial) ensures Neutral(c) && !IsRemoval(c) {
      var k :| 0 <= k < |GOOGLE_APPS| && GooglePlan(serial)[k] == c;
    }
  }

  /**
    * The head stages uninstall nothing and remove no file tree, and their
    * only locale change is the one for the chosen locale.
    */
  lemma HeadCommands(w: World, t: seq<Argv>, serial: string, locale: Option<string>)
    ensures HeadSafe(HeadPlan(w, t, serial, locale), serial, locale)
  {
    var language := LanguagePlan(w, serial, locale);
    var accounts := AccountsPlan(w, t + language, serial);
    LanguageSafe(w, serial, locale);
    AccountsSafe(w, t + language, serial, locale);
    GoogleSafe(serial, locale);
    assert HeadSafe(language + accounts, serial, locale);
  }

  /** The app removal changes no locale and spares the excluded packages. */
  lemma AppsSafe(w: World, t: seq<Argv>, serial: string)
    ensures TailSafe(DeleteAppsPlan(w, t, serial))
  {
    if !ListingFails(w, t, serial) {
      var installed := InstalledApps(Checked(w.respond(t, ListUserApps(serial))).value);
      UninstallPlanIsKept(serial, installed);
      var kept := Kept(installed);
      MapWithIndex(Uninstall, serial, kept);
      forall c | c in MapWith(Uninstall, serial, kept)
        ensures !IsLocaleChange(c) && (IsUninstall(c) ==> Target(c) !in EXCLUDE_APPS)
      {
        var k :| 0 <= k < |kept| && MapWith(Uninstall, serial, kept)[k] == c;
        assert kept[k] in kept;
      }
    }
  }

  /**
    * The app removal and what follows change no locale, and every uninstall
    * among them targets a package outside the exclude list.
    */
  lemma TailCommands(w: World, t: seq<Argv>, serial: string, wallpaper: string)
    ensures TailSafe(TailPlan(w, t, serial, wallpaper))
  {
    var apps := DeleteAppsPlan(w, t, serial);
    AppsSafe(w, t, serial);
    if !ListingFails(w, t, serial) {
      NeutralRest(w, t + apps, serial, wallpaper);
      assert TailSafe(RestPlan(w, t + apps, serial, wallpaper));
    }
  }

  /** `process_device` never uninstalls an excluded package, whatever the devices answer. */
  lemma ExcludedAppsSurvive(w: World, t: seq<Argv>, serial: string, locale: Option<string>,
                            mapping: Option<map<string, string>>)
    ensures forall c :: c in DevicePlan(w, t, serial, locale, mapping) && IsUninstall(c) ==>
      Target(c) !in EXCLUDE_APPS
  {
    HeadCommands(w, t, serial, locale);
    TailCommands(w, t + HeadPlan(w, t, serial, locale), serial, DeviceWallpaper(mapping, serial));
  }

  /**
    * The only locale change `process_device` issues is the one for the
    * chosen locale; with no locale (the skip key) it changes none.
    */
  lemma OnlyChosenLocale(w: World, t: seq<Argv>, serial: string, locale: Option<string>,
                         mapping: Option<map<string, string>>)
    ensures forall c :: c in DevicePlan(w, t, serial, locale, mapping) && IsLocaleChange(c) ==>
      !Falsy(locale) && c == LocaleChange(serial, locale.value)
  {
    HeadCommands(w, t, serial, locale);
    TailCommands(w, t + HeadPlan(w, t, serial, locale), serial, DeviceWallpaper(mapping, serial));
  }

  /**
    * When the package listing of the app removal fails, the run ends with
    * that listing and no file tree has been removed.
    */
  lemma FailedListingKeepsStorage(w: World, t: seq<Argv>, serial: string, locale: Option<string>,
                                  mapping: Option<map<string, string>>)
    requires ListingFails(w, t + HeadPlan(w, t, serial, locale), serial)
    ensures KeepsStorage(DevicePlan(w, t, serial, locale, mapping))
    ensures DevicePlan(w, t, serial, locale, mapping)[|DevicePlan(w, t, serial, locale, mapping)| - 1] == ListUserApps(serial)
    ensures !Completes(w, t, serial, locale, mapping)
  {
    HeadCommands(w, t, serial, locale);
  }

  /**
    * When the app listing succeeds, the wallpaper of the detected series (or
    * `S24.png`) is pushed to the device whenever it is bundled.
    */
  lemma DeviceWallpaperPushed(w: World, t: seq<Argv>, serial: string, locale: Option<string>,
                              mapping: Option<map<string, string>>)
    requires !ListingFails(w, t + HeadPlan(w, t, serial, locale), serial)
    ensures var file := DeviceWallpaper(mapping, serial);
      w.fileExists(w.resourcePath(file)) ==>
        Push(serial, w.resourcePath(file), WallpaperRemote(file)) in DevicePlan(w, t, serial, locale, mapping)
  {
    var file := DeviceWallpaper(mapping, serial);
    WallpaperPlanShape(w, serial, file);
    if w.fileExists(w.resourcePath(file)) {
      var plan := WallpaperPlan(w, serial, file);
      assert plan[1] in plan;
    }
  }

  /** Answering the skip key at the menu leaves the device language alone: the run issues no locale change. */
  lemma SkipKeepsLanguage(input: string, w: World, t: seq<Argv>, serial: string, mapping: Option<map<string, string>>)
    requires Decide(input) == Skip
    ensures forall c :: c in DevicePlan(w, t, serial, LocaleOf(Decide(input)), mapping) ==> !IsLocaleChange(c)
  {
    OnlyChosenLocale(w, t, serial, LocaleOf(Decide(input)), mapping);
  }

  /**
    * A menu choice reaches the device unchanged, and the device helper reads
    * it as a two-letter language and country.
    */
  lemma MenuChoiceApplied(input: string, w: World, t: seq<Argv>, serial: string, mapping: Option<map<string, string>>)
    requires Decide(input).Chosen?
    ensures forall c :: c in DevicePlan(w, t, serial, LocaleOf(Decide(input)), mapping) && IsLocaleChange(c) ==>
      c == LocaleChange(serial, Decide(input).locale)
    ensures var tag := ParseLocale(Decide(input).locale);
      tag.Some? && |tag.value.language| == 2 && |tag.value.country| == 2
  {
    OnlyChosenLocale(w, t, serial, LocaleOf(Decide(input)), mapping);
    MenuLocalesParse(Strip(input));
  }
}
