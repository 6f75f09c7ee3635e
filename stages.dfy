/**
  * The stages of `process_device`. Each stage is a method that issues its
  * `adb` commands through the bridge, and is specified by the list of
  * commands it appends to the trace: a plan function of the serial, the
  * host oracles and the replies the bridge gets along the way.
  */
module Stages {
  import opened Wrappers
  import opened PyStr
  import opened Seqs
  import opened Adb
  import opened Accounts

  /** The loops that issue one command per element of a fixed list, in list order. */
  method RunEach(b: Bridge, f: (string, string) -> Argv, serial: string, items: seq<string>)
    modifies b
    ensures b.trace == old(b.trace) + MapWith(f, serial, items)
  {
    for i := 0 to |items|
      invariant b.trace == old(b.trace) + MapWith(f, serial, items[..i])
    {
      var _ := b.Run(f(serial, items[i]));
      MapWithSnoc(f, serial, items[..i], items[i]);
      assert items[..i + 1] == items[..i] + [items[i]];
    }
    assert items[..|items|] == items;
  }

  // ---------------------------------------------------------------------
  // Helper DEX files
  // ---------------------------------------------------------------------

  const LOCALE_DEX: string := "locale_changer.dex"
  const ACCOUNT_DEX: string := "account_remover.dex"
  const WALLPAPER_DEX: string := "wallpaper_setter.dex"

  /** Where the helper DEX files are pushed on the device. */
  const REMOTE_TMP: string := "/data/local/tmp/"

  /** The helper DEX file is bundled with the script. */
  predicate DexPresent(w: World, dex: string) {
    w.fileExists(w.resourcePath(dex))
  }

  /** What `push_dex_if_needed` issues: one push when the file is bundled, nothing otherwise. */
  function DexPush(w: World, serial: string, dex: string): seq<Argv> {
    if DexPresent(w, dex) then [Push(serial, w.resourcePath(dex), REMOTE_TMP + dex)] else []
  }

  /** `push_dex_if_needed`: push the bundled helper, or report that it is missing. */
  method PushDexIfNeeded(b: Bridge, serial: string, dex: string) returns (pushed: bool)
    modifies b
    ensures pushed == DexPresent(b.world, dex)
    ensures b.trace == old(b.trace) + DexPush(b.world, serial, dex)
  {
    var local := b.world.resourcePath(dex);
    if !b.world.fileExists(local) {
      return false;
    }
    var _ := b.Run(Push(serial, local, REMOTE_TMP + dex));
    return true;
  }

  // ---------------------------------------------------------------------
  // set_device_language
  // ---------------------------------------------------------------------

  /** The `app_process` call that runs `LocaleChanger` with one locale. */
  function LocaleChange(serial: string, locale: string): Argv {
    AppProcess(serial, LOCALE_DEX, "LocaleChanger", [locale])
  }

  /** A locale Python treats as false: `None` or the empty string. */
  predicate Falsy(locale: Option<string>) {
    locale.None? || locale.value == ""
  }

  /** The commands of `set_device_language`. */
  function LanguagePlan(w: World, serial: string, locale: Option<string>): seq<Argv> {
    if Falsy(locale) then []
    else DexPush(w, serial, LOCALE_DEX) + (if DexPresent(w, LOCALE_DEX) then [LocaleChange(serial, locale.value)] else [])
  }

  /**
    * `set_device_language`: nothing for a false locale; otherwise push the
    * helper and, when it is bundled, run it. Whether its output contains
    * `SUCCESS` only selects a log message.
    */
  method SetDeviceLanguage(b: Bridge, serial: string, locale: Option<string>)
    modifies b
    ensures b.trace == old(b.trace) + LanguagePlan(b.world, serial, locale)
  {
    if Falsy(locale) {
      return;
    }
    var pushed := PushDexIfNeeded(b, serial, LOCALE_DEX);
    if !pushed {
      return;
    }
    var _ := b.Run(LocaleChange(serial, locale.value));
  }

  // ---------------------------------------------------------------------
  // remove_non_samsung_accounts
  // ---------------------------------------------------------------------

  /** The account dump query. */
  function DumpsysAccount(serial: string): Argv {
    Shell(serial, ["dumpsys", "account"])
  }

  /** The `app_process` call that runs `AccountRemover`. */
  function AccountRemoval(serial: string): Argv {
    AppProcess(serial, ACCOUNT_DEX, "AccountRemover", [])
  }

  /**
    * `get_device_accounts`: query the dump and collect the records of its
    * lines. `run_command` never raises, so a failed query is an empty or
    * unparsable output.
    */
  method GetDeviceAccounts(b: Bridge, serial: string) returns (accounts: seq<Account>)
    modifies b
    ensures b.trace == old(b.trace) + [DumpsysAccount(serial)]
    ensures accounts == ParseAccountDump(b.world.respond(old(b.trace), DumpsysAccount(serial)).stdout)
  {
    var r := b.Run(DumpsysAccount(serial));
    if r.stdout == "" {
      return [];
    }
    accounts := Collect(ParseAccountLine, SplitLines(r.stdout));
  }

  /** Whether the removal runs: some account was listed and the helper is bundled. */
  predicate RemovalRuns(w: World, t: seq<Argv>, serial: string) {
    ParseAccountDump(w.respond(t, DumpsysAccount(serial)).stdout) != [] && DexPresent(w, ACCOUNT_DEX)
  }

  /** The commands of `remove_non_samsung_accounts`, the trace before it being `t`. */
  function AccountsPlan(w: World, t: seq<Argv>, serial: string): seq<Argv> {
    if RemovalRuns(w, t, serial) then
      [DumpsysAccount(serial)] + DexPush(w, serial, ACCOUNT_DEX) + [AccountRemoval(serial), DumpsysAccount(serial)]
    else [DumpsysAccount(serial)]
  }

  /**
    * `remove_non_samsung_accounts`: list the accounts; stop when there are
    * none or the helper is missing; otherwise run the helper and list the
    * accounts again. The non-Samsung accounts of the second listing are the
    * ones reported as left over (`None` when the stage stopped early).
    */
  method RemoveNonSamsungAccounts(b: Bridge, serial: string) returns (leftover: Option<seq<Account>>)
    modifies b
    ensures b.trace == old(b.trace) + AccountsPlan(b.world, old(b.trace), serial)
    ensures leftover.Some? <==> RemovalRuns(b.world, old(b.trace), serial)
    ensures leftover.Some? ==>
      leftover.value == NonSamsung(ParseAccountDump(b.world.respond(b.trace[..|b.trace| - 1], DumpsysAccount(serial)).stdout))
  {
    ghost var t := b.trace;
    var accounts := GetDeviceAccounts(b, serial);
    if accounts == [] {
      return None;
    }
    var pushed := PushDexIfNeeded(b, serial, ACCOUNT_DEX);
    if !pushed {
      return None;
    }
    var _ := b.Run(AccountRemoval(serial));
    ghost var before := b.trace;
    var remaining := GetDeviceAccounts(b, serial);
    assert b.trace[..|b.trace| - 1] == before;
    leftover := Some(NonSamsung(remaining));
  }

  // ---------------------------------------------------------------------
  // clear_google_apps_history
  // ---------------------------------------------------------------------

  /** The Google apps whose data is cleared, in the order of their table. */
  const GOOGLE_APPS: seq<string> := [
    "com.google.android.googlequicksearchbox",
    "com.android.chrome",
    "com.google.android.youtube",
    "com.google.android.gm",
    "com.google.android.apps.maps",
    "com.google.android.apps.docs",
    "com.google.android.calendar",
    "com.google.android.apps.photos"
  ]

  /** The commands of `clear_google_apps_history`. */
  function GooglePlan(serial: string): seq<Argv> {
    MapWith(PmClear, serial, GOOGLE_APPS)
  }

  /** `clear_google_apps_history`: one `pm clear` per Google app, in table order. */
  method ClearGoogleAppsHistory(b: Bridge, serial: string)
    modifies b
    ensures b.trace == old(b.trace) + GooglePlan(serial)
  {
    RunEach(b, PmClear, serial, GOOGLE_APPS);
  }

  // ---------------------------------------------------------------------
  // delete_user_installed_apps
  // ---------------------------------------------------------------------

  /** The user-installed packages that are kept. */
  const EXCLUDE_APPS: seq<string> := [
    "com.sec.android.app.popupcalculator",
    "com.nhn.android.nmap",
    "dji.mimo",
    "com.alphainventor.filemanager",
    "net.dinglisch.android.taskerm"
  ]

  /** The listing of third-party packages of user 0 (through `check_output`). */
  function ListUserApps(serial: string): Argv {
    Shell(serial, ["pm", "list", "packages", "--user", "0", "-3"])
  }

  /** The uninstall command for one package. */
  function Uninstall(serial: string, app: string): Argv {
    Shell(serial, ["pm", "uninstall", "--user", "0", app])
  }

  /** One line of the listing: blank lines are dropped, `package:` is removed and the rest stripped. */
  function PackageOfLine(line: string): Option<string> {
    if Strip(line) == "" then None else Some(Strip(Replace(line, "package:", "")))
  }

  /** The `installed_apps` comprehension over the lines of the listing. */
  function InstalledApps(listing: string): seq<string> {
    FilterMap(PackageOfLine, SplitLines(listing))
  }

  /** The commands for one listed package: an uninstall unless it is excluded. */
  function UninstallStep(serial: string, app: string): seq<Argv> {
    if app in EXCLUDE_APPS then [] else [Uninstall(serial, app)]
  }

  /** The uninstalls for the listed packages, in listing order. */
  function UninstallPlan(serial: string, apps: seq<string>): seq<Argv> {
    FlatMapWith(UninstallStep, serial, apps)
  }

  /** The listing fails: `check_output` raises and the exception leaves `process_device`. */
  predicate ListingFails(w: World, t: seq<Argv>, serial: string) {
    Checked(w.respond(t, ListUserApps(serial))).None?
  }

  /** The commands of `delete_user_installed_apps`, the trace before it being `t`. */
  function DeleteAppsPlan(w: World, t: seq<Argv>, serial: string): seq<Argv> {
    match Checked(w.respond(t, ListUserApps(serial)))
    case None => [ListUserApps(serial)]
    case Some(listing) => [ListUserApps(serial)] + UninstallPlan(serial, InstalledApps(listing))
  }

  /** The body of the uninstall loop: one package. */
  method UninstallUnlessExcluded(b: Bridge, serial: string, app: string)
    modifies b
    ensures b.trace == old(b.trace) + UninstallStep(serial, app)
  {
    if app !in EXCLUDE_APPS {
      var _ := b.Run(Uninstall(serial, app));
    }
  }

  /** The uninstall loop over the listed packages, in listing order. */
  method UninstallEach(b: Bridge, serial: string, apps: seq<string>)
    modifies b
    ensures b.trace == old(b.trace) + UninstallPlan(serial, apps)
  {
    for i := 0 to |apps|
      invariant b.trace == old(b.trace) + UninstallPlan(serial, apps[..i])
    {
      UninstallUnlessExcluded(b, serial, apps[i]);
      FlatMapWithSnoc(UninstallStep, serial, apps[..i], apps[i]);
      assert apps[..i + 1] == apps[..i] + [apps[i]];
    }
    assert apps[..|apps|] == apps;
  }

  /**
    * `delete_user_installed_apps`: list the packages, then uninstall every
    * one that is not excluded, in listing order. `listed` is false when the
    * listing raised (the caller is then aborted).
    */
  method DeleteUserInstalledApps(b: Bridge, serial: string) returns (listed: bool)
    modifies b
    ensures listed <==> !ListingFails(b.world, old(b.trace), serial)
    ensures b.trace == old(b.trace) + DeleteAppsPlan(b.world, old(b.trace), serial)
  {
    var output := b.CheckOutput(ListUserApps(serial));
    if output.None? {
      return false;
    }
    UninstallEach(b, serial, InstalledApps(output.value));
    return true;
  }

  // ---------------------------------------------------------------------
  // wipe_internal_storage, clear_logs_and_cache
  // ---------------------------------------------------------------------

  /** The commands of `wipe_internal_storage`. */
  function WipePlan(serial: string): seq<Argv> {
    [RemoveTree(serial, "/storage/emulated/0/*"), RemoveTree(serial, "/storage/emulated/0/.*")]
  }

  /** `wipe_internal_storage`: remove the visible, then the hidden, entries of internal storage. */
  method WipeInternalStorage(b: Bridge, serial: string)
    modifies b
    ensures b.trace == old(b.trace) + WipePlan(serial)
  {
    var _ := b.Run(RemoveTree(serial, "/storage/emulated/0/*"));
    var _ := b.Run(RemoveTree(serial, "/storage/emulated/0/.*"));
  }

  /** The commands of `clear_logs_and_cache`. */
  function LogsPlan(serial: string): seq<Argv> {
    [
      PmClear(serial, "com.android.providers.telephony"),
      ContentDelete(serial, "content://call_log/calls"),
      ContentDelete(serial, "content://contacts/people"),
      PmClear(serial, "com.sec.android.gallery3d"),
      PmClear(serial, "dji.mimo"),
      PmClear(serial, "com.nhn.android.nmap"),
      PmClear(serial, "com.sec.android.themestore"),
      PmClear(serial, "com.sec.android.app.vepreload")
    ]
  }

  /** `clear_logs_and_cache`: the SMS store, the call log, the contacts, then five app caches. */
  method ClearLogsAndCache(b: Bridge, serial: string)
    modifies b
    ensures b.trace == old(b.trace) + LogsPlan(serial)
  {
    var _ := b.Run(PmClear(serial, "com.android.providers.telephony"));
    var _ := b.Run(ContentDelete(serial, "content://call_log/calls"));
    var _ := b.Run(ContentDelete(serial, "content://contacts/people"));
    var _ := b.Run(PmClear(serial, "com.sec.android.gallery3d"));
    var _ := b.Run(PmClear(serial, "dji.mimo"));
    var _ := b.Run(PmClear(serial, "com.nhn.android.nmap"));
    var _ := b.Run(PmClear(serial, "com.sec.android.themestore"));
    var _ := b.Run(PmClear(serial, "com.sec.android.app.vepreload"));
  }

  // ---------------------------------------------------------------------
  // deep_clean_gallery_trash
  // ---------------------------------------------------------------------

  /** The trash folders, thumbnail caches and app caches removed, in list order. */
  const TRASH_PATHS: seq<string> := [
    "/sdcard/Android/data/com.sec.android.gallery3d/files/Trash",
    "/sdcard/Android/data/com.sec.android.gallery3d/files/.Trash",
    "/sdcard/Android/data/com.sec.android.gallery3d/cache",
    "/sdcard/Android/data/com.sec.android.app.myfiles/files/Trash",
    "/sdcard/Android/data/com.sec.android.app.myfiles/files/.Trash",
    "/sdcard/Android/data/com.sec.android.app.vepreload/files/Trash",
    "/storage/emulated/0/Android/.Trash",
    "/sdcard/.Trash",
    "/sdcard/.Trash-0",
    "/sdcard/Recycle",
    "/sdcard/DCIM/.thumbnails",
    "/sdcard/Pictures/.thumbnails",
    "/sdcard/Music/.thumbnails",
    "/sdcard/Movies/.thumbnails",
    "/sdcard/Download/.thumbnails",
    "/sdcard/Android/data/com.sec.android.gallery3d/files/.thumbnails",
    "/sdcard/Android/data/com.android.chrome/cache",
    "/sdcard/Android/data/dji.mimo/cache",
    "/sdcard/Android/data/com.nhn.android.nmap/cache"
  ]

  /** The media-store delete of the rows marked as trashed under `uri`. */
  function TrashedDelete(serial: string, uri: string): Argv {
    Shell(serial, ["content", "delete", "--uri", uri, "--where", "is_trashed=1"])
  }

  /** The broadcast that makes the media store rescan the card. */
  function MediaMounted(serial: string): Argv {
    Shell(serial, ["am", "broadcast", "-a", "android.intent.action.MEDIA_MOUNTED", "-d", "file:///sdcard"])
  }

  /** The force-stops of the gallery and the file manager. */
  function GalleryStops(serial: string): seq<Argv> {
    [ForceStop(serial, "com.sec.android.gallery3d"), ForceStop(serial, "com.sec.android.app.myfiles")]
  }

  /** The deletes of trashed media-store rows: files, images, videos. */
  function TrashedRows(serial: string): seq<Argv> {
    [
      TrashedDelete(serial, "content://media/external/file"),
      TrashedDelete(serial, "content://media/external/images/media"),
      TrashedDelete(serial, "content://media/external/video/media")
    ]
  }

  /** The data clears of the gallery, the file manager and the media and trash providers. */
  function ProviderClears(serial: string): seq<Argv> {
    [
      PmClear(serial, "com.sec.android.gallery3d"),
      PmClear(serial, "com.sec.android.app.myfiles"),
      PmClear(serial, "com.samsung.android.providers.media"),
      PmClear(serial, "com.samsung.android.providers.trash"),
      PmClear(serial, "com.android.providers.media"),
      PmClear(serial, "com.google.android.providers.media.module")
    ]
  }

  /** One removal per trash path, in list order. */
  function TrashRemovals(serial: string): seq<Argv> {
    MapWith(RemoveTree, serial, TRASH_PATHS)
  }

  /** The commands of `deep_clean_gallery_trash`, step by step. */
  function GalleryTrashPlan(serial: string): seq<Argv> {
    GalleryStops(serial) + TrashRemovals(serial) + TrashedRows(serial)
      + ProviderClears(serial) + [MediaMounted(serial)]
  }

  /** Step A of `deep_clean_gallery_trash`. */
  method StopGalleryApps(b: Bridge, serial: string)
    modifies b
    ensures b.trace == old(b.trace) + GalleryStops(serial)
  {
    var _ := b.Run(ForceStop(serial, "com.sec.android.gallery3d"));
    var _ := b.Run(ForceStop(serial, "com.sec.android.app.myfiles"));
  }

  /** Step B of `deep_clean_gallery_trash`. */
  method RemoveTrashPaths(b: Bridge, serial: string)
    modifies b
    ensures b.trace == old(b.trace) + TrashRemovals(serial)
  {
    RunEach(b, RemoveTree, serial, TRASH_PATHS);
  }

  /** Step C of `deep_clean_gallery_trash`. */
  method DeleteTrashedRows(b: Bridge, serial: string)
    modifies b
    ensures b.trace == old(b.trace) + TrashedRows(serial)
  {
    var _ := b.Run(TrashedDelete(serial, "content://media/external/file"));
    var _ := b.Run(TrashedDelete(serial, "content://media/external/images/media"));
    var _ := b.Run(TrashedDelete(serial, "content://media/external/video/media"));
  }

  /** Step D of `deep_clean_gallery_trash`. */
  method ClearGalleryProviders(b: Bridge, serial: string)
    modifies b
    ensures b.trace == old(b.trace) + ProviderClears(serial)
  {
    var _ := b.Run(PmClear(serial, "com.sec.android.gallery3d"));
    var _ := b.Run(PmClear(serial, "com.sec.android.app.myfiles"));
    var _ := b.Run(PmClear(serial, "com.samsung.android.providers.media"));
    var _ := b.Run(PmClear(serial, "com.samsung.android.providers.trash"));
    var _ := b.Run(PmClear(serial, "com.android.providers.media"));
    var _ := b.Run(PmClear(serial, "com.google.android.providers.media.module"));
  }

  /**
    * `deep_clean_gallery_trash`: stop the gallery and the file manager (A),
    * remove every trash path (B), delete the trashed media rows (C), clear
    * the gallery, file and media data (D), and ask for a media rescan (E).
    */
  method DeepCleanGalleryTrash(b: Bridge, serial: string)
    modifies b
    ensures b.trace == old(b.trace) + GalleryTrashPlan(serial)
  {
    ghost var t := b.trace;
    StopGalleryApps(b, serial);
    RemoveTrashPaths(b, serial);
    DeleteTrashedRows(b, serial);
    ClearGalleryProviders(b, serial);
    var _ := b.Run(MediaMounted(serial));
    AppendFive(t, GalleryStops(serial), TrashRemovals(serial), TrashedRows(serial),
      ProviderClears(serial), [MediaMounted(serial)]);
  }

  // ---------------------------------------------------------------------
  // clear_media_store and the final thumbnail removal
  // ---------------------------------------------------------------------

  /** The media-store tables emptied, in list order. */
  const MEDIA_URIS: seq<string> := [
    "content://media/external/images/media",
    "content://media/external/video/media",
    "content://media/external/audio/media",
    "content://media/external/file"
  ]

  /** The commands of `clear_media_store`. */
  function MediaStorePlan(serial: string): seq<Argv> {
    MapWith(ContentDelete, serial, MEDIA_URIS)
  }

  /** `clear_media_store`: one delete per media-store table, in list order. */
  method ClearMediaStore(b: Bridge, serial: string)
    modifies b
    ensures b.trace == old(b.trace) + MediaStorePlan(serial)
  {
    RunEach(b, ContentDelete, serial, MEDIA_URIS);
  }

  /** The folders whose thumbnail cache `process_device` removes last. */
  const THUMBNAIL_DIRS: seq<string> := ["DCIM", "Pictures", "Music", "Movies", "Download"]

  /** The removal of the thumbnail cache of one folder of the card. */
  function ThumbnailRemoval(serial: string, dir: string): Argv {
    RemoveTree(serial, "/sdcard/" + dir + "/.thumbnails")
  }

  /** The commands of the final thumbnail loop of `process_device`. */
  function ThumbnailPlan(serial: string): seq<Argv> {
    MapWith(ThumbnailRemoval, serial, THUMBNAIL_DIRS)
  }

  /** The final loop of `process_device`: remove the thumbnail cache of each folder, in list order. */
  method RemoveThumbnailCaches(b: Bridge, serial: string)
    modifies b
    ensures b.trace == old(b.trace) + ThumbnailPlan(serial)
  {
    RunEach(b, ThumbnailRemoval, serial, THUMBNAIL_DIRS);
  }

  // ---------------------------------------------------------------------
  // push_default_wallpaper, trigger_tasker_task
  // ---------------------------------------------------------------------

  /** The folder on the device the wallpaper is pushed to. */
  const WALLPAPER_DIR: string := "/sdcard/DCIM/ForHoliday"

  /** The device path of a pushed wallpaper. */
  function WallpaperRemote(file: string): string {
    WALLPAPER_DIR + "/" + file
  }

  /** The commands of `push_default_wallpaper`. */
  function WallpaperPlan(w: World, serial: string, file: string): seq<Argv> {
    var image := w.resourcePath(file);
    if !w.fileExists(image) then []
    else
      [
        Shell(serial, ["mkdir", "-p", WALLPAPER_DIR]),
        Push(serial, image, WallpaperRemote(file)),
        Shell(serial, ["am", "broadcast", "-a", "android.intent.action.MEDIA_SCANNER_SCAN_FILE", "-d", "file://" + WallpaperRemote(file)])
      ]
      + DexPush(w, serial, WALLPAPER_DEX)
      + (if DexPresent(w, WALLPAPER_DEX) then [AppProcess(serial, WALLPAPER_DEX, "WallpaperSetter", [WallpaperRemote(file)])] else [])
  }

  /**
    * `push_default_wallpaper`: nothing when the image is not bundled;
    * otherwise create the folder, push the image, have it scanned, and set it
    * as home and lock screen through the helper when that is bundled.
    * Whether the helper prints `SUCCESS` only selects a log message.
    */
  method PushDefaultWallpaper(b: Bridge, serial: string, file: string)
    modifies b
    ensures b.trace == old(b.trace) + WallpaperPlan(b.world, serial, file)
  {
    var image := b.world.resourcePath(file);
    if !b.world.fileExists(image) {
      return;
    }
    var remote := WallpaperRemote(file);
    var _ := b.Run(Shell(serial, ["mkdir", "-p", WALLPAPER_DIR]));
    var _ := b.Run(Push(serial, image, remote));
    var _ := b.Run(Shell(serial, ["am", "broadcast", "-a", "android.intent.action.MEDIA_SCANNER_SCAN_FILE", "-d", "file://" + remote]));
    var pushed := PushDexIfNeeded(b, serial, WALLPAPER_DEX);
    if !pushed {
      return;
    }
    var _ := b.Run(AppProcess(serial, WALLPAPER_DEX, "WallpaperSetter", [remote]));
  }

  /** The broadcast that starts the Tasker task. */
  function TaskerTrigger(serial: string): Argv {
    Shell(serial, ["am", "broadcast", "-a", "com.example.CHANGE_SETTINGS"])
  }

  /** `trigger_tasker_task`. */
  method TriggerTaskerTask(b: Bridge, serial: string)
    modifies b
    ensures b.trace == old(b.trace) + [TaskerTrigger(serial)]
  {
    var _ := b.Run(TaskerTrigger(serial));
  }

  // ---------------------------------------------------------------------
  // ensure_essential_apps_installed
  // ---------------------------------------------------------------------

  /** An app that must be on the device, and the bundled APK that installs it. */
  datatype EssentialApp = EssentialApp(pkg: string, apk: string)

  /** The essential apps, in the order they are checked. */
  const ESSENTIAL_APPS: seq<EssentialApp> := [
    EssentialApp("com.nhn.android.nmap", "nmap.apk"),
    EssentialApp("dji.mimo", "dji_mimo.apk"),
    EssentialApp("com.alphainventor.filemanager", "filemanager.apk"),
    EssentialApp("net.dinglisch.android.taskerm", "Tasker.apk")
  ]

  /** The listing of all packages (through `check_output`). */
  function ListAllPackages(serial: string): Argv {
    Shell(serial, ["pm", "list", "packages"])
  }

  /** The install (replacing an existing one) of an APK from the host. */
  function Install(serial: string, apk: string): Argv {
    ["adb", "-s", serial, "install", "-r", apk]
  }

  /** What the install loop works from: the host, the device, and the package listing. */
  datatype InstallContext = InstallContext(w: World, serial: string, listing: string)

  /** The app counts as installed: `package:<pkg>` is a substring of the listing. */
  predicate Listed(listing: string, app: EssentialApp) {
    Contains(listing, "package:" + app.pkg)
  }

  /** The app is missing and its APK is bundled. */
  predicate NeedsInstall(ctx: InstallContext, app: EssentialApp) {
    !Listed(ctx.listing, app) && ctx.w.fileExists(ctx.w.resourcePath(app.apk))
  }

  /** The commands for one essential app. */
  function InstallStep(ctx: InstallContext, app: EssentialApp): seq<Argv> {
    if Listed(ctx.listing, app) then []
    else if ctx.w.fileExists(ctx.w.resourcePath(app.apk)) then [Install(ctx.serial, ctx.w.resourcePath(app.apk))]
    else []
  }

  /** The listing fails: `check_output` raises and the exception leaves `process_device`. */
  predicate PackagesFail(w: World, t: seq<Argv>, serial: string) {
    Checked(w.respond(t, ListAllPackages(serial))).None?
  }

  /** The commands of `ensure_essential_apps_installed`, the trace before it being `t`. */
  function EssentialAppsPlan(w: World, t: seq<Argv>, serial: string): seq<Argv> {
    match Checked(w.respond(t, ListAllPackages(serial)))
    case None => [ListAllPackages(serial)]
    case Some(listing) => [ListAllPackages(serial)] + FlatMapWith(InstallStep, InstallContext(w, serial, listing), ESSENTIAL_APPS)
  }

  /** The body of the install loop: one essential app, checked against the listing. */
  method InstallIfMissing(b: Bridge, ctx: InstallContext, app: EssentialApp)
    requires ctx.w == b.world
    modifies b
    ensures b.trace == old(b.trace) + InstallStep(ctx, app)
  {
    if !Contains(ctx.listing, "package:" + app.pkg) {
      var apk := b.world.resourcePath(app.apk);
      if b.world.fileExists(apk) {
        var _ := b.Run(Install(ctx.serial, apk));
      }
    }
  }

  /** The install loop over the essential apps, in order. */
  method InstallEach(b: Bridge, ctx: InstallContext, apps: seq<EssentialApp>)
    requires ctx.w == b.world
    modifies b
    ensures b.trace == old(b.trace) + FlatMapWith(InstallStep, ctx, apps)
  {
    for i := 0 to |apps|
      invariant b.trace == old(b.trace) + FlatMapWith(InstallStep, ctx, apps[..i])
    {
      InstallIfMissing(b, ctx, apps[i]);
      FlatMapWithSnoc(InstallStep, ctx, apps[..i], apps[i]);
      assert apps[..i + 1] == apps[..i] + [apps[i]];
    }
    assert apps[..|apps|] == apps;
  }

  /**
    * `ensure_essential_apps_installed`: list the packages, then install each
    * essential app that is missing from the listing and whose APK is
    * bundled. `listed` is false when the listing raised.
    */
  method EnsureEssentialAppsInstalled(b: Bridge, serial: string) returns (listed: bool)
    modifies b
    ensures listed <==> !PackagesFail(b.world, old(b.trace), serial)
    ensures b.trace == old(b.trace) + EssentialAppsPlan(b.world, old(b.trace), serial)
  {
    var output := b.CheckOutput(ListAllPackages(serial));
    if output.None? {
      return false;
    }
    InstallEach(b, InstallContext(b.world, serial, output.value), ESSENTIAL_APPS);
    return true;
  }

  // ---------------------------------------------------------------------
  // Properties of the stages
  // ---------------------------------------------------------------------

  /** A listing line `package:<p>`, for a trimmed name that does not repeat the prefix, names `p`. */
  lemma ListingLineRead(p: string)
    requires p != "" && Trimmed(p) && !Contains(p, "package:")
    ensures PackageOfLine("package:" + p) == Some(p)
  {
    var line := "package:" + p;
    assert line[|line| - 1] == p[|p| - 1];
    StripTrimmed(line);
    assert line[0..][..8] == "package:";
    IndexOfFirst(line, "package:", 0);
    assert line[8..] == p;
    SplitNone(p, "package:");
    calc {
      Replace(line, "package:", "");
      Join(Split(line, "package:"), "");
      { assert Split(line, "package:") == [line[..0]] + Split(p, "package:") == ["", p]; }
      Join(["", p], "");
      { assert ["", p] == [""] + [p]; JoinCons("", [p], ""); }
      "" + "" + Join([p], "");
      { assert "" + "" + p == p; }
      p;
    }
    StripTrimmed(p);
  }

  /** The listed packages that are not excluded, in listing order. */
  function Kept(apps: seq<string>): (kept: seq<string>)
    ensures forall a :: a in kept <==> a in apps && a !in EXCLUDE_APPS
  {
    if apps == [] then []
    else (if apps[0] in EXCLUDE_APPS then [] else [apps[0]]) + Kept(apps[1..])
  }

  /** `delete_user_installed_apps` uninstalls exactly the packages that are not excluded, in listing order. */
  lemma {:induction false} UninstallPlanIsKept(serial: string, apps: seq<string>)
    ensures UninstallPlan(serial, apps) == MapWith(Uninstall, serial, Kept(apps))
    decreases |apps|
  {
    if apps != [] {
      UninstallPlanIsKept(serial, apps[1..]);
      var head := if apps[0] in EXCLUDE_APPS then [] else [apps[0]];
      MapWithAppend(Uninstall, serial, head, Kept(apps[1..]));
    }
  }

  /** No excluded package is ever the target of an uninstall, whatever the listing holds. */
  lemma ExcludedNeverUninstalled(serial: string, apps: seq<string>, pkg: string)
    requires pkg in EXCLUDE_APPS
    ensures Uninstall(serial, pkg) !in UninstallPlan(serial, apps)
  {
    UninstallPlanIsKept(serial, apps);
    var kept := Kept(apps);
    MapWithIndex(Uninstall, serial, kept);
    forall k | 0 <= k < |kept|
      ensures MapWith(Uninstall, serial, kept)[k] != Uninstall(serial, pkg)
    {
      assert kept[k] in kept;
      assert Uninstall(serial, kept[k])[8] == kept[k];
    }
  }

  /** An empty listing (or one of blank lines only) uninstalls nothing. */
  lemma EmptyListingUninstallsNothing(w: World, t: seq<Argv>, serial: string, listing: string)
    requires Checked(w.respond(t, ListUserApps(serial))) == Some(listing)
    requires Blank(listing)
    ensures DeleteAppsPlan(w, t, serial) == [ListUserApps(serial)]
  {
    SplitLinesBlank(listing);
    BlankLinesSkipped(SplitLines(listing));
    assert InstalledApps(listing) == [];
  }

  /** Blank lines yield no package. */
  lemma {:induction false} BlankLinesSkipped(lines: seq<string>)
    requires forall k :: 0 <= k < |lines| ==> Blank(lines[k])
    ensures FilterMap(PackageOfLine, lines) == []
    decreases |lines|
  {
    if lines != [] {
      StripBlank(lines[0]);
      BlankLinesSkipped(lines[1..]);
    }
  }

  /**
    * A falsy locale issues nothing; otherwise the only locale change is the
    * one for the chosen locale, and it is issued exactly when the helper is
    * bundled.
    */
  lemma LanguagePlanChange(w: World, serial: string, locale: Option<string>)
    ensures Falsy(locale) ==> LanguagePlan(w, serial, locale) == []
    ensures forall c :: c in LanguagePlan(w, serial, locale) && IsLocaleChange(c) ==>
      !Falsy(locale) && c == LocaleChange(serial, locale.value)
    ensures !Falsy(locale) ==>
      (LocaleChange(serial, locale.value) in LanguagePlan(w, serial, locale) <==> DexPresent(w, LOCALE_DEX))
  {
    if !Falsy(locale) {
      var change := LocaleChange(serial, locale.value);
      assert IsLocaleChange(change);
      if DexPresent(w, LOCALE_DEX) {
        var push := Push(serial, w.resourcePath(LOCALE_DEX), REMOTE_TMP + LOCALE_DEX);
        assert LanguagePlan(w, serial, locale) == [push, change];
      }
    }
  }

  /**
    * The removal helper runs exactly when the first listing has an account
    * and the helper is bundled; in particular an empty listing issues only
    * the query.
    */
  lemma AccountRemovalIff(w: World, t: seq<Argv>, serial: string)
    ensures AccountRemoval(serial) in AccountsPlan(w, t, serial) <==> RemovalRuns(w, t, serial)
    ensures ParseAccountDump(w.respond(t, DumpsysAccount(serial)).stdout) == [] ==>
      AccountsPlan(w, t, serial) == [DumpsysAccount(serial)]
  {
    assert AccountRemoval(serial)[4] != DumpsysAccount(serial)[4];
  }

  /** An install is issued exactly for each essential app whose package is not listed and whose APK is bundled. */
  lemma InstallPlanMembers(ctx: InstallContext, apps: seq<EssentialApp>, c: Argv)
    ensures c in FlatMapWith(InstallStep, ctx, apps) <==>
      exists i :: 0 <= i < |apps| && NeedsInstall(ctx, apps[i]) && c == Install(ctx.serial, ctx.w.resourcePath(apps[i].apk))
  {
    FlatMapWithMembers(InstallStep, ctx, apps, c);
  }

  /**
    * The installed test is a substring test on the listing: a listed package
    * whose name merely extends the essential one (`package:<pkg>` followed by
    * more text) hides the essential app, and it is not installed.
    */
  lemma ExtendedNameCountsInstalled(ctx: InstallContext, app: EssentialApp, before: string, suffix: string)
    requires ctx.listing == before + "package:" + app.pkg + suffix
    ensures InstallStep(ctx, app) == []
  {
    assert ctx.listing == before + ("package:" + app.pkg) + suffix;
    ContainsWithin(before, "package:" + app.pkg, suffix);
  }

  /**
    * `deep_clean_gallery_trash` issues the two force-stops, then one removal
    * per trash path in list order, then the three deletes of trashed rows,
    * the six data clears, and the rescan broadcast last.
    */
  lemma GalleryTrashOrder(serial: string)
    ensures |GalleryTrashPlan(serial)| == 2 + |TRASH_PATHS| + 10
    ensures GalleryTrashPlan(serial)[..2] == GalleryStops(serial)
    ensures forall k :: 0 <= k < |TRASH_PATHS| ==> GalleryTrashPlan(serial)[2 + k] == RemoveTree(serial, TRASH_PATHS[k])
    ensures GalleryTrashPlan(serial)[2 + |TRASH_PATHS|..] == TrashedRows(serial) + ProviderClears(serial) + [MediaMounted(serial)]
  {
    GalleryBlocks(serial, TRASH_PATHS);
  }

  /** The same, for any list of trash paths. */
  lemma GalleryBlocks(serial: string, paths: seq<string>)
    ensures var plan := GalleryStops(serial) + MapWith(RemoveTree, serial, paths) + TrashedRows(serial)
        + ProviderClears(serial) + [MediaMounted(serial)];
      |plan| == 2 + |paths| + 10 &&
      plan[..2] == GalleryStops(serial) &&
      (forall k :: 0 <= k < |paths| ==> plan[2 + k] == RemoveTree(serial, paths[k])) &&
      plan[2 + |paths|..] == TrashedRows(serial) + ProviderClears(serial) + [MediaMounted(serial)]
  {
    MapWithIndex(RemoveTree, serial, paths);
    FiveBlocks(GalleryStops(serial), MapWith(RemoveTree, serial, paths), TrashedRows(serial), ProviderClears(serial), [MediaMounted(serial)]);
  }

  /** `clear_media_store` issues exactly one delete per media-store table, in list order. */
  lemma MediaStoreOrder(serial: string)
    ensures |MediaStorePlan(serial)| == |MEDIA_URIS|
    ensures forall k :: 0 <= k < |MEDIA_URIS| ==> MediaStorePlan(serial)[k] == ContentDelete(serial, MEDIA_URIS[k])
  {
    MapWithIndex(ContentDelete, serial, MEDIA_URIS);
  }

  /** `clear_google_apps_history` issues exactly one `pm clear` per Google app, in table order. */
  lemma GooglePlanOrder(serial: string)
    ensures |GooglePlan(serial)| == |GOOGLE_APPS|
    ensures forall k :: 0 <= k < |GOOGLE_APPS| ==> GooglePlan(serial)[k] == PmClear(serial, GOOGLE_APPS[k])
  {
    MapWithIndex(PmClear, serial, GOOGLE_APPS);
  }

  /**
    * A missing wallpaper image issues nothing. Otherwise the image is pushed
    * second, and the setter runs on the pushed copy exactly when its helper
    * is bundled.
    */
  lemma WallpaperPlanShape(w: World, serial: string, file: string)
    ensures !w.fileExists(w.resourcePath(file)) ==> WallpaperPlan(w, serial, file) == []
    ensures w.fileExists(w.resourcePath(file)) ==>
      WallpaperPlan(w, serial, file)[1] == Push(serial, w.resourcePath(file), WallpaperRemote(file))
    ensures AppProcess(serial, WALLPAPER_DEX, "WallpaperSetter", [WallpaperRemote(file)]) in WallpaperPlan(w, serial, file)
      <==> w.fileExists(w.resourcePath(file)) && DexPresent(w, WALLPAPER_DEX)
  {
    var setter := AppProcess(serial, WALLPAPER_DEX, "WallpaperSetter", [WallpaperRemote(file)]);
    var plan := WallpaperPlan(w, serial, file);
    if w.fileExists(w.resourcePath(file)) {
      assert plan[0][4] == "mkdir" && plan[1][3] == "push" && plan[2][4] == "am";
      assert setter[3] == "shell" && setter[4] == "CLASSPATH=/data/local/tmp/" + WALLPAPER_DEX;
      if DexPresent(w, WALLPAPER_DEX) {
        assert plan[4] == setter;
        assert |plan| == 5;
        assert plan[3][3] != setter[3];
      } else {
        assert |plan| == 3;
      }
    }
  }
}
