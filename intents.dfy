/**
 Intent handling of `MainActivityX`: which incoming intents are handled at
 creation, how `handleIntent` and `handleSpecialIntent` turn an intent into
 one user-visible action, and the activity state those actions change.

 `BuildConfig.APPLICATION_ID` is not part of this model: the application
 id is a parameter, and the action and extra names are built from it the
 way the activity's companion object builds them.
 */
module Intents {
  import opened Text
  import opened DeepLink
  import opened Navigation

  /** The platform's `Intent.ACTION_VIEW`. */
  const ActionView: string := "android.intent.action.VIEW"

  /** The platform's `Intent.FLAG_ACTIVITY_LAUNCHED_FROM_HISTORY` bit. */
  const FlagActivityLaunchedFromHistory: bv32 := 0x0010_0000

  /** `ACTION_UPDATES`: open the list of available updates. */
  function ActionUpdates(appId: string): string {
    appId + ".intent.action.UPDATES"
  }

  /** `ACTION_INSTALL`: install a downloaded package. */
  function ActionInstall(appId: string): string {
    appId + ".intent.action.INSTALL"
  }

  /** `EXTRA_CACHE_FILE_NAME`: the extra naming the downloaded file to install. */
  function ExtraCacheFileName(appId: string): string {
    appId + ".intent.extra.CACHE_FILE_NAME"
  }

  /** The three actions the activity reacts to are different strings, whatever the application id. */
  lemma {:induction false} ActionsDistinct(appId: string)
    ensures ActionView != ActionUpdates(appId)
    ensures ActionView != ActionInstall(appId)
    ensures ActionUpdates(appId) != ActionInstall(appId)
  {
    var updates, install := ActionUpdates(appId), ActionInstall(appId);
    assert updates[|updates| - 1] == 'S';
    assert install[|install| - 1] == 'L';
    assert ActionView[|ActionView| - 1] == 'W';
  }

  /** An incoming intent: its action, its data URI, its flag bits and its string extras. */
  datatype Intent = Intent(
    action: Option<string>,
    data: Option<Uri>,
    flags: bv32,
    extras: map<string, string>
  )

  /** `intent.getStringExtra(key)`: `null` when the extra is absent. */
  function StringExtra(intent: Intent, key: string): (r: Option<string>)
    ensures r.Some? <==> key in intent.extras
    ensures r.Some? ==> r.value == intent.extras[key]
  {
    if key in intent.extras then Some(intent.extras[key]) else None
  }

  /** The intent exists and carries the action `a`. */
  predicate HasAction(intent: Option<Intent>, a: string) {
    intent.Some? && intent.value.action == Some(a)
  }

  /** The package named by the intent's data URI (the `Intent.packageName` property). */
  function IntentPackageName(intent: Intent): (r: Option<string>)
    ensures r.Some? ==> r.value != [] && intent.data.Some?
    ensures intent.data.None? ==> r.None?
  {
    PackageName(intent.data)
  }

  /** The two intents handled by `handleSpecialIntent`. */
  datatype SpecialIntent = UpdatesIntent | InstallIntent(packageName: Option<string>, cacheFileName: Option<string>)

  /** The single visible effect of handling an intent. */
  datatype Action =
    | NavigateProduct(packageName: string)                    // show the product sheet of a package
    | SelectInstalledTab                                      // select the installed tab in the bottom navigation
    | InstallPackage(packageName: string, cacheFileName: string) // launch the installer on a cached file
    | NoOp

  /**
   `handleSpecialIntent`: the updates intent selects the installed tab; the
   install intent installs only with a non-empty package name and a cache
   file name (an empty file name included).
   */
  function SpecialIntentAction(s: SpecialIntent): (r: Action)
    ensures r.SelectInstalledTab? <==> s.UpdatesIntent?
    ensures r.InstallPackage? <==>
      s.InstallIntent? && s.packageName.Some? && s.packageName.value != [] && s.cacheFileName.Some?
    ensures r.InstallPackage? ==>
      r.packageName == s.packageName.value && r.cacheFileName == s.cacheFileName.value
    ensures !r.NavigateProduct?
  {
    match s
    case UpdatesIntent => SelectInstalledTab
    case InstallIntent(packageName, cacheFileName) =>
      if packageName.Some? && packageName.value != [] && cacheFileName.Some? then
        InstallPackage(packageName.value, cacheFileName.value)
      else
        NoOp
  }

  /**
   `handleIntent`: a view intent opens the product its URI names, the
   updates intent selects the installed tab, the install intent installs
   the package its URI names from the cache file its extra names; any other
   action, a missing action or a missing intent does nothing.
   */
  function IntentAction(appId: string, intent: Option<Intent>): (r: Action)
    ensures r.NavigateProduct? <==> HasAction(intent, ActionView) && IntentPackageName(intent.value).Some?
    ensures r.NavigateProduct? ==>
      r.packageName == IntentPackageName(intent.value).value && r.packageName != []
    ensures r.SelectInstalledTab? <==> HasAction(intent, ActionUpdates(appId))
    ensures r.InstallPackage? <==>
      HasAction(intent, ActionInstall(appId)) && IntentPackageName(intent.value).Some?
      && ExtraCacheFileName(appId) in intent.value.extras
    ensures r.InstallPackage? ==>
      r.packageName == IntentPackageName(intent.value).value && r.packageName != []
      && r.cacheFileName == intent.value.extras[ExtraCacheFileName(appId)]
  {
    ActionsDistinct(appId);
    match intent
    case None => NoOp
    case Some(i) =>
      if i.action == Some(ActionView) then
        var packageName := IntentPackageName(i);
        if packageName.Some? && packageName.value != [] then NavigateProduct(packageName.value) else NoOp
      else if i.action == Some(ActionUpdates(appId)) then
        SpecialIntentAction(UpdatesIntent)
      else if i.action == Some(ActionInstall(appId)) then
        SpecialIntentAction(InstallIntent(IntentPackageName(i), StringExtra(i, ExtraCacheFileName(appId))))
      else
        NoOp
  }

  /** An intent whose action is none of the three does nothing. */
  lemma OtherIntentsIgnored(appId: string, intent: Option<Intent>)
    requires !HasAction(intent, ActionView)
    requires !HasAction(intent, ActionUpdates(appId))
    requires !HasAction(intent, ActionInstall(appId))
    ensures IntentAction(appId, intent) == NoOp
  {
  }

  /**
   The gate in `onCreate`: the launch intent is handled only on a fresh
   start (no saved instance state) and only when the activity was not
   relaunched from the recent-apps history.
   */
  predicate HandlesLaunchIntent(hasSavedState: bool, flags: bv32)
    ensures HandlesLaunchIntent(hasSavedState, flags) <==> !hasSavedState && (flags >> 20) & 1 == 0
  {
    !hasSavedState && flags & FlagActivityLaunchedFromHistory == 0
  }

  /** On a fresh start, toggling the history bit always flips the gate's decision. */
  lemma LaunchGateFollowsHistoryBit(flags: bv32)
    ensures HandlesLaunchIntent(false, flags ^ FlagActivityLaunchedFromHistory) != HandlesLaunchIntent(false, flags)
  {
  }

  /** Toggling any flag other than the history bit never changes the gate's decision. */
  lemma LaunchGateIgnoresOtherFlags(hasSavedState: bool, flags: bv32, mask: bv32)
    requires mask & FlagActivityLaunchedFromHistory == 0
    ensures HandlesLaunchIntent(hasSavedState, flags ^ mask) == HandlesLaunchIntent(hasSavedState, flags)
  {
  }

  /** The action `onCreate` performs for its launch intent: the intent's action when the gate lets it through, nothing otherwise. */
  function LaunchAction(appId: string, hasSavedState: bool, intent: Intent): (r: Action)
    ensures hasSavedState ==> r == NoOp
    ensures LaunchedFromHistory(intent) ==> r == NoOp
    ensures HandlesLaunchIntent(hasSavedState, intent.flags) ==> r == IntentAction(appId, Some(intent))
  {
    if HandlesLaunchIntent(hasSavedState, intent.flags) then IntentAction(appId, Some(intent)) else NoOp
  }

  /** The intent asks to be treated as relaunched from the recent-apps history. */
  predicate LaunchedFromHistory(intent: Intent) {
    intent.flags & FlagActivityLaunchedFromHistory != 0
  }

  /** A request passed to the package installer. */
  datatype InstallRequest = InstallRequest(packageName: string, cacheFileName: string)

  /**
   The activity's state that intent handling changes: the item selected in
   the bottom navigation, the product sheets shown and the install
   requests launched, each list oldest first.
   */
  class MainActivity {
    const appId: string
    const currentTab: Destination
    var selectedItem: Destination
    var productSheets: seq<string>
    var installRequests: seq<InstallRequest>

    /**
     `onCreate`: select the default tab, then handle the launch intent when
     the gate lets it through.
     */
    constructor OnCreate(appId: string, defaultTab: Destination, hasSavedState: bool, intent: Intent)
      ensures this.appId == appId && currentTab == defaultTab
      ensures var a := LaunchAction(appId, hasSavedState, intent);
        && selectedItem == (if a.SelectInstalledTab? then InstalledTab else defaultTab)
        && productSheets == (if a.NavigateProduct? then [a.packageName] else [])
        && installRequests == (if a.InstallPackage? then [InstallRequest(a.packageName, a.cacheFileName)] else [])
    {
      this.appId := appId;
      currentTab := defaultTab;
      selectedItem := defaultTab;
      productSheets := [];
      installRequests := [];
      new;
      if HandlesLaunchIntent(hasSavedState, intent.flags) {
        HandleIntent(Some(intent));
      }
    }

    /** `onNewIntent`: every new intent is handled, with no gate. */
    method OnNewIntent(intent: Option<Intent>)
      modifies this
      ensures var a := IntentAction(appId, intent);
        && selectedItem == (if a.SelectInstalledTab? then InstalledTab else old(selectedItem))
        && productSheets == old(productSheets) + (if a.NavigateProduct? then [a.packageName] else [])
        && installRequests == old(installRequests)
             + (if a.InstallPackage? then [InstallRequest(a.packageName, a.cacheFileName)] else [])
    {
      HandleIntent(intent);
    }

    /** `handleIntent`, with `navigateProduct` and `handleSpecialIntent` applied to the activity's state. */
    method HandleIntent(intent: Option<Intent>)
      modifies this
      ensures var a := IntentAction(appId, intent);
        && selectedItem == (if a.SelectInstalledTab? then InstalledTab else old(selectedItem))
        && productSheets == old(productSheets) + (if a.NavigateProduct? then [a.packageName] else [])
        && installRequests == old(installRequests)
             + (if a.InstallPackage? then [InstallRequest(a.packageName, a.cacheFileName)] else [])
    {
      match IntentAction(appId, intent)
      case NavigateProduct(packageName) =>
        productSheets := productSheets + [packageName];
      case SelectInstalledTab =>
        selectedItem := InstalledTab;
      case InstallPackage(packageName, cacheFileName) =>
        installRequests := installRequests + [InstallRequest(packageName, cacheFileName)];
      case NoOp =>
    }
  }
}
