# Deep-link routing of Neo Store's main activity

This project models the decision logic of `MainActivityX`, the main activity of the Neo Store
F-Droid client, and proves properties of it. The activity itself is framework glue. The model
covers the parts of it that decide something:

- **Package-name extraction** (`DeepLink`). The activity reads the package name out of a deep
  link. `package:` and `fdroid.app:` links give their scheme-specific part. `market://details`
  links give their `id` query parameter. `http(s)` links to `f-droid.org` or one of its
  subdomains give their last path segment. Every other link gives nothing, and an empty string
  never counts as a name. A URI is a record of the components the platform's URI parser already
  produced.
- **Intent dispatch** (`Intents`). `handleIntent` and `handleSpecialIntent` turn an intent into
  one `Action`: open a product sheet, select the installed tab, launch the installer, or nothing.
  `onCreate` handles the launch intent only on a fresh start that was not relaunched from the
  recent-apps history. The class `MainActivity` holds the state that these actions change: the
  selected bottom-navigation item, the product sheets shown and the install requests launched.
- **Tabs and the update-notification blocker** (`Navigation`). A destination maps to the ordinal
  of the source it shows. When the sync service binds and the active source is the updates
  source, the blocker is the first main navigation fragment whose primary source is the updates
  source. Otherwise there is no blocker.
- `Text` holds `Option` (Kotlin's nullable types), `nullIfEmpty` and `endsWith`.

The application id (`BuildConfig.APPLICATION_ID`) is a parameter. `ActionsDistinct` proves that
the three action strings built from it differ for every id, so the order of the branches in
`handleIntent` does not matter. The `Source` enumeration is not part of this model. A source is
its ordinal, and the ordinal of `Source.UPDATES` is a parameter.

## Model

| member | source | states |
|---|---|---|
| `Text.NullIfEmpty` | src/main/kotlin/com/machiav3lli/fdroid/ui/activities/MainActivityX.kt:137 | a missing or empty string becomes none; any other string is kept unchanged |
| `Text.EndsWith` | src/main/kotlin/com/machiav3lli/fdroid/ui/activities/MainActivityX.kt:144 | `endsWith` holds exactly when the suffix is no longer than the string and matches its last characters one by one |
| `Text.EndsWithIffSplit` | src/main/kotlin/com/machiav3lli/fdroid/ui/activities/MainActivityX.kt:144 | `endsWith(suffix)` holds exactly when the string is some prefix followed by `suffix` |
| `DeepLink.PackageName` | src/main/kotlin/com/machiav3lli/fdroid/ui/activities/MainActivityX.kt:132-154 | a returned package name is never empty, and one is returned only for a URI whose scheme is package, fdroid.app, market, http or https |
| `DeepLink.OrEmpty` | src/main/kotlin/com/machiav3lli/fdroid/ui/activities/MainActivityX.kt:143 | a missing host reads as the empty string; a present host is kept unchanged |
| `DeepLink.IsFDroidHost` | src/main/kotlin/com/machiav3lli/fdroid/ui/activities/MainActivityX.kt:144 | every accepted host ends with `f-droid.org`, and an accepted host other than `f-droid.org` has a dot right before that name |
| `DeepLink.NoUriNoPackage` | src/main/kotlin/com/machiav3lli/fdroid/ui/activities/MainActivityX.kt:150-152 | an intent without a data URI names no package |
| `DeepLink.PackageSchemes` | src/main/kotlin/com/machiav3lli/fdroid/ui/activities/MainActivityX.kt:136-138 | for package: and fdroid.app: links, a name is returned exactly when the scheme-specific part is present and non-empty, and the name is that part |
| `DeepLink.MarketScheme` | src/main/kotlin/com/machiav3lli/fdroid/ui/activities/MainActivityX.kt:139-141 | for market: links, a name is returned exactly when the host is `details` and the `id` parameter is non-empty, and the name is that parameter; any other host gives none |
| `DeepLink.WebSchemes` | src/main/kotlin/com/machiav3lli/fdroid/ui/activities/MainActivityX.kt:142-149 | for http: and https: links, a name is returned exactly when the host is F-Droid's and the last path segment is non-empty, and the name is that segment |
| `DeepLink.WebLinkWithoutHost` | src/main/kotlin/com/machiav3lli/fdroid/ui/activities/MainActivityX.kt:143-144 | a web link without a host reads as the empty host and names no package |
| `DeepLink.FDroidHostIff` | src/main/kotlin/com/machiav3lli/fdroid/ui/activities/MainActivityX.kt:144 | the accepted hosts are exactly `f-droid.org` and the names `<anything>.f-droid.org` |
| `DeepLink.SubdomainAccepted` | src/main/kotlin/com/machiav3lli/fdroid/ui/activities/MainActivityX.kt:144 | every subdomain of `f-droid.org` is accepted |
| `DeepLink.LookalikeHostRejected` | src/main/kotlin/com/machiav3lli/fdroid/ui/activities/MainActivityX.kt:144 | `f-droid.org` glued to a non-empty prefix that does not end in a dot is rejected |
| `DeepLink.EvilHostLinkIgnored` | src/main/kotlin/com/machiav3lli/fdroid/ui/activities/MainActivityX.kt:142-148 | an https link to `evilf-droid.org` names no package, whatever its path |
| `Navigation.SourceIndex` | src/main/kotlin/com/machiav3lli/fdroid/ui/activities/MainActivityX.kt:57-61 | the ordinal is below 3; it is 1 exactly for the latest tab, 2 exactly for the installed tab, and 0 for every other destination |
| `Navigation.TabRoundTrip` | src/main/kotlin/com/machiav3lli/fdroid/ui/activities/MainActivityX.kt:57-61 | on the three tabs, the destination-to-ordinal mapping is a bijection onto 0, 1 and 2 |
| `Navigation.FirstMainNavFor` | src/main/kotlin/com/machiav3lli/fdroid/ui/activities/MainActivityX.kt:206-207 | the result is the position of a main navigation fragment with the given primary source and no earlier fragment matches; none means no fragment matches |
| `Navigation.MainNavSources` | src/main/kotlin/com/machiav3lli/fdroid/ui/activities/MainActivityX.kt:206 | the list is no longer than the fragment list, every entry is the primary source of a main navigation fragment in the list, and every main navigation fragment's primary source is in it |
| `Navigation.FirstMainNavForIff` | src/main/kotlin/com/machiav3lli/fdroid/ui/activities/MainActivityX.kt:206-207 | a matching fragment is found exactly when the source occurs among the primary sources of the main navigation fragments |
| `Navigation.UpdateNotificationBlocker` | src/main/kotlin/com/machiav3lli/fdroid/ui/activities/MainActivityX.kt:204-210 | a blocker exists only when the active source is the updates source; it is then the first fragment showing that source; there is none exactly when the source differs or no fragment shows it |
| `Navigation.OnSyncBound` | src/main/kotlin/com/machiav3lli/fdroid/ui/activities/MainActivityX.kt:55-64 | with no current destination the blocker is left alone; otherwise a blocker is always sent. When the destination's source is the updates source, a blocker fragment is chosen exactly when some main navigation fragment shows that source, and it is the first such fragment. For any other source the blocker is cleared |
| `Intents.ActionsDistinct` | src/main/kotlin/com/machiav3lli/fdroid/ui/activities/MainActivityX.kt:37-38 | the view, updates and install actions are pairwise different strings for every application id |
| `Intents.StringExtra` | src/main/kotlin/com/machiav3lli/fdroid/ui/activities/MainActivityX.kt:189 | the extra is present exactly when its key is in the intent's extras, with that value |
| `Intents.IntentPackageName` | src/main/kotlin/com/machiav3lli/fdroid/ui/activities/MainActivityX.kt:180 | a package name taken from the intent's data URI is never empty, and an intent without a data URI names none |
| `Intents.SpecialIntentAction` | src/main/kotlin/com/machiav3lli/fdroid/ui/activities/MainActivityX.kt:156-175 | the updates intent selects the installed tab; the install intent installs exactly when the package name is non-empty and the cache file name is present |
| `Intents.IntentAction` | src/main/kotlin/com/machiav3lli/fdroid/ui/activities/MainActivityX.kt:177-193 | a view intent opens a product exactly when its URI names a package; an updates intent always selects the installed tab; an install intent installs exactly when its URI names a package and the cache-file extra is present; named packages are non-empty |
| `Intents.OtherIntentsIgnored` | src/main/kotlin/com/machiav3lli/fdroid/ui/activities/MainActivityX.kt:178-192 | a missing intent, a missing action or any other action does nothing |
| `Intents.LaunchGateFollowsHistoryBit` | src/main/kotlin/com/machiav3lli/fdroid/ui/activities/MainActivityX.kt:90 | on a fresh start, toggling the launched-from-history bit flips the gate's decision |
| `Intents.HandlesLaunchIntent` | src/main/kotlin/com/machiav3lli/fdroid/ui/activities/MainActivityX.kt:90 | the launch intent is handled exactly when there is no saved state and bit 20 of the flags, counted from the least significant, is clear |
| `Intents.LaunchGateIgnoresOtherFlags` | src/main/kotlin/com/machiav3lli/fdroid/ui/activities/MainActivityX.kt:90 | toggling any other flag bits never changes the gate's decision |
| `Intents.LaunchAction` | src/main/kotlin/com/machiav3lli/fdroid/ui/activities/MainActivityX.kt:89-92 | with saved state, or with the history flag set, the launch intent does nothing; otherwise it is handled like any intent |
| `Intents.MainActivity.OnCreate` | src/main/kotlin/com/machiav3lli/fdroid/ui/activities/MainActivityX.kt:72-93 | the default tab is selected, then the launch action is applied; nothing else is shown or installed |
| `Intents.MainActivity.OnNewIntent` | src/main/kotlin/com/machiav3lli/fdroid/ui/activities/MainActivityX.kt:127-130 | every new intent is handled with no gate |
| `Intents.MainActivity.HandleIntent` | src/main/kotlin/com/machiav3lli/fdroid/ui/activities/MainActivityX.kt:177-193 | a product action appends one product sheet, the updates action selects the installed tab, an install action appends one install request; nothing else changes |

## Left out

- Activity lifecycle plumbing is not modelled: theme selection and `recreate`, the battery-optimization dialog, keyboard hiding, menu inflation, `onSupportNavigateUp` and `attachBaseContext`. It is Android UI plumbing with no decision beyond calls into the framework.
- URI parsing is not modelled. A URI is the record of components the platform parser returns. Schemes and hosts are compared exactly as given, with no case folding.
- Binding the sync service is not modelled, and neither is the binder call that installs the blocker. `OnSyncBound` returns the blocker update that would be sent instead.
- The installer call runs in a coroutine and goes through `AppInstaller.getInstance(...)?.defaultInstaller`. An install is modelled as an install request appended when the intent is handled. Whether an installer exists, and when the coroutine runs, are not modelled.
- `Intents.MainActivity.HandleIntent`: a product sheet is recorded by its package name. The fragment transaction (`showNow` with the tag `Product <name>`) is not modelled.
- `Navigation.UpdateNotificationBlocker`: fragments are identified by their position in the fragment manager's list. The returned fragment is given by that position.
- `Navigation.SourceIndex`: `Source.values()[i]` assumes the enumeration has at least three values. The `Source` enumeration is not part of this model, so this is not checked.
- The bottom navigation's selected item and the navigation controller's current destination are separate. Selecting an item also navigates through `setupWithNavController`, which is not modelled. `OnSyncBound` takes the current destination as a parameter.
- The `EXTRA_UPDATES` constant, the `db` getter, the view model and `menuSetup` are not modelled. Nothing in the routing logic reads them.
