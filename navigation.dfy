/**
 Bottom-navigation destinations, the tab-to-source mapping the sync
 connection uses when it binds, and the choice of the fragment that blocks
 update notifications while the updates list is on screen.

 The `Source` enumeration is not part of this model: a source is its
 ordinal (its index in `Source.values()`), and the ordinal of
 `Source.UPDATES` is a parameter. Fragments are identified by their
 position in the fragment manager's list.
 */
module Navigation {
  import opened Text

  /** A navigation destination: the three bottom-navigation tabs, or any other destination id. */
  datatype Destination = ExploreTab | LatestTab | InstalledTab | OtherDestination(id: int)

  /** A source, given by its ordinal in the `Source` enumeration. */
  type SourceOrdinal = nat

  /** The number of tabs, hence of sources the mapping can select. */
  const TabCount: nat := 3

  /**
   The ordinal of the source shown by a destination: the latest tab shows
   source 1, the installed tab source 2, and every other destination
   (the explore tab included) source 0.
   */
  function SourceIndex(d: Destination): (i: SourceOrdinal)
    ensures i < TabCount
    ensures i == 1 <==> d.LatestTab?
    ensures i == 2 <==> d.InstalledTab?
  {
    match d
    case LatestTab => 1
    case InstalledTab => 2
    case _ => 0
  }

  /**
   The tab that shows a given source ordinal. The activity has no such
   mapping; it exists only to state, in `TabRoundTrip`, that `SourceIndex`
   is a bijection from the three tabs onto the ordinals 0, 1 and 2.
   */
  function TabFor(i: SourceOrdinal): (d: Destination)
    requires i < TabCount
    ensures !d.OtherDestination?
  {
    if i == 1 then LatestTab else if i == 2 then InstalledTab else ExploreTab
  }

  /** `SourceIndex` and `TabFor` are inverse to each other on the three tabs. */
  lemma TabRoundTrip(d: Destination, i: SourceOrdinal)
    requires i < TabCount
    ensures SourceIndex(TabFor(i)) == i
    ensures !d.OtherDestination? ==> TabFor(SourceIndex(d)) == d
  {
  }

  /** A fragment in the fragment manager: a main navigation fragment with its primary source, or any other fragment. */
  datatype Fragment = MainNavFragment(primarySource: SourceOrdinal) | OtherFragment

  /** `f` is a main navigation fragment whose primary source is `source`. */
  predicate IsMainNavFor(f: Fragment, source: SourceOrdinal) {
    f.MainNavFragment? && f.primarySource == source
  }

  /** The position of the first main navigation fragment whose primary source is `source`, if any. */
  function FirstMainNavFor(fragments: seq<Fragment>, source: SourceOrdinal): (r: Option<nat>)
    ensures r.Some? ==> r.value < |fragments| && IsMainNavFor(fragments[r.value], source)
    ensures r.Some? ==> forall j :: 0 <= j < r.value ==> !IsMainNavFor(fragments[j], source)
    ensures r.None? ==> forall j :: 0 <= j < |fragments| ==> !IsMainNavFor(fragments[j], source)
  {
    if fragments == [] then None
    else if IsMainNavFor(fragments[0], source) then Some(0)
    else
      match FirstMainNavFor(fragments[1..], source)
      case None => None
      case Some(k) => Some(k + 1)
  }

  /** The primary sources of the main navigation fragments, in list order (the `mapNotNull` step). */
  function MainNavSources(fragments: seq<Fragment>): (r: seq<SourceOrdinal>)
    ensures |r| <= |fragments|
    ensures forall i :: 0 <= i < |r| ==> MainNavFragment(r[i]) in fragments
    ensures forall j :: 0 <= j < |fragments| && fragments[j].MainNavFragment? ==> fragments[j].primarySource in r
  {
    if fragments == [] then []
    else if fragments[0].MainNavFragment? then [fragments[0].primarySource] + MainNavSources(fragments[1..])
    else MainNavSources(fragments[1..])
  }

  /** A matching fragment exists exactly when the source occurs among the main navigation fragments' sources. */
  lemma {:induction false} FirstMainNavForIff(fragments: seq<Fragment>, source: SourceOrdinal)
    ensures FirstMainNavFor(fragments, source).Some? <==> source in MainNavSources(fragments)
  {
    if fragments != [] {
      FirstMainNavForIff(fragments[1..], source);
    }
  }

  /**
   `updateUpdateNotificationBlocker`: when the active source is the updates
   source, the blocker is the first main navigation fragment showing it;
   for any other source there is no blocker.
   */
  function UpdateNotificationBlocker(active: SourceOrdinal, updates: SourceOrdinal, fragments: seq<Fragment>): (r: Option<nat>)
    ensures r.Some? ==> active == updates && r.value < |fragments| && IsMainNavFor(fragments[r.value], updates)
    ensures r.Some? ==> forall j :: 0 <= j < r.value ==> !IsMainNavFor(fragments[j], updates)
    ensures r.None? <==> active != updates || updates !in MainNavSources(fragments)
  {
    FirstMainNavForIff(fragments, active);
    if active == updates then FirstMainNavFor(fragments, active) else None
  }

  /** What binding the sync service does to the notification blocker. */
  datatype BlockerUpdate = LeaveBlocker | SetBlocker(blocker: Option<nat>)

  /**
   The sync connection's bind callback: with no current destination the
   blocker is left alone; otherwise the destination's source decides it.
   */
  function OnSyncBound(current: Option<Destination>, updates: SourceOrdinal, fragments: seq<Fragment>): (r: BlockerUpdate)
    ensures r.LeaveBlocker? <==> current.None?
    ensures r.SetBlocker? && r.blocker.Some? ==>
      SourceIndex(current.value) == updates && r.blocker.value < |fragments| && IsMainNavFor(fragments[r.blocker.value], updates)
    ensures r.SetBlocker? && r.blocker.Some? ==>
      forall j :: 0 <= j < r.blocker.value ==> !IsMainNavFor(fragments[j], updates)
    ensures r.SetBlocker? && SourceIndex(current.value) != updates ==> r.blocker.None?
    ensures r.SetBlocker? && SourceIndex(current.value) == updates ==>
      (r.blocker.Some? <==> updates in MainNavSources(fragments))
  {
    match current
    case None => LeaveBlocker
    case Some(d) => SetBlocker(UpdateNotificationBlocker(SourceIndex(d), updates, fragments))
  }
}
