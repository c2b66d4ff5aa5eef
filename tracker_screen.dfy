/** The tracker screen: the active/archived view filter, the search box
    and the grouping of the shown trackers by folder. */
module TrackerScreen {
  import opened Wrappers
  import opened Seqs
  import opened Strings
  import opened TrackersRoute

  datatype FilterView = All | Active | Archived

  /** The `active` query flag the view asks the server for. */
  function ActiveFlag(view: FilterView): Option<bool> {
    match view
    case All => None
    case Active => Some(true)
    case Archived => Some(false)
  }

  /** The server's tracker list for an optional `isActive` query. */
  function ListTrackers(trackers: seq<Tracker>, active: Option<bool>): (r: seq<Tracker>)
    ensures active.None? ==> r == trackers
    ensures forall t :: t in r <==> t in trackers && (active.Some? ==> t.isActive == active.value)
  {
    match active
    case None => trackers
    case Some(b) =>
      var r := Filter(trackers, (t: Tracker) => t.isActive == b);
      assert forall t :: t in r <==> t in trackers && t.isActive == b by {
        forall t ensures t in r <==> t in trackers && t.isActive == b {
          FilterMembers(trackers, (t: Tracker) => t.isActive == b, t);
        }
      }
      r
  }

  /** The active and archived views split the full list between them. */
  lemma ViewsPartition(trackers: seq<Tracker>)
    ensures multiset(ListTrackers(trackers, ActiveFlag(Active))) +
            multiset(ListTrackers(trackers, ActiveFlag(Archived))) == multiset(ListTrackers(trackers, ActiveFlag(All)))
  {
    FilterComplement(trackers, (t: Tracker) => t.isActive == true, (t: Tracker) => t.isActive == false);
  }

  /** Some tag contains the query. */
  predicate AnyTagIncludes(tags: seq<string>, query: string) {
    exists i :: 0 <= i < |tags| && Includes(Lower(tags[i]), query)
  }

  /** The search test, on a query already lower-cased. */
  predicate Matches(t: Tracker, query: string) {
    Includes(Lower(t.name), query) ||
    (t.description.Some? && Includes(Lower(t.description.value), query)) ||
    AnyTagIncludes(t.tags, query)
  }

  /** `filteredTrackers`: everything for a blank query, otherwise the
      trackers whose name, description or a tag contains the lower-cased
      query (the query itself is not trimmed). */
  function FilteredTrackers(trackers: seq<Tracker>, searchQuery: string): (r: seq<Tracker>)
    ensures IsBlank(searchQuery) ==> r == trackers
    ensures !IsBlank(searchQuery) ==>
      forall t :: t in r <==> t in trackers && Matches(t, Lower(searchQuery))
    ensures |r| <= |trackers|
  {
    if Trim(searchQuery) == [] then trackers
    else
      var q := Lower(searchQuery);
      var r := Filter(trackers, (t: Tracker) => Matches(t, q));
      assert forall t :: t in r <==> t in trackers && Matches(t, q) by {
        forall t ensures t in r <==> t in trackers && Matches(t, q) {
          FilterMembers(trackers, (t: Tracker) => Matches(t, q), t);
        }
      }
      r
  }

  /** Searching keeps the list's order: the result is the list with the
      non-matching trackers removed. */
  lemma SearchKeepsOrder(a: seq<Tracker>, b: seq<Tracker>, searchQuery: string)
    ensures FilteredTrackers(a + b, searchQuery) == FilteredTrackers(a, searchQuery) + FilteredTrackers(b, searchQuery)
  {
    if !IsBlank(searchQuery) {
      FilterAppend(a, b, (t: Tracker) => Matches(t, Lower(searchQuery)));
    }
  }

  const NoFolder := "no-folder"

  /** The group keys: the no-folder group and one per folder with an id. */
  function GroupKeys(folders: seq<Folder>): (keys: set<string>)
    ensures NoFolder in keys
    ensures forall k :: k in keys <==> k == NoFolder || exists i :: 0 <= i < |folders| && folders[i].id == k && k != ""
  {
    {NoFolder} + set i | 0 <= i < |folders| && folders[i].id != "" :: folders[i].id
  }

  /** The group a tracker goes to: its folder's, when that folder is one
      of the groups, else the no-folder group. */
  function Bucket(keys: set<string>, t: Tracker): string {
    if t.folderId.Some? && t.folderId.value != "" && t.folderId.value in keys then t.folderId.value
    else NoFolder
  }

  /** The trackers of `s` that go to group `k`, in order. */
  function Group(s: seq<Tracker>, keys: set<string>, k: string): (g: seq<Tracker>)
    ensures forall t :: t in g <==> t in s && Bucket(keys, t) == k
  {
    if s == [] then []
    else Group(s[..|s| - 1], keys, k) + (if Bucket(keys, s[|s| - 1]) == k then [s[|s| - 1]] else [])
  }

  /** The `folders.forEach` loop: an empty group for every key. */
  method EmptyGroups(folders: seq<Folder>) returns (grouped: map<string, seq<Tracker>>)
    ensures grouped.Keys == GroupKeys(folders)
    ensures forall k :: k in grouped ==> grouped[k] == []
  {
    grouped := map[NoFolder := []];
    for i := 0 to |folders|
      invariant grouped.Keys == {NoFolder} + set j | 0 <= j < i && folders[j].id != "" :: folders[j].id
      invariant forall k :: k in grouped ==> grouped[k] == []
    {
      if folders[i].id != "" {
        grouped := grouped[folders[i].id := []];
      }
    }
  }

  /** `trackersByFolder`, built as the source builds it: one empty group
      per key, then each tracker pushed onto its own group. */
  method GroupByFolder(folders: seq<Folder>, trackers: seq<Tracker>) returns (grouped: map<string, seq<Tracker>>)
    ensures grouped.Keys == GroupKeys(folders)
    ensures forall k :: k in grouped ==> grouped[k] == Group(trackers, GroupKeys(folders), k)
  {
    grouped := EmptyGroups(folders);
    var keys := GroupKeys(folders);
    for i := 0 to |trackers|
      invariant grouped.Keys == keys
      invariant forall k :: k in grouped ==> grouped[k] == Group(trackers[..i], keys, k)
    {
      var t := trackers[i];
      assert trackers[..i + 1][..i] == trackers[..i];
      var b := if t.folderId.Some? && t.folderId.value != "" && t.folderId.value in grouped
               then t.folderId.value else NoFolder;
      assert b == Bucket(keys, t);
      grouped := grouped[b := grouped[b] + [t]];
    }
    assert trackers[..|trackers|] == trackers;
  }

  /** Every shown tracker is in exactly one group. */
  lemma GroupsPartition(folders: seq<Folder>, trackers: seq<Tracker>, t: Tracker, k: string)
    requires t in trackers
    ensures t in Group(trackers, GroupKeys(folders), k) <==> k == Bucket(GroupKeys(folders), t)
    ensures Bucket(GroupKeys(folders), t) in GroupKeys(folders)
  {
  }
}
