/** The lists screen: the item editor's operations, the tags sent on save,
    the expanded-folder set, and the sidebar's grouping and search. */
module ListsScreen {
  import opened Wrappers
  import opened Seqs
  import opened Strings
  import opened ListsRoute

  /** The fields of `Partial<ListItem>`; `None` is an absent field. */
  datatype ItemPatch = ItemPatch(id: Option<string>, text: Option<string>, checked: Option<bool>,
                                 isComplex: Option<bool>, details: Option<Option<string>>,
                                 detailsExpanded: Option<Option<bool>>)

  /** `{ ...item, ...updates }` */
  function Merge(item: ListItem, patch: ItemPatch): (r: ListItem)
    ensures r.id == patch.id.GetOr(item.id) && r.text == patch.text.GetOr(item.text)
    ensures r.checked == patch.checked.GetOr(item.checked) && r.isComplex == patch.isComplex.GetOr(item.isComplex)
    ensures r.details == patch.details.GetOr(item.details)
    ensures r.detailsExpanded == patch.detailsExpanded.GetOr(item.detailsExpanded)
  {
    ListItem(patch.id.GetOr(item.id), patch.text.GetOr(item.text), patch.checked.GetOr(item.checked),
             patch.isComplex.GetOr(item.isComplex), patch.details.GetOr(item.details),
             patch.detailsExpanded.GetOr(item.detailsExpanded))
  }

  /** The item the add button creates. */
  function NewItem(id: string): (item: ListItem)
    ensures item.id == id && item.text == "" && !item.checked && !item.isComplex
  {
    ListItem(id, "", false, false, None, Some(false))
  }

  /** The items being edited and whether they differ from the saved list. */
  datatype Editor = Editor(items: seq<ListItem>, hasUnsavedChanges: bool)

  /** `handleAddItem` with the id `crypto.randomUUID()` gave. */
  function AddItem(e: Editor, freshId: string): (r: Editor)
    ensures r.items == e.items + [NewItem(freshId)] && r.hasUnsavedChanges
  {
    Editor(e.items + [NewItem(freshId)], true)
  }

  /** `items.map(item => item.id === id ? { ...item, ...updates } : item)` */
  function UpdateItems(items: seq<ListItem>, id: string, patch: ItemPatch): (r: seq<ListItem>)
    ensures |r| == |items|
    ensures forall i :: 0 <= i < |items| ==> r[i] == if items[i].id == id then Merge(items[i], patch) else items[i]
  {
    seq(|items|, i requires 0 <= i < |items| => if items[i].id == id then Merge(items[i], patch) else items[i])
  }

  /** `handleUpdateItem`; the second value is what the checkbox auto-save
      sends, when it fires (`listSaved`: the current list has an id). */
  function UpdateItem(e: Editor, id: string, patch: ItemPatch, listSaved: bool): (r: (Editor, Option<seq<ListItem>>))
    ensures r.0.items == UpdateItems(e.items, id, patch) && r.0.hasUnsavedChanges
    ensures r.1.Some? <==> patch.checked.Some? && listSaved
    ensures r.1.Some? ==> r.1.value == r.0.items
  {
    var items := UpdateItems(e.items, id, patch);
    (Editor(items, true), if patch.checked.Some? && listSaved then Some(items) else None)
  }

  /** Applying the same update twice is the same as applying it once. */
  lemma UpdateIdempotent(items: seq<ListItem>, id: string, patch: ItemPatch)
    ensures UpdateItems(UpdateItems(items, id, patch), id, patch) == UpdateItems(items, id, patch)
  {
  }

  /** `items.filter(item => item.id !== id)` */
  function DeleteItems(items: seq<ListItem>, id: string): (r: seq<ListItem>)
    ensures forall x :: x in r <==> x in items && x.id != id
    ensures |r| <= |items|
  {
    var keep := (x: ListItem) => x.id != id;
    assert forall x :: x in Filter(items, keep) <==> x in items && x.id != id by {
      forall x ensures x in Filter(items, keep) <==> x in items && x.id != id { FilterMembers(items, keep, x); }
    }
    Filter(items, keep)
  }

  function DeleteItem(e: Editor, id: string): (r: Editor)
    ensures r.items == DeleteItems(e.items, id) && r.hasUnsavedChanges
  {
    Editor(DeleteItems(e.items, id), true)
  }

  /** Deleting a freshly added item gives back the items as they were,
      in their order. */
  lemma DeleteUndoesAdd(e: Editor, freshId: string)
    requires forall i :: 0 <= i < |e.items| ==> e.items[i].id != freshId
    ensures DeleteItem(AddItem(e, freshId), freshId).items == e.items
  {
    var keep := (x: ListItem) => x.id != freshId;
    FilterAppend(e.items, [NewItem(freshId)], keep);
    FilterAll(e.items, keep);
  }

  /** Flipping `isComplex`: turning it on also opens the details. */
  function ToggleComplexItem(item: ListItem): (r: ListItem)
    ensures r.isComplex == !item.isComplex
    ensures r.isComplex ==> r.detailsExpanded == Some(true)
    ensures !r.isComplex ==> r.detailsExpanded == item.detailsExpanded
    ensures r.id == item.id && r.text == item.text && r.checked == item.checked && r.details == item.details
  {
    item.(isComplex := !item.isComplex, detailsExpanded := if !item.isComplex then Some(true) else item.detailsExpanded)
  }

  function ToggleComplexItems(items: seq<ListItem>, id: string): (r: seq<ListItem>)
    ensures |r| == |items|
    ensures forall i :: 0 <= i < |items| ==> r[i] == if items[i].id == id then ToggleComplexItem(items[i]) else items[i]
  {
    seq(|items|, i requires 0 <= i < |items| => if items[i].id == id then ToggleComplexItem(items[i]) else items[i])
  }

  function ToggleComplex(e: Editor, id: string): (r: Editor)
    ensures r.items == ToggleComplexItems(e.items, id) && r.hasUnsavedChanges
  {
    Editor(ToggleComplexItems(e.items, id), true)
  }

  /** Toggling twice restores every item's kind; the details stay open. */
  lemma ToggleComplexTwice(items: seq<ListItem>, id: string, i: nat)
    requires i < |items|
    ensures var twice := ToggleComplexItems(ToggleComplexItems(items, id), id);
      twice[i].isComplex == items[i].isComplex &&
      (items[i].id == id ==> twice[i].detailsExpanded == Some(true)) &&
      (items[i].id != id ==> twice[i] == items[i])
  {
  }

  /** A tag other than the `'default'` sentinel. */
  predicate NotDefault(t: string) {
    t != "default"
  }

  /** The tags sent by `handleSaveList`: `'default'` only when nothing else remains. */
  function SaveTags(tags: seq<string>): (r: seq<string>)
    ensures r != []
    ensures "default" in r ==> r == ["default"]
    ensures r == ["default"] <==> forall t :: t in tags ==> t == "default"
    ensures r != ["default"] ==> r == Filter(tags, NotDefault)
    ensures r != ["default"] ==> forall t :: t in r <==> t in tags && t != "default"
  {
    var rest := Filter(tags, NotDefault);
    assert forall t :: t in rest <==> t in tags && t != "default" by {
      forall t ensures t in rest <==> t in tags && t != "default" { FilterMembers(tags, NotDefault, t); }
    }
    if |rest| > 0 then
      assert rest[0] in rest;
      rest
    else ["default"]
  }

  /** The server stores the saved tags as they are sent. */
  lemma SaveTagsStored(tags: seq<string>)
    ensures TagsOrDefault(SaveTags(tags)) == SaveTags(tags)
  {
  }

  /** Saving the same tags again sends the same tags. */
  lemma SaveTagsIdempotent(tags: seq<string>)
    ensures SaveTags(SaveTags(tags)) == SaveTags(tags)
  {
    var once := SaveTags(tags);
    if once != ["default"] {
      FilterAll(once, NotDefault);
    }
  }

  /** `toggleFolder` on the set of expanded folders. */
  function ToggleFolder(expanded: set<string>, folderId: string): (r: set<string>)
    ensures folderId in r <==> folderId !in expanded
    ensures forall f :: f != folderId ==> (f in r <==> f in expanded)
  {
    if folderId in expanded then expanded - {folderId} else expanded + {folderId}
  }

  lemma ToggleFolderTwice(expanded: set<string>, folderId: string)
    ensures ToggleFolder(ToggleFolder(expanded, folderId), folderId) == expanded
  {
  }

  /** `!l.folderId`: no folder, or an empty folder id. */
  predicate IsRoot(l: ListDoc) { l.folderId.None? || l.folderId.value == "" }

  function RootLists(lists: seq<ListDoc>): (r: seq<ListDoc>)
    ensures forall l :: l in r <==> l in lists && IsRoot(l)
  {
    var keep := (l: ListDoc) => IsRoot(l);
    assert forall l :: l in Filter(lists, keep) <==> l in lists && IsRoot(l) by {
      forall l ensures l in Filter(lists, keep) <==> l in lists && IsRoot(l) { FilterMembers(lists, keep, l); }
    }
    Filter(lists, keep)
  }

  function ListsByFolder(lists: seq<ListDoc>, folderId: string): (r: seq<ListDoc>)
    ensures forall l :: l in r <==> l in lists && l.folderId == Some(folderId)
  {
    var keep := (l: ListDoc) => l.folderId == Some(folderId);
    assert forall l :: l in Filter(lists, keep) <==> l in lists && l.folderId == Some(folderId) by {
      forall l ensures l in Filter(lists, keep) <==> l in lists && l.folderId == Some(folderId) {
        FilterMembers(lists, keep, l);
      }
    }
    Filter(lists, keep)
  }

  /** Each list shows once: at the root, or under its own folder and no other. */
  lemma RootAndFoldersPartition(lists: seq<ListDoc>, l: ListDoc, folderId: string)
    requires l in lists && folderId != ""
    ensures l in RootLists(lists) ==> l !in ListsByFolder(lists, folderId)
    ensures l !in RootLists(lists) ==> l in ListsByFolder(lists, l.folderId.value)
    ensures l in ListsByFolder(lists, folderId) ==> l.folderId == Some(folderId)
  {
  }

  /** The sidebar search: everything for a blank query, otherwise the
      lists whose lower-cased title contains the lower-cased query. */
  function SearchLists(lists: seq<ListDoc>, query: string): (r: seq<ListDoc>)
    ensures IsBlank(query) ==> r == lists
    ensures !IsBlank(query) ==> forall l :: l in r <==> l in lists && Includes(Lower(l.title), Lower(query))
    ensures |r| <= |lists|
  {
    if Trim(query) == [] then lists
    else
      var q := Lower(query);
      var keep := (l: ListDoc) => Includes(Lower(l.title), q);
      assert forall l :: l in Filter(lists, keep) <==> l in lists && Includes(Lower(l.title), q) by {
        forall l ensures l in Filter(lists, keep) <==> l in lists && Includes(Lower(l.title), q) {
          FilterMembers(lists, keep, l);
        }
      }
      Filter(lists, keep)
  }

  predicate IsChecked(x: ListItem) {
    x.checked
  }

  /** The sidebar's `completed/total` count. */
  function CheckedCount(items: seq<ListItem>): (n: nat)
    ensures n == |Filter(items, IsChecked)|
    ensures n <= |items|
    ensures n == |items| <==> forall i :: 0 <= i < |items| ==> items[i].checked
  {
    if items == [] then 0 else (if items[0].checked then 1 else 0) + CheckedCount(items[1..])
  }
}
