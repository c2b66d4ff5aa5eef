/** The page behind a share link: the item edits it allows, which depend
    on whether the link is read-only, and what it sends to the server. */
module SharedList {
  import opened Wrappers
  import opened ListsRoute
  import opened ListsScreen

  /** The loaded list, if any, and whether it has unsaved edits. */
  datatype SharedView = SharedView(list: Option<ListDoc>, hasUnsavedChanges: bool)

  /** `list?.shareMode === 'read-only'` */
  predicate IsReadOnly(v: SharedView) {
    v.list.Some? && v.list.value.shareMode == Some(ReadOnly)
  }

  /** Editing is possible only on a loaded list that is not read-only. */
  predicate Editable(v: SharedView) {
    v.list.Some? && !IsReadOnly(v)
  }

  function WithItems(v: SharedView, items: seq<ListItem>): (r: SharedView)
    requires v.list.Some?
    ensures r.list == Some(v.list.value.(items := items)) && r.hasUnsavedChanges
  {
    SharedView(Some(v.list.value.(items := items)), true)
  }

  /** `handleUpdateItem`: applies in both modes; the second value is what
      the checkbox auto-save sends, only when the link allows editing. */
  function UpdateItem(v: SharedView, id: string, patch: ItemPatch): (r: (SharedView, Option<seq<ListItem>>))
    ensures v.list.None? ==> r == (v, None)
    ensures v.list.Some? ==> r.0 == WithItems(v, UpdateItems(v.list.value.items, id, patch))
    ensures r.1.Some? <==> v.list.Some? && patch.checked.Some? && !IsReadOnly(v)
    ensures r.1.Some? ==> r.1.value == r.0.list.value.items
  {
    if v.list.None? then (v, None)
    else
      var items := UpdateItems(v.list.value.items, id, patch);
      (WithItems(v, items), if patch.checked.Some? && !IsReadOnly(v) then Some(items) else None)
  }

  /** `handleAddItem` */
  function AddItem(v: SharedView, freshId: string): (r: SharedView)
    ensures !Editable(v) ==> r == v
    ensures Editable(v) ==> r == WithItems(v, v.list.value.items + [NewItem(freshId)])
  {
    if !Editable(v) then v else WithItems(v, v.list.value.items + [NewItem(freshId)])
  }

  /** `handleDeleteItem` */
  function DeleteItem(v: SharedView, id: string): (r: SharedView)
    ensures !Editable(v) ==> r == v
    ensures Editable(v) ==> r == WithItems(v, DeleteItems(v.list.value.items, id))
  {
    if !Editable(v) then v else WithItems(v, DeleteItems(v.list.value.items, id))
  }

  /** `handleToggleComplex` */
  function ToggleComplex(v: SharedView, id: string): (r: SharedView)
    ensures !Editable(v) ==> r == v
    ensures Editable(v) ==> r == WithItems(v, ToggleComplexItems(v.list.value.items, id))
  {
    if !Editable(v) then v else WithItems(v, ToggleComplexItems(v.list.value.items, id))
  }

  /** The body `handleSave` sends, if it sends one. */
  function SaveRequest(v: SharedView, shareId: Option<string>): (r: Option<UpdateListInput>)
    ensures r.Some? <==> shareId.Some? && Editable(v)
    ensures r.Some? ==> r.value == UpdateListInput(Some(v.list.value.title), Some(v.list.value.items),
                                                   Some(v.list.value.tags), None)
  {
    if shareId.None? || !Editable(v) then None
    else Some(UpdateListInput(Some(v.list.value.title), Some(v.list.value.items), Some(v.list.value.tags), None))
  }

  /** A successful save shows the list the server returned, with no unsaved edits. */
  function Saved(v: SharedView, updated: ListDoc): (r: SharedView)
    ensures r.list == Some(updated) && !r.hasUnsavedChanges
  {
    SharedView(Some(updated), false)
  }

  /** A read-only link changes nothing but the local checkbox state, and
      sends nothing. */
  lemma ReadOnlyIsInert(v: SharedView, id: string, freshId: string, patch: ItemPatch, shareId: Option<string>)
    requires IsReadOnly(v)
    ensures AddItem(v, freshId) == v && DeleteItem(v, id) == v && ToggleComplex(v, id) == v
    ensures SaveRequest(v, shareId).None? && UpdateItem(v, id, patch).1.None?
  {
  }

  /** What the page saves is what the server keeps for the shared list. */
  lemma SaveReachesServer(lists: seq<ListDoc>, v: SharedView, shareId: string, now: Calendar.Time, k: nat)
    requires k < |lists| && lists[k].shareId == Some(shareId) && lists[k].shareMode == Some(ReadWrite)
    requires forall i :: 0 <= i < k ==> !(lists[i].shareId == Some(shareId) && lists[i].shareMode == Some(ReadWrite))
    requires SaveRequest(v, Some(shareId)).Some?
    ensures var r := UpdateShared(lists, shareId, SaveRequest(v, Some(shareId)).value, now);
      r.Success? && r.value[k].items == v.list.value.items && r.value[k].title == v.list.value.title &&
      r.value[k].tags == v.list.value.tags
  {
    assert FindByShare(lists, shareId, {ReadWrite}) == k;
  }
}
