/** The lists routes: reading and editing a list through its share link,
    the tag listing, list creation and update, the share-mode state
    machine and the folder-delete guard. A store is the sequence of list
    documents the database holds. */
module ListsRoute {
  import opened Wrappers
  import opened Seqs
  import opened Strings
  import opened Calendar

  datatype ShareMode = NotShared | ReadOnly | ReadWrite

  datatype ListItem = ListItem(id: string, text: string, checked: bool, isComplex: bool,
                               details: Option<string>, detailsExpanded: Option<bool>)

  /** A list document; `shareMode` is `None` on documents written before
      sharing existed. */
  datatype ListDoc = ListDoc(id: string, userId: string, folderId: Option<string>, title: string,
                             items: seq<ListItem>, tags: seq<string>, shareId: Option<string>,
                             shareMode: Option<ShareMode>, createdAt: Time, updatedAt: Time)

  /** The list reachable through `shareId` with one of `modes`, if any. */
  function FindByShare(lists: seq<ListDoc>, shareId: string, modes: set<ShareMode>): (k: nat)
    ensures k <= |lists|
    ensures k < |lists| ==> lists[k].shareId == Some(shareId) && lists[k].shareMode.Some? &&
                            lists[k].shareMode.value in modes
    ensures k == |lists| <==> forall i :: 0 <= i < |lists| ==>
      !(lists[i].shareId == Some(shareId) && lists[i].shareMode.Some? && lists[i].shareMode.value in modes)
  {
    FindIndex(lists, (l: ListDoc) => l.shareId == Some(shareId) && l.shareMode.Some? && l.shareMode.value in modes)
  }

  /** `GET /shared/:shareId`: only lists shared read-only or read-write are found. */
  function GetShared(lists: seq<ListDoc>, shareId: string): (r: Result<ListDoc, HttpError>)
    ensures r.Success? ==> r.value in lists && r.value.shareId == Some(shareId) &&
                           r.value.shareMode in {Some(ReadOnly), Some(ReadWrite)}
    ensures r.Failure? <==> forall l :: l in lists && l.shareId == Some(shareId) ==>
                             l.shareMode !in {Some(ReadOnly), Some(ReadWrite)}
    ensures r.Failure? ==> r.error == HttpError(404, "Shared list not found")
  {
    var k := FindByShare(lists, shareId, {ReadOnly, ReadWrite});
    if k == |lists| then Failure(HttpError(404, "Shared list not found")) else Success(lists[k])
  }

  /** The fields of an update body; `None` is an omitted field. For
      `folderId`, `Some(None)` is an explicit `null`. */
  datatype UpdateListInput = UpdateListInput(title: Option<string>, items: Option<seq<ListItem>>,
                                             tags: Option<seq<string>>, folderId: Option<Option<string>>)

  /** `PUT /shared/:shareId`: only a read-write list can be edited, and
      only its items, title and tags are written. */
  function UpdateShared(lists: seq<ListDoc>, shareId: string, input: UpdateListInput,
                        now: Time): (r: Result<seq<ListDoc>, HttpError>)
    ensures r.Failure? <==> forall i :: 0 <= i < |lists| ==>
      !(lists[i].shareId == Some(shareId) && lists[i].shareMode == Some(ReadWrite))
    ensures r.Failure? ==> r.error.status == 403
    ensures r.Success? ==>
      (exists k :: 0 <= k < |lists| &&
        lists[k].shareId == Some(shareId) && lists[k].shareMode == Some(ReadWrite) &&
        r.value == lists[k := lists[k].(items := input.items.GetOr(lists[k].items),
                                        title := input.title.GetOr(lists[k].title),
                                        tags := input.tags.GetOr(lists[k].tags),
                                        updatedAt := now)])
  {
    var k := FindByShare(lists, shareId, {ReadWrite});
    if k == |lists| then Failure(HttpError(403, "List not found or does not allow editing"))
    else
      var l := lists[k];
      Success(lists[k := l.(items := input.items.GetOr(l.items), title := input.title.GetOr(l.title),
                            tags := input.tags.GetOr(l.tags), updatedAt := now)])
  }

  /** A share link never changes a list's sharing state. */
  lemma SharedEditKeepsSharing(lists: seq<ListDoc>, shareId: string, input: UpdateListInput, now: Time, i: nat)
    requires UpdateShared(lists, shareId, input, now).Success? && i < |lists|
    ensures var after := UpdateShared(lists, shareId, input, now).value;
      |after| == |lists| && after[i].shareId == lists[i].shareId && after[i].shareMode == lists[i].shareMode &&
      after[i].userId == lists[i].userId && after[i].folderId == lists[i].folderId
  {
  }

  // ----- Tags -----

  function TagLists(lists: seq<ListDoc>): (ts: seq<seq<string>>)
    ensures |ts| == |lists| && forall i :: 0 <= i < |lists| ==> ts[i] == lists[i].tags
  {
    seq(|lists|, i requires 0 <= i < |lists| => lists[i].tags)
  }

  /** `GET /tags`: the user's distinct tags without `'default'`, sorted. */
  function ListTags(lists: seq<ListDoc>): (r: seq<string>)
    ensures NoDuplicates(r) && SortedBy(r, Leq)
    ensures forall tag :: tag in r <==> tag != "default" && exists i :: 0 <= i < |lists| && tag in lists[i].tags
  {
    var all := Flatten(TagLists(lists));
    var keep := (t: string) => t != "default";
    var unique := Filter(Distinct(all), keep);
    assert NoDuplicates(unique) by { FilterNoDuplicates(Distinct(all), keep); }
    NoDuplicatesPermutation(unique, SortStrings(unique));
    forall tag ensures tag in SortStrings(unique) <==>
      tag != "default" && exists i :: 0 <= i < |lists| && tag in lists[i].tags
    {
      assert tag in SortStrings(unique) <==> tag in multiset(unique);
      FilterMembers(Distinct(all), keep, tag);
      FlattenMembers(TagLists(lists), tag);
      if tag in all {
        var j :| 0 <= j < |all| && all[j] == tag;
      }
    }
    SortStrings(unique)
  }

  lemma {:induction false} FilterNoDuplicates<T>(s: seq<T>, p: T -> bool)
    requires NoDuplicates(s)
    ensures NoDuplicates(Filter(s, p))
  {
    if s != [] {
      assert NoDuplicates(s[1..]) by {
        forall i, j | 0 <= i < j < |s[1..]| ensures s[1..][i] != s[1..][j] {
          assert s[1..][i] == s[i + 1] && s[1..][j] == s[j + 1];
        }
      }
      FilterNoDuplicates(s[1..], p);
      FilterMembers(s[1..], p, s[0]);
      assert s[0] !in s[1..] by {
        forall i | 0 <= i < |s[1..]| ensures s[1..][i] != s[0] { assert s[1..][i] == s[i + 1]; }
      }
    }
  }

  // ----- Creating and updating -----

  datatype CreateListInput = CreateListInput(title: Option<string>, items: Option<seq<ListItem>>,
                                             tags: Option<seq<string>>, folderId: Option<string>)

  /** A folder id counts only when it is a non-empty string. */
  predicate GivenFolder(folderId: Option<string>) {
    folderId.Some? && folderId.value != ""
  }

  /** `tags.length > 0 ? tags : ['default']` */
  function TagsOrDefault(tags: seq<string>): (r: seq<string>)
    ensures r != []
    ensures tags != [] ==> r == tags
  {
    if |tags| > 0 then tags else ["default"]
  }

  /** `POST /`: `folderValid` and `folderFound` say whether the folder id
      is well formed and names a folder of the user. */
  function CreateList(userId: string, input: CreateListInput, folderValid: bool, folderFound: bool,
                      freshId: string, now: Time): (r: Result<ListDoc, HttpError>)
    ensures r.Success? <==>
      input.title.Some? && Trim(input.title.value) != "" && (GivenFolder(input.folderId) ==> folderValid && folderFound)
    ensures input.title.None? || Trim(input.title.value) == "" ==> r == Failure(HttpError(400, "Title is required"))
    ensures r.Success? ==>
      r.value.title == Trim(input.title.value) && r.value.userId == userId &&
      r.value.shareMode == Some(NotShared) && r.value.shareId.None? &&
      r.value.items == input.items.GetOr([]) &&
      r.value.tags == (if input.tags.Some? then TagsOrDefault(input.tags.value) else ["default"]) &&
      (r.value.folderId.Some? <==> GivenFolder(input.folderId)) &&
      r.value.createdAt == now == r.value.updatedAt
  {
    if input.title.None? || Trim(input.title.value) == "" then Failure(HttpError(400, "Title is required"))
    else if GivenFolder(input.folderId) && !folderValid then Failure(HttpError(400, "Invalid folder ID"))
    else if GivenFolder(input.folderId) && !folderFound then Failure(HttpError(404, "Folder not found"))
    else
      var tags := if input.tags.Some? then TagsOrDefault(input.tags.value) else ["default"];
      var folder := if GivenFolder(input.folderId) then input.folderId else None;
      Success(ListDoc(freshId, userId, folder, Trim(input.title.value), input.items.GetOr([]), tags,
                      None, Some(NotShared), now, now))
  }

  /** The user's list with id `id`, found by index. */
  function FindList(lists: seq<ListDoc>, userId: string, id: string): (k: nat)
    ensures k <= |lists|
    ensures k < |lists| ==> lists[k].id == id && lists[k].userId == userId
    ensures k == |lists| <==> forall i :: 0 <= i < |lists| ==> !(lists[i].id == id && lists[i].userId == userId)
  {
    FindIndex(lists, (l: ListDoc) => l.id == id && l.userId == userId)
  }

  /** A body that asks for no change: an empty or missing title, no items,
      no tags and no folder id. */
  predicate NothingToUpdate(input: UpdateListInput) {
    (input.title.None? || input.title.value == "") && input.items.None? && input.tags.None? && input.folderId.None?
  }

  /** The list after `$set: updateData` of `PUT /:id`. */
  function ApplyUpdate(l: ListDoc, input: UpdateListInput, now: Time): (u: ListDoc)
    ensures u.id == l.id && u.userId == l.userId && u.shareId == l.shareId && u.shareMode == l.shareMode
    ensures u.title == if input.title.Some? then Trim(input.title.value) else l.title
    ensures u.items == input.items.GetOr(l.items)
    ensures u.tags == if input.tags.Some? then TagsOrDefault(input.tags.value) else l.tags
    ensures u.folderId == input.folderId.GetOr(l.folderId)
    ensures u.updatedAt == now && u.createdAt == l.createdAt
  {
    l.(title := if input.title.Some? then Trim(input.title.value) else l.title,
       items := input.items.GetOr(l.items),
       tags := if input.tags.Some? then TagsOrDefault(input.tags.value) else l.tags,
       folderId := input.folderId.GetOr(l.folderId),
       updatedAt := now)
  }

  /** `PUT /:id`; `folderValid` and `folderFound` concern a non-null
      folder id in the body. */
  function UpdateList(lists: seq<ListDoc>, userId: string, id: string, idValid: bool, input: UpdateListInput,
                      folderValid: bool, folderFound: bool, now: Time): (r: Result<seq<ListDoc>, HttpError>)
    ensures !idValid ==> r == Failure(HttpError(400, "Invalid list ID"))
    ensures idValid && NothingToUpdate(input) ==> r == Failure(HttpError(400, "Nothing to update"))
    ensures r.Success? <==>
      idValid && !NothingToUpdate(input) &&
      (input.folderId.Some? && input.folderId.value.Some? ==> folderValid && folderFound) &&
      FindList(lists, userId, id) < |lists|
    ensures r.Success? ==> var k := FindList(lists, userId, id);
      r.value == lists[k := ApplyUpdate(lists[k], input, now)]
  {
    if !idValid then Failure(HttpError(400, "Invalid list ID"))
    else if NothingToUpdate(input) then Failure(HttpError(400, "Nothing to update"))
    else if input.folderId.Some? && input.folderId.value.Some? && !folderValid then
      Failure(HttpError(400, "Invalid folder ID"))
    else if input.folderId.Some? && input.folderId.value.Some? && !folderFound then
      Failure(HttpError(404, "Folder not found"))
    else
      var k := FindList(lists, userId, id);
      if k == |lists| then Failure(HttpError(404, "List not found"))
      else Success(lists[k := ApplyUpdate(lists[k], input, now)])
  }

  /** A stored list always carries at least one tag. */
  lemma UpdateKeepsTags(l: ListDoc, input: UpdateListInput, now: Time)
    requires l.tags != []
    ensures ApplyUpdate(l, input, now).tags != []
  {
  }

  // ----- Sharing -----

  /** The share mode named in a body, if it is one a link can carry. */
  function ParseShareMode(s: Option<string>): (m: Option<ShareMode>)
    ensures m.Some? <==> s == Some("read-only") || s == Some("read-write")
    ensures m.Some? ==> m.value != NotShared
  {
    if s == Some("read-only") then Some(ReadOnly)
    else if s == Some("read-write") then Some(ReadWrite)
    else None
  }

  predicate IsHexDigit(c: char) { '0' <= c <= '9' || 'a' <= c <= 'f' }

  /** The value of a hex digit. */
  function DigitValue(c: char): (v: nat)
    ensures v < 16
  {
    if '0' <= c <= '9' then (c - '0') as nat
    else if 'a' <= c <= 'f' then (c - 'a') as nat + 10
    else 0
  }

  /** The digit of a value below 16. */
  function Digit(n: nat): (c: char)
    requires n < 16
    ensures IsHexDigit(c) && DigitValue(c) == n
  {
    if n < 10 then '0' + n as char else 'a' + (n - 10) as char
  }

  /** One byte as two lower-case hex digits. */
  function HexByte(b: Byte): (s: string)
    ensures |s| == 2 && IsHexDigit(s[0]) && IsHexDigit(s[1])
    ensures 16 * DigitValue(s[0]) + DigitValue(s[1]) == b
  {
    [Digit(b / 16), Digit(b % 16)]
  }

  /** `Buffer.toString('hex')`: two lower-case digits per byte. */
  function Hex(bytes: seq<Byte>): (s: string)
    ensures |s| == 2 * |bytes|
  {
    if bytes == [] then "" else HexByte(bytes[0]) + Hex(bytes[1..])
  }

  /** Every character of a hex string is a hex digit. */
  lemma {:induction false} HexDigitsOnly(bytes: seq<Byte>)
    ensures forall i :: 0 <= i < |Hex(bytes)| ==> IsHexDigit(Hex(bytes)[i])
  {
    if bytes != [] {
      HexDigitsOnly(bytes[1..]);
      var s := Hex(bytes);
      forall i | 0 <= i < |s| ensures IsHexDigit(s[i]) {
        if i >= 2 { assert s[i] == Hex(bytes[1..])[i - 2]; }
      }
    }
  }

  /** Reads pairs of hex digits; a lone last digit is dropped. */
  function Unhex(s: string): (bytes: seq<Byte>)
  {
    if |s| < 2 then [] else [16 * DigitValue(s[0]) + DigitValue(s[1])] + Unhex(s[2..])
  }

  /** The hex form of the random bytes determines them. */
  lemma {:induction false} UnhexHex(bytes: seq<Byte>)
    ensures Unhex(Hex(bytes)) == bytes
  {
    if bytes != [] {
      var s := Hex(bytes);
      var pair := HexByte(bytes[0]);
      assert s[0] == pair[0] && s[1] == pair[1] && s[2..] == Hex(bytes[1..]);
      UnhexHex(bytes[1..]);
      assert bytes == [bytes[0]] + bytes[1..];
    }
  }

  /** `POST /:id/share`: a share link with `mode` and the id that
      `randomBytes` (16 bytes) gives. */
  function EnableSharing(lists: seq<ListDoc>, userId: string, id: string, idValid: bool, mode: Option<string>,
                         random: seq<Byte>, now: Time): (r: Result<seq<ListDoc>, HttpError>)
    requires |random| == 16
    ensures r.Success? <==> idValid && ParseShareMode(mode).Some? && FindList(lists, userId, id) < |lists|
    ensures idValid && ParseShareMode(mode).None? ==> r.Failure? && r.error.status == 400
    ensures r.Success? ==> var k := FindList(lists, userId, id);
      r.value == lists[k := lists[k].(shareId := Some(Hex(random)), shareMode := ParseShareMode(mode),
                                      updatedAt := now)] &&
      |Hex(random)| == 32
  {
    if !idValid then Failure(HttpError(400, "Invalid list ID"))
    else if ParseShareMode(mode).None? then
      Failure(HttpError(400, "Valid share mode required (read-only or read-write)"))
    else
      var k := FindList(lists, userId, id);
      if k == |lists| then Failure(HttpError(404, "List not found"))
      else Success(lists[k := lists[k].(shareId := Some(Hex(random)), shareMode := ParseShareMode(mode),
                                        updatedAt := now)])
  }

  /** `PUT /:id/share`: the mode changes, the link stays. */
  function UpdateShareMode(lists: seq<ListDoc>, userId: string, id: string, idValid: bool, mode: Option<string>,
                           now: Time): (r: Result<seq<ListDoc>, HttpError>)
    ensures r.Success? <==> idValid && ParseShareMode(mode).Some? && FindList(lists, userId, id) < |lists|
    ensures idValid && ParseShareMode(mode).None? ==> r.Failure? && r.error.status == 400
    ensures r.Success? ==> var k := FindList(lists, userId, id);
      r.value == lists[k := lists[k].(shareMode := ParseShareMode(mode), updatedAt := now)]
  {
    if !idValid then Failure(HttpError(400, "Invalid list ID"))
    else if ParseShareMode(mode).None? then
      Failure(HttpError(400, "Valid share mode required (read-only or read-write)"))
    else
      var k := FindList(lists, userId, id);
      if k == |lists| then Failure(HttpError(404, "List not found"))
      else Success(lists[k := lists[k].(shareMode := ParseShareMode(mode), updatedAt := now)])
  }

  /** `DELETE /:id/share`: the link is removed and the list is private. */
  function DisableSharing(lists: seq<ListDoc>, userId: string, id: string, idValid: bool,
                          now: Time): (r: Result<seq<ListDoc>, HttpError>)
    ensures r.Success? <==> idValid && FindList(lists, userId, id) < |lists|
    ensures r.Success? ==> var k := FindList(lists, userId, id);
      r.value == lists[k := lists[k].(shareId := None, shareMode := Some(NotShared), updatedAt := now)]
  {
    if !idValid then Failure(HttpError(400, "Invalid list ID"))
    else
      var k := FindList(lists, userId, id);
      if k == |lists| then Failure(HttpError(404, "List not found"))
      else Success(lists[k := lists[k].(shareId := None, shareMode := Some(NotShared), updatedAt := now)])
  }

  /** After sharing is disabled, the old link finds nothing of that list. */
  lemma DisabledLinkIsDead(lists: seq<ListDoc>, userId: string, id: string, now: Time, shareId: string)
    requires DisableSharing(lists, userId, id, true, now).Success?
    ensures var after := DisableSharing(lists, userId, id, true, now).value;
      var k := FindList(lists, userId, id);
      GetShared(after, shareId).Success? ==> GetShared(after, shareId).value != after[k]
  {
  }

  /** Once shared read-only, a link finds the list but cannot edit it. */
  lemma ReadOnlyLinkCannotEdit(lists: seq<ListDoc>, userId: string, id: string, random: seq<Byte>, now: Time,
                               input: UpdateListInput)
    requires |random| == 16
    requires EnableSharing(lists, userId, id, true, Some("read-only"), random, now).Success?
    requires forall i :: 0 <= i < |lists| ==> lists[i].shareId != Some(Hex(random))
    ensures var after := EnableSharing(lists, userId, id, true, Some("read-only"), random, now).value;
      GetShared(after, Hex(random)).Success? && UpdateShared(after, Hex(random), input, now).Failure?
  {
    var k := FindList(lists, userId, id);
    var l := lists[k];
    ReadOnlyAt(lists, k, l.(shareId := Some(Hex(random)), shareMode := Some(ReadOnly), updatedAt := now),
               Hex(random), input, now);
  }

  lemma ReadOnlyAt(lists: seq<ListDoc>, k: nat, shared: ListDoc, h: string, input: UpdateListInput, now: Time)
    requires k < |lists| && shared.shareId == Some(h) && shared.shareMode == Some(ReadOnly)
    requires forall i :: 0 <= i < |lists| ==> lists[i].shareId != Some(h)
    ensures GetShared(lists[k := shared], h).Success?
    ensures UpdateShared(lists[k := shared], h, input, now).Failure?
  {
    var after := lists[k := shared];
    assert after[k] in after;
  }

  // ----- Folders -----

  datatype ListFolder = ListFolder(id: string, userId: string, name: string)

  /** The lists of `userId` filed in folder `id`. */
  function ListsIn(lists: seq<ListDoc>, userId: string, id: string): nat {
    |Filter(lists, (l: ListDoc) => l.userId == userId && l.folderId == Some(id))|
  }

  /** `DELETE /folders/:id`: refused while the user still has lists in it. */
  function DeleteFolder(folders: seq<ListFolder>, lists: seq<ListDoc>, userId: string, id: string,
                        idValid: bool): (r: Result<seq<ListFolder>, HttpError>)
    ensures !idValid ==> r == Failure(HttpError(400, "Invalid folder ID"))
    ensures idValid && ListsIn(lists, userId, id) > 0 ==> r.Failure? && r.error.status == 400
    ensures r.Success? ==>
      ListsIn(lists, userId, id) == 0 &&
      (exists k :: 0 <= k < |folders| && folders[k].id == id && folders[k].userId == userId &&
        r.value == RemoveAt(folders, k))
    ensures r.Failure? && r.error.status == 404 <==>
      idValid && ListsIn(lists, userId, id) == 0 &&
      forall k :: 0 <= k < |folders| ==> !(folders[k].id == id && folders[k].userId == userId)
  {
    if !idValid then Failure(HttpError(400, "Invalid folder ID"))
    else if ListsIn(lists, userId, id) > 0 then
      Failure(HttpError(400, "Cannot delete folder with lists. Please move or delete lists first."))
    else
      var k := FindIndex(folders, (f: ListFolder) => f.id == id && f.userId == userId);
      if k == |folders| then Failure(HttpError(404, "Folder not found"))
      else Success(RemoveAt(folders, k))
  }

  /** A deleted folder held none of the user's lists. */
  lemma DeletedFolderWasEmpty(folders: seq<ListFolder>, lists: seq<ListDoc>, userId: string, id: string)
    requires DeleteFolder(folders, lists, userId, id, true).Success?
    ensures forall l :: l in lists && l.userId == userId ==> l.folderId != Some(id)
  {
    forall l | l in lists && l.userId == userId ensures l.folderId != Some(id) {
      FilterMembers(lists, (l: ListDoc) => l.userId == userId && l.folderId == Some(id), l);
    }
  }
}
