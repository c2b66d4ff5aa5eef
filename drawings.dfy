/** The drawings router: file-name sanitising and the checks that keep
    image files inside a drawing's directory, the accepted upload types,
    and the rules for creating and updating drawings and deleting folders. */
module Drawings {
  import opened Wrappers
  import opened Seqs
  import opened Strings
  import opened Calendar

  // ---------------------------------------------------------------------
  // File ids
  // ---------------------------------------------------------------------

  /** The characters the class `[a-zA-Z0-9-_.]` admits. */
  predicate IsFileIdChar(c: char) {
    ('a' <= c <= 'z') || ('A' <= c <= 'Z') || ('0' <= c <= '9') || c == '-' || c == '_' || c == '.'
  }

  /** `sanitizeFileId`: every other character removed. */
  function SanitizeFileId(fileId: string): (r: string)
    ensures |r| <= |fileId|
    ensures forall i :: 0 <= i < |r| ==> IsFileIdChar(r[i])
    ensures forall c :: c in r ==> c in fileId
  {
    if fileId == [] then []
    else (if IsFileIdChar(fileId[0]) then [fileId[0]] else []) + SanitizeFileId(fileId[1..])
  }

  /** A sanitised id is a single path segment. */
  lemma NoSlash(fileId: string)
    ensures '/' !in SanitizeFileId(fileId)
  {
  }

  /** An id made of admitted characters only is kept as it is. */
  lemma {:induction false} SanitizeKeeps(fileId: string)
    requires forall i :: 0 <= i < |fileId| ==> IsFileIdChar(fileId[i])
    ensures SanitizeFileId(fileId) == fileId
  {
    if fileId != [] {
      SanitizeKeeps(fileId[1..]);
    }
  }

  /** Sanitising twice is sanitising once. */
  lemma Idempotent(fileId: string)
    ensures SanitizeFileId(SanitizeFileId(fileId)) == SanitizeFileId(fileId)
  {
    SanitizeKeeps(SanitizeFileId(fileId));
  }

  /** Exactly the ids made of admitted characters are left unchanged. */
  lemma {:induction false} SanitizeChanges(fileId: string)
    ensures SanitizeFileId(fileId) == fileId <==> forall i :: 0 <= i < |fileId| ==> IsFileIdChar(fileId[i])
  {
    if SanitizeFileId(fileId) == fileId {
      assert forall i :: 0 <= i < |fileId| ==> IsFileIdChar(fileId[i]);
    } else if forall i :: 0 <= i < |fileId| ==> IsFileIdChar(fileId[i]) {
      SanitizeKeeps(fileId);
    }
  }

  // ---------------------------------------------------------------------
  // Image paths
  // ---------------------------------------------------------------------

  /** The directory part of a path: everything before its last '/'. */
  function DropLastSegment(p: string): (r: string)
    ensures p != [] ==> |r| < |p|
    ensures r <= p
  {
    if p == [] then []
    else if p[|p| - 1] == '/' then p[..|p| - 1]
    else DropLastSegment(p[..|p| - 1])
  }

  /** `path.join(dir, name)` for one segment without '/': `..` goes up, an
      empty name or `.` stays, any other name is appended. */
  function JoinSegment(dir: string, name: string): string {
    if name == ".." then DropLastSegment(dir)
    else if name == "" || name == "." then dir
    else dir + "/" + name
  }

  predicate StartsWith(s: string, prefix: string) {
    prefix <= s
  }

  /** The answer to an image request. */
  datatype ImageReply = ImageError(error: HttpError) | SendFile(path: string)

  /** `GET /:id/images/:imageId`. `dir` is the drawing's image directory,
      `owned` whether the drawing is the user's, and `realpath` the file
      system's resolution of a path (`None` where it throws). */
  function GetImage(idValid: bool, owned: bool, dir: string, imageId: string,
                    realpath: string -> Option<string>): (r: ImageReply)
    ensures !idValid ==> r == ImageError(HttpError(400, "Invalid drawing ID"))
    ensures idValid && !owned ==> r == ImageError(HttpError(403, "Unauthorized"))
    ensures r.SendFile? ==>
      realpath(JoinSegment(dir, SanitizeFileId(imageId))) == Some(r.path) &&
      realpath(dir).Some? && StartsWith(r.path, realpath(dir).value)
    ensures idValid && owned && realpath(JoinSegment(dir, SanitizeFileId(imageId))).Some? &&
            realpath(dir).Some? ==>
      (r.SendFile? <==>
        StartsWith(realpath(JoinSegment(dir, SanitizeFileId(imageId))).value, realpath(dir).value))
    ensures r.ImageError? && r.error.status == 403 && r.error.message == "Invalid path" ==>
      idValid && owned && realpath(JoinSegment(dir, SanitizeFileId(imageId))).Some? &&
      realpath(dir).Some? &&
      !StartsWith(realpath(JoinSegment(dir, SanitizeFileId(imageId))).value, realpath(dir).value)
  {
    if !idValid then ImageError(HttpError(400, "Invalid drawing ID"))
    else if !owned then ImageError(HttpError(403, "Unauthorized"))
    else
      var imagePath := JoinSegment(dir, SanitizeFileId(imageId));
      var realPath := realpath(imagePath);
      var allowedDir := realpath(dir);
      if realPath.None? || allowedDir.None? then ImageError(HttpError(404, "Image not found"))
      else if !StartsWith(realPath.value, allowedDir.value) then ImageError(HttpError(403, "Invalid path"))
      else SendFile(realPath.value)
  }

  /** Without symbolic links (every path resolves to itself), asking for
      `..` is refused as an invalid path. */
  lemma ParentRefused(dir: string, realpath: string -> Option<string>)
    requires dir != []
    requires realpath(dir) == Some(dir)
    requires realpath(DropLastSegment(dir)) == Some(DropLastSegment(dir))
    ensures GetImage(true, true, dir, "..", realpath) == ImageError(HttpError(403, "Invalid path"))
  {
    assert SanitizeFileId("..") == ".." by {
      SanitizeKeeps("..");
    }
  }

  /** Without symbolic links, any other image id resolves inside the
      drawing's directory, to the directory itself or to one file in it. */
  lemma OtherNamesInside(dir: string, imageId: string, realpath: string -> Option<string>)
    requires SanitizeFileId(imageId) != ".."
    requires realpath(dir) == Some(dir)
    requires realpath(JoinSegment(dir, SanitizeFileId(imageId))) ==
             Some(JoinSegment(dir, SanitizeFileId(imageId)))
    ensures var name := SanitizeFileId(imageId);
      GetImage(true, true, dir, imageId, realpath) ==
        SendFile(if name == "" || name == "." then dir else dir + "/" + name)
  {
  }

  // ---------------------------------------------------------------------
  // Uploads
  // ---------------------------------------------------------------------

  const AllowedTypes: seq<string> := ["image/png", "image/jpeg", "image/webp"]

  /** A sniffed file type: its MIME type and extension. */
  datatype FileType = FileType(mime: string, ext: string)

  /** The answer to a successful upload. */
  datatype UploadReply = UploadReply(imageId: string, url: string, mimeType: string)

  /** `POST /:id/images`. `fileType` is what the content sniffer reports
      (`None` when it recognises nothing) and `imageId` the generated
      `timestamp-random` name. */
  function UploadImage(idValid: bool, hasFile: bool, owned: bool, fileType: Option<FileType>,
                       drawingId: string, imageId: string): (r: Result<UploadReply, HttpError>)
    ensures r.Success? <==>
      idValid && hasFile && owned && fileType.Some? && fileType.value.mime in AllowedTypes
    ensures idValid && hasFile && owned && (fileType.None? || fileType.value.mime !in AllowedTypes) ==>
      r == Failure(HttpError(400, "Invalid image type. Only PNG, JPEG, and WebP are allowed."))
    ensures r.Success? ==>
      r.value.mimeType == fileType.value.mime &&
      r.value.imageId == imageId + "." + fileType.value.ext &&
      r.value.url == "/api/drawings/" + drawingId + "/images/" + r.value.imageId
  {
    if !idValid then Failure(HttpError(400, "Invalid drawing ID"))
    else if !hasFile then Failure(HttpError(400, "No image provided"))
    else if !owned then Failure(HttpError(403, "Unauthorized"))
    else if fileType.None? || fileType.value.mime !in AllowedTypes then
      Failure(HttpError(400, "Invalid image type. Only PNG, JPEG, and WebP are allowed."))
    else
      var fileName := imageId + "." + fileType.value.ext;
      Success(UploadReply(fileName, "/api/drawings/" + drawingId + "/images/" + fileName,
                          fileType.value.mime))
  }

  /** A stored image's name passes sanitising unchanged, so the url it is
      returned under finds it again: the timestamp is digits, the random
      part base-36 digits and the extension letters. */
  lemma UploadedNameSurvives(timestamp: string, random: string, ext: string)
    requires forall i :: 0 <= i < |timestamp| ==> '0' <= timestamp[i] <= '9'
    requires forall i :: 0 <= i < |random| ==> ('0' <= random[i] <= '9') || ('a' <= random[i] <= 'z')
    requires forall i :: 0 <= i < |ext| ==> 'a' <= ext[i] <= 'z'
    ensures var name := timestamp + "-" + random + "." + ext;
      SanitizeFileId(name) == name
  {
    var name := timestamp + "-" + random + "." + ext;
    forall i | 0 <= i < |name| ensures IsFileIdChar(name[i]) {
      if i < |timestamp| {
        assert name[i] == timestamp[i];
      } else if i == |timestamp| {
        assert name[i] == '-';
      } else if i < |timestamp| + 1 + |random| {
        assert name[i] == random[i - |timestamp| - 1];
      } else if i == |timestamp| + 1 + |random| {
        assert name[i] == '.';
      } else {
        assert name[i] == ext[i - |timestamp| - 2 - |random|];
      }
    }
    SanitizeKeeps(name);
  }

  // ---------------------------------------------------------------------
  // Drawings
  // ---------------------------------------------------------------------

  /** Scene data, opaque except for the empty scene
      `{ elements: [], appState: {} }`. */
  datatype Scene = EmptyScene | SceneValue(json: string)

  datatype Drawing = Drawing(id: string, userId: string, title: string, sceneData: Scene,
                             folderId: Option<string>, thumbnail: Option<string>,
                             collaborators: seq<string>, createdAt: Time, updatedAt: Time)

  /** The body of `POST /`; `None` is a missing or `null` field. */
  datatype CreateDrawingInput = CreateDrawingInput(title: Option<string>, sceneData: Option<Scene>,
                                                   folderId: Option<string>)

  /** `POST /`: a title is required; the scene defaults to the empty one,
      the folder to none, and there are no collaborators. */
  function CreateDrawing(userId: string, input: CreateDrawingInput, freshId: string, now: Time)
    : (r: Result<Drawing, HttpError>)
    ensures r.Failure? <==> !Truthy(input.title)
    ensures r.Failure? ==> r.error == HttpError(400, "Title is required")
    ensures r.Success? ==>
      r.value.title == input.title.value && r.value.userId == userId && r.value.id == freshId &&
      r.value.sceneData == input.sceneData.GetOr(EmptyScene) &&
      (r.value.folderId.Some? <==> Truthy(input.folderId)) &&
      (r.value.folderId.Some? ==> r.value.folderId == input.folderId) &&
      r.value.thumbnail.None? && r.value.collaborators == [] &&
      r.value.createdAt == now && r.value.updatedAt == now
  {
    if !Truthy(input.title) then Failure(HttpError(400, "Title is required"))
    else
      Success(Drawing(freshId, userId, input.title.value, input.sceneData.GetOr(EmptyScene),
                      if Truthy(input.folderId) then input.folderId else None, None, [], now, now))
  }

  /** The body of `PUT /:id`. `None` is an omitted field; for `folderId`
      and `thumbnail`, `Some(None)` is an explicit `null`. */
  datatype UpdateDrawingInput = UpdateDrawingInput(title: Option<string>, sceneData: Option<Scene>,
                                                   folderId: Option<Option<string>>,
                                                   thumbnail: Option<Option<string>>)

  /** The guard of `PUT /:id`: no truthy title, scene or thumbnail and no
      folder id at all. */
  predicate NothingToUpdate(input: UpdateDrawingInput) {
    !Truthy(input.title) && input.sceneData.None? && input.folderId.None? &&
    !(input.thumbnail.Some? && Truthy(input.thumbnail.value))
  }

  /** The drawing after `$set: updateData`: the title and scene only when
      truthy, the folder and thumbnail whenever they are given, even as
      `null` or an empty string. */
  function ApplyUpdate(d: Drawing, input: UpdateDrawingInput, now: Time): (u: Drawing)
    ensures u.id == d.id && u.userId == d.userId && u.collaborators == d.collaborators
    ensures u.createdAt == d.createdAt && u.updatedAt == now
    ensures u.title == if Truthy(input.title) then input.title.value else d.title
    ensures u.sceneData == input.sceneData.GetOr(d.sceneData)
    ensures u.folderId == input.folderId.GetOr(d.folderId)
    ensures u.thumbnail == input.thumbnail.GetOr(d.thumbnail)
  {
    d.(title := if Truthy(input.title) then input.title.value else d.title,
       sceneData := input.sceneData.GetOr(d.sceneData),
       folderId := input.folderId.GetOr(d.folderId),
       thumbnail := input.thumbnail.GetOr(d.thumbnail),
       updatedAt := now)
  }

  /** The user's drawing with id `id`, found by index. */
  function FindDrawing(drawings: seq<Drawing>, userId: string, id: string): (k: nat)
    ensures k <= |drawings|
    ensures k < |drawings| ==> drawings[k].id == id && drawings[k].userId == userId
    ensures k == |drawings| <==>
      forall i :: 0 <= i < |drawings| ==> !(drawings[i].id == id && drawings[i].userId == userId)
  {
    FindIndex(drawings, (d: Drawing) => d.id == id && d.userId == userId)
  }

  /** `PUT /:id`: the stored drawings after the update. */
  function UpdateDrawing(drawings: seq<Drawing>, userId: string, id: string, idValid: bool,
                         input: UpdateDrawingInput, now: Time): (r: Result<seq<Drawing>, HttpError>)
    ensures !idValid ==> r == Failure(HttpError(400, "Invalid drawing ID"))
    ensures idValid && NothingToUpdate(input) ==> r == Failure(HttpError(400, "Nothing to update"))
    ensures r.Failure? && r.error.status == 404 <==>
      idValid && !NothingToUpdate(input) &&
      forall i :: 0 <= i < |drawings| ==> !(drawings[i].id == id && drawings[i].userId == userId)
    ensures r.Success? ==>
      exists k :: 0 <= k < |drawings| && drawings[k].id == id && drawings[k].userId == userId &&
        r.value == drawings[k := ApplyUpdate(drawings[k], input, now)]
  {
    if !idValid then Failure(HttpError(400, "Invalid drawing ID"))
    else if NothingToUpdate(input) then Failure(HttpError(400, "Nothing to update"))
    else
      var k := FindDrawing(drawings, userId, id);
      if k == |drawings| then Failure(HttpError(404, "Drawing not found"))
      else Success(drawings[k := ApplyUpdate(drawings[k], input, now)])
  }

  /** An empty thumbnail on its own is "nothing to update", yet next to a
      title it is written. */
  lemma EmptyThumbnailWritten(d: Drawing, title: string, now: Time)
    requires title != ""
    ensures NothingToUpdate(UpdateDrawingInput(None, None, None, Some(Some(""))))
    ensures ApplyUpdate(d, UpdateDrawingInput(Some(title), None, None, Some(Some(""))), now).thumbnail == Some("")
  {
  }

  /** Updating twice with the same body is updating once, up to the time. */
  lemma UpdateTwice(d: Drawing, input: UpdateDrawingInput, t1: Time, t2: Time)
    ensures ApplyUpdate(ApplyUpdate(d, input, t1), input, t2) == ApplyUpdate(d, input, t2)
  {
  }

  // ---------------------------------------------------------------------
  // Folders
  // ---------------------------------------------------------------------

  datatype DrawingFolder = DrawingFolder(id: string, userId: string, name: string)

  /** `POST /folders`: a blank name is refused; the name is stored trimmed. */
  function CreateFolder(userId: string, name: Option<string>, freshId: string): (r: Result<DrawingFolder, HttpError>)
    ensures r.Failure? <==> name.None? || IsBlank(name.value)
    ensures r.Failure? ==> r.error == HttpError(400, "Folder name is required")
    ensures r.Success? ==> r.value == DrawingFolder(freshId, userId, Trim(name.value)) && r.value.name != ""
  {
    if name.None? || Trim(name.value) == "" then Failure(HttpError(400, "Folder name is required"))
    else Success(DrawingFolder(freshId, userId, Trim(name.value)))
  }

  /** The drawings of `userId` filed in folder `id`. */
  function DrawingsIn(drawings: seq<Drawing>, userId: string, id: string): nat {
    |Filter(drawings, (d: Drawing) => d.userId == userId && d.folderId == Some(id))|
  }

  /** `DELETE /folders/:id`: refused while the user still has drawings in
      the folder. */
  function DeleteFolder(folders: seq<DrawingFolder>, drawings: seq<Drawing>, userId: string, id: string,
                        idValid: bool): (r: Result<seq<DrawingFolder>, HttpError>)
    ensures !idValid ==> r == Failure(HttpError(400, "Invalid folder ID"))
    ensures idValid && DrawingsIn(drawings, userId, id) > 0 ==>
      r == Failure(HttpError(400, "Cannot delete folder with drawings. Please move or delete drawings first."))
    ensures r.Success? ==>
      DrawingsIn(drawings, userId, id) == 0 &&
      (exists k :: 0 <= k < |folders| && folders[k].id == id && folders[k].userId == userId &&
        r.value == RemoveAt(folders, k))
    ensures r.Failure? && r.error.status == 404 <==>
      idValid && DrawingsIn(drawings, userId, id) == 0 &&
      forall k :: 0 <= k < |folders| ==> !(folders[k].id == id && folders[k].userId == userId)
  {
    if !idValid then Failure(HttpError(400, "Invalid folder ID"))
    else if DrawingsIn(drawings, userId, id) > 0 then
      Failure(HttpError(400, "Cannot delete folder with drawings. Please move or delete drawings first."))
    else
      var k := FindIndex(folders, (f: DrawingFolder) => f.id == id && f.userId == userId);
      if k == |folders| then Failure(HttpError(404, "Folder not found"))
      else Success(RemoveAt(folders, k))
  }

  /** A deleted folder held none of the user's drawings. */
  lemma DeletedFolderWasEmpty(folders: seq<DrawingFolder>, drawings: seq<Drawing>, userId: string, id: string)
    requires DeleteFolder(folders, drawings, userId, id, true).Success?
    ensures forall d :: d in drawings && d.userId == userId ==> d.folderId != Some(id)
  {
    forall d | d in drawings && d.userId == userId ensures d.folderId != Some(id) {
      FilterMembers(drawings, (d: Drawing) => d.userId == userId && d.folderId == Some(id), d);
    }
  }
}
