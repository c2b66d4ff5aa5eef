/** The journal screen: the title and subtitle a journal is saved with are
    read off its content, and folders and journals are expanded and
    collapsed in the explorer. */
module Journal {
  import opened Wrappers
  import opened Strings

  const UntitledJournal: string := "Untitled Journal"

  /** The first match of the regular expression `^#\s*` removed: one
      leading '#' and the white space after it. */
  function StripHash(s: string): (r: string)
    ensures |s| > 0 && s[0] == '#' ==> r == TrimStart(s[1..])
    ensures !(|s| > 0 && s[0] == '#') ==> r == s
    ensures |r| <= |s|
  {
    if |s| > 0 && s[0] == '#' then TrimStart(s[1..]) else s
  }

  /** Only one '#' comes off: "## x" becomes "# x". */
  lemma OneHashOnly(x: string)
    ensures StripHash("## " + x) == "# " + x
  {
    assert ("## " + x)[1..] == "# " + x;
  }

  /** A heading "# x" gives x, once x starts with a non-space. */
  lemma HeadingText(spaces: string, x: string)
    requires IsBlank(spaces)
    requires |x| > 0 && !IsSpace(x[0])
    ensures StripHash("#" + spaces + x) == x
  {
    assert ("#" + spaces + x)[1..] == spaces + x;
    TrimStartBlank(spaces, x);
  }

  /** The title: the first line, trimmed and without a heading mark, unless
      that is empty. */
  function ParseTitle(lines: seq<string>): (title: string)
    ensures title != ""
    ensures |lines| > 0 && Trim(lines[0]) != "" && StripHash(Trim(lines[0])) != "" ==>
      title == StripHash(Trim(lines[0]))
    ensures !(|lines| > 0 && Trim(lines[0]) != "" && StripHash(Trim(lines[0])) != "") ==>
      title == UntitledJournal
  {
    if |lines| > 0 && Trim(lines[0]) != "" then
      var t := StripHash(Trim(lines[0]));
      if t != "" then t else UntitledJournal
    else UntitledJournal
  }

  /** Every line trimmed. */
  function TrimAll(lines: seq<string>): (r: seq<string>)
    ensures |r| == |lines| && forall i :: 0 <= i < |lines| ==> r[i] == Trim(lines[i])
  {
    seq(|lines|, i requires 0 <= i < |lines| => Trim(lines[i]))
  }

  /** The non-empty strings, in order. */
  function NonEmpty(ts: seq<string>): (r: seq<string>)
    ensures |r| <= |ts|
  {
    if |ts| == 0 then [] else NonEmpty(ts[..|ts| - 1]) + (if ts[|ts| - 1] != "" then [ts[|ts| - 1]] else [])
  }

  lemma NonEmptyStep(ts: seq<string>, i: nat)
    requires i < |ts|
    ensures NonEmpty(ts[..i + 1]) == NonEmpty(ts[..i]) + (if ts[i] != "" then [ts[i]] else [])
  {
    assert ts[..i + 1][..i] == ts[..i];
  }

  /** The non-empty strings of a prefix start those of the whole. */
  lemma {:induction false} NonEmptyPrefix(ts: seq<string>, i: nat)
    requires i <= |ts|
    ensures |NonEmpty(ts[..i])| <= |NonEmpty(ts)|
    ensures NonEmpty(ts)[..|NonEmpty(ts[..i])|] == NonEmpty(ts[..i])
    decreases |ts| - i
  {
    if i == |ts| {
      assert ts[..i] == ts;
    } else {
      NonEmptyPrefix(ts, i + 1);
      NonEmptyStep(ts, i);
      var a := NonEmpty(ts[..i]);
      var b := NonEmpty(ts[..i + 1]);
      var p := NonEmpty(ts);
      assert b[..|a|] == a;
      assert p[..|a|] == p[..|b|][..|a|];
    }
  }

  /** The trimmed non-blank lines, in order. */
  function Populated(lines: seq<string>): seq<string> {
    NonEmpty(TrimAll(lines))
  }

  /** The subtitle read off the lines: the second populated line without a
      heading mark, or `default` when there is none. */
  function Subtitle(lines: seq<string>, default: string): string {
    var p := Populated(lines);
    if |p| >= 2 then StripHash(p[1]) else default
  }

  /** The loop of `handleSaveJournal`: the first populated line is passed
      over, and the second one, if any, gives the subtitle. */
  method ParseSubtitle(lines: seq<string>, default: string) returns (subtitle: string)
    ensures subtitle == Subtitle(lines, default)
  {
    ghost var ts := TrimAll(lines);
    subtitle := default;
    var foundTitle := false;
    for i := 0 to |lines|
      invariant |NonEmpty(ts[..i])| <= 1 && (foundTitle <==> |NonEmpty(ts[..i])| == 1)
      invariant subtitle == default
    {
      var line := Trim(lines[i]);
      assert line == ts[i];
      SecondAt(ts, i);
      if line != "" {
        if !foundTitle {
          foundTitle := true;
        } else {
          subtitle := StripHash(line);
          return;
        }
      }
    }
    assert ts[..|lines|] == ts;
  }

  /** One line of the loop: it extends the non-empty lines, and when it is
      the second one it is the second of the whole. */
  lemma SecondAt(ts: seq<string>, i: nat)
    requires i < |ts|
    ensures NonEmpty(ts[..i + 1]) == NonEmpty(ts[..i]) + (if ts[i] != "" then [ts[i]] else [])
    ensures |NonEmpty(ts[..i])| == 1 && ts[i] != "" ==> |NonEmpty(ts)| >= 2 && NonEmpty(ts)[1] == ts[i]
  {
    NonEmptyStep(ts, i);
    if |NonEmpty(ts[..i])| == 1 && ts[i] != "" {
      NonEmptyPrefix(ts, i + 1);
      assert NonEmpty(ts[..i + 1])[1] == ts[i];
    }
  }

  /** What a save sends: the parsed title and subtitle and the content as
      typed. */
  datatype JournalUpdate = JournalUpdate(title: string, subtitle: string, content: string)

  /** `handleSaveJournal` for the open journal, `today` being the rendered
      current date: nothing is sent without a saved journal. */
  method HandleSaveJournal(journalId: Option<string>, content: string, today: string)
    returns (update: Option<JournalUpdate>)
    ensures journalId.None? || journalId.value == "" ==> update.None?
    ensures Truthy(journalId) ==>
      update == Some(JournalUpdate(ParseTitle(Split(content, '\n')),
                                   Subtitle(Split(content, '\n'), today), content))
  {
    if !Truthy(journalId) {
      return None;
    }
    var lines := Split(content, '\n');
    var title := ParseTitle(lines);
    var subtitle := ParseSubtitle(lines, today);
    update := Some(JournalUpdate(title, subtitle, content));
  }

  /** The title comes from the first line only, while the subtitle counts
      populated lines: after a blank first line the title is the default
      and the subtitle is the second populated line. */
  lemma BlankFirstLine(lines: seq<string>, today: string)
    requires |lines| == 3
    requires Trim(lines[0]) == "" && Trim(lines[1]) != "" && Trim(lines[2]) != ""
    ensures ParseTitle(lines) == UntitledJournal
    ensures Subtitle(lines, today) == StripHash(Trim(lines[2]))
  {
    var ts := TrimAll(lines);
    assert ts == ["", ts[1], ts[2]];
    BlankThenTwo(ts[1], ts[2]);
  }

  lemma BlankThenTwo(x: string, y: string)
    requires x != "" && y != ""
    ensures NonEmpty(["", x, y]) == [x, y]
  {
    var ts := ["", x, y];
    assert ts[..0] == [];
    NonEmptyStep(ts, 0);
    NonEmptyStep(ts, 1);
    NonEmptyStep(ts, 2);
    assert ts[..3] == ts;
  }

  // ---------------------------------------------------------------------
  // The explorer
  // ---------------------------------------------------------------------

  /** `toggleFolder` / `toggleJournal`: the id's membership is flipped. */
  function Toggle(expanded: set<string>, id: string): (r: set<string>)
    ensures id in r <==> id !in expanded
    ensures forall x :: x != id ==> (x in r <==> x in expanded)
  {
    if id in expanded then expanded - {id} else expanded + {id}
  }

  /** Toggling twice restores the set. */
  lemma ToggleTwice(expanded: set<string>, id: string)
    ensures Toggle(Toggle(expanded, id), id) == expanded
  {
  }

  /** Toggles of different ids commute. */
  lemma ToggleCommutes(expanded: set<string>, a: string, b: string)
    ensures Toggle(Toggle(expanded, a), b) == Toggle(Toggle(expanded, b), a)
  {
  }

  /** A folder as the explorer keeps it. */
  datatype Folder = Folder(id: Option<string>, name: string)

  /** `handleCreateFolder`: a blank name does nothing; otherwise the
      trimmed name is requested. */
  function FolderRequest(newFolderName: string): (r: Option<string>)
    ensures r.None? <==> IsBlank(newFolderName)
    ensures r.Some? ==> r.value == Trim(newFolderName) && r.value != ""
  {
    if Trim(newFolderName) == "" then None else Some(Trim(newFolderName))
  }

  /** The explorer after the server created `created`: the folder is
      appended and, when it has an id, expanded. */
  function FolderCreated(folders: seq<Folder>, expanded: set<string>, created: Folder)
    : (r: (seq<Folder>, set<string>))
    ensures r.0 == folders + [created]
    ensures Truthy(created.id) ==> r.1 == expanded + {created.id.value}
    ensures !Truthy(created.id) ==> r.1 == expanded
  {
    (folders + [created], if Truthy(created.id) then expanded + {created.id.value} else expanded)
  }
}
