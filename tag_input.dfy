/** The tag editor of notes: the chosen tags, the suggestion list, adding
    and removing tags and the keyboard handling. `'default'` stands for
    "no tags" and is never shown as a chosen tag. */
module TagInput {
  import opened Wrappers
  import opened Seqs
  import opened Strings

  const DefaultTag: string := "default"
  const MaxSuggestions: nat := 10

  /** `s.filter(t => t !== x)` */
  function Drop(s: seq<string>, x: string): (r: seq<string>)
    ensures x !in r
    ensures forall t :: t in r <==> t in s && t != x
    ensures |r| <= |s|
  {
    if s == [] then [] else (if s[0] == x then [] else [s[0]]) + Drop(s[1..], x)
  }

  lemma {:induction false} DropAbsent(s: seq<string>, x: string)
    requires x !in s
    ensures Drop(s, x) == s
  {
    if s != [] {
      DropAbsent(s[1..], x);
    }
  }

  lemma {:induction false} DropAppend(a: seq<string>, b: seq<string>, x: string)
    ensures Drop(a + b, x) == Drop(a, x) + Drop(b, x)
  {
    if a == [] {
      assert a + b == b;
    } else {
      assert (a + b)[1..] == a[1..] + b;
      DropAppend(a[1..], b, x);
    }
  }

  /** `tags.filter(tag => tag !== 'default')` */
  function Chosen(tags: seq<string>): (r: seq<string>)
    ensures DefaultTag !in r
    ensures forall t :: t in r <==> t in tags && t != DefaultTag
    ensures |r| <= |tags|
  {
    Drop(tags, DefaultTag)
  }

  /** An available tag offered for the typed text. */
  predicate Offered(tag: string, tags: seq<string>, input: string) {
    tag !in Chosen(tags) && Includes(Lower(tag), Lower(input))
  }

  /** The first ten offered tags, in the order of `available`. */
  function Suggestions(available: seq<string>, tags: seq<string>, input: string): (r: seq<string>)
    ensures |r| <= MaxSuggestions
    ensures forall i :: 0 <= i < |r| ==> r[i] in available && Offered(r[i], tags, input)
  {
    var all := Filter(available, (t: string) => Offered(t, tags, input));
    if |all| <= MaxSuggestions then all else all[..MaxSuggestions]
  }

  /** When fewer than ten tags are suggested, none is missing. */
  lemma SuggestionsComplete(available: seq<string>, tags: seq<string>, input: string, tag: string)
    requires |Suggestions(available, tags, input)| < MaxSuggestions
    requires tag in available && Offered(tag, tags, input)
    ensures tag in Suggestions(available, tags, input)
  {
    FilterMembers(available, (t: string) => Offered(t, tags, input), tag);
  }

  /** Suggestions keep the order of the available tags. */
  lemma SuggestionsInOrder(available: seq<string>, tags: seq<string>, input: string)
    ensures var all := Filter(available, (t: string) => Offered(t, tags, input));
      var r := Suggestions(available, tags, input);
      r <= all
  {
  }

  /** `addTag(tag)`: the tags it emits, if any. */
  function AddTag(tags: seq<string>, tag: string): (r: Option<seq<string>>)
    ensures r.None? <==> Lower(Trim(tag)) == "" || Lower(Trim(tag)) in Chosen(tags)
    ensures r.Some? ==> r.value == Chosen(tags) + [Lower(Trim(tag))]
  {
    var t := Lower(Trim(tag));
    if t == "" || t in Chosen(tags) then None else Some(Chosen(tags) + [t])
  }

  /** Adding keeps the chosen tags free of duplicates. */
  lemma AddTagNoDuplicates(tags: seq<string>, tag: string)
    requires NoDuplicates(Chosen(tags)) && AddTag(tags, tag).Some?
    ensures NoDuplicates(AddTag(tags, tag).value)
  {
  }

  /** `removeTag(tag)`: `['default']` once no tag remains. */
  function RemoveTag(tags: seq<string>, tag: string): (r: seq<string>)
    ensures r != []
    ensures r == [DefaultTag] <==> forall t :: t in tags && t != DefaultTag ==> t == tag
    ensures r != [DefaultTag] ==> forall t :: t in r <==> t in tags && t != DefaultTag && t != tag
  {
    var rest := Drop(Chosen(tags), tag);
    if |rest| > 0 then
      assert rest[0] in rest;
      rest
    else [DefaultTag]
  }

  /** Removing a tag just added gives back the tags chosen before. */
  lemma RemoveUndoesAdd(tags: seq<string>, tag: string)
    requires AddTag(tags, tag).Some? && Lower(Trim(tag)) != DefaultTag
    ensures var after := RemoveTag(AddTag(tags, tag).value, Lower(Trim(tag)));
      Chosen(after) == Chosen(tags)
  {
    var t := Lower(Trim(tag));
    var before := Chosen(tags);
    var added := before + [t];
    DropAppend(before, [t], DefaultTag);
    DropAbsent(before, DefaultTag);
    assert Drop([t], DefaultTag) == [t];
    assert Chosen(added) == added;
    DropAppend(before, [t], t);
    DropAbsent(before, t);
    assert Drop([t], t) == [];
    if before != [] {
      assert RemoveTag(added, t) == before;
    } else {
      assert RemoveTag(added, t) == [DefaultTag];
      assert Drop([DefaultTag], DefaultTag) == [];
    }
  }

  /** The editor's own state. */
  datatype State = State(inputValue: string, showSuggestions: bool, selected: int)

  datatype Key = Enter | Backspace | ArrowDown | ArrowUp | Escape | OtherKey

  /** Typing: the field shows suggestions while it is not empty, and a new
      value resets the highlight. */
  function InputChange(s: State, value: string): (r: State)
    ensures r == State(value, |value| > 0, 0)
  {
    State(value, |value| > 0, 0)
  }

  /** The state after a tag is added. */
  function Cleared(s: State): State {
    State("", false, 0)
  }

  /** `handleKeyDown`: the new state and the tags emitted, if any. An
      Enter on a highlight past the end of the suggestions emits nothing. */
  function HandleKey(s: State, key: Key, tags: seq<string>, available: seq<string>): (r: (State, Option<seq<string>>))
    ensures key == Enter && r.1.Some? ==> r.0 == Cleared(s)
    ensures key == Enter && r.1.None? ==> r.0 == s
    ensures key == Enter && !(s.showSuggestions && |Suggestions(available, tags, s.inputValue)| > 0) ==>
      r.1 == (if Trim(s.inputValue) != "" then AddTag(tags, s.inputValue) else None)
    ensures key == Enter && s.showSuggestions &&
            0 <= s.selected < |Suggestions(available, tags, s.inputValue)| ==>
      r.1 == AddTag(tags, Suggestions(available, tags, s.inputValue)[s.selected])
    ensures key == ArrowDown ==>
      var n := |Suggestions(available, tags, s.inputValue)|;
      r.0 == (if s.showSuggestions && s.selected + 1 < n then s.(selected := s.selected + 1) else s)
    ensures key == ArrowUp ==>
      r.0 == (if s.showSuggestions && s.selected > 0 then s.(selected := s.selected - 1) else s)
    ensures key == Backspace ==>
      r.0 == s &&
      (r.1.Some? <==> s.inputValue == "" && Chosen(tags) != []) &&
      (r.1.Some? ==> r.1.value == RemoveTag(tags, Chosen(tags)[|Chosen(tags)| - 1]))
    ensures key in {ArrowDown, ArrowUp, Escape, OtherKey} ==> r.1.None?
    ensures key == Escape ==> r.0 == s.(showSuggestions := false)
    ensures key == OtherKey ==> r.0 == s
  {
    var sugg := Suggestions(available, tags, s.inputValue);
    match key
    case Enter =>
      var emitted :=
        if s.showSuggestions && |sugg| > 0 then
          (if 0 <= s.selected < |sugg| then AddTag(tags, sugg[s.selected]) else None)
        else if Trim(s.inputValue) != "" then AddTag(tags, s.inputValue)
        else None;
      (if emitted.Some? then Cleared(s) else s, emitted)
    case Backspace =>
      if s.inputValue == "" && |Chosen(tags)| > 0 then (s, Some(RemoveTag(tags, Chosen(tags)[|Chosen(tags)| - 1])))
      else (s, None)
    case ArrowDown =>
      if s.showSuggestions && s.selected < |sugg| - 1 then (s.(selected := s.selected + 1), None) else (s, None)
    case ArrowUp =>
      if s.showSuggestions && s.selected > 0 then (s.(selected := s.selected - 1), None) else (s, None)
    case Escape => (s.(showSuggestions := false), None)
    case OtherKey => (s, None)
  }

  /** The arrow keys keep the highlight on a suggestion (or at 0 when
      there is none). */
  lemma ArrowsStayInRange(s: State, key: Key, tags: seq<string>, available: seq<string>)
    requires key == ArrowDown || key == ArrowUp
    requires var n := |Suggestions(available, tags, s.inputValue)|;
      0 <= s.selected <= if n > 0 then n - 1 else 0
    ensures var n := |Suggestions(available, tags, s.inputValue)|;
      var t := HandleKey(s, key, tags, available).0;
      t.inputValue == s.inputValue && 0 <= t.selected <= if n > 0 then n - 1 else 0
  {
  }

  /** Enter on a highlighted suggestion adds that suggestion. */
  lemma EnterAddsHighlighted(s: State, tags: seq<string>, available: seq<string>)
    requires s.showSuggestions
    requires 0 <= s.selected < |Suggestions(available, tags, s.inputValue)|
    ensures var tag := Suggestions(available, tags, s.inputValue)[s.selected];
      HandleKey(s, Enter, tags, available).1 == AddTag(tags, tag)
  {
  }
}
