/** A note's card in the notes grid: how many grid rows it spans, which
    tags and how many of them it shows, and its reminder badge. */
module NoteCard {
  import opened Wrappers
  import opened Seqs
  import opened Strings
  import opened ReminderUtils
  import opened ReminderList

  const UntitledNote: string := "Untitled Note"

  /** The note fields the card reads; `None` is a missing field. */
  datatype Note = Note(title: Option<string>, content: string, tags: Option<seq<string>>,
                       reminders: Option<seq<Reminder>>)

  /** `note.title || 'Untitled Note'`. */
  function DisplayTitle(title: Option<string>): (t: string)
    ensures Truthy(title) ==> t == title.value
    ensures !Truthy(title) ==> t == UntitledNote
    ensures t != ""
  {
    if Truthy(title) then title.value else UntitledNote
  }

  /** The length that decides the card's size. */
  function TotalLength(note: Note): nat {
    |note.content| + |DisplayTitle(note.title)|
  }

  /** The rows a card of that length spans. */
  function RowSpanOf(total: nat): (r: nat)
    ensures 1 <= r <= 4
    ensures r == 1 <==> total <= 100
    ensures r == 2 <==> 100 < total <= 250
    ensures r == 3 <==> 250 < total <= 500
    ensures r == 4 <==> total > 500
  {
    if total <= 100 then 1 else if total <= 250 then 2 else if total <= 500 then 3 else 4
  }

  function RowSpan(note: Note): (r: nat)
    ensures 1 <= r <= 4
  {
    RowSpanOf(TotalLength(note))
  }

  /** A longer note never gets a smaller card. */
  lemma RowSpanMonotone(a: Note, b: Note)
    requires TotalLength(a) <= TotalLength(b)
    ensures RowSpan(a) <= RowSpan(b)
  {
  }

  /** A missing or empty title counts as the thirteen characters of
      "Untitled Note". */
  lemma MissingTitleCounts(note: Note)
    requires !Truthy(note.title)
    ensures TotalLength(note) == |note.content| + 13
  {
  }

  predicate NotDefault(tag: string) {
    tag != "default"
  }

  /** The tags shown: all but the `'default'` sentinel, in order. */
  function VisibleTags(tags: Option<seq<string>>): (r: seq<string>)
    ensures "default" !in r
    ensures forall t :: t in r <==> tags.Some? && t in tags.value && t != "default"
  {
    var all := tags.GetOr([]);
    var r := Filter(all, NotDefault);
    forall t ensures t in r <==> tags.Some? && t in all && t != "default" {
      FilterMembers(all, NotDefault, t);
    }
    r
  }

  /** The number on the reminder badge: the enabled reminders. */
  function ActiveRemindersCount(reminders: Option<seq<Reminder>>): (n: nat)
    ensures reminders.None? ==> n == 0
    ensures reminders.Some? ==> n <= |reminders.value|
  {
    |ActiveReminders(reminders.GetOr([]))|
  }

  /** The badge counts exactly the enabled reminders: the disabled ones make
      up the rest. */
  lemma ActiveCountComplement(rs: seq<Reminder>)
    ensures ActiveRemindersCount(Some(rs)) + |CompletedReminders(rs)| == |rs|
  {
    ActiveCompletedPartition(rs);
  }

  /** The badge's tool tip: the count in decimal, then the noun, plural
      unless the count is exactly one. */
  function BadgeTitle(count: nat): (t: string)
    ensures var d := |Decimal(count)|;
      d <= |t| && DigitsValue(t[..d]) == count &&
      t[d..] == (if count == 1 then " active reminder" else " active reminders")
  {
    var t := Decimal(count) + " active reminder" + (if count != 1 then "s" else "");
    assert t[..|Decimal(count)|] == Decimal(count);
    DecimalRoundTrip(count);
    t
  }

  /** The tag pills: at most three tags, and a `+n` pill for the rest. */
  function Pills(visible: seq<string>): (r: (seq<string>, Option<nat>))
    ensures |r.0| <= 3 && r.0 <= visible
    ensures r.1.Some? <==> |visible| > 3
    ensures |r.0| + r.1.GetOr(0) == |visible|
  {
    if |visible| > 3 then (visible[..3], Some(|visible| - 3)) else (visible, None)
  }

  /** The pills account for every visible tag: the ones shown and the
      count of the hidden ones. */
  lemma PillsCoverTags(visible: seq<string>)
    ensures var (shown, more) := Pills(visible);
      shown + visible[|shown|..] == visible && more.GetOr(0) == |visible[|shown|..]|
  {
  }
}
