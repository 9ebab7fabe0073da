/**
 * The "Add Entry and Fields" window: two text boxes and a row of quick
 * buttons feed two lists shared by every window, the entries typed so far
 * and the fields pending for the next entry. Adding an entry empties the
 * pending fields.
 */
module AddEntry {

  /** The quick buttons. */
  datatype QuickField = Author | Title | Id | Date | Website

  /** The field name each quick button adds. */
  function QuickName(q: QuickField): (name: string)
    ensures name != ""
    ensures name == "Author" <==> q == Author
    ensures name == "Title" <==> q == Title
    ensures name == "ID" <==> q == Id
    ensures name == "Date" <==> q == Date
    ensures name == "Website" <==> q == Website
  {
    match q
    case Author => "Author"
    case Title => "Title"
    case Id => "ID"
    case Date => "Date"
    case Website => "Website"
  }

  /** What happened to the two lists, in order. */
  datatype Event = EntryAdded(text: string) | FieldAdded(name: string) | FieldsCleared

  /** An event that empties the pending fields. */
  predicate Resets(e: Event) {
    e.EntryAdded? || e.FieldsCleared?
  }

  /** The entries a history adds, in order. */
  function EntriesOf(h: seq<Event>): seq<string>
    decreases |h|
  {
    if |h| == 0 then []
    else
      var e := h[|h| - 1];
      EntriesOf(h[..|h| - 1]) + (if e.EntryAdded? then [e.text] else [])
  }

  /** The fields a history adds, in order, whatever resets come between. */
  function FieldsOf(h: seq<Event>): seq<string>
    decreases |h|
  {
    if |h| == 0 then []
    else
      var e := h[|h| - 1];
      FieldsOf(h[..|h| - 1]) + (if e.FieldAdded? then [e.name] else [])
  }

  /** The fields pending after a history: those added since the last reset. */
  function PendingOf(h: seq<Event>): (r: seq<string>)
    ensures |r| <= |h|
    decreases |h|
  {
    if |h| == 0 then []
    else
      var e := h[|h| - 1];
      match e
      case FieldAdded(name) => PendingOf(h[..|h| - 1]) + [name]
      case _ => []
  }

  /** The pending fields are the latest fields ever added, in order. */
  lemma {:induction false} PendingIsLatest(h: seq<Event>)
    ensures |PendingOf(h)| <= |FieldsOf(h)|
    ensures PendingOf(h) == FieldsOf(h)[|FieldsOf(h)| - |PendingOf(h)|..]
    decreases |h|
  {
    if |h| > 0 && h[|h| - 1].FieldAdded? {
      var name := h[|h| - 1].name;
      var before := FieldsOf(h[..|h| - 1]);
      var pending := PendingOf(h[..|h| - 1]);
      PendingIsLatest(h[..|h| - 1]);
      assert before[|before| - |pending|..] + [name] == (before + [name])[|before| + 1 - (|pending| + 1)..];
    }
  }

  /** A history only ever adds entries: the entries of a longer history extend those of a prefix. */
  lemma {:induction false} EntriesOfAppend(h1: seq<Event>, h2: seq<Event>)
    ensures EntriesOf(h1 + h2) == EntriesOf(h1) + EntriesOf(h2)
    decreases |h2|
  {
    if |h2| == 0 {
      assert h1 + h2 == h1;
    } else {
      var e := h2[|h2| - 1];
      assert (h1 + h2)[..|h1 + h2| - 1] == h1 + h2[..|h2| - 1];
      EntriesOfAppend(h1, h2[..|h2| - 1]);
    }
  }

  /**
   * The pending fields are exactly the fields added after the last reset:
   * whatever came before an entry was added or the list was cleared is gone.
   */
  lemma {:induction false} PendingSinceReset(h1: seq<Event>, reset: Event, h2: seq<Event>)
    requires Resets(reset)
    requires forall k :: 0 <= k < |h2| ==> !Resets(h2[k])
    ensures PendingOf(h1 + [reset] + h2) == FieldsOf(h2)
    decreases |h2|
  {
    var h := h1 + [reset] + h2;
    if |h2| == 0 {
      assert h[|h| - 1] == reset;
    } else {
      assert h[|h| - 1] == h2[|h2| - 1];
      assert h[..|h| - 1] == h1 + [reset] + h2[..|h2| - 1];
      PendingSinceReset(h1, reset, h2[..|h2| - 1]);
    }
  }

  /** With no reset at all, every field ever added is pending. */
  lemma {:induction false} PendingWithoutReset(h: seq<Event>)
    requires forall k :: 0 <= k < |h| ==> !Resets(h[k])
    ensures PendingOf(h) == FieldsOf(h)
    decreases |h|
  {
    if |h| > 0 {
      PendingWithoutReset(h[..|h| - 1]);
    }
  }

  /** The shared state of the window: the two static lists and the two text boxes. */
  class AddEntryWindow {
    var entries: seq<string>
    var fields: seq<string>
    var entryText: string
    var fieldText: string
    /** Everything the buttons have done to the lists. */
    ghost var history: seq<Event>

    /** The lists are those the history has built. */
    ghost predicate Valid()
      reads this
    {
      entries == EntriesOf(history) && fields == PendingOf(history)
    }

    /** The lists as they are when the class is loaded, and two empty text boxes. */
    constructor ()
      ensures Valid() && history == []
      ensures entries == [] && fields == [] && entryText == "" && fieldText == ""
    {
      entries := [];
      fields := [];
      entryText := "";
      fieldText := "";
      history := [];
    }

    /** Typing into the entry box. */
    method TypeEntry(text: string)
      modifies this
      ensures entryText == text
      ensures entries == old(entries) && fields == old(fields) && fieldText == old(fieldText)
      ensures history == old(history)
    {
      entryText := text;
    }

    /** Typing into the field box. */
    method TypeField(text: string)
      modifies this
      ensures fieldText == text
      ensures entries == old(entries) && fields == old(fields) && entryText == old(entryText)
      ensures history == old(history)
    {
      fieldText := text;
    }

    /**
     * ClearFieldsList: the pending fields are emptied, the entries kept. It
     * needs only the entries to agree with the history, since the "Add
     * Entry" button calls it after recording the entry.
     */
    method ClearFieldsList()
      modifies this
      requires entries == EntriesOf(history)
      ensures Valid() && history == old(history) + [FieldsCleared]
      ensures fields == [] && entries == old(entries)
      ensures entryText == old(entryText) && fieldText == old(fieldText)
    {
      fields := [];
      history := history + [FieldsCleared];
    }

    /**
     * The "Add Entry" button: the typed text becomes the next entry, the
     * pending fields are emptied and the entry box is cleared.
     */
    method AddEntry()
      modifies this
      requires Valid()
      ensures Valid() && history == old(history) + [EntryAdded(old(entryText)), FieldsCleared]
      ensures entries == old(entries) + [old(entryText)] && fields == []
      ensures entryText == "" && fieldText == old(fieldText)
    {
      var text := entryText;
      entries := entries + [text];
      history := history + [EntryAdded(text)];
      ClearFieldsList();
      entryText := "";
    }

    /** The "Add Field" button: the typed text becomes a pending field and the field box is cleared. */
    method AddField()
      modifies this
      requires Valid()
      ensures Valid() && history == old(history) + [FieldAdded(old(fieldText))]
      ensures fields == old(fields) + [old(fieldText)] && entries == old(entries)
      ensures fieldText == "" && entryText == old(entryText)
    {
      var text := fieldText;
      fields := fields + [text];
      history := history + [FieldAdded(text)];
      fieldText := "";
    }

    /** A quick button: its fixed name becomes a pending field; the text boxes are not touched. */
    method AddQuickField(q: QuickField)
      modifies this
      requires Valid()
      ensures Valid() && history == old(history) + [FieldAdded(QuickName(q))]
      ensures fields == old(fields) + [QuickName(q)] && entries == old(entries)
      ensures entryText == old(entryText) && fieldText == old(fieldText)
    {
      fields := fields + [QuickName(q)];
      history := history + [FieldAdded(QuickName(q))];
    }

    /** getTextList: a copy of the entries, which are those the history added. */
    method GetTextList() returns (r: seq<string>)
      requires Valid()
      ensures r == entries && r == EntriesOf(history)
    {
      r := entries;
    }

    /** getFieldsList: a copy of the pending fields. */
    method GetFieldsList() returns (r: seq<string>)
      requires Valid()
      ensures r == fields && r == PendingOf(history)
    {
      r := fields;
    }
  }
}
