/**
 * The document information dictionary of a PDF file (ISO 32000-1, section 14.3.3)
 * and the field-by-field wipe that XmpUtilRemover.deleteField applies to it.
 */
module InfoDictionary {
  import opened Wrappers
  import opened Entries

  /** Custom keys that every deleteField call removes. */
  const RelationKey: string := "Relation"
  const EntryTypeKey: string := "bibtex/entrytype"

  /** The custom key under which a field without a slot of its own is stored. */
  function CustomKey(name: string): string {
    "bibtex/" + name
  }

  /** A snapshot of the dictionary: six well-known slots (None is a missing key) and the custom keys. */
  datatype Info = Info(
    creator: Option<string>,
    producer: Option<string>,
    title: Option<string>,
    author: Option<string>,
    subject: Option<string>,
    keywords: Option<string>,
    custom: map<string, string>)

  /** A freshly constructed dictionary, with no key at all. */
  const EmptyInfo: Info := Info(None, None, None, None, None, None, map[])

  /** The custom keys that wiping the fields of `order` removes on top of the two fixed ones. */
  ghost function FieldKeys(order: seq<Field>): set<string> {
    set i | 0 <= i < |order| && order[i].OtherField? :: CustomKey(order[i].name)
  }

  /** The custom key of one field, as a set: empty for a field with a slot of its own. */
  function KeyOf(f: Field): (r: set<string>)
    ensures |r| <= 1
  {
    if f.OtherField? then {CustomKey(f.name)} else {}
  }

  lemma FieldKeysOfOne(f: Field)
    ensures FieldKeys([f]) == KeyOf(f)
  {
    if f.OtherField? {
      assert [f][0] == f;
      assert CustomKey(f.name) in FieldKeys([f]);
    }
  }

  /**
   * The effect of one deleteField call: creator, producer and title become "-",
   * "Relation" and "bibtex/entrytype" disappear, then the slot that belongs to
   * `f` is cleared; nothing else changes.
   */
  function WipeField(d: Info, f: Field): (r: Info)
    ensures r.creator == Some("-") && r.producer == Some("-")
    ensures r.title == None <==> f == Title
    ensures r.title != None ==> r.title == Some("-")
    ensures r.author == (if f == Author then None else d.author)
    ensures r.keywords == (if f == Keywords then None else d.keywords)
    ensures r.subject == (if f == Abstract then Some(" ") else d.subject)
    ensures r.custom == d.custom - {RelationKey, EntryTypeKey} - KeyOf(f)
  {
    var common := d.(creator := Some("-"), producer := Some("-"), title := Some("-"),
                     custom := d.custom - {RelationKey, EntryTypeKey});
    match f
    case Author => common.(author := None)
    case Title => common.(title := None)
    case Keywords => common.(keywords := None)
    case Abstract => common.(subject := Some(" "))
    case OtherField(name) => common.(custom := common.custom - {CustomKey(name)})
  }

  /** deleteField applied to the fields of `order`, first to last. */
  function WipeAll(d: Info, order: seq<Field>): Info
    decreases |order|
  {
    if order == [] then d else WipeAll(WipeField(d, order[0]), order[1..])
  }

  /** Wiping one more field extends the run by one deleteField call. */
  lemma {:induction false} WipeAllSnoc(d: Info, order: seq<Field>, f: Field)
    ensures WipeAll(d, order + [f]) == WipeField(WipeAll(d, order), f)
    decreases |order|
  {
    if order == [] {
      assert [] + [f] == [f];
    } else {
      assert (order + [f])[1..] == order[1..] + [f];
      WipeAllSnoc(WipeField(d, order[0]), order[1..], f);
    }
  }

  /** A run of deleteField calls on a non-empty order: the well-known slots. */
  lemma {:induction false} WipeAllSlots(d: Info, order: seq<Field>)
    requires order != []
    ensures var r := WipeAll(d, order);
      && r.creator == Some("-") && r.producer == Some("-")
      && (r.title == None <==> order[|order| - 1] == Title)
      && (r.title != None ==> r.title == Some("-"))
      && r.author == (if Author in order then None else d.author)
      && r.keywords == (if Keywords in order then None else d.keywords)
      && r.subject == (if Abstract in order then Some(" ") else d.subject)
    decreases |order|
  {
    var d1 := WipeField(d, order[0]);
    var rest := order[1..];
    if rest == [] {
      assert order == [order[0]];
      assert WipeAll(d, order) == d1;
    } else {
      WipeAllSlots(d1, rest);
      assert order == [order[0]] + rest;
      assert order[|order| - 1] == rest[|rest| - 1];
      assert forall x :: x in order <==> x == order[0] || x in rest;
    }
  }

  /** A run of deleteField calls: the custom keys. */
  lemma {:induction false} WipeAllCustom(d: Info, order: seq<Field>)
    requires order != []
    ensures WipeAll(d, order).custom == d.custom - {RelationKey, EntryTypeKey} - FieldKeys(order)
    decreases |order|
  {
    var d1 := WipeField(d, order[0]);
    var rest := order[1..];
    FieldKeysOfOne(order[0]);
    var fixed := {RelationKey, EntryTypeKey};
    if rest == [] {
      assert order == [order[0]];
      assert WipeAll(d, order) == d1;
    } else {
      WipeAllCustom(d1, rest);
      assert WipeAll(d, order) == WipeAll(d1, rest);
      FieldKeysCons(order);
      MapMinus(d.custom, fixed, KeyOf(order[0]));
      MapMinus(d.custom, fixed + KeyOf(order[0]), fixed);
      MapMinus(d.custom, fixed + KeyOf(order[0]) + fixed, FieldKeys(rest));
      MapMinus(d.custom, fixed, KeyOf(order[0]) + FieldKeys(rest));
      assert fixed + KeyOf(order[0]) + fixed + FieldKeys(rest) == fixed + (KeyOf(order[0]) + FieldKeys(rest));
    }
  }

  lemma MapMinus(m: map<string, string>, a: set<string>, b: set<string>)
    ensures m - a - b == m - (a + b)
  {
  }

  /**
   * What a non-empty run of deleteField calls leaves: the fixed slots are wiped,
   * title is null exactly when TITLE was the last field processed, each of
   * author, keywords and subject is cleared iff its field was processed at all,
   * and the custom keys lose exactly the two fixed keys and the keys of the
   * processed fields.
   */
  lemma WipeAllEffect(d: Info, order: seq<Field>)
    requires order != []
    ensures var r := WipeAll(d, order);
      && r.creator == Some("-") && r.producer == Some("-")
      && (r.title == None <==> order[|order| - 1] == Title)
      && (r.title != None ==> r.title == Some("-"))
      && r.author == (if Author in order then None else d.author)
      && r.keywords == (if Keywords in order then None else d.keywords)
      && r.subject == (if Abstract in order then Some(" ") else d.subject)
      && r.custom == d.custom - {RelationKey, EntryTypeKey} - FieldKeys(order)
  {
    WipeAllSlots(d, order);
    WipeAllCustom(d, order);
  }

  /** The keys of a visiting order: those of its first field and those of the rest. */
  lemma FieldKeysCons(order: seq<Field>)
    requires order != []
    ensures FieldKeys(order) == FieldKeys([order[0]]) + FieldKeys(order[1..])
  {
    var rest := order[1..];
    forall k | k in FieldKeys(order) ensures k in FieldKeys([order[0]]) + FieldKeys(rest) {
      var i :| 0 <= i < |order| && order[i].OtherField? && k == CustomKey(order[i].name);
      if i > 0 {
        assert rest[i - 1] == order[i];
      } else {
        FieldKeysOfOne(order[0]);
      }
    }
    forall k | k in FieldKeys(rest) ensures k in FieldKeys(order) {
      var i :| 0 <= i < |rest| && rest[i].OtherField? && k == CustomKey(rest[i].name);
      assert order[i + 1] == rest[i];
    }
  }

  /**
   * The wipe does not depend on the order in which the fields are visited, except
   * through whether TITLE comes last: two visiting orders of the same field set
   * that agree on that leave the same dictionary.
   */
  lemma WipeAllOrderInsensitive(d: Info, o1: seq<Field>, o2: seq<Field>)
    requires o1 != [] && o2 != []
    requires forall f :: f in o1 <==> f in o2
    requires (o1[|o1| - 1] == Title) == (o2[|o2| - 1] == Title)
    ensures WipeAll(d, o1) == WipeAll(d, o2)
  {
    WipeAllEffect(d, o1);
    WipeAllEffect(d, o2);
    assert FieldKeys(o1) == FieldKeys(o2) by {
      forall k | k in FieldKeys(o1) ensures k in FieldKeys(o2) {
        var i :| 0 <= i < |o1| && o1[i].OtherField? && k == CustomKey(o1[i].name);
        assert o1[i] in o2;
        var j :| 0 <= j < |o2| && o2[j] == o1[i];
      }
      forall k | k in FieldKeys(o2) ensures k in FieldKeys(o1) {
        var i :| 0 <= i < |o2| && o2[i].OtherField? && k == CustomKey(o2[i].name);
        assert o2[i] in o1;
        var j :| 0 <= j < |o1| && o1[j] == o2[i];
      }
    }
  }

  /** The PDFBox information dictionary object; its setters update it in place. */
  class InfoDict {
    var creator: Option<string>
    var producer: Option<string>
    var title: Option<string>
    var author: Option<string>
    var subject: Option<string>
    var keywords: Option<string>
    var custom: map<string, string>

    function Value(): Info
      reads this
    {
      Info(creator, producer, title, author, subject, keywords, custom)
    }

    /** `new PDDocumentInformation()`: an empty dictionary. */
    constructor ()
      ensures Value() == EmptyInfo
    {
      creator, producer, title := None, None, None;
      author, subject, keywords := None, None, None;
      custom := map[];
    }

    /** A dictionary holding the given snapshot, as loaded from a file. */
    constructor FromValue(v: Info)
      ensures Value() == v
    {
      creator, producer, title := v.creator, v.producer, v.title;
      author, subject, keywords := v.author, v.subject, v.keywords;
      custom := v.custom;
    }

    /** setCustomMetadataValue: a null value removes the key, any other value stores it. */
    method SetCustomMetadataValue(key: string, v: Option<string>)
      modifies this
      ensures Value() == old(Value()).(custom := if v.None? then old(custom) - {key} else old(custom)[key := v.value])
    {
      if v.None? {
        custom := custom - {key};
      } else {
        custom := custom[key := v.value];
      }
    }
  }

  /** XmpUtilRemover.deleteField: the fixed wipe, then the clear that belongs to `f`. */
  method DeleteField(di: InfoDict, f: Field)
    modifies di
    ensures di.Value() == WipeField(old(di.Value()), f)
  {
    di.creator := Some("-");
    di.producer := Some("-");
    di.title := Some("-");
    di.SetCustomMetadataValue(RelationKey, None);
    di.SetCustomMetadataValue(EntryTypeKey, None);
    assert di.custom == old(di.custom) - {RelationKey, EntryTypeKey};
    match f
    case Author => di.author := None;
    case Title => di.title := None;
    case Keywords => di.keywords := None;
    case Abstract => di.subject := Some(" ");
    case OtherField(name) =>
      di.SetCustomMetadataValue(CustomKey(name), None);
      assert di.custom == old(di.custom) - {RelationKey, EntryTypeKey} - KeyOf(f);
  }
}
