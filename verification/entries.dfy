/** Bibliographic entries as the XMP reader hands them to the remover. */
module Entries {

  /**
   * A field of a bibliographic entry. The four standard fields that the
   * information-dictionary wipe treats specially are constructors of their own;
   * every other standard or unknown field is identified by its string form.
   */
  datatype Field = Author | Title | Keywords | Abstract | OtherField(name: string)

  /** A bibliographic entry: its type and its field map (field keys are unique). */
  datatype BibEntry = BibEntry(entryType: string, fields: map<Field, string>)

  /**
   * The field set of XmpUtilRemover.deleteXmp: every field key of every entry,
   * and nothing else.
   */
  function FieldUnion(entries: seq<BibEntry>): (r: set<Field>)
    ensures forall f :: f in r <==> exists i :: 0 <= i < |entries| && f in entries[i].fields
    decreases |entries|
  {
    if entries == [] then {}
    else
      var rest := FieldUnion(entries[1..]);
      assert forall f :: f in rest ==> exists i :: 1 <= i < |entries| && f in entries[i].fields by {
        forall f | f in rest ensures exists i :: 1 <= i < |entries| && f in entries[i].fields {
          var j :| 0 <= j < |entries| - 1 && f in entries[1..][j].fields;
          assert f in entries[j + 1].fields;
        }
      }
      entries[0].fields.Keys + rest
  }
}
