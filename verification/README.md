# JabRef metadata removal, smart entry lookup, library properties and the add-entry window

This project models four parts of a JabRef fork.

- **XmpUtilRemover** removes the bibliographic metadata of a PDF file. It
  first creates a temporary file, then reads the entries mirrored in the
  file's XMP packet. On the loaded document it installs a fresh, empty
  information dictionary and an empty metadata stream. Then it runs
  `deleteField` for every field of those entries on the old dictionary,
  which is no longer attached to the document. After that it rewrites the
  Dublin Core schemas of the packet. Last, it saves the document to the
  temporary file and moves that file over the original.
- **AdvancedEntryLookUp** holds the "Smart Entry Search" button. It routes the
  typed text to an identifier lookup, a file attachment, a plain-text
  extraction or a BibTeX parse. In the BibTeX case it derives the entry type
  name and scans `name = {value}` pairs into two static lists.
- **BibDatabaseContext**, and the "General" tab of the library properties
  (`GeneralPropertiesViewModel`). The context holds a library's metadata,
  its path and its location, and decides where linked files are looked up.
  The tab loads the encoding, mode and directories into editable properties
  and stores them back.
- **AddEntryWindow** keeps two static lists. Entries typed so far go into one
  list, and the fields pending for the next entry go into the other.

Foreign code enters the model as values. PDFBox loading and saving, the XMP
parser, serialiser and reader, and the Dublin Core extractor are the
functions of `XmpRemover.Library`; each returns `None` where the Java code
throws. The file system is a map from names to bytes. Its operations fail
nondeterministically, as an `IOException` can. The working directory
(`user.dir`) is a parameter. The `java.nio.file.Path` operations the
context relies on are modelled in `Paths`, following the Unix
implementation.

Files:
- `wrappers.dfy`: `Option` and `Result`.
- `entries.dfy`: fields, entries and the field union.
- `info_dictionary.dfy`: the information dictionary, `deleteField`, and runs of it.
- `xmp_packet.dfy`: schemas and the Dublin Core rewrite as a function.
- `file_system.dfy`: temp files, write and move.
- `xmp_remover.dfy`: the remover.
- `bibtex_scanner.dfy`: the regular expression of `extract_fields_values`, as a scanner with Java `find()` semantics.
- `entry_lookup.dfy`: classification, entry type name, and the static state.
- `paths.dfy`: Unix paths.
- `database_context.dfy`: `MetaData` and `BibDatabaseContext`.
- `general_properties.dfy`: the view model.
- `add_entry_window.dfy`: the add-entry window.

The model follows the code where it differs from what the source's own comments say, or from what a reader would expect:
- **Only the first Dublin Core schema is removed.** The comment on `rewriteDublinCore` (`XmpUtilRemover.java:155`) says existing Dublin Core schemas are removed, and the comment at line 178 says all current ones are. But `removeSchema(getDublinCoreSchema())` drops only the first one. `XmpPacket.RewrittenShape` states that the others survive.
- **Other metadata is not left untouched.** The comment on `deleteXmp` (lines 45-46) says all other metadata stays untouched. But `deleteDocumentInformation` installs an empty metadata stream before `rewriteDublinCore` reads the stream. So the rewrite starts from what the parser makes of an empty stream, not from the document's packet, and the other schemas of the original packet are lost. The saved dictionary is always the new empty one, and the per-field wipe only touches the detached old dictionary. `XmpRemover.ProcessedEffect` states this.
- **No privacy filter.** The same comment, and the one on `deleteDocumentInformation`, speak of the fields chosen in the XMP preferences. But the code passes the full field union and wipes every field.
- **The replace is not atomic.** `Files.move` with `REPLACE_EXISTING` and without `ATOMIC_MOVE` deletes an existing target before it renames. Across file stores it falls back to copy and delete, and removes the target again when either step fails. So a failed move (`CouldNotOverwrite`) can leave the original deleted. `FileSystem.Files.Move`, `XmpRemover.WriteAndMove` and `XmpRemover.DeleteXmp` state this.
- **Encrypted documents.** The encryption exception is modelled as its own error, `EncryptedPdf`. Its class hierarchy is not part of this model.
- **Constructors always end LOCAL.** The four-argument constructor ends LOCAL even when SHARED is passed. It delegates to a constructor that sets LOCAL, and only converts when LOCAL is passed.
- **`getFileDirectoryPath` can throw.** A library path that is a single relative name has no parent, so a relative directory cannot be resolved against it. The Java code then throws a `NullPointerException`. The model returns `Err(NoParent)`, and `getFileDirectories` propagates it.

## Model

| member | source | states |
|---|---|---|
| Entries.FieldUnion | src/main/java/org/jabref/logic/xmp/XmpUtilRemover.java:58 | a field is in the set iff some entry read from the file has it as a key; no preference narrows it |
| InfoDictionary.WipeField | src/main/java/org/jabref/logic/xmp/XmpUtilRemover.java:131-149 | creator and producer become "-"; title becomes null iff the field is TITLE, else "-"; AUTHOR clears author, KEYWORDS keywords, ABSTRACT sets subject to " "; "Relation", "bibtex/entrytype" and, for other fields, "bibtex/"+field are removed; nothing else changes |
| InfoDictionary.FieldKeysOfOne | src/main/java/org/jabref/logic/xmp/XmpUtilRemover.java:147-148 | only a field without a slot of its own contributes a custom key |
| InfoDictionary.KeyOf | src/main/java/org/jabref/logic/xmp/XmpUtilRemover.java:147-148 | at most one custom key per field |
| InfoDictionary.InfoDict.constructor | src/main/java/org/jabref/logic/xmp/XmpUtilRemover.java:103 | a new dictionary has no key |
| InfoDictionary.InfoDict.FromValue | src/main/java/org/jabref/logic/xmp/XmpUtilRemover.java:60 | a dictionary loaded from a file holds exactly the stored values |
| InfoDictionary.InfoDict.SetCustomMetadataValue | src/main/java/org/jabref/logic/xmp/XmpUtilRemover.java:136-137 | a null value removes the key, any other stores it; no other slot changes |
| InfoDictionary.DeleteField | src/main/java/org/jabref/logic/xmp/XmpUtilRemover.java:131-150 | the dictionary afterwards is WipeField of the dictionary before |
| InfoDictionary.WipeAllSnoc | src/main/java/org/jabref/logic/xmp/XmpUtilRemover.java:109-110 | one more loop iteration is one more deleteField call |
| InfoDictionary.WipeAllSlots | src/main/java/org/jabref/logic/xmp/XmpUtilRemover.java:109-149 | after a run over a non-empty field order: creator and producer are "-"; title is null iff TITLE came last; author, keywords and subject are cleared iff their field occurs |
| InfoDictionary.WipeAllCustom | src/main/java/org/jabref/logic/xmp/XmpUtilRemover.java:109-149 | after a run, the custom keys lose exactly the two fixed keys and the keys of the processed other fields |
| InfoDictionary.FieldKeysCons | src/main/java/org/jabref/logic/xmp/XmpUtilRemover.java:109-110 | the keys of an order are those of its head and those of its tail |
| InfoDictionary.WipeAllEffect | src/main/java/org/jabref/logic/xmp/XmpUtilRemover.java:109-149 | the whole effect of the deleteField loop on the old dictionary (both of the above) |
| InfoDictionary.WipeAllOrderInsensitive | src/main/java/org/jabref/logic/xmp/XmpUtilRemover.java:109-110 | two iteration orders of the same field set give the same dictionary when they agree on whether TITLE is last |
| XmpPacket.OtherSchemas | src/main/java/org/jabref/logic/xmp/XmpUtilRemover.java:179 | the non-Dublin-Core schemas, in order, none of them Dublin Core |
| XmpPacket.DublinCoreCount | src/main/java/org/jabref/logic/xmp/XmpUtilRemover.java:179 | Dublin Core schemas and other schemas together make up the packet |
| XmpPacket.FirstDublinCore | src/main/java/org/jabref/logic/xmp/XmpUtilRemover.java:179 | the position getDublinCoreSchema finds: a Dublin Core schema with none before it, or the end |
| XmpPacket.OtherSchemasAppend | src/main/java/org/jabref/logic/xmp/XmpUtilRemover.java:181-184 | schema counts distribute over concatenation |
| XmpPacket.NoDublinCoreCount | src/main/java/org/jabref/logic/xmp/XmpUtilRemover.java:179 | a packet where getDublinCoreSchema finds nothing has no Dublin Core schema |
| XmpPacket.RemoveFirstDublinCore | src/main/java/org/jabref/logic/xmp/XmpUtilRemover.java:179 | with no Dublin Core schema, removeSchema(null) leaves the packet as it is; otherwise one schema fewer, the schemas before the first Dublin Core one in place, those after it moved up by one |
| XmpPacket.CutDublinCore | src/main/java/org/jabref/logic/xmp/XmpUtilRemover.java:179 | cutting one Dublin Core schema out keeps the other schemas in order and leaves one Dublin Core schema fewer |
| XmpPacket.RemoveFirstDublinCoreCounts | src/main/java/org/jabref/logic/xmp/XmpUtilRemover.java:178-179 | every other schema survives in order, and one Dublin Core schema fewer remains |
| XmpPacket.DublinCoreSchemas | src/main/java/org/jabref/logic/xmp/XmpUtilRemover.java:181-184 | one new Dublin Core schema per entry, filled from that entry, in entry order |
| XmpPacket.OtherSchemasOfDublinCore | src/main/java/org/jabref/logic/xmp/XmpUtilRemover.java:181-184 | the added schemas are all Dublin Core, one per entry |
| XmpPacket.RewrittenShape | src/main/java/org/jabref/logic/xmp/XmpUtilRemover.java:178-184 | the rewritten packet keeps the base's other schemas in order, all of the base's Dublin Core schemas except the first, and ends with one new Dublin Core schema per entry |
| FileSystem.Files.constructor | src/main/java/org/jabref/logic/xmp/XmpUtilRemover.java:53 | the file system holds the given files |
| FileSystem.Files.CreateTempFile | src/main/java/org/jabref/logic/xmp/XmpUtilRemover.java:54 | a new empty file under an unused name, or no change on failure |
| FileSystem.Files.Read | src/main/java/org/jabref/logic/xmp/XmpUtilRemover.java:56-60 | the contents of the file, or None when it does not exist |
| FileSystem.Files.Write | src/main/java/org/jabref/logic/xmp/XmpUtilRemover.java:72 | on success the file holds the bytes; on failure only that file may change |
| FileSystem.Files.Move | src/main/java/org/jabref/logic/xmp/XmpUtilRemover.java:80 | with REPLACE_EXISTING the target takes the source's contents and the source disappears; the move is not atomic, so on failure the source and every other file are kept and the target is kept or gone |
| XmpRemover.PdfDocument.Load | src/main/java/org/jabref/logic/xmp/XmpUtilRemover.java:60 | the loaded document holds the stored image, with a fresh dictionary object |
| XmpRemover.DeleteDocumentInformation | src/main/java/org/jabref/logic/xmp/XmpUtilRemover.java:97-122 | the document gets a fresh empty dictionary and an empty metadata stream; the old dictionary receives deleteField once per field of the set, in some iteration order |
| XmpRemover.RewriteDublinCore | src/main/java/org/jabref/logic/xmp/XmpUtilRemover.java:160-193 | the stream (or a fresh packet when absent or unparsable) loses its first Dublin Core schema and gains one per entry; the serialised packet becomes the metadata, and a serialiser failure changes nothing |
| XmpRemover.AppendSchema | src/main/java/org/jabref/logic/xmp/XmpUtilRemover.java:181-184 | one loop iteration adds the next entry's schema at the end |
| XmpRemover.ProcessedEffect | src/main/java/org/jabref/logic/xmp/XmpUtilRemover.java:65-68 | no entries: the document is saved as loaded; with entries the result does not depend on the old dictionary or packet and has an empty dictionary |
| XmpRemover.EditDocument | src/main/java/org/jabref/logic/xmp/XmpUtilRemover.java:60-68 | deleteDocumentInformation and rewriteDublinCore run only when entries were read, giving the document Processed describes |
| XmpRemover.WriteAndMove | src/main/java/org/jabref/logic/xmp/XmpUtilRemover.java:69-84 | on success the original holds the bytes and the temp file is gone; a write failure is CouldNotDelete and changes no existing file other than the temp file; a move failure is CouldNotOverwrite, keeps the temp file and every other file, and leaves the original kept or deleted, never replaced |
| XmpRemover.DeleteXmp | src/main/java/org/jabref/logic/xmp/XmpUtilRemover.java:53-85 | on success the original holds the saved processed document and nothing else changed; on any failure the original is never replaced and only the temp file may be new; every failure but CouldNotOverwrite keeps every file, a failed move may delete the original; the error is the one the first failing step raises (encryption before any change) |
| BibtexScanner.SpacesEnd | src/main/java/org/jabref/gui/entryeditor/AdvancedEntryLookUp.java:223 | the run of whitespace ends at a non-whitespace character or the end |
| BibtexScanner.SpacesEndRun | src/main/java/org/jabref/gui/entryeditor/AdvancedEntryLookUp.java:223 | `\s*` is greedy: every character of the run is whitespace |
| BibtexScanner.LettersEnd | src/main/java/org/jabref/gui/entryeditor/AdvancedEntryLookUp.java:223 | the run of letters ends at a non-letter or the end |
| BibtexScanner.LettersEndRun | src/main/java/org/jabref/gui/entryeditor/AdvancedEntryLookUp.java:223 | `[a-zA-Z]+` is greedy: every character of the run is an ASCII letter |
| BibtexScanner.CloseBrace | src/main/java/org/jabref/gui/entryeditor/AdvancedEntryLookUp.java:223 | the reported position holds a '}' at or after the start |
| BibtexScanner.CloseBraceRun | src/main/java/org/jabref/gui/entryeditor/AdvancedEntryLookUp.java:223 | `(.*?)\}` stops at the first '}' and never crosses a line terminator |
| BibtexScanner.MatchAt | src/main/java/org/jabref/gui/entryeditor/AdvancedEntryLookUp.java:223 | a match attempt at one position starts there and its groups are ordered |
| BibtexScanner.MatchAtSound | src/main/java/org/jabref/gui/entryeditor/AdvancedEntryLookUp.java:223 | what the attempt returns matches the pattern with Java's greedy and lazy choices |
| BibtexScanner.MatchAtComplete | src/main/java/org/jabref/gui/entryeditor/AdvancedEntryLookUp.java:223 | every such match at a position is the one the attempt returns |
| BibtexScanner.FindFrom | src/main/java/org/jabref/gui/entryeditor/AdvancedEntryLookUp.java:227 | find() reports a match that starts at or after the search position |
| BibtexScanner.TryAt | src/main/java/org/jabref/gui/entryeditor/AdvancedEntryLookUp.java:227 | one find() attempt reports a match at or after the position tried |
| BibtexScanner.FindFromSound | src/main/java/org/jabref/gui/entryeditor/AdvancedEntryLookUp.java:227 | what find() reports is a match of the pattern |
| BibtexScanner.FindFromLeftmost | src/main/java/org/jabref/gui/entryeditor/AdvancedEntryLookUp.java:227 | find() takes the earliest start: whenever a match exists, find() succeeds no later than it |
| BibtexScanner.AllHits | src/main/java/org/jabref/gui/entryeditor/AdvancedEntryLookUp.java:227-230 | the matches of the loop start after the search position and do not overlap, left to right |
| BibtexScanner.AllHitsAreHits | src/main/java/org/jabref/gui/entryeditor/AdvancedEntryLookUp.java:227-230 | every match of the loop matches the pattern |
| BibtexScanner.AllHitsCover | src/main/java/org/jabref/gui/entryeditor/AdvancedEntryLookUp.java:227-230 | no match is skipped: any match of the pattern starts inside one the loop reports |
| BibtexScanner.HitGroups | src/main/java/org/jabref/gui/entryeditor/AdvancedEntryLookUp.java:223 | group 1 is a non-empty run of ASCII letters; group 2 holds no '}' and no line terminator |
| BibtexScanner.NamesOfHits | src/main/java/org/jabref/gui/entryeditor/AdvancedEntryLookUp.java:227-228 | the k-th name appended is group 1 of the k-th match |
| BibtexScanner.ValuesOfHits | src/main/java/org/jabref/gui/entryeditor/AdvancedEntryLookUp.java:227-229 | the k-th value appended is group 2 of the k-th match |
| BibtexScanner.ScannedNames | src/main/java/org/jabref/gui/entryeditor/AdvancedEntryLookUp.java:228 | one name per match |
| BibtexScanner.ScannedValues | src/main/java/org/jabref/gui/entryeditor/AdvancedEntryLookUp.java:229 | one value per name |
| BibtexScanner.ScannedGroupsWellFormed | src/main/java/org/jabref/gui/entryeditor/AdvancedEntryLookUp.java:223-229 | every appended name is non-empty ASCII letters; every appended value has no '}' and no line terminator |
| EntryLookup.LowerChar | src/main/java/org/jabref/gui/entryeditor/AdvancedEntryLookUp.java:105 | toLowerCase maps 'A'..'Z' to 'a'..'z' and keeps every other character |
| EntryLookup.UpperChar | src/main/java/org/jabref/gui/entryeditor/AdvancedEntryLookUp.java:189 | toUpperCase maps 'a'..'z' to 'A'..'Z' and keeps every other character |
| EntryLookup.ToLower | src/main/java/org/jabref/gui/entryeditor/AdvancedEntryLookUp.java:105 | the string lower-cased character by character |
| EntryLookup.ContainsOccurs | src/main/java/org/jabref/gui/entryeditor/AdvancedEntryLookUp.java:105 | contains holds iff the word occurs at some position |
| EntryLookup.Classify | src/main/java/org/jabref/gui/entryeditor/AdvancedEntryLookUp.java:105-156 | each route's exact condition: ID lookup iff no '@', a "doi"/"http"/"www." and no "pdf"/"txt"; attach iff "pdf" or "txt"; failure iff empty; plain text iff first char is not '@' otherwise; BibTeX iff it is |
| EntryLookup.LowerCharIdempotent | src/main/java/org/jabref/gui/entryeditor/AdvancedEntryLookUp.java:105 | lower-casing twice is lower-casing once |
| EntryLookup.ClassifyIgnoresCase | src/main/java/org/jabref/gui/entryeditor/AdvancedEntryLookUp.java:105-156 | lower-casing the text first does not change the route |
| EntryLookup.IndexOf | src/main/java/org/jabref/gui/entryeditor/AdvancedEntryLookUp.java:187 | indexOf: the first position of the character, or none iff absent |
| EntryLookup.RemoveAll | src/main/java/org/jabref/gui/entryeditor/AdvancedEntryLookUp.java:187 | replace("@", ""): no '@' left, every other character kept, length shrinks by the number of '@' |
| EntryLookup.Capitalise | src/main/java/org/jabref/gui/entryeditor/AdvancedEntryLookUp.java:189-190 | the first character upper-cased, every other one lower-cased, the length kept |
| EntryLookup.EntryTypeName | src/main/java/org/jabref/gui/entryeditor/AdvancedEntryLookUp.java:187-190 | fails with NoOpeningBrace iff there is no '{'; a name is non-empty with no '@' and no '{' |
| EntryLookup.EntryTypeNameEmpty | src/main/java/org/jabref/gui/entryeditor/AdvancedEntryLookUp.java:187-189 | fails with EmptyTypeName iff only '@'s precede the first '{' |
| EntryLookup.CapitaliseIdempotent | src/main/java/org/jabref/gui/entryeditor/AdvancedEntryLookUp.java:189-190 | capitalising twice is capitalising once |
| EntryLookup.RemoveAllOne | src/main/java/org/jabref/gui/entryeditor/AdvancedEntryLookUp.java:187 | a single character is dropped iff it is the removed one |
| EntryLookup.RemoveAllAppend | src/main/java/org/jabref/gui/entryeditor/AdvancedEntryLookUp.java:187 | replace works piece by piece, so the kept characters stay in order |
| EntryLookup.IndexOfAt | src/main/java/org/jabref/gui/entryeditor/AdvancedEntryLookUp.java:187 | indexOf is the position of the first occurrence |
| EntryLookup.EntryTypeNameOf | src/main/java/org/jabref/gui/entryeditor/AdvancedEntryLookUp.java:187-190 | for text before the first '{' without a brace: the name is that text with every '@' dropped, capitalised, and fails with EmptyTypeName iff nothing is left; what follows the brace does not matter |
| EntryLookup.EntryTypeNameOfType | src/main/java/org/jabref/gui/entryeditor/AdvancedEntryLookUp.java:187-190 | "@" + type + "{" + anything names the entry after the type, capitalised |
| EntryLookup.EntryTypeNameArticle | src/main/java/org/jabref/gui/entryeditor/AdvancedEntryLookUp.java:187-190 | "@ARTICLE{key," gives "Article" |
| EntryLookup.CapitaliseArticle | src/main/java/org/jabref/gui/entryeditor/AdvancedEntryLookUp.java:189-190 | "ARTICLE" capitalises to "Article" |
| EntryLookup.EntryTypeNameRoundTrip | src/main/java/org/jabref/gui/entryeditor/AdvancedEntryLookUp.java:187-190 | "@" + name + "{" + anything yields the same name again |
| EntryLookup.RemoveAllAbsent | src/main/java/org/jabref/gui/entryeditor/AdvancedEntryLookUp.java:187 | removing an absent character changes nothing |
| EntryLookup.IndexOfLower | src/main/java/org/jabref/gui/entryeditor/AdvancedEntryLookUp.java:187 | '{' is found at the same place in the lower-cased text |
| EntryLookup.RemoveAllLower | src/main/java/org/jabref/gui/entryeditor/AdvancedEntryLookUp.java:187 | dropping '@' commutes with lower-casing |
| EntryLookup.CapitaliseLower | src/main/java/org/jabref/gui/entryeditor/AdvancedEntryLookUp.java:189-190 | capitalising ignores the case of the input |
| EntryLookup.EntryTypeNameIgnoresCase | src/main/java/org/jabref/gui/entryeditor/AdvancedEntryLookUp.java:187-190 | the derived name does not depend on the case of the typed text |
| EntryLookup.EntryLookUp.constructor | src/main/java/org/jabref/gui/entryeditor/AdvancedEntryLookUp.java:73-76 | the text and both static lists start empty |
| EntryLookup.EntryLookUp.ExtractFieldsValues | src/main/java/org/jabref/gui/entryeditor/AdvancedEntryLookUp.java:221-232 | the lists get the scanned names and values appended, old contents kept as a prefix, so equal lengths stay equal |
| EntryLookup.EntryLookUp.EntryFromPlainText | src/main/java/org/jabref/gui/entryeditor/AdvancedEntryLookUp.java:234-237 | returns the stored text unchanged |
| EntryLookup.EntryLookUp.SetTextNull | src/main/java/org/jabref/gui/entryeditor/AdvancedEntryLookUp.java:239-241 | the stored text becomes "" and the lists are kept |
| EntryLookup.EntryLookUp.GetFieldsList | src/main/java/org/jabref/gui/entryeditor/AdvancedEntryLookUp.java:243-245 | a copy equal to the names |
| EntryLookup.EntryLookUp.GetValuesList | src/main/java/org/jabref/gui/entryeditor/AdvancedEntryLookUp.java:247-249 | a copy equal to the values |
| EntryLookup.EntryLookUp.ClearFields | src/main/java/org/jabref/gui/entryeditor/AdvancedEntryLookUp.java:251-253 | empties the names only |
| EntryLookup.EntryLookUp.ClearValues | src/main/java/org/jabref/gui/entryeditor/AdvancedEntryLookUp.java:255-257 | empties the values only |
| EntryLookup.EntryLookUp.SmartEntrySearch | src/main/java/org/jabref/gui/entryeditor/AdvancedEntryLookUp.java:103-192 | stores the text and takes its route; the BibTeX branch clears both lists, then either fails (lists left empty) or names the new entry and fills the lists with the scanned pairs; other routes leave the lists alone |
| Paths.NameEnd | src/main/java/org/jabref/gui/libraryproperties/general/GeneralPropertiesViewModel.java:203 | the end of a name is the next separator or the end |
| Paths.NamesOf | src/main/java/org/jabref/gui/libraryproperties/general/GeneralPropertiesViewModel.java:203 | Path.of yields non-empty names without separators |
| Paths.Parse | src/main/java/org/jabref/gui/libraryproperties/general/GeneralPropertiesViewModel.java:203 | Path.of: well-formed, absolute iff the string starts with '/' |
| Paths.ToString | src/main/java/org/jabref/gui/libraryproperties/general/GeneralPropertiesViewModel.java:368 | an absolute path prints with a leading '/' |
| Paths.NamesOfJoin | src/main/java/org/jabref/gui/libraryproperties/general/GeneralPropertiesViewModel.java:368 | the names of a printed path read back as themselves |
| Paths.NameEndAt | src/main/java/org/jabref/gui/libraryproperties/general/GeneralPropertiesViewModel.java:203 | a name runs exactly to the next separator |
| Paths.ParsePrint | src/main/java/org/jabref/gui/libraryproperties/general/GeneralPropertiesViewModel.java:396 | Path.of(p.toString()) gives back the well-formed path p |
| Paths.Parent | src/main/java/org/jabref/gui/libraryproperties/general/GeneralPropertiesViewModel.java:170 | getParent is null iff there is no name, or one name in a relative path; otherwise the path without its last name |
| Paths.Resolve | src/main/java/org/jabref/gui/libraryproperties/general/GeneralPropertiesViewModel.java:208 | resolve: an absolute argument wins, a relative one is appended |
| Paths.ToAbsolute | src/main/java/org/jabref/gui/libraryproperties/general/GeneralPropertiesViewModel.java:182 | toAbsolutePath is absolute and keeps an absolute path |
| Paths.PushAllNormal | src/main/java/org/jabref/gui/libraryproperties/general/GeneralPropertiesViewModel.java:208 | normalising keeps the name stack in normal form |
| Paths.Normalize | src/main/java/org/jabref/gui/libraryproperties/general/GeneralPropertiesViewModel.java:208 | normalize keeps absoluteness and leaves no ".", and ".." only leading in a relative path |
| Paths.PushAllNormalNames | src/main/java/org/jabref/gui/libraryproperties/general/GeneralPropertiesViewModel.java:208 | normalising names already normal appends them unchanged |
| Paths.NormalizeIdempotent | src/main/java/org/jabref/gui/libraryproperties/general/GeneralPropertiesViewModel.java:208 | normalize is idempotent |
| DatabaseContext.ToList | src/main/java/org/jabref/gui/libraryproperties/general/GeneralPropertiesViewModel.java:158-163 | an optional value as a list of zero or one |
| DatabaseContext.MetaData.constructor | src/main/java/org/jabref/gui/libraryproperties/general/GeneralPropertiesViewModel.java:60 | new metadata holds nothing |
| DatabaseContext.MetaData.UserFileDirectory | src/main/java/org/jabref/gui/libraryproperties/general/GeneralPropertiesViewModel.java:158 | the user's directory iff one is stored for that user |
| DatabaseContext.MetaData.LatexFileDirectory | src/main/java/org/jabref/gui/libraryproperties/general/GeneralPropertiesViewModel.java:368 | the user's LaTeX directory iff one is stored for that user |
| DatabaseContext.MetaData.SetMode | src/main/java/org/jabref/gui/libraryproperties/general/GeneralPropertiesViewModel.java:376 | stores the mode, nothing else changes |
| DatabaseContext.MetaData.SetEncoding | src/main/java/org/jabref/gui/libraryproperties/general/GeneralPropertiesViewModel.java:375 | stores the encoding, nothing else changes |
| DatabaseContext.MetaData.SetDefaultFileDirectory | src/main/java/org/jabref/gui/libraryproperties/general/GeneralPropertiesViewModel.java:382 | stores the general directory, nothing else changes |
| DatabaseContext.MetaData.ClearDefaultFileDirectory | src/main/java/org/jabref/gui/libraryproperties/general/GeneralPropertiesViewModel.java:380 | removes the general directory, nothing else changes |
| DatabaseContext.MetaData.SetUserFileDirectory | src/main/java/org/jabref/gui/libraryproperties/general/GeneralPropertiesViewModel.java:389 | stores the directory of one user, nothing else changes |
| DatabaseContext.MetaData.ClearUserFileDirectory | src/main/java/org/jabref/gui/libraryproperties/general/GeneralPropertiesViewModel.java:387 | removes the directory of one user, nothing else changes |
| DatabaseContext.MetaData.SetLatexFileDirectory | src/main/java/org/jabref/gui/libraryproperties/general/GeneralPropertiesViewModel.java:396 | stores the LaTeX directory of one user, nothing else changes |
| DatabaseContext.MetaData.ClearLatexFileDirectory | src/main/java/org/jabref/gui/libraryproperties/general/GeneralPropertiesViewModel.java:394 | removes the LaTeX directory of one user, nothing else changes |
| DatabaseContext.BibDatabaseContext.constructor | src/main/java/org/jabref/gui/libraryproperties/general/GeneralPropertiesViewModel.java:63-67 | no path, LOCAL |
| DatabaseContext.BibDatabaseContext.WithPath | src/main/java/org/jabref/gui/libraryproperties/general/GeneralPropertiesViewModel.java:69-81 | the path is stored and the context is LOCAL whatever location is passed |
| DatabaseContext.BibDatabaseContext.Mode | src/main/java/org/jabref/gui/libraryproperties/general/GeneralPropertiesViewModel.java:83-85 | BIBTEX iff the metadata stores BIBTEX; BIBLATEX when none is stored |
| DatabaseContext.BibDatabaseContext.IsBiblatexMode | src/main/java/org/jabref/gui/libraryproperties/general/GeneralPropertiesViewModel.java:120-122 | holds iff getMode is BIBLATEX, iff the stored mode is not BIBTEX |
| DatabaseContext.BibDatabaseContext.SetMode | src/main/java/org/jabref/gui/libraryproperties/general/GeneralPropertiesViewModel.java:87-89 | getMode afterwards is the mode set |
| DatabaseContext.BibDatabaseContext.SetDatabasePath | src/main/java/org/jabref/gui/libraryproperties/general/GeneralPropertiesViewModel.java:91-93 | the path is set; metadata and location kept |
| DatabaseContext.BibDatabaseContext.GetDatabasePath | src/main/java/org/jabref/gui/libraryproperties/general/GeneralPropertiesViewModel.java:100-102 | the stored path, empty when none |
| DatabaseContext.BibDatabaseContext.ClearDatabasePath | src/main/java/org/jabref/gui/libraryproperties/general/GeneralPropertiesViewModel.java:104-106 | the path becomes empty; metadata and location kept |
| DatabaseContext.BibDatabaseContext.SetMetaData | src/main/java/org/jabref/gui/libraryproperties/general/GeneralPropertiesViewModel.java:116-118 | the metadata object is replaced; path and location kept |
| DatabaseContext.BibDatabaseContext.GetLocation | src/main/java/org/jabref/gui/libraryproperties/general/GeneralPropertiesViewModel.java:232-234 | the stored location |
| DatabaseContext.BibDatabaseContext.ConvertToSharedDatabase | src/main/java/org/jabref/gui/libraryproperties/general/GeneralPropertiesViewModel.java:236-243 | the location becomes SHARED; path and metadata kept |
| DatabaseContext.BibDatabaseContext.ConvertToLocalDatabase | src/main/java/org/jabref/gui/libraryproperties/general/GeneralPropertiesViewModel.java:245-252 | the location becomes LOCAL; path and metadata kept |
| DatabaseContext.BibDatabaseContext.FileDirectoryPath | src/main/java/org/jabref/gui/libraryproperties/general/GeneralPropertiesViewModel.java:202-211 | an absolute directory, or any directory without a library path, is returned as parsed; a relative one is appended to the library's folder and normalised, and fails when the library path has no parent |
| DatabaseContext.BibDatabaseContext.UserFileDirectory | src/main/java/org/jabref/gui/libraryproperties/general/GeneralPropertiesViewModel.java:196-198 | empty without a user directory; otherwise succeeds iff resolving it does, with the resolved path |
| DatabaseContext.BibDatabaseContext.MetaDirectoryNames | src/main/java/org/jabref/gui/libraryproperties/general/GeneralPropertiesViewModel.java:157-163 | at most two metadata directories |
| DatabaseContext.BibDatabaseContext.ResolveAll | src/main/java/org/jabref/gui/libraryproperties/general/GeneralPropertiesViewModel.java:157-163 | each metadata directory resolved in place; fails iff one of them fails |
| DatabaseContext.BibDatabaseContext.ResolveAllSnoc | src/main/java/org/jabref/gui/libraryproperties/general/GeneralPropertiesViewModel.java:157-163 | one more directory adds one more resolved path or the failure |
| DatabaseContext.BibDatabaseContext.Absolutes | src/main/java/org/jabref/gui/libraryproperties/general/GeneralPropertiesViewModel.java:182 | every directory made absolute, in place |
| DatabaseContext.BibDatabaseContext.BibFolder | src/main/java/org/jabref/gui/libraryproperties/general/GeneralPropertiesViewModel.java:169-176 | one folder iff the library has a path |
| DatabaseContext.BibDatabaseContext.LastDirectory | src/main/java/org/jabref/gui/libraryproperties/general/GeneralPropertiesViewModel.java:168-180 | at most one directory after the metadata ones |
| DatabaseContext.BibDatabaseContext.FileDirectoriesFailure | src/main/java/org/jabref/gui/libraryproperties/general/GeneralPropertiesViewModel.java:157-163 | the lookup fails iff resolving one of the metadata directories fails |
| DatabaseContext.BibDatabaseContext.FileDirectoriesShape | src/main/java/org/jabref/gui/libraryproperties/general/GeneralPropertiesViewModel.java:154-183 | at most three directories, all absolute |
| DatabaseContext.BibDatabaseContext.FileDirectoriesOrder | src/main/java/org/jabref/gui/libraryproperties/general/GeneralPropertiesViewModel.java:157-163 | the user-specific directory comes first when present, the general one right after it |
| DatabaseContext.BibDatabaseContext.FileDirectoriesBibFolder | src/main/java/org/jabref/gui/libraryproperties/general/GeneralPropertiesViewModel.java:168-180 | with no metadata directory: storing relative to the library gives its folder (or the working directory when it has no parent), or nothing without a path; otherwise the main file directory when present |
| DatabaseContext.BibDatabaseContext.FileDirectoriesMainAfterMeta | src/main/java/org/jabref/gui/libraryproperties/general/GeneralPropertiesViewModel.java:177-180 | once a metadata directory exists, the main file directory follows it when present, and the library folder is not used |
| DatabaseContext.BibDatabaseContext.GetFileDirectories | src/main/java/org/jabref/gui/libraryproperties/general/GeneralPropertiesViewModel.java:154-183 | the list built by conditional appends is FileDirectories |
| GeneralProperties.Trim | src/main/java/org/jabref/gui/libraryproperties/general/GeneralPropertiesViewModel.java:378 | trim leaves no blank at either end and keeps a trimmed string |
| GeneralProperties.TrimIsSlice | src/main/java/org/jabref/gui/libraryproperties/general/GeneralPropertiesViewModel.java:378 | trim keeps a middle slice and removes only blank characters at either end |
| GeneralProperties.TrimEmpty | src/main/java/org/jabref/gui/libraryproperties/general/GeneralPropertiesViewModel.java:378-379 | trim gives "" iff every character is at most a space |
| GeneralProperties.TrimIdempotent | src/main/java/org/jabref/gui/libraryproperties/general/GeneralPropertiesViewModel.java:378 | trimming twice is trimming once |
| GeneralProperties.Load | src/main/java/org/jabref/gui/libraryproperties/general/GeneralPropertiesViewModel.java:360-369 | encoding locked iff SHARED; UTF-8 and BIBLATEX stand in for unset values; general and user directories trimmed, "" when unset; LaTeX directory printed iff stored |
| GeneralProperties.Store | src/main/java/org/jabref/gui/libraryproperties/general/GeneralPropertiesViewModel.java:372-400 | encoding and mode set; general directory trimmed and cleared iff blank; user and LaTeX directories cleared iff exactly empty, stored untrimmed (LaTeX via Path.of); other users untouched |
| GeneralProperties.LoadStoreSettled | src/main/java/org/jabref/gui/libraryproperties/general/GeneralPropertiesViewModel.java:360-400 | opening the tab and storing without edits leaves settled metadata unchanged |
| GeneralProperties.LoadStoreSettles | src/main/java/org/jabref/gui/libraryproperties/general/GeneralPropertiesViewModel.java:360-400 | one load and store settles the metadata, so a second changes nothing |
| GeneralProperties.StoreLoad | src/main/java/org/jabref/gui/libraryproperties/general/GeneralPropertiesViewModel.java:360-400 | loading what was stored gives the properties back up to trimming and path normal form |
| GeneralProperties.GeneralPropertiesView.constructor | src/main/java/org/jabref/gui/libraryproperties/general/GeneralPropertiesViewModel.java:333-357 | initial properties and the context's current metadata object captured |
| GeneralProperties.GeneralPropertiesView.SetValues | src/main/java/org/jabref/gui/libraryproperties/general/GeneralPropertiesViewModel.java:360-369 | the properties become Load of the captured metadata |
| GeneralProperties.GeneralPropertiesView.StoreSettings | src/main/java/org/jabref/gui/libraryproperties/general/GeneralPropertiesViewModel.java:372-400 | the context's current metadata object becomes Store of its old value and stays the context's metadata |
| AddEntry.QuickName | src/main/java/org/jabref/gui/AddEntryWindow.java:84-122 | each quick button's fixed, distinct name: Author, Title, ID, Date, Website |
| AddEntry.PendingOf | src/main/java/org/jabref/gui/AddEntryWindow.java:46-70 | no more pending fields than events |
| AddEntry.EntriesOfAppend | src/main/java/org/jabref/gui/AddEntryWindow.java:51 | entries are only ever appended |
| AddEntry.PendingIsLatest | src/main/java/org/jabref/gui/AddEntryWindow.java:46-70 | the pending fields are the latest fields added, in order |
| AddEntry.PendingSinceReset | src/main/java/org/jabref/gui/AddEntryWindow.java:46-67 | the pending fields are exactly those added since the last entry or clear |
| AddEntry.PendingWithoutReset | src/main/java/org/jabref/gui/AddEntryWindow.java:62-67 | with no entry added and no clear, every added field is pending |
| AddEntry.AddEntryWindow.constructor | src/main/java/org/jabref/gui/AddEntryWindow.java:24-25 | both lists start empty |
| AddEntry.AddEntryWindow.TypeEntry | src/main/java/org/jabref/gui/AddEntryWindow.java:42-47 | only the entry box changes |
| AddEntry.AddEntryWindow.TypeField | src/main/java/org/jabref/gui/AddEntryWindow.java:58-63 | only the field box changes |
| AddEntry.AddEntryWindow.ClearFieldsList | src/main/java/org/jabref/gui/AddEntryWindow.java:139-141 | empties the fields and leaves the entries |
| AddEntry.AddEntryWindow.AddEntry | src/main/java/org/jabref/gui/AddEntryWindow.java:46-55 | appends the typed text to the entries, then empties the fields and the entry box |
| AddEntry.AddEntryWindow.AddField | src/main/java/org/jabref/gui/AddEntryWindow.java:62-70 | appends the typed text to the fields, leaves the entries, empties the field box |
| AddEntry.AddEntryWindow.AddQuickField | src/main/java/org/jabref/gui/AddEntryWindow.java:84-122 | appends the button's name to the fields and leaves the entries |
| AddEntry.AddEntryWindow.GetTextList | src/main/java/org/jabref/gui/AddEntryWindow.java:129-132 | a copy equal to the entries, which are those the history added |
| AddEntry.AddEntryWindow.GetFieldsList | src/main/java/org/jabref/gui/AddEntryWindow.java:134-137 | a copy equal to the pending fields |

## Left out

- PDFBox, the XMP parser, the XMP serialiser, `XmpUtilReader` and `DublinCoreExtractor` are foreign code. They are the functions of `XmpRemover.Library`, so the content of the Dublin Core schemas the extractor fills is not modelled. This includes the privacy filter the extractor may honour.
- The `println` in `deleteField` and all logging.
- Iteration order of the `HashSet` of fields. `DeleteDocumentInformation` returns it as a ghost enumeration, and `WipeAllOrderInsensitive` shows it only matters through whether TITLE comes last.
- `XmpRemover.RewriteDublinCore`: the `TransformerException` of the serialiser is modelled, but an `IOException` from `new PDMetadata(document, is)` is not.
- File-system effects beyond the map of names to contents: the temporary directory, the "JabRef…pdf" naming, file locks. A failed write leaves unknown contents in the temporary file.
- `EntryLookup.LowerChar`, `EntryLookup.UpperChar`: `toLowerCase` and `toUpperCase` are modelled on the ASCII letters only, without locale or Unicode case mapping.
- The windows, threads and `Platform.runLater` of the three GUI classes. Where the lookup button sends the text on (ID lookup, attach file, plain-text extraction, new-entry action) is modelled only as the route taken. The text box being cleared at the end of the handler is not modelled.
- `EntryLookup.EntryLookUp.SmartEntrySearch`: in the Java code the empty text throws `ArrayIndexOutOfBoundsException` from `toCharArray()[0]`, and a missing '{' or an empty type name throws `StringIndexOutOfBoundsException` from `substring`. These exceptions escape the handler. The model returns them as `Failed(...)`.
- `MetaData.java` is not part of this model. Its setters are modelled as plain stores. Any normalisation they do, such as trimming, is not captured.
- The DBMS synchronizer and its change listener in `convertToSharedDatabase` and `convertToLocalDatabase`. The rest of `BibDatabaseContext` is also left out: `isStudy`, `getFirstExistingFileDir`, `Files.exists`, `getFulltextIndexPath`, `getDatabase`, `getEntries`, `equals`, `hashCode` and `toString`.
- `Paths.Parse`: the `InvalidPathException` of `Path.of` (a NUL character) is not modelled. Paths follow the Unix implementation, not Windows.
- `Encodings.getCharsets()` is a parameter of the view-model constructor (its first charset). The charset and mode lists shown in the tab, and the three directory-browsing dialogs, are left out.
