/**
 * XmpUtilRemover: removing the bibliographic metadata of a PDF file from its
 * document information dictionary and its XMP packet, writing the result to a
 * temporary file and moving that file over the original.
 *
 * PDFBox, the XMP parser and serialiser, the XMP reader and the Dublin Core
 * extractor are foreign code; they enter the model as the functions of a
 * `Library` value.
 */
module XmpRemover {
  import opened Wrappers
  import opened Entries
  import opened InfoDictionary
  import opened XmpPacket
  import opened FileSystem

  /** A PDF file as PDFBox loads and saves it. */
  datatype PdfImage = PdfImage(encrypted: bool, content: Bytes, info: Info, metadata: Option<Bytes>)

  /** The foreign code the remover calls; None stands for the exception each can throw. */
  datatype Library = Library(
    readXmp: Bytes -> Option<seq<BibEntry>>,  // XmpUtilReader.readXmp (IOException)
    load: Bytes -> Option<PdfImage>,          // Loader.loadPDF (IOException)
    parse: Bytes -> Option<Packet>,           // XmpUtilShared.parseXmpMetadata (IOException)
    fill: BibEntry -> Properties,             // DublinCoreExtractor.fillDublinCoreSchema
    serialize: Packet -> Option<Bytes>,       // XmpSerializer.serialize (TransformerException)
    save: PdfImage -> Option<Bytes>)          // PDDocument.save (IOException)

  /** The exceptions deleteXmp lets escape. */
  datatype RemoveError =
    | TempFileFailed       // IOException from Files.createTempFile
    | ReadFailed           // IOException from XmpUtilReader.readXmp
    | EncryptedPdf         // EncryptedPdfsNotSupportedException
    | CouldNotDelete       // TransformerException wrapping an IOException of load, save or write
    | SerializationFailed  // TransformerException of the XMP serialiser
    | CouldNotOverwrite    // IOException wrapping the failure of Files.move

  /** The loaded document: its dictionary and catalog metadata stream are replaced in place. */
  class PdfDocument {
    const encrypted: bool
    const content: Bytes
    var info: InfoDict
    var metadata: Option<Bytes>

    function Image(): PdfImage
      reads this, info
    {
      PdfImage(encrypted, content, info.Value(), metadata)
    }

    constructor Load(img: PdfImage)
      ensures fresh(info) && Image() == img
    {
      encrypted, content := img.encrypted, img.content;
      info := new InfoDict.FromValue(img.info);
      metadata := img.metadata;
    }
  }

  /** `order` lists every element of `s` exactly once: an iteration order of the set. */
  ghost predicate Enumerates(order: seq<Field>, s: set<Field>) {
    && (forall f :: f in order <==> f in s)
    && (forall i, j :: 0 <= i < j < |order| ==> order[i] != order[j])
  }

  /**
   * deleteDocumentInformation: the document gets a new, empty dictionary and an
   * empty metadata stream; then deleteField runs once for every field of
   * `fields`, unfiltered, on the previous dictionary, which is no longer
   * attached to the document. `order` is the iteration order of the set.
   */
  method DeleteDocumentInformation(doc: PdfDocument, fields: set<Field>) returns (ghost order: seq<Field>)
    modifies doc, doc.info
    ensures fresh(doc.info) && doc.info.Value() == EmptyInfo && doc.metadata == Some([])
    ensures Enumerates(order, fields)
    ensures old(doc.info).Value() == WipeAll(old(doc.info.Value()), order)
  {
    var di := doc.info;
    ghost var before := di.Value();
    var infoEmpty := new InfoDict();
    doc.info := infoEmpty;
    doc.metadata := Some([]);
    var remaining := fields;
    order := [];
    while remaining != {}
      invariant remaining <= fields
      invariant forall f :: f in order <==> f in fields && f !in remaining
      invariant forall i, j :: 0 <= i < j < |order| ==> order[i] != order[j]
      invariant di.Value() == WipeAll(before, order)
      invariant doc.info == infoEmpty && infoEmpty.Value() == EmptyInfo && doc.metadata == Some([])
      decreases remaining
    {
      var f :| f in remaining;
      DeleteField(di, f);
      WipeAllSnoc(before, order, f);
      order := order + [f];
      remaining := remaining - {f};
    }
  }

  /** The packet rewriteDublinCore starts from: a fresh one when there is no stream or it does not parse. */
  function BasePacket(raw: Option<Bytes>, parse: Bytes -> Option<Packet>): Packet {
    if raw.None? then [] else parse(raw.value).GetOr([])
  }

  /**
   * rewriteDublinCore: parse the catalog's metadata stream (or start afresh),
   * drop its first Dublin Core schema, add one filled Dublin Core schema per
   * entry, serialise the packet and install it as the catalog's metadata. When
   * the serialiser throws, the document is left as it was.
   */
  method RewriteDublinCore(entries: seq<BibEntry>, doc: PdfDocument, lib: Library) returns (ok: bool)
    modifies doc
    ensures doc.info == old(doc.info)
    ensures var bytes := lib.serialize(Rewritten(BasePacket(old(doc.metadata), lib.parse), entries, lib.fill));
      && ok == bytes.Some?
      && doc.metadata == if ok then Some(bytes.value) else old(doc.metadata)
  {
    var meta: Packet;
    if doc.metadata.None? {
      meta := [];
    } else {
      var parsed := lib.parse(doc.metadata.value);
      meta := if parsed.Some? then parsed.value else [];
    }
    meta := RemoveFirstDublinCore(meta);
    ghost var kept := meta;
    var i := 0;
    while i < |entries|
      invariant 0 <= i <= |entries|
      invariant meta == kept + DublinCoreSchemas(entries[..i], lib.fill)
      invariant unchanged(doc)
    {
      ghost var done := DublinCoreSchemas(entries[..i], lib.fill);
      var schema := DublinCore(lib.fill(entries[i]));
      meta := meta + [schema];
      AppendSchema(entries, i, lib.fill);
      assert (kept + done) + [schema] == kept + (done + [schema]);
      i := i + 1;
    }
    assert entries[..i] == entries;
    var bytes := lib.serialize(meta);
    if bytes.None? {
      return false;
    }
    doc.metadata := Some(bytes.value);
    return true;
  }

  lemma AppendSchema(entries: seq<BibEntry>, i: nat, fill: BibEntry -> Properties)
    requires i < |entries|
    ensures DublinCoreSchemas(entries[..i + 1], fill) == DublinCoreSchemas(entries[..i], fill) + [DublinCore(fill(entries[i]))]
  {
    var a := DublinCoreSchemas(entries[..i + 1], fill);
    var b := DublinCoreSchemas(entries[..i], fill) + [DublinCore(fill(entries[i]))];
    assert |a| == |b|;
    forall k | 0 <= k < |a| ensures a[k] == b[k] {
      assert entries[..i + 1][k] == entries[k];
    }
  }

  /**
   * The document deleteXmp saves, or None when the serialiser throws: unchanged
   * when no entry was read; otherwise with an empty dictionary and the
   * rewritten packet, built from the empty stream deleteDocumentInformation
   * installed.
   */
  function Processed(img: PdfImage, entries: seq<BibEntry>, lib: Library): Option<PdfImage> {
    if entries == [] then Some(img)
    else
      var bytes := lib.serialize(Rewritten(BasePacket(Some([]), lib.parse), entries, lib.fill));
      if bytes.None? then None else Some(img.(info := EmptyInfo, metadata := Some(bytes.value)))
  }

  /**
   * With no entries the document is saved as loaded. With entries, what was in
   * the document's dictionary and metadata stream does not matter: two
   * documents with the same content come out the same, with an empty
   * dictionary, because the old packet is replaced before it is read.
   */
  lemma ProcessedEffect(img: PdfImage, other: PdfImage, entries: seq<BibEntry>, lib: Library)
    requires other.content == img.content && other.encrypted == img.encrypted
    ensures entries == [] ==> Processed(img, entries, lib) == Some(img)
    ensures entries != [] ==> Processed(img, entries, lib) == Processed(other, entries, lib)
    ensures entries != [] && Processed(img, entries, lib).Some? ==>
      Processed(img, entries, lib).value.info == EmptyInfo &&
      Processed(img, entries, lib).value.content == img.content
  {
  }

  /** The bytes deleteXmp moves over `original`, or the exception it raises, I/O on the temporary file aside. */
  function Expected(original: Bytes, lib: Library): Result<Bytes, RemoveError> {
    match lib.readXmp(original)
    case None => Err(ReadFailed)
    case Some(entries) =>
      match lib.load(original)
      case None => Err(CouldNotDelete)
      case Some(img) =>
        if img.encrypted then Err(EncryptedPdf)
        else
          match Processed(img, entries, lib)
          case None => Err(SerializationFailed)
          case Some(out) =>
            match lib.save(out)
            case None => Err(CouldNotDelete)
            case Some(bytes) => Ok(bytes)
  }

  /**
   * The part of deleteXmp between loading and saving, for a document that is not
   * encrypted: when entries were read, deleteDocumentInformation over their field
   * union, then rewriteDublinCore. Returns the document to save, or None when
   * the serialiser throws.
   */
  method EditDocument(img: PdfImage, entries: seq<BibEntry>, lib: Library) returns (out: Option<PdfImage>)
    ensures out == Processed(img, entries, lib)
  {
    var doc := new PdfDocument.Load(img);
    if entries != [] {
      ghost var order := DeleteDocumentInformation(doc, FieldUnion(entries));
      var rewritten := RewriteDublinCore(entries, doc, lib);
      if !rewritten {
        return None;
      }
    }
    return Some(doc.Image());
  }

  /** Every file of `before` is still there with the same contents. */
  ghost predicate Kept(before: map<string, Bytes>, after: map<string, Bytes>) {
    forall q :: q in before ==> q in after && after[q] == before[q]
  }

  /**
   * Every file of `before` other than `p` is still there with the same
   * contents, and `p` either keeps its contents or is gone: nothing was
   * replaced, but `p` may have been deleted.
   */
  ghost predicate KeptOrGone(before: map<string, Bytes>, after: map<string, Bytes>, p: string) {
    && (forall q :: q in before && q != p ==> q in after && after[q] == before[q])
    && (p in after ==> p in before && after[p] == before[p])
  }

  /**
   * The end of deleteXmp: write the saved bytes to the temporary file, then move
   * it over `path`. Only a successful move replaces the original; a failed
   * write leaves every other file as it was, while a failed move may have
   * deleted the original without putting anything in its place.
   */
  method WriteAndMove(fs: Files, tmp: string, path: string, bytes: Bytes) returns (r: Result<(), RemoveError>)
    requires tmp in fs.files && tmp != path
    modifies fs
    ensures r.Ok? ==> fs.files == (old(fs.files) - {tmp})[path := bytes]
    ensures r.Err? ==> r == Err(CouldNotDelete) || r == Err(CouldNotOverwrite)
    ensures r == Err(CouldNotDelete) ==> fs.files.Keys == old(fs.files).Keys
    ensures r == Err(CouldNotDelete) ==> forall q :: q in old(fs.files) && q != tmp ==> fs.files[q] == old(fs.files)[q]
    ensures r == Err(CouldNotOverwrite) ==>
      tmp in fs.files && fs.files.Keys <= old(fs.files).Keys && KeptOrGone(old(fs.files) - {tmp}, fs.files, path)
  {
    var written := fs.Write(tmp, bytes);
    if !written {
      return Err(CouldNotDelete);
    }
    var moved := fs.Move(tmp, path);
    if !moved {
      return Err(CouldNotOverwrite);
    }
    return Ok(());
  }

  /**
   * deleteXmp. On success the original file holds the saved document and
   * nothing else changed (the temporary file was moved away). On any failure
   * the original is never replaced and at most the temporary file `tmp` is
   * left behind. Every failure but CouldNotOverwrite keeps every file that
   * existed; a failed move keeps the others but may have deleted the original.
   */
  method DeleteXmp(fs: Files, path: string, lib: Library) returns (r: Result<(), RemoveError>, ghost tmp: string)
    modifies fs
    ensures r.Ok? ==> path in old(fs.files) && Expected(old(fs.files)[path], lib).Ok?
    ensures r.Ok? ==> fs.files == old(fs.files)[path := Expected(old(fs.files)[path], lib).value]
    ensures r.Err? ==> fs.files.Keys <= old(fs.files).Keys + {tmp} && KeptOrGone(old(fs.files), fs.files, path)
    ensures r.Err? && r != Err(CouldNotOverwrite) ==> Kept(old(fs.files), fs.files)
    ensures path !in old(fs.files) ==> r == Err(TempFileFailed) || r == Err(ReadFailed)
    ensures path in old(fs.files) && Expected(old(fs.files)[path], lib).Err? ==>
      r == Err(TempFileFailed) || r == Err(Expected(old(fs.files)[path], lib).error)
  {
    var newFile, created := fs.CreateTempFile(path);
    tmp := newFile;
    if !created {
      return Err(TempFileFailed), tmp;
    }
    var original := fs.Read(path);
    if original.None? {
      return Err(ReadFailed), tmp;
    }
    var entries := lib.readXmp(original.value);
    if entries.None? {
      return Err(ReadFailed), tmp;
    }
    var loaded := lib.load(original.value);
    if loaded.None? {
      return Err(CouldNotDelete), tmp;
    }
    if loaded.value.encrypted {
      return Err(EncryptedPdf), tmp;
    }
    var out := EditDocument(loaded.value, entries.value, lib);
    if out.None? {
      return Err(SerializationFailed), tmp;
    }
    var bytes := lib.save(out.value);
    if bytes.None? {
      return Err(CouldNotDelete), tmp;
    }
    assert Expected(original.value, lib) == Ok(bytes.value);
    r := WriteAndMove(fs, newFile, path, bytes.value);
  }
}
