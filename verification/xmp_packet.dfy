/**
 * The XMP metadata packet of a PDF file (ISO 32000-1, section 14.3.2) as a
 * sequence of typed schemas, and the Dublin Core rewrite of
 * XmpUtilRemover.rewriteDublinCore.
 */
module XmpPacket {
  import opened Entries

  /** Properties of a schema: property name to its values. */
  type Properties = map<string, seq<string>>

  /** A schema of the packet: a Dublin Core schema, or a schema of any other namespace. */
  datatype Schema = DublinCore(properties: Properties) | OtherSchema(namespace: string, properties: Properties)

  type Packet = seq<Schema>

  /** The schemas of `p` that are not Dublin Core, in order. */
  function OtherSchemas(p: Packet): (r: Packet)
    ensures forall s :: s in r ==> s.OtherSchema?
    ensures |r| <= |p|
    decreases |p|
  {
    if p == [] then []
    else if p[0].DublinCore? then OtherSchemas(p[1..])
    else [p[0]] + OtherSchemas(p[1..])
  }

  /** The number of Dublin Core schemas in `p`. */
  function DublinCoreCount(p: Packet): (n: nat)
    ensures n + |OtherSchemas(p)| == |p|
    decreases |p|
  {
    if p == [] then 0
    else (if p[0].DublinCore? then 1 else 0) + DublinCoreCount(p[1..])
  }

  /**
   * getDublinCoreSchema: the position of the first Dublin Core schema, or |p|
   * when there is none (the Java method then returns null).
   */
  function FirstDublinCore(p: Packet): (i: nat)
    ensures i <= |p|
    ensures i < |p| ==> p[i].DublinCore?
    ensures forall j :: 0 <= j < i ==> p[j].OtherSchema?
    decreases |p|
  {
    if p == [] then 0
    else if p[0].DublinCore? then 0
    else 1 + FirstDublinCore(p[1..])
  }

  lemma {:induction false} OtherSchemasAppend(a: Packet, b: Packet)
    ensures OtherSchemas(a + b) == OtherSchemas(a) + OtherSchemas(b)
    ensures DublinCoreCount(a + b) == DublinCoreCount(a) + DublinCoreCount(b)
    decreases |a|
  {
    if a == [] {
      assert a + b == b;
    } else {
      assert (a + b)[1..] == a[1..] + b;
      OtherSchemasAppend(a[1..], b);
    }
  }

  lemma {:induction false} NoDublinCoreCount(p: Packet)
    requires FirstDublinCore(p) == |p|
    ensures DublinCoreCount(p) == 0
    decreases |p|
  {
    if p != [] {
      NoDublinCoreCount(p[1..]);
    }
  }

  /**
   * `meta.removeSchema(meta.getDublinCoreSchema())`: the first Dublin Core schema
   * goes, every other schema stays in place; with no Dublin Core schema
   * (removeSchema(null)) the packet is unchanged.
   */
  function RemoveFirstDublinCore(p: Packet): (r: Packet)
    ensures FirstDublinCore(p) == |p| ==> r == p
    ensures FirstDublinCore(p) < |p| ==> |r| == |p| - 1
    ensures forall j :: 0 <= j < FirstDublinCore(p) ==> r[j] == p[j]
    ensures forall j :: FirstDublinCore(p) < j < |p| ==> r[j - 1] == p[j]
  {
    var i := FirstDublinCore(p);
    if i < |p| then p[..i] + p[i + 1..] else p
  }

  /** Cutting one Dublin Core schema out of `a + [d] + b` keeps the other schemas and leaves one fewer. */
  lemma {:induction false} CutDublinCore(a: Packet, d: Schema, b: Packet)
    requires d.DublinCore?
    ensures OtherSchemas(a + [d] + b) == OtherSchemas(a + b)
    ensures DublinCoreCount(a + [d] + b) == DublinCoreCount(a + b) + 1
  {
    OtherSchemasAppend(a + [d], b);
    OtherSchemasAppend(a, [d]);
    OtherSchemasAppend(a, b);
    assert OtherSchemas([d]) == [] by { assert [d][1..] == []; }
  }

  /** Removing the first Dublin Core schema keeps the other schemas and one Dublin Core schema fewer. */
  lemma RemoveFirstDublinCoreCounts(p: Packet)
    ensures OtherSchemas(RemoveFirstDublinCore(p)) == OtherSchemas(p)
    ensures DublinCoreCount(RemoveFirstDublinCore(p)) == if DublinCoreCount(p) == 0 then 0 else DublinCoreCount(p) - 1
  {
    var i := FirstDublinCore(p);
    if i < |p| {
      assert RemoveFirstDublinCore(p) == p[..i] + p[i + 1..];
      assert p == p[..i] + [p[i]] + p[i + 1..];
      CutDublinCore(p[..i], p[i], p[i + 1..]);
    } else {
      NoDublinCoreCount(p);
    }
  }

  /** One freshly filled Dublin Core schema per entry, in entry order. */
  function DublinCoreSchemas(entries: seq<BibEntry>, fill: BibEntry -> Properties): (r: Packet)
    ensures |r| == |entries|
    ensures forall k :: 0 <= k < |entries| ==> r[k] == DublinCore(fill(entries[k]))
    decreases |entries|
  {
    if entries == [] then [] else [DublinCore(fill(entries[0]))] + DublinCoreSchemas(entries[1..], fill)
  }

  /** The packet rewriteDublinCore serialises: the base without its first Dublin Core schema, then the new ones. */
  function Rewritten(base: Packet, entries: seq<BibEntry>, fill: BibEntry -> Properties): Packet {
    RemoveFirstDublinCore(base) + DublinCoreSchemas(entries, fill)
  }

  lemma {:induction false} OtherSchemasOfDublinCore(entries: seq<BibEntry>, fill: BibEntry -> Properties)
    ensures OtherSchemas(DublinCoreSchemas(entries, fill)) == []
    ensures DublinCoreCount(DublinCoreSchemas(entries, fill)) == |entries|
    decreases |entries|
  {
    if entries != [] {
      var r := DublinCoreSchemas(entries, fill);
      assert r[1..] == DublinCoreSchemas(entries[1..], fill);
      OtherSchemasOfDublinCore(entries[1..], fill);
    }
  }

  /**
   * The rewrite keeps every non-Dublin-Core schema of the base, in order, and
   * ends with exactly one new Dublin Core schema per entry, in entry order; of
   * the base's Dublin Core schemas all but the first survive.
   */
  lemma RewrittenShape(base: Packet, entries: seq<BibEntry>, fill: BibEntry -> Properties)
    ensures var r := Rewritten(base, entries, fill);
      && OtherSchemas(r) == OtherSchemas(base)
      && DublinCoreCount(r) == DublinCoreCount(base) - (if DublinCoreCount(base) == 0 then 0 else 1) + |entries|
      && |r| >= |entries|
      && r[..|r| - |entries|] == RemoveFirstDublinCore(base)
      && forall k :: 0 <= k < |entries| ==> r[|r| - |entries| + k] == DublinCore(fill(entries[k]))
  {
    var removed := RemoveFirstDublinCore(base);
    var added := DublinCoreSchemas(entries, fill);
    RemoveFirstDublinCoreCounts(base);
    OtherSchemasAppend(removed, added);
    OtherSchemasOfDublinCore(entries, fill);
    var r := removed + added;
    assert r[..|r| - |entries|] == removed;
  }
}
