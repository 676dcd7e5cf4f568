/**
 * The substitution pass: each feature partial has its first timeSlice
 * rewritten in place (fresh `gml:id` values, the effective date, revision
 * numbers reset, an optional remark annotation) and is then streamed out.
 */
module UuidSubstitution {
  import opened Wrappers
  import opened Dom
  import opened PartialHandler

  /** An `XMLGregorianCalendar`, seen only through `toXMLFormat()`. */
  datatype Calendar = Calendar(xmlFormat: string)
  {
    function ToXMLFormat(): string { xmlFormat }
  }

  /** The configuration of a substitution run: the new effective date and the optional remark. */
  datatype SubstitutionParams = SubstitutionParams(effectiveDate: Calendar, remark: Option<string>)

  /** The value every regenerated `gml:id` takes for a drawn UUID `u`. */
  function GmlIdValue(u: string): string
  {
    "uuid." + u
  }

  /** Distinct UUIDs give distinct `gml:id` values. */
  lemma GmlIdValueInjective(u: string, w: string)
    requires u != w
    ensures GmlIdValue(u) != GmlIdValue(w)
  {
    assert GmlIdValue(u)[5..] == u && GmlIdValue(w)[5..] == w;
  }

  /**
   * The streaming writer, reduced to what the substitution tells it: the
   * root it opened the document with, the wrapper it puts around each
   * streamed element, and the elements streamed so far.
   */
  class PartialXMLWriter {
    var root: Option<Node>
    var separator: Option<Element>
    var streamed: seq<Node>

    constructor()
      ensures root.None? && separator.None? && streamed == []
    {
      root, separator, streamed := None, None, [];
    }

    method StartDocument(root: Option<Node>)
      modifies this`root
      ensures this.root == root
    {
      this.root := root;
    }

    method ChangeSeparator(uri: string, localName: string)
      modifies this`separator
      ensures separator == Some(Element(uri, localName))
    {
      separator := Some(Element(uri, localName));
    }

    method StreamElement(n: Node)
      modifies this`streamed
      ensures streamed == old(streamed) + [n]
    {
      streamed := streamed + [n];
    }
  }

  /** `partial.firstChild`: the feature a `hasMember` partial wraps. */
  function FeatureOf(partial: Node): (r: Option<Node>)
    reads partial`children
    ensures r.None? <==> partial.children == []
    ensures r.Some? ==> r.value == partial.children[0]
  {
    FirstChild(partial)
  }

  function FeatureFrame(partial: Node): set<Node>
    reads partial`children
  {
    if partial.children == [] then {} else {partial.children[0]}
  }

  /** The feature's first `aixm:timeSlice` child. */
  function TimeSliceOf(partial: Node): (r: Option<Node>)
    reads partial`children, FeatureFrame(partial)`children
    reads (if partial.children == [] then [] else partial.children[0].children)`attrs
    ensures r.Some? ==> partial.children != [] && r.value in partial.children[0].children
                        && r.value.IsElement(AIXM_NS, "timeSlice")
    ensures r.Some? ==> exists j :: 0 <= j < |partial.children[0].children| && partial.children[0].children[j] == r.value
                                    && forall i :: 0 <= i < j ==> !partial.children[0].children[i].IsElement(AIXM_NS, "timeSlice")
    ensures r.None? <==>
      (|| partial.children == []
       || forall j :: 0 <= j < |partial.children[0].children| ==> !partial.children[0].children[j].IsElement(AIXM_NS, "timeSlice"))
  {
    ExtractChild(FeatureOf(partial), TimeSlicePath)
  }

  /** An element that holds nothing but the text `s`. */
  predicate TextOnly(n: Node, s: string)
    reads n`children
  {
    DirectText(n.children) == s && forall c :: c in n.children ==> c.kind == TextNode
  }

  /** A child the feature-type table requires to come after the annotation. */
  predicate FollowsAnnotation(c: Node, featureName: string, isAfterAnnotation: (string, string) -> bool)
  {
    c.kind == ElementNode && isAfterAnnotation(featureName, c.localName)
  }

  /** Where `placeAnnotation` puts the annotation: before the first child that must follow it, else last. */
  function AnnotationSlot(cs: seq<Node>, featureName: string, isAfterAnnotation: (string, string) -> bool): (i: nat)
    ensures i <= |cs|
    ensures forall j :: 0 <= j < i ==> !FollowsAnnotation(cs[j], featureName, isAfterAnnotation)
    ensures i < |cs| ==> FollowsAnnotation(cs[i], featureName, isAfterAnnotation)
  {
    if cs == [] || FollowsAnnotation(cs[0], featureName, isAfterAnnotation) then 0
    else 1 + AnnotationSlot(cs[1..], featureName, isAfterAnnotation)
  }

  /**
   * `r` is `cs` with `annotation` at position `i`, immediately before the
   * first child that must follow it, or last.
   */
  predicate PlacedAt(r: seq<Node>, i: int, cs: seq<Node>, annotation: Node, featureName: string,
                     isAfterAnnotation: (string, string) -> bool)
  {
    && 0 <= i < |r| && r[i] == annotation && r[..i] + r[i + 1..] == cs
    && (forall j :: 0 <= j < i ==> !FollowsAnnotation(r[j], featureName, isAfterAnnotation))
    && (i + 1 < |r| ==> FollowsAnnotation(r[i + 1], featureName, isAfterAnnotation))
  }

  /** The child list after `placeAnnotation`: the annotation inserted at its slot. */
  function Placed(cs: seq<Node>, annotation: Node, featureName: string, isAfterAnnotation: (string, string) -> bool): (r: seq<Node>)
    ensures |r| == |cs| + 1
  {
    var i := AnnotationSlot(cs, featureName, isAfterAnnotation);
    cs[..i] + [annotation] + cs[i..]
  }

  /**
   * After `placeAnnotation` the child list has one more child, the
   * annotation, standing immediately before the first child that must follow
   * it (or last), with the others in their old order.
   */
  lemma PlacedSpec(cs: seq<Node>, annotation: Node, featureName: string, isAfterAnnotation: (string, string) -> bool)
    ensures exists i :: PlacedAt(Placed(cs, annotation, featureName, isAfterAnnotation), i, cs, annotation, featureName, isAfterAnnotation)
  {
    var i := AnnotationSlot(cs, featureName, isAfterAnnotation);
    var r := Placed(cs, annotation, featureName, isAfterAnnotation);
    assert r[..i] + r[i + 1..] == cs by {
      assert r[..i] == cs[..i] && r[i + 1..] == cs[i..];
    }
    assert forall j :: 0 <= j < i ==> r[j] == cs[j];
    assert i + 1 < |r| ==> r[i + 1] == cs[i];
    assert PlacedAt(r, i, cs, annotation, featureName, isAfterAnnotation);
  }

  /** The child list after `removeChild` of the child at `i`, if any. */
  function Without(cs: seq<Node>, i: Option<nat>): (r: seq<Node>)
    requires i.Some? ==> i.value < |cs|
    ensures i.None? ==> r == cs
    ensures i.Some? ==> |r| == |cs| - 1 && forall j :: 0 <= j < |r| ==> r[j] == cs[if j < i.value then j else j + 1]
  {
    if i.None? then cs else cs[..i.value] + cs[i.value + 1..]
  }

  /** The `aixm:translatedNote` subtree, given its nodes translatedNote, LinguisticNote, note. */
  predicate TranslatedNote(ns: seq<Node>, text: string, linguisticNoteId: string)
    requires |ns| == 3
    reads ns
  {
    && ns[0].IsElement(AIXM_NS, "translatedNote") && ns[0].qName == AixmQName("translatedNote")
    && ns[0].attrs == [] && ns[0].children == [ns[1]]
    && ns[1].IsElement(AIXM_NS, "LinguisticNote") && ns[1].qName == AixmQName("LinguisticNote")
    && ns[1].attrs == [Attribute(GML_NS, "gml:id", linguisticNoteId)] && ns[1].children == [ns[2]]
    && ns[2].IsElement(AIXM_NS, "note") && ns[2].qName == AixmQName("note")
    && ns[2].attrs == [] && TextOnly(ns[2], text)
  }

  /** The `aixm:Note` subtree, given its nodes Note, purpose, translatedNote, LinguisticNote, note. */
  predicate RemarkNote(ns: seq<Node>, text: string, noteId: string, linguisticNoteId: string)
    requires |ns| == 5
    reads ns
  {
    && ns[0].IsElement(AIXM_NS, "Note") && ns[0].qName == AixmQName("Note")
    && ns[0].attrs == [Attribute(GML_NS, "gml:id", noteId)] && ns[0].children == [ns[1], ns[2]]
    && ns[1].IsElement(AIXM_NS, "purpose") && ns[1].qName == AixmQName("purpose")
    && ns[1].attrs == [] && TextOnly(ns[1], "REMARK")
    && TranslatedNote(ns[2..], text, linguisticNoteId)
  }

  /**
   * The annotation `createAnnotation` builds, given its six nodes in the order
   * annotation, Note, purpose, translatedNote, LinguisticNote, note.
   */
  predicate RemarkAnnotation(ns: seq<Node>, text: string, noteId: string, linguisticNoteId: string)
    requires |ns| == 6
    reads ns
  {
    && ns[0].IsElement(AIXM_NS, "annotation") && ns[0].qName == AixmQName("annotation")
    && ns[0].attrs == [] && ns[0].children == [ns[1]]
    && RemarkNote(ns[1..], text, noteId, linguisticNoteId)
  }

  /** The qualified name of an AIXM element under the `aixm` prefix. */
  function AixmQName(local: string): string
  {
    "aixm:" + local
  }

  /** `createElementNS(AIXM_NS, "aixm:" + local)` */
  method NewAixmElement(local: string) returns (n: Node)
    requires ':' !in local
    ensures fresh(n) && n.IsElement(AIXM_NS, local) && n.qName == AixmQName(local)
    ensures n.attrs == [] && n.children == []
  {
    n := new Node.Element(AIXM_NS, AixmQName(local));
    assert "aixm:" + local == "aixm" + ":" + local;
    LocalPartOfPrefixed("aixm", local);
  }

  /** `setAttributeNS(GML_NS, "gml:id", value)` on an element that has no attribute yet. */
  method SetGmlId(n: Node, value: string)
    requires n.attrs == []
    modifies n`attrs
    ensures n.attrs == [Attribute(GML_NS, "gml:id", value)]
  {
    SetAttributeNSOnEmpty(GML_NS, "gml:id", value);
    n.attrs := SetAttributeNS(n.attrs, GML_NS, "gml:id", value);
  }

  /** The attribute lists of `owners`, in order. */
  function AttrsOf(owners: seq<Node>): (r: seq<seq<Attribute>>)
    reads owners`attrs
    ensures |r| == |owners| && forall k :: 0 <= k < |owners| ==> r[k] == owners[k].attrs
  {
    if owners == [] then [] else [owners[0].attrs] + AttrsOf(owners[1..])
  }

  /**
   * The elements whose child list `handleFeature` may replace, given what the
   * descendant lookups select under the timeSlice: those lookups' targets and
   * the timeSlice's first child.
   */
  function RewrittenOf(partial: Node, q: Selection): set<Node>
    reads partial`children, FeatureFrame(partial)`children
    reads (if partial.children == [] then [] else partial.children[0].children)`attrs
    reads (if partial.children == [] then [] else partial.children[0].children)`children
  {
    match TimeSliceOf(partial)
    case None => {}
    case Some(ts) => q.TextTargets() + OptionSet(FirstChild(ts))
  }

  /**
   * The substitution handler. `partialWriter` is created lazily by the first
   * partial; `documentElement` is the copy of the input root the writer opens.
   */
  class AIXMUUIDSubstitution {
    const handler: AIXMPartialHandler
    const params: SubstitutionParams
    /** `FeaturePropertiesFactory.propertiesFor(featureName).isAfterAnnotation(localName)` */
    const isAfterAnnotation: (string, string) -> bool
    const uuids: UuidGenerator
    var partialWriter: Option<PartialXMLWriter>
    var documentElement: Option<Node>

    constructor(params: SubstitutionParams, isAfterAnnotation: (string, string) -> bool, uuids: UuidGenerator)
      ensures fresh(handler) && handler.state == Nothing && !handler.firstPartialHandled
      ensures this.params == params && this.isAfterAnnotation == isAfterAnnotation
      ensures this.uuids == uuids && partialWriter.None? && documentElement.None?
    {
      handler := new AIXMPartialHandler();
      this.params, this.isAfterAnnotation, this.uuids := params, isAfterAnnotation, uuids;
      partialWriter, documentElement := None, None;
    }

    function WriterFrame(): set<PartialXMLWriter>
      reads this
    {
      if partialWriter.Some? then {partialWriter.value} else {}
    }

    /** The new text `handleFeature` gives the element a path selects. */
    function NewText(p: DescendantPath): string
    {
      match p
      case BeginPositionPath => params.effectiveDate.ToXMLFormat()
      case SequenceNumberPath => "1"
      case CorrectionNumberPath => "0"
    }

    /**
     * Each element a descendant lookup selected holds its new text, except
     * possibly `except`, which a later step rewrote.
     */
    predicate TextsReset(q: Selection, except: Option<Node>)
      reads this, q.TextTargets()
    {
      forall p :: q.Select(p).Some? && q.Select(p) != except ==> TextOnly(q.Select(p).value, NewText(p))
    }

    /**
     * The k-th of `owners`, which had the attributes `before[k]`, now has its
     * `gml:id` set to `"uuid."` and the UUID drawn `first + k`-th.
     */
    predicate GmlIdsRegenerated(owners: seq<Node>, before: seq<seq<Attribute>>, first: nat)
      reads owners`attrs
    {
      && |before| == |owners|
      && forall k :: 0 <= k < |owners| ==> owners[k].attrs == WithGmlId(before[k], GmlIdValue(uuids.supply(first + k)))
    }

    /** `firstPartial`: creates, opens and configures the writer unless one exists. */
    method FirstPartial()
      modifies this`partialWriter
      ensures old(partialWriter).Some? ==> partialWriter == old(partialWriter)
      ensures old(partialWriter).None? ==>
        partialWriter.Some? && fresh(partialWriter.value)
        && partialWriter.value.root == documentElement
        && partialWriter.value.separator == Some(BM_SEPARATOR)
        && partialWriter.value.streamed == []
    {
      if partialWriter.None? {
        var w := new PartialXMLWriter();
        w.StartDocument(documentElement);
        w.ChangeSeparator(AIXM_BM_NS, "hasMember");
        partialWriter := Some(w);
      }
    }

    /**
     * `rootElement`: a new element with the root's name and, in order, its
     * attributes, becomes the document's element.
     */
    method RootElement(uri: string, localName: string, qName: string, attributes: seq<Attribute>) returns (r: Outcome<Failure>)
      modifies this`documentElement
      ensures old(documentElement).Some? ==> r == Fail(HierarchyRequest) && documentElement == old(documentElement)
      ensures old(documentElement).None? ==>
        r == Pass && documentElement.Some? && fresh(documentElement.value)
        && documentElement.value.kind == ElementNode && documentElement.value.uri == uri
        && documentElement.value.qName == qName && documentElement.value.children == []
        && (DistinctNames(attributes) ==> documentElement.value.attrs == attributes)
    {
      var root := new Node.Element(uri, qName);
      var i := 0;
      while i < |attributes|
        invariant 0 <= i <= |attributes|
        invariant root.children == [] && documentElement == old(documentElement)
        invariant DistinctNames(attributes) ==> root.attrs == attributes[..i]
      {
        var a := attributes[i];
        if DistinctNames(attributes) {
          assert forall j :: 0 <= j < i ==> !root.attrs[j].SameName(a.uri, a.qName) by {
            forall j | 0 <= j < i ensures !root.attrs[j].SameName(a.uri, a.qName) {
              assert root.attrs[j] == attributes[j];
            }
          }
        }
        root.attrs := SetAttributeNS(root.attrs, a.uri, a.qName, a.value);
        assert DistinctNames(attributes) ==> attributes[..i + 1] == attributes[..i] + [a];
        i := i + 1;
      }
      assert attributes[..|attributes|] == attributes;
      if documentElement.Some? {
        return Fail(HierarchyRequest);
      }
      documentElement := Some(root);
      r := Pass;
    }

    /** `convertToList`: the node list copied, item by item, into a list. */
    method ConvertToList(nodeList: seq<Node>) returns (list: seq<Node>)
      ensures |list| == |nodeList|
      ensures forall i :: 0 <= i < |list| ==> list[i] == nodeList[i]
    {
      list := [];
      var i := 0;
      while i < |nodeList|
        invariant 0 <= i <= |nodeList|
        invariant list == nodeList[..i]
      {
        list := list + [nodeList[i]];
        i := i + 1;
      }
    }

    /** `regenerateGmlIds`: each listed `gml:id`, in order, gets `"uuid."` and the next drawn UUID. */
    method RegenerateGmlIds(owners: seq<Node>)
      requires NoDuplicates(owners)
      modifies owners`attrs, uuids`issued
      ensures uuids.issued == old(uuids.issued) + |owners|
      ensures GmlIdsRegenerated(owners, old(AttrsOf(owners)), old(uuids.issued))
    {
      var i := 0;
      while i < |owners|
        invariant 0 <= i <= |owners|
        invariant uuids.issued == old(uuids.issued) + i
        invariant forall k :: 0 <= k < i ==>
          owners[k].attrs == WithGmlId(old(owners[k].attrs), GmlIdValue(uuids.supply(old(uuids.issued) + k)))
        invariant forall k :: i <= k < |owners| ==> owners[k].attrs == old(owners[k].attrs)
      {
        var u := uuids.RandomUUID();
        owners[i].attrs := WithGmlId(owners[i].attrs, GmlIdValue(u));
        i := i + 1;
      }
    }

    /**
     * With a UUID source that never repeats, the regenerated ids are unique
     * within the timeSlice: an owner that had a `gml:id` still has one, and
     * the `gml:id` values of two different owners differ.
     */
    lemma RegeneratedIdsUnique(owners: seq<Node>, before: seq<seq<Attribute>>, first: nat)
      requires GmlIdsRegenerated(owners, before, first) && Injective(uuids.supply)
      ensures forall k :: 0 <= k < |owners| && CarriesGmlId(before[k]) ==> CarriesGmlId(owners[k].attrs)
      ensures forall k, l, i, j ::
        && 0 <= k < |owners| && 0 <= l < |owners| && k != l
        && 0 <= i < |owners[k].attrs| && IsGmlId(owners[k].attrs[i])
        && 0 <= j < |owners[l].attrs| && IsGmlId(owners[l].attrs[j])
        ==> owners[k].attrs[i].value != owners[l].attrs[j].value
    {
      forall k | 0 <= k < |owners| && CarriesGmlId(before[k])
        ensures CarriesGmlId(owners[k].attrs)
      {
        var i :| 0 <= i < |before[k]| && IsGmlId(before[k][i]);
        assert owners[k].attrs[i].uri == before[k][i].uri && owners[k].attrs[i].qName == before[k][i].qName;
        assert IsGmlId(owners[k].attrs[i]);
      }
      forall k, l, i, j |
        && 0 <= k < |owners| && 0 <= l < |owners| && k != l
        && 0 <= i < |owners[k].attrs| && IsGmlId(owners[k].attrs[i])
        && 0 <= j < |owners[l].attrs| && IsGmlId(owners[l].attrs[j])
        ensures owners[k].attrs[i].value != owners[l].attrs[j].value
      {
        var u, w := uuids.supply(first + k), uuids.supply(first + l);
        assert IsGmlId(before[k][i]) && IsGmlId(before[l][j]);
        assert owners[k].attrs[i].value == GmlIdValue(u) && owners[l].attrs[j].value == GmlIdValue(w);
        GmlIdValueInjective(u, w);
      }
    }

    /** `createAnnotation`: a new remark annotation whose two identifiable elements get fresh ids. */
    method CreateAnnotation(text: string) returns (annotation: Node, ghost parts: seq<Node>)
      modifies uuids`issued
      ensures |parts| == 6 && parts[0] == annotation && fresh(annotation)
      ensures forall n :: n in parts ==> fresh(n)
      ensures uuids.issued == old(uuids.issued) + 2
      ensures RemarkAnnotation(parts, text,
        GmlIdValue(uuids.supply(old(uuids.issued))), GmlIdValue(uuids.supply(old(uuids.issued) + 1)))
    {
      annotation := NewAixmElement("annotation");
      var note, noteParts := CreateNote(text);
      annotation.children := annotation.children + [note];
      parts := [annotation] + noteParts;
      assert parts[1..] == noteParts;
    }

    /** The `aixm:Note` part of `createAnnotation`, which draws both UUIDs. */
    method CreateNote(text: string) returns (note: Node, ghost parts: seq<Node>)
      modifies uuids`issued
      ensures |parts| == 5 && parts[0] == note
      ensures forall n :: n in parts ==> fresh(n)
      ensures uuids.issued == old(uuids.issued) + 2
      ensures RemarkNote(parts, text,
        GmlIdValue(uuids.supply(old(uuids.issued))), GmlIdValue(uuids.supply(old(uuids.issued) + 1)))
    {
      note := NewAixmElement("Note");
      var noteId := uuids.RandomUUID();
      SetGmlId(note, GmlIdValue(noteId));
      var purpose := CreatePurpose();
      note.children := note.children + [purpose];
      var translatedNote, translatedParts := CreateTranslatedNote(text);
      note.children := note.children + [translatedNote];
      parts := [note, purpose] + translatedParts;
      assert parts[2..] == translatedParts;
    }

    /** The `aixm:purpose` element of `createAnnotation`, holding the text `REMARK`. */
    method CreatePurpose() returns (purpose: Node)
      ensures fresh(purpose) && purpose.IsElement(AIXM_NS, "purpose") && purpose.qName == AixmQName("purpose")
      ensures purpose.attrs == [] && TextOnly(purpose, "REMARK")
    {
      purpose := NewAixmElement("purpose");
      SetTextContent(purpose, "REMARK");
    }

    /** The `aixm:translatedNote` part of `createAnnotation`, which draws the second UUID. */
    method CreateTranslatedNote(text: string) returns (translatedNote: Node, ghost parts: seq<Node>)
      modifies uuids`issued
      ensures |parts| == 3 && parts[0] == translatedNote
      ensures forall n :: n in parts ==> fresh(n)
      ensures uuids.issued == old(uuids.issued) + 1
      ensures TranslatedNote(parts, text, GmlIdValue(uuids.supply(old(uuids.issued))))
    {
      translatedNote := NewAixmElement("translatedNote");
      var linguisticNote := NewAixmElement("LinguisticNote");
      var linguisticNoteId := uuids.RandomUUID();
      SetGmlId(linguisticNote, GmlIdValue(linguisticNoteId));
      var innerNote := NewAixmElement("note");
      SetTextContent(innerNote, text);
      linguisticNote.children := linguisticNote.children + [innerNote];
      translatedNote.children := translatedNote.children + [linguisticNote];
      parts := [translatedNote, linguisticNote, innerNote];
    }

    /**
     * `placeAnnotation`: inserts the annotation before the first element
     * child the feature type requires after it, or appends it. A text node
     * accepts no child.
     */
    method PlaceAnnotation(name: string, timeSlice: Node, annotation: Node) returns (r: Outcome<Failure>)
      requires annotation != timeSlice && annotation !in timeSlice.children
      modifies timeSlice`children
      ensures timeSlice.kind == TextNode ==> r == Fail(HierarchyRequest) && timeSlice.children == old(timeSlice.children)
      ensures timeSlice.kind == ElementNode ==>
        r == Pass && timeSlice.children == Placed(old(timeSlice.children), annotation, name, isAfterAnnotation)
    {
      var nodes := ConvertToList(timeSlice.children);
      assert nodes == timeSlice.children;
      if timeSlice.kind == TextNode {
        return Fail(HierarchyRequest);
      }
      var i := AnnotationSlot(nodes, name, isAfterAnnotation);
      timeSlice.children := nodes[..i] + [annotation] + nodes[i..];
      r := Pass;
    }

    /** The text step of `handleFeature`: each element a path selects gets its new text. */
    method ResetTexts(q: Selection)
      requires q.NamesSound()
      modifies q.TextTargets()`children
      ensures TextsReset(q, None)
    {
      var beginPosition := q.beginPosition;
      var sequenceNumber := q.sequenceNumber;
      var correctionNumber := q.correctionNumber;
      // the three targets carry three different names, so they are three different elements
      assert beginPosition.Some? ==> beginPosition.value.IsElement(GML_NS, "beginPosition");
      assert sequenceNumber.Some? ==> sequenceNumber.value.IsElement(AIXM_NS, "sequenceNumber");
      assert correctionNumber.Some? ==> correctionNumber.value.IsElement(AIXM_NS, "correctionNumber");
      if beginPosition.Some? {
        SetTextContent(beginPosition.value, NewText(BeginPositionPath));
      }
      if sequenceNumber.Some? {
        SetTextContent(sequenceNumber.value, NewText(SequenceNumberPath));
      }
      if correctionNumber.Some? {
        SetTextContent(correctionNumber.value, NewText(CorrectionNumberPath));
      }
    }

    /**
     * The steps of `handleFeature` that every feature goes through: its
     * `gml:id` values are regenerated, then its begin position, sequence
     * number and correction number are rewritten. The timeSlice keeps its
     * children.
     */
    method RewriteTimeSlice(ts: Node, q: Selection)
      requires ts.IsElement(AIXM_NS, "timeSlice") && q.NamesSound()
      modifies uuids`issued, q.gmlIdOwners`attrs, q.TextTargets()`children
      ensures uuids.issued == old(uuids.issued) + |q.gmlIdOwners|
      ensures GmlIdsRegenerated(q.gmlIdOwners, old(AttrsOf(q.gmlIdOwners)), old(uuids.issued))
      ensures TextsReset(q, None)
      ensures ts.children == old(ts.children)
    {
      RegenerateGmlIds(q.gmlIdOwners);
      assert ts !in q.TextTargets();
      ResetTexts(q);
    }

    /**
     * `first`, whose children were `before`, refused the remark annotation:
     * it has lost its first `xsi:nil="true"` annotation, if any, and holds
     * nothing new.
     */
    predicate RemarkRefused(first: Node, before: seq<Node>)
      reads first, before
    {
      first.children == Without(before, FirstMatching(before, NilAnnotationPath))
    }

    /**
     * `first`, whose children were `before`, has lost its first
     * `xsi:nil="true"` annotation, if any, and holds the remark annotation
     * `parts` in the slot `placeAnnotation` chooses; the annotation's two
     * identifiable elements carry the UUIDs drawn `drawn`-th and after.
     */
    predicate RemarkPlaced(first: Node, before: seq<Node>, featureName: string, remark: string, parts: seq<Node>, drawn: nat)
      reads first, before, parts
    {
      && |parts| == 6
      && first.children == Placed(Without(before, FirstMatching(before, NilAnnotationPath)), parts[0], featureName, isAfterAnnotation)
      && RemarkAnnotation(parts, remark, GmlIdValue(uuids.supply(drawn)), GmlIdValue(uuids.supply(drawn + 1)))
    }

    /**
     * The remark step of `handleFeature` on the timeSlice's first child: the
     * `xsi:nil` annotation, if there is one, is removed, and a new remark
     * annotation is created and placed.
     */
    method ReplaceAnnotation(featureName: string, first: Node, remark: string) returns (r: Outcome<Failure>, ghost parts: seq<Node>)
      modifies first`children, uuids`issued
      ensures uuids.issued == old(uuids.issued) + 2
      ensures first.kind == TextNode ==>
        r == Fail(HierarchyRequest) && RemarkRefused(first, old(first.children))
      ensures first.kind == ElementNode ==>
        r == Pass && |parts| == 6 && fresh(parts[0]) && RemarkPlaced(first, old(first.children), featureName, remark, parts, old(uuids.issued))
    {
      ghost var before := first.children;
      var emptyAnnotation := FirstMatching(first.children, NilAnnotationPath);
      first.children := Without(first.children, emptyAnnotation);
      var annotation;
      annotation, parts := CreateAnnotation(remark);
      ghost var noteId, linguisticNoteId := GmlIdValue(uuids.supply(old(uuids.issued))), GmlIdValue(uuids.supply(old(uuids.issued) + 1));
      assert first !in parts && RemarkAnnotation(parts, remark, noteId, linguisticNoteId);
      r := PlaceAnnotation(featureName, first, annotation);
      MatchKept(before, NilAnnotationPath);
      assert RemarkAnnotation(parts, remark, noteId, linguisticNoteId);
    }

    /**
     * `handleFeature`: the first timeSlice of the wrapped feature is
     * rewritten in place and the feature is streamed (`HandleTimeSlice`). A
     * `!!` on a missing timeSlice throws before anything changes.
     */
    method HandleFeature(partial: Node, q: Selection)
      returns (r: Outcome<Failure>, ghost parts: seq<Node>, ghost before: seq<Node>, ghost drawn: nat)
      requires TimeSliceOf(partial).Some? ==> q.Sound()
      modifies uuids`issued, q.gmlIdOwners`attrs, RewrittenOf(partial, q)`children, WriterFrame()`streamed
      ensures old(TimeSliceOf(partial)).None? ==> r == Fail(NullPointer) && uuids.issued == old(uuids.issued)
      ensures old(TimeSliceOf(partial)).None? ==>
        forall n: Node | old(allocated(n)) :: n.attrs == old(n.attrs) && n.children == old(n.children)
      ensures old(TimeSliceOf(partial)).None? && partialWriter.Some? ==>
        partialWriter.value.streamed == old(partialWriter.value.streamed)
      ensures old(TimeSliceOf(partial)).Some? ==>
        GmlIdsRegenerated(q.gmlIdOwners, old(AttrsOf(q.gmlIdOwners)), old(uuids.issued))
      ensures old(TimeSliceOf(partial)).Some? ==>
        uuids.issued == old(uuids.issued) + |q.gmlIdOwners|
          + (if params.remark.Some? && old(FirstChild(TimeSliceOf(partial).value)).Some? then 2 else 0)
      ensures r.Pass? <==>
        && old(TimeSliceOf(partial)).Some? && old(partialWriter).Some?
        && (params.remark.Some? ==> old(FirstChild(TimeSliceOf(partial).value)).Some?
                                    && old(FirstChild(TimeSliceOf(partial).value)).value.kind == ElementNode)
      ensures r.Pass? ==> partialWriter.value.streamed == old(partialWriter.value.streamed) + [old(FeatureOf(partial)).value]
      ensures r.Fail? ==> partialWriter.Some? ==> partialWriter.value.streamed == old(partialWriter.value.streamed)
      ensures partialWriter == old(partialWriter) && documentElement == old(documentElement)
      ensures old(TimeSliceOf(partial)).Some? ==>
        TextsReset(q, if params.remark.Some? then old(FirstChild(TimeSliceOf(partial).value)) else None)
      ensures old(TimeSliceOf(partial)).Some? && old(FirstChild(TimeSliceOf(partial).value)).Some?
              && old(FirstChild(TimeSliceOf(partial).value)).value !in q.TextTargets() ==>
        before == old(FirstChild(TimeSliceOf(partial).value).value.children)
      ensures old(TimeSliceOf(partial)).Some? && params.remark.None? && old(FirstChild(TimeSliceOf(partial).value)).Some? ==>
        old(FirstChild(TimeSliceOf(partial).value)).value.children == before
      ensures params.remark.Some? && r.Pass? ==>
        drawn == old(uuids.issued) + |q.gmlIdOwners|
        && RemarkPlaced(old(FirstChild(TimeSliceOf(partial).value)).value, before, old(FeatureOf(partial)).value.localName,
                        params.remark.value, parts, drawn)
      ensures params.remark.Some? && old(TimeSliceOf(partial)).Some? && old(FirstChild(TimeSliceOf(partial).value)).Some?
              && old(FirstChild(TimeSliceOf(partial).value)).value.kind == TextNode ==>
        r == Fail(HierarchyRequest) && RemarkRefused(old(FirstChild(TimeSliceOf(partial).value)).value, before)
    {
      parts, before, drawn := [], [], 0;
      var featureOpt := FeatureOf(partial);
      var timeSlice := ExtractChild(featureOpt, TimeSlicePath);
      if timeSlice.None? {
        return Fail(NullPointer), parts, before, drawn;
      }
      assert RewrittenOf(partial, q) == q.TextTargets() + OptionSet(FirstChild(timeSlice.value));
      r, parts, before, drawn := HandleTimeSlice(featureOpt.value, timeSlice.value, q);
    }

    /**
     * `handleFeature` once the timeSlice `ts` of `feature` is found: the
     * `gml:id` values and the texts are rewritten (`RewriteTimeSlice`), then
     * the remark annotation is replaced and the feature streamed
     * (`FinishFeature`). `before` is the timeSlice's first child's list of
     * children as the remark step finds it, which is the original one unless
     * a lookup selected that child; `parts` is the annotation placed.
     */
    method HandleTimeSlice(feature: Node, ts: Node, q: Selection)
      returns (r: Outcome<Failure>, ghost parts: seq<Node>, ghost before: seq<Node>, ghost drawn: nat)
      requires ts.IsElement(AIXM_NS, "timeSlice") && q.NamesSound()
      modifies uuids`issued, q.gmlIdOwners`attrs, q.TextTargets()`children, OptionSet(FirstChild(ts))`children
      modifies WriterFrame()`streamed
      // every gml:id under the timeSlice is regenerated, in document order
      ensures GmlIdsRegenerated(q.gmlIdOwners, old(AttrsOf(q.gmlIdOwners)), old(uuids.issued))
      // one UUID per gml:id, and two more for a remark annotation
      ensures uuids.issued == old(uuids.issued) + |q.gmlIdOwners|
        + (if params.remark.Some? && old(FirstChild(ts)).Some? then 2 else 0)
      // the selected texts hold their new values, except where the remark step rewrote a child list
      ensures TextsReset(q, if params.remark.Some? then old(FirstChild(ts)) else None)
      // the feature is streamed exactly when no step threw
      ensures r.Pass? <==>
        && old(partialWriter).Some?
        && (params.remark.Some? ==> old(FirstChild(ts)).Some? && old(FirstChild(ts)).value.kind == ElementNode)
      ensures r.Pass? ==> partialWriter.value.streamed == old(partialWriter.value.streamed) + [feature]
      ensures r.Fail? ==> partialWriter.Some? ==> partialWriter.value.streamed == old(partialWriter.value.streamed)
      ensures partialWriter == old(partialWriter) && documentElement == old(documentElement)
      // with a remark, the timeSlice's first child holds the new annotation in its slot
      ensures old(FirstChild(ts)).Some? && old(FirstChild(ts)).value !in q.TextTargets() ==>
        before == old(FirstChild(ts).value.children)
      ensures params.remark.None? && old(FirstChild(ts)).Some? ==> old(FirstChild(ts)).value.children == before
      ensures params.remark.Some? && r.Pass? ==>
        drawn == old(uuids.issued) + |q.gmlIdOwners|
        && RemarkPlaced(old(FirstChild(ts)).value, before, feature.localName, params.remark.value, parts, drawn)
      // a text node as the first child refuses the annotation, and keeps all but the nil annotation
      ensures params.remark.Some? && old(FirstChild(ts)).Some? && old(FirstChild(ts)).value.kind == TextNode ==>
        r == Fail(HierarchyRequest) && RemarkRefused(old(FirstChild(ts)).value, before)
    {
      RewriteTimeSlice(ts, q);
      label reset:
      ghost var first := FirstChild(ts);
      drawn := uuids.issued;
      before := if first.None? then [] else first.value.children;
      r, parts := FinishFeature(feature, ts);
      MatchKept@reset(before, NilAnnotationPath);
      GmlIdsKept@reset(q.gmlIdOwners, old(AttrsOf(q.gmlIdOwners)), old(uuids.issued));
      TextsStay@reset(q, if params.remark.Some? then first else None);
    }

    /** Regenerated `gml:id` values stay so while no attribute list changes. */
    twostate lemma GmlIdsKept(owners: seq<Node>, new before: seq<seq<Attribute>>, new first: nat)
      requires old(GmlIdsRegenerated(owners, before, first))
      requires forall k :: 0 <= k < |owners| ==> owners[k].attrs == old(owners[k].attrs)
      ensures GmlIdsRegenerated(owners, before, first)
    {
    }

    /** Texts once reset stay so while no other step touches the targets' child lists. */
    twostate lemma TextsStay(q: Selection, new except: Option<Node>)
      requires old(TextsReset(q, None))
      requires q.beginPosition.Some? && q.beginPosition != except ==>
        q.beginPosition.value.children == old(q.beginPosition.value.children)
      requires q.sequenceNumber.Some? && q.sequenceNumber != except ==>
        q.sequenceNumber.value.children == old(q.sequenceNumber.value.children)
      requires q.correctionNumber.Some? && q.correctionNumber != except ==>
        q.correctionNumber.value.children == old(q.correctionNumber.value.children)
      ensures TextsReset(q, except)
    {
    }

    /**
     * The steps of `handleFeature` after the rewrite of the timeSlice `ts`:
     * the remark annotation is replaced (`RemarkStep`) when a remark is
     * configured, and the feature is streamed. A `!!` on a missing first
     * child of the timeSlice or on a missing writer throws, and what follows
     * it does not happen.
     */
    method FinishFeature(feature: Node, ts: Node) returns (r: Outcome<Failure>, ghost parts: seq<Node>)
      modifies uuids`issued, OptionSet(FirstChild(ts))`children, WriterFrame()`streamed
      ensures uuids.issued == old(uuids.issued) + (if params.remark.Some? && old(FirstChild(ts)).Some? then 2 else 0)
      ensures r.Pass? <==>
        && old(partialWriter).Some?
        && (params.remark.Some? ==> old(FirstChild(ts)).Some? && old(FirstChild(ts)).value.kind == ElementNode)
      ensures r.Pass? ==> partialWriter.value.streamed == old(partialWriter.value.streamed) + [feature]
      ensures r.Fail? ==> partialWriter.Some? ==> partialWriter.value.streamed == old(partialWriter.value.streamed)
      ensures partialWriter == old(partialWriter) && documentElement == old(documentElement)
      ensures params.remark.None? && old(FirstChild(ts)).Some? ==>
        old(FirstChild(ts)).value.children == old(FirstChild(ts).value.children)
      ensures params.remark.Some? && r.Pass? ==>
        RemarkPlaced(old(FirstChild(ts)).value, old(FirstChild(ts).value.children), feature.localName,
                     params.remark.value, parts, old(uuids.issued))
      ensures params.remark.Some? && old(FirstChild(ts)).Some? && old(FirstChild(ts)).value.kind == TextNode ==>
        r == Fail(HierarchyRequest) && RemarkRefused(old(FirstChild(ts)).value, old(FirstChild(ts).value.children))
    {
      var writer := partialWriter;
      r, parts := Pass, [];
      if params.remark.Some? {
        r, parts := RemarkStep(feature.localName, ts, params.remark.value);
      }
      if r.Pass? {
        if writer.None? {
          r := Fail(NullPointer);
        } else {
          writer.value.StreamElement(feature);
        }
      }
    }

    /**
     * The remark step of `handleFeature`: the `!!` on the timeSlice's first
     * child, then `ReplaceAnnotation` on it.
     */
    method RemarkStep(featureName: string, ts: Node, remark: string) returns (r: Outcome<Failure>, ghost parts: seq<Node>)
      modifies OptionSet(FirstChild(ts))`children, uuids`issued
      ensures old(FirstChild(ts)).None? ==> r == Fail(NullPointer) && uuids.issued == old(uuids.issued)
      ensures old(FirstChild(ts)).Some? ==>
        && uuids.issued == old(uuids.issued) + 2
        && (old(FirstChild(ts)).value.kind == ElementNode ==> r == Pass)
        && (old(FirstChild(ts)).value.kind == TextNode ==>
              r == Fail(HierarchyRequest) && RemarkRefused(old(FirstChild(ts)).value, old(FirstChild(ts).value.children)))
      ensures r.Pass? ==>
        |parts| == 6 && fresh(parts[0])
        && RemarkPlaced(old(FirstChild(ts)).value, old(FirstChild(ts).value.children), featureName, remark, parts, old(uuids.issued))
    {
      if ts.children == [] {
        return Fail(NullPointer), [];
      }
      r, parts := ReplaceAnnotation(featureName, ts.children[0], remark);
    }

    /**
     * `handlePartial` of the substitution: the base class's decision, then
     * the hooks it names. `handleMessageMetadata` is not overridden, so a
     * metadata partial changes nothing but, the first time, the writer.
     */
    method HandlePartial(partial: Node, q: Selection) returns (r: Outcome<Failure>)
      requires TimeSliceOf(partial).Some? ==> q.Sound()
      modifies handler`firstPartialHandled, this`partialWriter, uuids`issued
      modifies q.gmlIdOwners`attrs, RewrittenOf(partial, q)`children, WriterFrame()`streamed
      ensures handler.Snapshot() == HandleStep(old(handler.Snapshot())).0
      ensures old(partialWriter).Some? ==> partialWriter == old(partialWriter)
      ensures old(partialWriter).None? && !old(handler.firstPartialHandled) ==>
        partialWriter.Some? && fresh(partialWriter.value) && partialWriter.value.root == documentElement
      ensures handler.state == Nothing ==> r == Fail(IllegalState) && uuids.issued == old(uuids.issued)
      ensures handler.state == MessageMeta ==> r == Pass && uuids.issued == old(uuids.issued)
      ensures handler.state != Feature || old(TimeSliceOf(partial)).None? ==>
        forall n: Node | old(allocated(n)) :: n.attrs == old(n.attrs) && n.children == old(n.children)
      ensures handler.state == Feature && old(TimeSliceOf(partial)).None? ==> r == Fail(NullPointer)
      ensures (handler.state != Feature || old(TimeSliceOf(partial)).None?) && partialWriter.Some? ==>
        partialWriter.value.streamed == old(if partialWriter.Some? then partialWriter.value.streamed else [])
      ensures handler.state == Feature && r.Pass? ==> old(TimeSliceOf(partial)).Some? && partialWriter.Some?
      ensures handler.state == Feature && r.Pass? ==>
        partialWriter.value.streamed == old(if partialWriter.Some? then partialWriter.value.streamed else [])
                                        + [old(FeatureOf(partial)).value]
    {
      var runFirst, dispatch := handler.HandlePartial();
      if runFirst {
        FirstPartial();
      }
      LookupsFramed(partial, q);
      if dispatch.Failure? {
        return Fail(dispatch.error);
      } else if dispatch.value == FeatureHook {
        ghost var parts, before, drawn;
        r, parts, before, drawn := HandleFeature(partial, q);
      } else {
        r := Pass;
      }
    }
  }

  /**
   * The lookups under a partial read only child lists and the attributes of
   * the feature's children: they give the same answers in any later state
   * that keeps those.
   */
  twostate lemma LookupsFramed(partial: Node, new q: Selection)
    requires old(allocated(q))
    requires partial.children == old(partial.children)
    requires forall c :: c in partial.children ==> c.children == old(c.children)
    requires forall c :: c in partial.children ==> forall d :: d in c.children ==>
      d.attrs == old(d.attrs) && d.children == old(d.children)
    ensures FeatureOf(partial) == old(FeatureOf(partial))
    ensures TimeSliceOf(partial) == old(TimeSliceOf(partial))
    ensures RewrittenOf(partial, q) == old(RewrittenOf(partial, q))
  {
  }

  /** A child-axis lookup gives the same answer in a later state that kept the attributes of the children. */
  twostate lemma MatchKept(cs: seq<Node>, new p: ChildPath)
    requires forall c :: c in cs ==> c.attrs == old(c.attrs)
    ensures FirstMatching(cs, p) == old(FirstMatching(cs, p))
  {
  }

  /** No two attributes share an expanded name, as in any well-formed start tag. */
  predicate DistinctNames(attributes: seq<Attribute>)
  {
    forall i, j :: 0 <= i < j < |attributes| ==> !attributes[i].SameName(attributes[j].uri, attributes[j].qName)
  }

  /** The local part of `prefix:local` is `local`. */
  lemma {:induction false} LocalPartOfPrefixed(prefix: string, local: string)
    requires ':' !in prefix && ':' !in local
    ensures LocalPart(prefix + ":" + local) == local
  {
    var q := prefix + ":" + local;
    assert q[|prefix|] == ':';
    if prefix == [] {
      assert q[1..] == local;
    } else {
      assert q[0] == prefix[0];
      assert q[1..] == prefix[1..] + ":" + local;
      LocalPartOfPrefixed(prefix[1..], local);
    }
  }
}
