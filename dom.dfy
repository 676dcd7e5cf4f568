/**
 * The small slice of the W3C DOM that the AIXM 5.1 Basic Message processing
 * touches: element and text nodes with mutable attribute and child lists,
 * the `textContent` setter, the child-axis path lookups the handlers issue,
 * the answers of the descendant-axis lookups, and the random UUID source.
 */
module Dom {
  import opened Wrappers

  /** Namespace URIs bound to the prefixes `aixm`, `message`, `gml` and `xsi`. */
  const AIXM_NS := "http://www.aixm.aero/schema/5.1"
  const AIXM_BM_NS := "http://www.aixm.aero/schema/5.1/message"
  const GML_NS := "http://www.opengis.net/gml/3.2"
  const XSI_NS := "http://www.w3.org/2001/XMLSchema-instance"

  /** The node types the handled documents are taken to contain (no comments, CDATA sections or processing instructions). */
  datatype NodeKind = ElementNode | TextNode

  /** The local part of a qualified name: what follows its first colon, or the whole name. */
  function LocalPart(qName: string): string
  {
    if ':' !in qName then qName
    else if qName[0] == ':' then qName[1..]
    else LocalPart(qName[1..])
  }

  /** An attribute as `setAttributeNS(uri, qName, value)` creates it. */
  datatype Attribute = Attribute(uri: string, qName: string, value: string)
  {
    function LocalName(): string { LocalPart(qName) }

    /** The expanded name `{uri}localName` identifies an attribute within its element. */
    predicate SameName(uri': string, qName': string) {
      uri == uri' && LocalName() == LocalPart(qName')
    }
  }

  predicate IsGmlId(a: Attribute) { a.uri == GML_NS && a.LocalName() == "id" }

  /** An element whose attribute list holds a `gml:id`. */
  predicate CarriesGmlId(attrs: seq<Attribute>)
  {
    exists i :: 0 <= i < |attrs| && IsGmlId(attrs[i])
  }

  predicate IsXsiNilTrue(a: Attribute) { a.uri == XSI_NS && a.LocalName() == "nil" && a.value == "true" }

  predicate NoDuplicates<T(==)>(s: seq<T>) {
    forall i, j :: 0 <= i < j < |s| ==> s[i] != s[j]
  }

  /**
   * A DOM node. Its kind, name and character data never change after
   * creation; its attribute list and its child list are updated in place.
   */
  class Node {
    const kind: NodeKind
    const uri: string
    const qName: string
    const localName: string
    /** The character data of a text node; empty for an element. */
    const data: string
    var attrs: seq<Attribute>
    var children: seq<Node>

    /** `Document.createElementNS(uri, qName)` */
    constructor Element(uri: string, qName: string)
      ensures kind == ElementNode && this.uri == uri && this.qName == qName
      ensures localName == LocalPart(qName) && data == ""
      ensures attrs == [] && children == []
    {
      kind, this.uri, this.qName, localName, data := ElementNode, uri, qName, LocalPart(qName), "";
      attrs, children := [], [];
    }

    /** `Document.createTextNode(data)` */
    constructor Text(data: string)
      ensures kind == TextNode && this.data == data
      ensures uri == "" && qName == "" && localName == ""
      ensures attrs == [] && children == []
    {
      kind, uri, qName, localName, this.data := TextNode, "", "", "", data;
      attrs, children := [], [];
    }

    predicate IsElement(uri': string, localName': string) {
      kind == ElementNode && uri == uri' && localName == localName'
    }
  }

  /** `n.firstChild` */
  function FirstChild(n: Node): Option<Node>
    reads n`children
  {
    if n.children == [] then None else Some(n.children[0])
  }

  /**
   * The text content of a node whose children are read: the character data of
   * its text children, in order.
   */
  function DirectText(cs: seq<Node>): (r: string)
    ensures |cs| == 1 && cs[0].kind == TextNode ==> r == cs[0].data
  {
    if cs == [] then "" else (if cs[0].kind == TextNode then cs[0].data else "") + DirectText(cs[1..])
  }

  /** The attribute list after every `gml:id` attribute got `value`. */
  function WithGmlId(attrs: seq<Attribute>, value: string): (r: seq<Attribute>)
    ensures |r| == |attrs|
    ensures forall i :: 0 <= i < |r| ==> r[i].uri == attrs[i].uri && r[i].qName == attrs[i].qName
    ensures forall i :: 0 <= i < |r| && IsGmlId(attrs[i]) ==> r[i].value == value
    ensures forall i :: 0 <= i < |r| && !IsGmlId(attrs[i]) ==> r[i] == attrs[i]
  {
    seq(|attrs|, i requires 0 <= i < |attrs| =>
      if IsGmlId(attrs[i]) then attrs[i].(value := value) else attrs[i])
  }

  /** The position of the attribute with the expanded name of `(uri, qName)`, if any. */
  function AttributeIndex(attrs: seq<Attribute>, uri: string, qName: string): (r: Option<nat>)
    ensures r.Some? ==> r.value < |attrs| && attrs[r.value].SameName(uri, qName)
    ensures r.None? ==> forall i :: 0 <= i < |attrs| ==> !attrs[i].SameName(uri, qName)
  {
    if attrs == [] then None
    else if attrs[0].SameName(uri, qName) then Some(0)
    else match AttributeIndex(attrs[1..], uri, qName)
      case None => None
      case Some(k) => Some(k + 1)
  }

  /**
   * `Element.setAttributeNS(uri, qName, value)`: replaces the attribute with
   * the same expanded name where it stands, or appends a new one.
   */
  function SetAttributeNS(attrs: seq<Attribute>, uri: string, qName: string, value: string): (r: seq<Attribute>)
    ensures (exists i :: 0 <= i < |attrs| && attrs[i].SameName(uri, qName)) ==>
      |r| == |attrs| &&
      exists i :: 0 <= i < |attrs| && attrs[i].SameName(uri, qName) &&
        r == attrs[i := Attribute(uri, qName, value)]
    ensures (forall i :: 0 <= i < |attrs| ==> !attrs[i].SameName(uri, qName)) ==>
      r == attrs + [Attribute(uri, qName, value)]
  {
    match AttributeIndex(attrs, uri, qName)
    case Some(i) => attrs[i := Attribute(uri, qName, value)]
    case None => attrs + [Attribute(uri, qName, value)]
  }

  /** On an element without attributes, `setAttributeNS` yields exactly the one new attribute. */
  lemma SetAttributeNSOnEmpty(uri: string, qName: string, value: string)
    ensures SetAttributeNS([], uri, qName, value) == [Attribute(uri, qName, value)]
  {
  }

  /** The child-axis paths the handlers evaluate. */
  datatype ChildPath =
    | TimeSlicePath       // aixm:timeSlice
    | IdentifierPath      // gml:identifier
    | NilAnnotationPath   // aixm:annotation[@xsi:nil = "true"]

  predicate Matches(c: Node, p: ChildPath)
    reads c`attrs
  {
    match p
    case TimeSlicePath => c.IsElement(AIXM_NS, "timeSlice")
    case IdentifierPath => c.IsElement(GML_NS, "identifier")
    case NilAnnotationPath =>
      c.IsElement(AIXM_NS, "annotation") && exists i :: 0 <= i < |c.attrs| && IsXsiNilTrue(c.attrs[i])
  }

  /** The position of the first node of `cs` that `p` selects (document order), if any. */
  function FirstMatching(cs: seq<Node>, p: ChildPath): (r: Option<nat>)
    reads cs`attrs
    ensures r.Some? ==> r.value < |cs| && Matches(cs[r.value], p)
    ensures r.Some? ==> forall j :: 0 <= j < r.value ==> !Matches(cs[j], p)
    ensures r.None? <==> forall j :: 0 <= j < |cs| ==> !Matches(cs[j], p)
  {
    if cs == [] then None
    else if Matches(cs[0], p) then Some(0)
    else match FirstMatching(cs[1..], p)
      case None => None
      case Some(k) => Some(k + 1)
  }

  /** `XPathTool.extractNode(n, p)` for a child-axis path `p`; a missing context node selects nothing. */
  function ExtractChild(n: Option<Node>, p: ChildPath): (r: Option<Node>)
    reads (if n.Some? then {n.value} else {})`children
    reads (if n.Some? then n.value.children else [])`attrs
    ensures n.None? ==> r.None?
    ensures n.Some? ==> (r.Some? <==> exists j :: 0 <= j < |n.value.children| && Matches(n.value.children[j], p))
    ensures r.Some? ==> r.value in n.value.children && Matches(r.value, p)
    ensures r.Some? ==> exists j :: 0 <= j < |n.value.children| && n.value.children[j] == r.value
                                    && forall i :: 0 <= i < j ==> !Matches(n.value.children[i], p)
  {
    if n.None? then None
    else match FirstMatching(n.value.children, p)
      case None => None
      case Some(i) => Some(n.value.children[i])
  }

  /**
   * Setting `textContent` on an element: every child is removed and, unless
   * the new text is empty, one new text node holding it takes their place.
   */
  method SetTextContent(n: Node, s: string)
    modifies n`children
    ensures DirectText(n.children) == s
    ensures forall c :: c in n.children ==> c.kind == TextNode && fresh(c)
    ensures |n.children| <= 1
  {
    if s == "" {
      n.children := [];
    } else {
      var t := new Node.Text(s);
      n.children := [t];
    }
  }

  /** The descendant-axis paths `handleFeature` evaluates under a timeSlice. */
  datatype DescendantPath =
    | BeginPositionPath     // descendant::gml:validTime/gml:TimePeriod/gml:beginPosition
    | SequenceNumberPath    // descendant::aixm:sequenceNumber
    | CorrectionNumberPath  // descendant::aixm:correctionNumber

  /** Whether `n` carries the name the path `p` ends in. */
  predicate NamedFor(n: Node, p: DescendantPath)
  {
    match p
    case BeginPositionPath => n.IsElement(GML_NS, "beginPosition")
    case SequenceNumberPath => n.IsElement(AIXM_NS, "sequenceNumber")
    case CorrectionNumberPath => n.IsElement(AIXM_NS, "correctionNumber")
  }

  function OptionSet(n: Option<Node>): set<Node>
  {
    if n.Some? then {n.value} else {}
  }

  /**
   * What the descendant-axis lookups under one timeSlice select. Evaluating
   * those paths over the subtree is not part of this model: the answers are
   * an input. `gmlIdOwners` lists, in document order, the elements whose
   * `gml:id` attribute `descendant::node()/@gml:id` selects; the others are
   * `extractNode` on the three paths of `DescendantPath`.
   */
  datatype Selection = Selection(
    gmlIdOwners: seq<Node>,
    beginPosition: Option<Node>,
    sequenceNumber: Option<Node>,
    correctionNumber: Option<Node>)
  {
    function Select(p: DescendantPath): Option<Node>
    {
      match p
      case BeginPositionPath => beginPosition
      case SequenceNumberPath => sequenceNumber
      case CorrectionNumberPath => correctionNumber
    }

    /**
     * What any XPath evaluation guarantees of the single-node answers and of
     * the order of the node-set: no node is listed twice, and a single-node
     * path yields an element of the name it ends in.
     */
    predicate NamesSound()
    {
      && NoDuplicates(gmlIdOwners)
      && (beginPosition.Some? ==> NamedFor(beginPosition.value, BeginPositionPath))
      && (sequenceNumber.Some? ==> NamedFor(sequenceNumber.value, SequenceNumberPath))
      && (correctionNumber.Some? ==> NamedFor(correctionNumber.value, CorrectionNumberPath))
    }

    /** All the answers are sound: besides `NamesSound`, each listed owner carries the `gml:id` selected on it. */
    predicate Sound()
      reads gmlIdOwners`attrs
    {
      && NamesSound()
      && forall k :: 0 <= k < |gmlIdOwners| ==> CarriesGmlId(gmlIdOwners[k].attrs)
    }

    /** The elements whose text `handleFeature` replaces. */
    function TextTargets(): (r: set<Node>)
      ensures forall p :: Select(p).Some? ==> Select(p).value in r
    {
      assert Select(BeginPositionPath) == beginPosition;
      assert Select(SequenceNumberPath) == sequenceNumber;
      assert Select(CorrectionNumberPath) == correctionNumber;
      OptionSet(beginPosition) + OptionSet(sequenceNumber) + OptionSet(correctionNumber)
    }
  }

  /**
   * The explicit freshness assumption on a UUID source: no string is drawn
   * twice.
   */
  ghost predicate Injective(supply: nat -> string)
  {
    forall i, j :: i != j ==> supply(i) != supply(j)
  }

  /**
   * `UUID.randomUUID()`: the k-th call of a run returns `supply(k)`. Nothing
   * is assumed of the strings unless a lemma asks for `Injective(supply)`.
   */
  class UuidGenerator {
    const supply: nat -> string
    var issued: nat

    constructor(supply: nat -> string)
      ensures this.supply == supply && issued == 0
    {
      this.supply := supply;
      issued := 0;
    }

    method RandomUUID() returns (u: string)
      modifies this`issued
      ensures u == supply(old(issued)) && issued == old(issued) + 1
    {
      u := supply(issued);
      issued := issued + 1;
    }
  }
}
