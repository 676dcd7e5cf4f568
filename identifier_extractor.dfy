/**
 * The identifier extraction pass: for every feature partial of an AIXM 5.1
 * Basic Message, the text of the feature's `gml:identifier` is recorded with
 * a newly drawn UUID, in an insertion-ordered map; the map can be written
 * out as a two-column CSV table.
 */
module IdentifierExtraction {
  import opened Wrappers
  import opened Dom
  import opened PartialHandler

  /** A map entry: the original identifier and the UUID drawn for it. */
  type Entry = (string, string)

  /*
   * `mutableMapOf()` is a LinkedHashMap: its entries keep the order in which
   * their keys were first inserted. It is modelled as the sequence of its
   * entries; `AsMap` is what the entries mean as a plain map.
   */

  /** The position of the entry with key `k`, if any. */
  function KeyIndex(m: seq<Entry>, k: string): (r: Option<nat>)
    ensures r.Some? ==> r.value < |m| && m[r.value].0 == k
    ensures r.Some? ==> forall j :: 0 <= j < r.value ==> m[j].0 != k
    ensures r.None? <==> forall j :: 0 <= j < |m| ==> m[j].0 != k
  {
    if m == [] then None
    else if m[0].0 == k then Some(0)
    else match KeyIndex(m[1..], k)
      case None => None
      case Some(i) => Some(i + 1)
  }

  predicate KeysDistinct(m: seq<Entry>)
  {
    forall i, j :: 0 <= i < j < |m| ==> m[i].0 != m[j].0
  }

  function KeySet(m: seq<Entry>): set<string>
  {
    set e | e in m :: e.0
  }

  /** The entries read as a map: a lookup finds the first entry with the key. */
  function AsMap(m: seq<Entry>): map<string, string>
  {
    if m == [] then map[] else AsMap(m[1..])[m[0].0 := m[0].1]
  }

  lemma {:induction false} AsMapKeys(m: seq<Entry>)
    ensures AsMap(m).Keys == KeySet(m)
  {
    if m != [] {
      AsMapKeys(m[1..]);
      assert KeySet(m) == KeySet(m[1..]) + {m[0].0} by {
        assert m == [m[0]] + m[1..];
      }
    }
  }

  /** A map with distinct keys has as many keys as entries. */
  lemma {:induction false} AsMapSize(m: seq<Entry>)
    requires KeysDistinct(m)
    ensures |AsMap(m)| == |m|
  {
    if m != [] {
      AsMapSize(m[1..]);
      AsMapKeys(m[1..]);
      forall e | e in m[1..]
        ensures e.0 != m[0].0
      {
        var j :| 0 <= j < |m[1..]| && m[1..][j] == e;
        assert m[j + 1] == e;
      }
    }
  }

  /** Replacing the value of the first entry with key `k` updates the map at `k`. */
  lemma {:induction false} AsMapReplace(m: seq<Entry>, i: nat, k: string, v: string)
    requires KeyIndex(m, k) == Some(i)
    ensures AsMap(m[i := (k, v)]) == AsMap(m)[k := v]
  {
    if i == 0 {
      assert m[i := (k, v)][1..] == m[1..];
    } else {
      assert KeyIndex(m[1..], k) == Some(i - 1);
      AsMapReplace(m[1..], i - 1, k, v);
      assert m[i := (k, v)][1..] == m[1..][i - 1 := (k, v)];
    }
  }

  /** Appending an entry with a new key `k` updates the map at `k`. */
  lemma {:induction false} AsMapAppend(m: seq<Entry>, k: string, v: string)
    requires KeyIndex(m, k).None?
    ensures AsMap(m + [(k, v)]) == AsMap(m)[k := v]
  {
    if m != [] {
      assert KeyIndex(m[1..], k).None?;
      AsMapAppend(m[1..], k, v);
      assert (m + [(k, v)])[1..] == m[1..] + [(k, v)];
    }
  }

  /**
   * `identifierMap[k] = v`: an existing key keeps its place and takes the
   * new value; a new key is appended.
   */
  function Put(m: seq<Entry>, k: string, v: string): (r: seq<Entry>)
  {
    match KeyIndex(m, k)
    case Some(i) => m[i := (k, v)]
    case None => m + [(k, v)]
  }

  /** Read as a map, `Put` is a map update. */
  lemma PutAsMap(m: seq<Entry>, k: string, v: string)
    ensures AsMap(Put(m, k, v)) == AsMap(m)[k := v]
  {
    match KeyIndex(m, k)
    case Some(i) => AsMapReplace(m, i, k, v);
    case None => AsMapAppend(m, k, v);
  }

  /**
   * Insertion order: the keys already present keep their places, and only a
   * new key makes the map longer, at its end. No entry other than `(k, v)`
   * appears, and distinct keys stay distinct.
   */
  lemma PutEntries(m: seq<Entry>, k: string, v: string)
    ensures var r := Put(m, k, v);
      && (|r| == |m| || r == m + [(k, v)])
      && (forall j :: 0 <= j < |m| ==> r[j].0 == m[j].0)
      && (forall e :: e in r ==> e in m || e == (k, v))
      && (KeysDistinct(m) ==> KeysDistinct(r))
  {
  }

  /**
   * The map after the identifiers `ks` were put in order on top of `m`, the
   * j-th of them with the UUID `supply(first + j)`.
   */
  function PutAll(m: seq<Entry>, ks: seq<string>, supply: nat -> string, first: nat): (r: seq<Entry>)
    ensures |m| <= |r| <= |m| + |ks|
    decreases |ks|
  {
    if ks == [] then m
    else
      Put(PutAll(m, ks[..|ks| - 1], supply, first), ks[|ks| - 1], supply(first + |ks| - 1))
  }

  /** The keys afterwards are the keys before and every identifier put. */
  lemma {:induction false} PutAllKeys(m: seq<Entry>, ks: seq<string>, supply: nat -> string, first: nat)
    ensures AsMap(PutAll(m, ks, supply, first)).Keys == AsMap(m).Keys + set k | k in ks
    decreases |ks|
  {
    if ks != [] {
      var init := ks[..|ks| - 1];
      PutAllKeys(m, init, supply, first);
      PutAsMap(PutAll(m, init, supply, first), ks[|ks| - 1], supply(first + |ks| - 1));
      assert (set k | k in ks) == (set k | k in init) + {ks[|ks| - 1]} by {
        assert ks == init + [ks[|ks| - 1]];
      }
    }
  }

  /** An identifier put more than once keeps the UUID of its last occurrence. */
  lemma {:induction false} PutAllLastWins(m: seq<Entry>, ks: seq<string>, supply: nat -> string, first: nat, j: nat)
    requires j < |ks| && forall j' :: j < j' < |ks| ==> ks[j'] != ks[j]
    ensures ks[j] in AsMap(PutAll(m, ks, supply, first))
    ensures AsMap(PutAll(m, ks, supply, first))[ks[j]] == supply(first + j)
    decreases |ks|
  {
    var init := ks[..|ks| - 1];
    PutAsMap(PutAll(m, init, supply, first), ks[|ks| - 1], supply(first + |ks| - 1));
    if j < |ks| - 1 {
      PutAllLastWins(m, init, supply, first, j);
    }
  }

  lemma {:induction false} PutAllKeysDistinct(m: seq<Entry>, ks: seq<string>, supply: nat -> string, first: nat)
    requires KeysDistinct(m)
    ensures KeysDistinct(PutAll(m, ks, supply, first))
    decreases |ks|
  {
    if ks != [] {
      PutAllKeysDistinct(m, ks[..|ks| - 1], supply, first);
      PutEntries(PutAll(m, ks[..|ks| - 1], supply, first), ks[|ks| - 1], supply(first + |ks| - 1));
    }
  }

  /** Every entry of a map built from empty holds an identifier put and the UUID drawn for it. */
  lemma {:induction false} PutAllEntries(ks: seq<string>, supply: nat -> string, first: nat)
    ensures forall e :: e in PutAll([], ks, supply, first) ==>
      exists j :: 0 <= j < |ks| && e == (ks[j], supply(first + j))
    decreases |ks|
  {
    if ks != [] {
      var init := ks[..|ks| - 1];
      PutAllEntries(init, supply, first);
      PutEntries(PutAll([], init, supply, first), ks[|ks| - 1], supply(first + |ks| - 1));
      forall e | e in PutAll([], ks, supply, first)
        ensures exists j :: 0 <= j < |ks| && e == (ks[j], supply(first + j))
      {
        if e in PutAll([], init, supply, first) {
          var j :| 0 <= j < |init| && e == (init[j], supply(first + j));
          assert ks[j] == init[j];
        } else {
          assert e == (ks[|ks| - 1], supply(first + |ks| - 1));
        }
      }
    }
  }

  /** With a UUID source that never repeats, no two identifiers share a UUID. */
  lemma PutAllValuesDistinct(ks: seq<string>, supply: nat -> string, first: nat)
    requires Injective(supply)
    ensures var r := PutAll([], ks, supply, first);
      forall i, j :: 0 <= i < j < |r| ==> r[i].1 != r[j].1
  {
    var r := PutAll([], ks, supply, first);
    assert KeysDistinct([]);
    PutAllKeysDistinct([], ks, supply, first);
    PutAllEntries(ks, supply, first);
    forall i, j | 0 <= i < j < |r|
      ensures r[i].1 != r[j].1
    {
      assert r[i] in r && r[j] in r;
      var a :| 0 <= a < |ks| && r[i] == (ks[a], supply(first + a));
      var b :| 0 <= b < |ks| && r[j] == (ks[b], supply(first + b));
      assert a != b;
    }
  }

  /** The header line `exportCSV` writes first. */
  const CSV_HEADER := "\"original\",\"new\""

  /** The CSV line of one entry: both fields in double quotes, comma-separated. */
  function CsvLine(e: Entry): (r: string)
    ensures |r| == |e.0| + |e.1| + 5
    ensures r[0] == '"' && r[|r| - 1] == '"'
  {
    "\"" + e.0 + "\",\"" + e.1 + "\""
  }

  /** The data lines, one per entry, in the map's order. */
  function CsvRows(m: seq<Entry>): (r: seq<string>)
    ensures |r| == |m|
    ensures forall i :: 0 <= i < |m| ==> r[i] == CsvLine(m[i])
  {
    if m == [] then [] else [CsvLine(m[0])] + CsvRows(m[1..])
  }

  /** `exportCSV`: the lines written, without their line terminators. */
  function CsvLines(m: seq<Entry>): (r: seq<string>)
    ensures |r| == |m| + 1 && r[0] == CSV_HEADER
    ensures forall i :: 0 <= i < |m| ==> r[i + 1] == CsvLine(m[i])
  {
    [CSV_HEADER] + CsvRows(m)
  }

  /** The position of the first `c` in `s`, if any. */
  function IndexOf(s: string, c: char): (r: Option<nat>)
    ensures r.Some? ==> r.value < |s| && s[r.value] == c && c !in s[..r.value]
    ensures r.None? ==> c !in s
  {
    if s == [] then None
    else if s[0] == c then Some(0)
    else match IndexOf(s[1..], c)
      case None => None
      case Some(i) =>
        assert s[..i + 1] == [s[0]] + s[1..][..i];
        Some(i + 1)
  }

  /**
   * Reads one CSV data line back: a quoted key up to the next double quote,
   * a comma, and a quoted value running to the closing quote of the line.
   */
  function ParseCsvLine(line: string): Option<Entry>
  {
    if |line| < 2 || line[0] != '"' || line[|line| - 1] != '"' then None
    else match IndexOf(line[1..], '"')
      case None => None
      case Some(i) =>
        if i + 4 < |line| && line[i + 2] == ',' && line[i + 3] == '"'
        then Some((line[1..i + 1], line[i + 4..|line| - 1]))
        else None
  }

  function ParseCsvRows(lines: seq<string>): Option<seq<Entry>>
  {
    if lines == [] then Some([])
    else match (ParseCsvLine(lines[0]), ParseCsvRows(lines[1..]))
      case (Some(e), Some(rest)) => Some([e] + rest)
      case _ => None
  }

  /** Reads a whole CSV table back: the header, then one entry per line. */
  function ParseCsv(lines: seq<string>): Option<seq<Entry>>
  {
    if lines == [] || lines[0] != CSV_HEADER then None else ParseCsvRows(lines[1..])
  }

  /** The first `c` of `s` is at `k` when `s[k]` is `c` and none comes before. */
  lemma {:induction false} IndexOfAt(s: string, c: char, k: nat)
    requires k < |s| && s[k] == c && forall j :: 0 <= j < k ==> s[j] != c
    ensures IndexOf(s, c) == Some(k)
  {
    if k > 0 {
      IndexOfAt(s[1..], c, k - 1);
    }
  }

  /** A line reads back as its entry when the key holds no double quote (nothing is escaped). */
  lemma CsvLineRoundTrip(e: Entry)
    requires '"' !in e.0
    ensures ParseCsvLine(CsvLine(e)) == Some(e)
  {
    var line := CsvLine(e);
    var k := |e.0|;
    assert forall j :: 0 <= j < k ==> line[1..][j] == e.0[j];
    IndexOfAt(line[1..], '"', k);
    assert line[1..k + 1] == e.0;
    assert line[k + 4..|line| - 1] == e.1;
  }

  lemma {:induction false} CsvRowsRoundTrip(m: seq<Entry>)
    requires forall e :: e in m ==> '"' !in e.0
    ensures ParseCsvRows(CsvRows(m)) == Some(m)
  {
    if m != [] {
      var rows := CsvRows(m);
      assert rows == [CsvLine(m[0])] + CsvRows(m[1..]);
      CsvLineRoundTrip(m[0]);
      CsvRowsRoundTrip(m[1..]);
      assert rows[0] == CsvLine(m[0]) && rows[1..] == CsvRows(m[1..]);
      assert [m[0]] + m[1..] == m;
    }
  }

  /** The CSV table reads back as the map's entries, in order, when no key holds a double quote. */
  lemma CsvRoundTrip(m: seq<Entry>)
    requires forall e :: e in m ==> '"' !in e.0
    ensures ParseCsv(CsvLines(m)) == Some(m)
  {
    CsvRowsRoundTrip(m);
    assert CsvLines(m)[1..] == CsvRows(m);
  }

  /**
   * Two batches of puts, the second drawing its UUIDs where the first
   * stopped, are one batch over the joined identifiers: the map a run builds
   * does not depend on where the run is cut.
   */
  lemma {:induction false} PutAllExtend(m: seq<Entry>, ks: seq<string>, more: seq<string>, supply: nat -> string, first: nat)
    ensures PutAll(PutAll(m, ks, supply, first), more, supply, first + |ks|) == PutAll(m, ks + more, supply, first)
    decreases |more|
  {
    if more == [] {
      assert ks + more == ks;
    } else {
      var init, last := more[..|more| - 1], more[|more| - 1];
      var joined := ks + more;
      assert joined[..|joined| - 1] == ks + init && joined[|joined| - 1] == last;
      calc {
        PutAll(PutAll(m, ks, supply, first), more, supply, first + |ks|);
        Put(PutAll(PutAll(m, ks, supply, first), init, supply, first + |ks|), last, supply(first + |joined| - 1));
        { PutAllExtend(m, ks, init, supply, first); }
        Put(PutAll(m, ks + init, supply, first), last, supply(first + |joined| - 1));
        PutAll(m, joined, supply, first);
      }
    }
  }

  /** The text of the `gml:identifier` child of the partial's feature, if it has one. */
  function IdentifierOf(partial: Node): (r: Option<string>)
    reads partial`children
    reads (if partial.children == [] then {} else {partial.children[0]})`children
    reads (if partial.children == [] then [] else partial.children[0].children)`attrs
    reads (if partial.children == [] then [] else partial.children[0].children)`children
    ensures r.Some? <==>
      (&& partial.children != []
       && exists j :: 0 <= j < |partial.children[0].children| && partial.children[0].children[j].IsElement(GML_NS, "identifier"))
  {
    match ExtractChild(FirstChild(partial), IdentifierPath)
    case None => None
    case Some(identifier) => Some(DirectText(identifier.children))
  }

  /**
   * The identifier is the text of the feature's first `gml:identifier`
   * child in document order.
   */
  lemma IdentifierIsFirst(partial: Node)
    requires IdentifierOf(partial).Some?
    ensures partial.children != []
    ensures var cs := partial.children[0].children;
      exists j :: 0 <= j < |cs| && cs[j].IsElement(GML_NS, "identifier")
                  && IdentifierOf(partial).value == DirectText(cs[j].children)
                  && forall i :: 0 <= i < j ==> !cs[i].IsElement(GML_NS, "identifier")
  {
  }

  /** The identifiers one partial records: its identifier, if it is a feature partial that has one. */
  function Recorded(state: State, identifier: Option<string>): seq<string>
  {
    if state == Feature && identifier.Some? then [identifier.value] else []
  }

  /**
   * What a run has done after the top-level children `ps`, each given by its
   * name and the identifier text its feature carries: the handler state, the
   * identifiers recorded, in order, and whether no partial threw. A throw
   * ends the run, so later children change nothing.
   */
  function Extraction(ps: seq<(Element, Option<string>)>): (r: (HandlerState, seq<string>, bool))
    decreases |ps|
  {
    if ps == [] then (Initial, [], true)
    else
      var prev := Extraction(ps[..|ps| - 1]);
      if !prev.2 then prev
      else
        var last := ps[|ps| - 1];
        var step := ChildStep(prev.0, last.0);
        (step.0, prev.1 + Recorded(step.0.state, last.1), step.2)
  }

  /** The run extended by one child. */
  lemma ExtractionSnoc(ps: seq<(Element, Option<string>)>, x: (Element, Option<string>))
    ensures var prev := Extraction(ps);
      var step := ChildStep(prev.0, x.0);
      Extraction(ps + [x]) == if !prev.2 then prev else (step.0, prev.1 + Recorded(step.0.state, x.1), step.2)
  {
    assert (ps + [x])[..|ps|] == ps;
  }

  /**
   * A run only grows: the identifiers recorded after `ps` stay the first ones
   * recorded after `ps + qs`, and once a child has thrown the later children
   * change nothing.
   */
  lemma {:induction false} ExtractionPrefix(ps: seq<(Element, Option<string>)>, qs: seq<(Element, Option<string>)>)
    ensures Extraction(ps).1 <= Extraction(ps + qs).1
    ensures !Extraction(ps).2 ==> Extraction(ps + qs) == Extraction(ps)
    decreases |qs|
  {
    if qs == [] {
      assert ps + qs == ps;
    } else {
      var init := qs[..|qs| - 1];
      ExtractionPrefix(ps, init);
      assert ps + qs == (ps + init) + [qs[|qs| - 1]];
      ExtractionSnoc(ps + init, qs[|qs| - 1]);
    }
  }

  /** A run that has not thrown after some child has recognised a separator. */
  lemma {:induction false} ExtractionLeavesNothing(ps: seq<(Element, Option<string>)>)
    requires ps != [] && Extraction(ps).2
    ensures Extraction(ps).0.state != Nothing
    decreases |ps|
  {
  }

  /**
   * A run over the children `ps` completes exactly when the first child is
   * one of the two separators, as for any handler.
   */
  lemma {:induction false} ExtractionCompletesIff(ps: seq<(Element, Option<string>)>)
    ensures Extraction(ps).2 <==> ps == [] || ps[0].0 in SeparatorMap
    decreases |ps|
  {
    if |ps| > 1 {
      var init := ps[..|ps| - 1];
      ExtractionCompletesIff(init);
      assert init[0] == ps[0];
      if Extraction(init).2 {
        ExtractionLeavesNothing(init);
      }
    }
  }

  /** The names of the top-level children of a run. */
  function Names(ps: seq<(Element, Option<string>)>): (r: seq<Element>)
    ensures |r| == |ps| && forall i :: 0 <= i < |ps| ==> r[i] == ps[i].0
  {
    seq(|ps|, i requires 0 <= i < |ps| => ps[i].0)
  }

  /** The extractor's run completes exactly when the base handler's run over the same names does. */
  lemma ExtractionAgreesWithRun(ps: seq<(Element, Option<string>)>)
    ensures Extraction(ps).2 == Run(Initial, Names(ps)).1
  {
    ExtractionCompletesIff(ps);
    RunCompletesIff(Names(ps));
  }

  /** The child at `i` is a feature partial the run reached without a throw. */
  predicate FeatureAt(ps: seq<(Element, Option<string>)>, i: nat)
    requires i < |ps|
  {
    var e := Extraction(ps[..i + 1]);
    e.2 && e.0.state == Feature
  }

  /**
   * The identifiers recorded are exactly those of the feature partials: a
   * metadata partial, a feature without `gml:identifier` and anything after
   * a throw record nothing.
   */
  lemma {:induction false} RecordedIff(ps: seq<(Element, Option<string>)>, k: string)
    ensures k in Extraction(ps).1 <==> exists i :: 0 <= i < |ps| && FeatureAt(ps, i) && ps[i].1 == Some(k)
    decreases |ps|
  {
    if ps != [] {
      var n := |ps| - 1;
      var init := ps[..n];
      RecordedIff(init, k);
      assert ps[..n + 1] == ps;
      forall i | 0 <= i < n
        ensures FeatureAt(ps, i) == FeatureAt(init, i) && ps[i] == init[i]
      {
        assert ps[..i + 1] == init[..i + 1];
      }
      if !Extraction(init).2 {
        assert !FeatureAt(ps, n);
      }
    }
  }

  /**
   * After a completed run, the map's keys are exactly the identifiers of the
   * feature partials, each once.
   */
  lemma ExtractedKeys(ps: seq<(Element, Option<string>)>, supply: nat -> string, first: nat, k: string)
    ensures k in AsMap(PutAll([], Extraction(ps).1, supply, first)) <==>
      exists i :: 0 <= i < |ps| && FeatureAt(ps, i) && ps[i].1 == Some(k)
  {
    PutAllKeys([], Extraction(ps).1, supply, first);
    RecordedIff(ps, k);
  }

  /** `exportCSV` writes one line per distinct identifier recorded, after the header. */
  lemma CsvLineCount(ks: seq<string>, supply: nat -> string, first: nat)
    ensures |CsvLines(PutAll([], ks, supply, first))| == |set k | k in ks| + 1
  {
    var m := PutAll([], ks, supply, first);
    assert KeysDistinct([]);
    PutAllKeysDistinct([], ks, supply, first);
    AsMapSize(m);
    PutAllKeys([], ks, supply, first);
    assert AsMap([]).Keys == {};
  }

  /**
   * The extractor: the base handler's state machine and the map of original
   * identifiers to new UUIDs.
   */
  class IdentifierExtractor {
    const handler: AIXMPartialHandler
    const uuids: UuidGenerator
    var identifierMap: seq<Entry>

    constructor(uuids: UuidGenerator)
      ensures fresh(handler) && handler.Snapshot() == Initial
      ensures this.uuids == uuids && identifierMap == []
    {
      handler := new AIXMPartialHandler();
      this.uuids := uuids;
      identifierMap := [];
    }

    /**
     * `handleFeature`: when the feature has a `gml:identifier` child, its
     * text is put into the map with a newly drawn UUID.
     */
    method HandleFeature(partial: Node)
      modifies this`identifierMap, uuids`issued
      ensures IdentifierOf(partial).None? ==>
        identifierMap == old(identifierMap) && uuids.issued == old(uuids.issued)
      ensures IdentifierOf(partial).Some? ==>
        identifierMap == Put(old(identifierMap), IdentifierOf(partial).value, uuids.supply(old(uuids.issued)))
        && uuids.issued == old(uuids.issued) + 1
    {
      ghost var id := IdentifierOf(partial);
      var feature := FirstChild(partial);
      var identifier := ExtractChild(feature, IdentifierPath);
      if identifier.Some? {
        var key := DirectText(identifier.value.children);
        assert id == Some(key);
        var uuid := uuids.RandomUUID();
        identifierMap := Put(identifierMap, key, uuid);
      }
      IdentifierKept(partial);
    }

    /**
     * `handlePartial` as the extractor inherits it. `firstPartial` and
     * `handleMessageMetadata` keep their empty defaults, so only a feature
     * partial changes the map.
     */
    method HandlePartial(partial: Node) returns (r: Outcome<Failure>)
      modifies handler`firstPartialHandled, this`identifierMap, uuids`issued
      ensures handler.Snapshot() == HandleStep(old(handler.Snapshot())).0
      ensures r == (if handler.state == Nothing then Fail(IllegalState) else Pass)
      ensures var ks := Recorded(handler.state, IdentifierOf(partial));
        identifierMap == PutAll(old(identifierMap), ks, uuids.supply, old(uuids.issued))
        && uuids.issued == old(uuids.issued) + |ks|
    {
      var runFirst, dispatch := handler.HandlePartial();
      if dispatch.Failure? {
        return Fail(dispatch.error);
      }
      if dispatch.value == FeatureHook {
        HandleFeature(partial);
      }
      r := Pass;
    }

    /** What the parser does with one top-level child: `isSeparator` on its name, then `handlePartial`. */
    method Feed(p: Partial) returns (r: Outcome<Failure>)
      modifies handler`state, handler`firstPartialHandled, this`identifierMap, uuids`issued
      ensures var step := ChildStep(old(handler.Snapshot()), p.name);
        && handler.Snapshot() == step.0
        && r == (if step.2 then Pass else Fail(IllegalState))
      ensures var ks := Recorded(handler.state, IdentifierOf(p.node));
        identifierMap == PutAll(old(identifierMap), ks, uuids.supply, old(uuids.issued))
        && uuids.issued == old(uuids.issued) + |ks|
      ensures forall n: Node | old(allocated(n)) :: n.children == old(n.children) && n.attrs == old(n.attrs)
    {
      var separator := handler.IsSeparator(p.name.uri, p.name.localName);
      r := HandlePartial(p.node);
    }
  }

  /** A lookup gives the same identifier in a later state that changed no node. */
  twostate lemma IdentifierKept(partial: Node)
    requires old(allocated(partial))
    requires forall n: Node | old(allocated(n)) :: n.children == old(n.children) && n.attrs == old(n.attrs)
    ensures IdentifierOf(partial) == old(IdentifierOf(partial))
  {
  }

  /** A top-level child of the message as the parser hands it over: its name and its subtree. */
  datatype Partial = Partial(name: Element, node: Node)

  /** The run invariant of `execute`: the extractor is where the run `seen` leaves it. */
  ghost predicate RunState(extractor: IdentifierExtractor, seen: seq<(Element, Option<string>)>, supply: nat -> string, first: nat)
    reads extractor, extractor.handler, extractor.uuids
  {
    && Extraction(seen).2
    && extractor.handler.Snapshot() == Extraction(seen).0
    && extractor.uuids.supply == supply
    && extractor.identifierMap == PutAll([], Extraction(seen).1, supply, first)
    && extractor.uuids.issued == first + |Extraction(seen).1|
  }

  /** The identifiers a run records with one more child, in terms of the state it reaches. */
  lemma ExtractionIdsSnoc(seen: seq<(Element, Option<string>)>, x: (Element, Option<string>))
    requires Extraction(seen).2
    ensures Extraction(seen + [x]).1 == Extraction(seen).1 + Recorded(Extraction(seen + [x]).0.state, x.1)
  {
    ExtractionSnoc(seen, x);
  }

  /** The map invariant of `execute` carried over one more child, on values. */
  lemma RunStep(seen: seq<(Element, Option<string>)>, x: (Element, Option<string>), st: HandlerState,
                map0: seq<Entry>, map1: seq<Entry>, supply: nat -> string, first: nat)
    requires Extraction(seen).2 && st == Extraction(seen + [x]).0
    requires map0 == PutAll([], Extraction(seen).1, supply, first)
    requires map1 == PutAll(map0, Recorded(st.state, x.1), supply, first + |Extraction(seen).1|)
    ensures map1 == PutAll([], Extraction(seen + [x]).1, supply, first)
    ensures |Extraction(seen + [x]).1| == |Extraction(seen).1| + |Recorded(st.state, x.1)|
  {
    var before, after := Extraction(seen).1, Extraction(seen + [x]).1;
    var more := Recorded(st.state, x.1);
    assert after == before + more by {
      ExtractionIdsSnoc(seen, x);
    }
    assert map1 == PutAll([], before + more, supply, first) by {
      assert map1 == PutAll(PutAll([], before, supply, first), more, supply, first + |before|);
      PutAllExtend([], before, more, supply, first);
    }
  }

  /** One top-level child of a run: `Feed`, seen as a step of `Extraction`. */
  method RunChild(extractor: IdentifierExtractor, p: Partial,
                  ghost seen: seq<(Element, Option<string>)>, ghost supply: nat -> string, ghost first: nat)
    returns (outcome: Outcome<Failure>, ghost x: (Element, Option<string>))
    requires RunState(extractor, seen, supply, first)
    modifies extractor.handler`state, extractor.handler`firstPartialHandled
    modifies extractor`identifierMap, extractor.uuids`issued
    ensures x == (p.name, IdentifierOf(p.node))
    ensures outcome.Pass? ==> RunState(extractor, seen + [x], supply, first)
    ensures outcome.Fail? ==> outcome.error == IllegalState && !Extraction(seen + [x]).2
    ensures forall n: Node | old(allocated(n)) :: n.children == old(n.children) && n.attrs == old(n.attrs)
  {
    ghost var mapBefore, issuedBefore := extractor.identifierMap, extractor.uuids.issued;
    outcome := extractor.Feed(p);
    x := (p.name, IdentifierOf(p.node));
    ExtractionSnoc(seen, x);
    RunStep(seen, x, extractor.handler.Snapshot(), mapBefore, extractor.identifierMap, supply, first);
  }

  /** What a run has read stays what the children held when it started. */
  twostate lemma SeenStep(partials: seq<Partial>, new seen: seq<(Element, Option<string>)>, new x: (Element, Option<string>))
    requires |seen| < |partials|
    requires forall j :: 0 <= j < |seen| ==> seen[j] == (partials[j].name, old(IdentifierOf(partials[j].node)))
    requires old(allocated(partials[|seen|].node))
    requires forall n: Node | old(allocated(n)) :: n.children == old(n.children) && n.attrs == old(n.attrs)
    requires x == (partials[|seen|].name, IdentifierOf(partials[|seen|].node))
    ensures forall j :: 0 <= j < |seen + [x]| ==> (seen + [x])[j] == (partials[j].name, old(IdentifierOf(partials[j].node)))
  {
    IdentifierKept(partials[|seen|].node);
  }

  /**
   * `execute`: a new extractor sees the top-level children in order
   * (`isSeparator` on the name, then `handlePartial` on the subtree); its
   * map is the result, and an exception ends the run. `seen` is what the run
   * read of the children it reached.
   */
  method Execute(partials: seq<Partial>, uuids: UuidGenerator)
    returns (r: Result<seq<Entry>, Failure>, ghost seen: seq<(Element, Option<string>)>)
    modifies uuids`issued
    ensures |seen| <= |partials|
    ensures forall i :: 0 <= i < |seen| ==> seen[i] == (partials[i].name, old(IdentifierOf(partials[i].node)))
    ensures r.Success? ==> |seen| == |partials| && Extraction(seen).2
    ensures r.Success? ==>
      r.value == PutAll([], Extraction(seen).1, uuids.supply, old(uuids.issued))
      && uuids.issued == old(uuids.issued) + |Extraction(seen).1|
    ensures r.Failure? ==> r.error == IllegalState && !Extraction(seen).2
  {
    ghost var supply, first := uuids.supply, uuids.issued;
    var extractor := new IdentifierExtractor(uuids);
    seen := [];
    var i := 0;
    while i < |partials|
      invariant 0 <= i <= |partials| && |seen| == i
      invariant forall j :: 0 <= j < i ==> seen[j] == (partials[j].name, old(IdentifierOf(partials[j].node)))
      invariant fresh(extractor) && fresh(extractor.handler) && extractor.uuids == uuids
      invariant RunState(extractor, seen, supply, first)
      invariant forall n: Node | old(allocated(n)) :: n.children == old(n.children) && n.attrs == old(n.attrs)
    {
      var outcome;
      ghost var x;
      outcome, x := RunChild(extractor, partials[i], seen, supply, first);
      SeenStep(partials, seen, x);
      seen := seen + [x];
      if outcome.Fail? {
        return Failure(outcome.error), seen;
      }
      i := i + 1;
    }
    r := Success(extractor.identifierMap);
  }
}
