/**
 * The AIXM 5.1 boundary state machine: each top-level child of the message
 * root is classified by its expanded name, and each completed partial is
 * dispatched on the resulting state to one of the handler hooks.
 */
module PartialHandler {
  import opened Wrappers
  import opened Dom

  datatype State =
    | Nothing      // no boundary recognised yet
    | MessageMeta  // inside the message metadata
    | Feature      // inside a `message:hasMember` wrapper

  /** An expanded element name; the key type of the separator table. */
  datatype Element = Element(uri: string, localName: string)

  /**
   * `String.compareTo` on the JVM: the difference of the first differing
   * characters, or else the difference of the lengths.
   */
  function CompareStrings(a: string, b: string): (r: int)
    ensures |a| < |b| && a == b[..|a|] ==> r < 0
    ensures |b| < |a| && b == a[..|b|] ==> r > 0
  {
    if a == [] || b == [] then |a| - |b|
    else if a[0] != b[0] then a[0] as int - b[0] as int
    else
      assert |a| < |b| && a == b[..|a|] ==> a[1..] == b[1..][..|a| - 1];
      assert |b| < |a| && b == a[..|b|] ==> b[1..] == a[1..][..|b| - 1];
      CompareStrings(a[1..], b[1..])
  }

  /**
   * `Element.compareTo`: by `uri`, then by `localName`. The order it
   * defines is the lexicographic order on the pair.
   */
  function CompareElements(x: Element, y: Element): (r: int)
    ensures r < 0 <==>
      || CompareStrings(x.uri, y.uri) < 0
      || (x.uri == y.uri && CompareStrings(x.localName, y.localName) < 0)
  {
    CompareStringsZeroIff(x.uri, y.uri);
    var byUri := CompareStrings(x.uri, y.uri);
    if byUri != 0 then byUri else CompareStrings(x.localName, y.localName)
  }

  lemma {:induction false} CompareStringsZeroIff(a: string, b: string)
    ensures CompareStrings(a, b) == 0 <==> a == b
  {
    if a != [] && b != [] && a[0] == b[0] {
      CompareStringsZeroIff(a[1..], b[1..]);
      assert a == [a[0]] + a[1..] && b == [b[0]] + b[1..];
    }
  }

  lemma {:induction false} CompareStringsAntisymmetric(a: string, b: string)
    ensures CompareStrings(a, b) == -CompareStrings(b, a)
  {
    if a != [] && b != [] && a[0] == b[0] {
      CompareStringsAntisymmetric(a[1..], b[1..]);
    }
  }

  lemma {:induction false} CompareStringsTransitive(a: string, b: string, c: string)
    requires CompareStrings(a, b) < 0 && CompareStrings(b, c) < 0
    ensures CompareStrings(a, c) < 0
  {
    if a != [] && b != [] && c != [] && a[0] == b[0] && b[0] == c[0] {
      CompareStringsTransitive(a[1..], b[1..], c[1..]);
    }
  }

  /** `compareTo` returns 0 exactly on equal elements, so the TreeMap's key lookup is equality. */
  lemma CompareElementsZeroIff(x: Element, y: Element)
    ensures CompareElements(x, y) == 0 <==> x == y
  {
    CompareStringsZeroIff(x.uri, y.uri);
    CompareStringsZeroIff(x.localName, y.localName);
  }

  lemma CompareElementsAntisymmetric(x: Element, y: Element)
    ensures CompareElements(x, y) == -CompareElements(y, x)
  {
    CompareStringsAntisymmetric(x.uri, y.uri);
    CompareStringsAntisymmetric(x.localName, y.localName);
  }

  lemma CompareElementsTransitive(x: Element, y: Element, z: Element)
    requires CompareElements(x, y) < 0 && CompareElements(y, z) < 0
    ensures CompareElements(x, z) < 0
  {
    var xy, yz := CompareStrings(x.uri, y.uri), CompareStrings(y.uri, z.uri);
    CompareStringsZeroIff(x.uri, y.uri);
    CompareStringsZeroIff(y.uri, z.uri);
    CompareStringsZeroIff(x.uri, z.uri);
    if xy < 0 && yz < 0 {
      CompareStringsTransitive(x.uri, y.uri, z.uri);
    } else if xy == 0 && yz == 0 {
      CompareStringsTransitive(x.localName, y.localName, z.localName);
    }
  }

  const MESSAGE_METADATA := Element(AIXM_NS, "messageMetadata")
  const BM_SEPARATOR := Element(AIXM_BM_NS, "hasMember")

  /** The separator table: which top-level child opens which kind of partial. */
  const SeparatorMap: map<Element, State> := map[MESSAGE_METADATA := MessageMeta, BM_SEPARATOR := Feature]

  /** A TreeMap lookup by `compareTo` finds a key exactly when the name is a key. */
  lemma SeparatorLookupIsEquality(e: Element)
    ensures (exists k :: k in SeparatorMap && CompareElements(k, e) == 0) <==> e in SeparatorMap
  {
    CompareElementsZeroIff(MESSAGE_METADATA, e);
    CompareElementsZeroIff(BM_SEPARATOR, e);
    if e in SeparatorMap {
      CompareElementsZeroIff(e, e);
    }
  }

  /** `isSeparator(uri, localName)`: the new state and the answer. */
  function Classify(state: State, uri: string, localName: string): (r: (State, bool))
    ensures r.1 <==> Element(uri, localName) == MESSAGE_METADATA || Element(uri, localName) == BM_SEPARATOR
    ensures Element(uri, localName) == MESSAGE_METADATA ==> r.0 == MessageMeta
    ensures Element(uri, localName) == BM_SEPARATOR ==> r.0 == Feature
    ensures !r.1 ==> r.0 == state
  {
    var tag := Element(uri, localName);
    if tag in SeparatorMap then (SeparatorMap[tag], true) else (state, false)
  }

  /** The overridable hooks of the handler. */
  datatype Hook = FirstPartialHook | MessageMetadataHook | FeatureHook

  /** The branch `handlePartial` takes in a state. */
  function DispatchFor(state: State): (r: Result<Hook, Failure>)
    ensures r == Failure(IllegalState) <==> state == Nothing
    ensures r == Success(MessageMetadataHook) <==> state == MessageMeta
    ensures r == Success(FeatureHook) <==> state == Feature
  {
    match state
    case Nothing => Failure(IllegalState)
    case MessageMeta => Success(MessageMetadataHook)
    case Feature => Success(FeatureHook)
  }

  datatype HandlerState = HandlerState(state: State, firstPartialHandled: bool)

  const Initial := HandlerState(Nothing, false)

  /**
   * `handlePartial`: the state afterwards, the hooks it runs in order, and
   * whether it returns normally (false: it threw).
   */
  function HandleStep(h: HandlerState): (r: (HandlerState, seq<Hook>, bool))
    ensures r.0 == HandlerState(h.state, true)
    ensures r.2 <==> h.state != Nothing
    ensures (|r.1| > 0 && r.1[0] == FirstPartialHook) <==> !h.firstPartialHandled
    ensures forall i :: 0 < i < |r.1| ==> r.1[i] != FirstPartialHook
    ensures r.2 ==> |r.1| > 0 && r.1[|r.1| - 1] == DispatchFor(h.state).value
    ensures !r.2 ==> forall i :: 0 <= i < |r.1| ==> r.1[i] == FirstPartialHook
  {
    var first := if h.firstPartialHandled then [] else [FirstPartialHook];
    var dispatch := DispatchFor(h.state);
    (HandlerState(h.state, true), first + (if dispatch.Success? then [dispatch.value] else []), dispatch.Success?)
  }

  /** One top-level child: `isSeparator` on its name, then `handlePartial` on its subtree. */
  function ChildStep(h: HandlerState, e: Element): (HandlerState, seq<Hook>, bool)
  {
    HandleStep(HandlerState(Classify(h.state, e.uri, e.localName).0, h.firstPartialHandled))
  }

  /**
   * A top-level child throws exactly when no separator has been seen before
   * it and it is no separator itself; a separator sets the state it names.
   */
  lemma ChildStepThrowsIff(h: HandlerState, e: Element)
    ensures ChildStep(h, e).2 <==> h.state != Nothing || e in SeparatorMap
    ensures e in SeparatorMap ==> ChildStep(h, e).0.state == SeparatorMap[e]
    ensures e !in SeparatorMap ==> ChildStep(h, e).0.state == h.state
  {
  }

  /**
   * A parse over top-level children named `es`: the hooks run, in order, and
   * whether the parse completes; the first throw ends it.
   */
  function Run(h: HandlerState, es: seq<Element>): (r: (seq<Hook>, bool))
    ensures !r.1 ==> es != []
    ensures |r.0| <= |es| + (if h.firstPartialHandled then 0 else 1)
    decreases |es|
  {
    if es == [] then ([], true)
    else
      var step := ChildStep(h, es[0]);
      if !step.2 then (step.1, false)
      else
        var rest := Run(step.0, es[1..]);
        (step.1 + rest.0, rest.1)
  }

  function Count(t: seq<Hook>, k: Hook): nat
  {
    if t == [] then 0 else (if t[0] == k then 1 else 0) + Count(t[1..], k)
  }

  lemma {:induction false} CountConcat(a: seq<Hook>, b: seq<Hook>, k: Hook)
    ensures Count(a + b, k) == Count(a, k) + Count(b, k)
  {
    if a != [] {
      assert (a + b)[1..] == a[1..] + b;
      CountConcat(a[1..], b, k);
    } else {
      assert a + b == b;
    }
  }

  lemma {:induction false} NoFirstPartialOnceHandled(h: HandlerState, es: seq<Element>)
    requires h.firstPartialHandled
    ensures Count(Run(h, es).0, FirstPartialHook) == 0
    decreases |es|
  {
    if es != [] {
      var step := ChildStep(h, es[0]);
      assert Count(step.1, FirstPartialHook) == 0 by {
        assert |step.1| <= 1;
        if |step.1| == 1 { assert step.1[1..] == []; }
      }
      if step.2 {
        NoFirstPartialOnceHandled(step.0, es[1..]);
        CountConcat(step.1, Run(step.0, es[1..]).0, FirstPartialHook);
      }
    }
  }

  /**
   * `firstPartial` runs exactly once in a parse that sees at least one
   * partial, before any other hook, whether or not the parse completes.
   */
  lemma FirstPartialRunsOnce(es: seq<Element>)
    requires es != []
    ensures var t := Run(Initial, es).0; |t| > 0 && t[0] == FirstPartialHook && Count(t, FirstPartialHook) == 1
  {
    var step := ChildStep(Initial, es[0]);
    assert Count(step.1, FirstPartialHook) == 1 by {
      assert step.1[0] == FirstPartialHook;
      if |step.1| == 2 {
        assert step.1[1..][0] != FirstPartialHook && step.1[1..][1..] == [];
        assert Count(step.1[1..], FirstPartialHook) == 0;
      } else {
        assert step.1[1..] == [];
      }
    }
    if step.2 {
      NoFirstPartialOnceHandled(step.0, es[1..]);
      CountConcat(step.1, Run(step.0, es[1..]).0, FirstPartialHook);
    }
  }

  /** Once a boundary has been recognised, no later child can throw. */
  lemma {:induction false} RunCompletesAfterBoundary(h: HandlerState, es: seq<Element>)
    requires h.state != Nothing
    ensures Run(h, es).1
    decreases |es|
  {
    if es != [] {
      RunCompletesAfterBoundary(ChildStep(h, es[0]).0, es[1..]);
    }
  }

  /** A parse completes exactly when the first top-level child is one of the two separators. */
  lemma RunCompletesIff(es: seq<Element>)
    ensures Run(Initial, es).1 <==> es == [] || es[0] in SeparatorMap
  {
    if es != [] {
      var step := ChildStep(Initial, es[0]);
      if step.2 {
        RunCompletesAfterBoundary(step.0, es[1..]);
      }
    }
  }

  /**
   * The boundary state machine. `state` follows the last recognised
   * separator; `firstPartialHandled` records that the one-time hook ran.
   */
  class AIXMPartialHandler {
    var firstPartialHandled: bool
    var state: State

    constructor()
      ensures state == Nothing && !firstPartialHandled
    {
      firstPartialHandled := false;
      state := Nothing;
    }

    function Snapshot(): HandlerState
      reads this
    {
      HandlerState(state, firstPartialHandled)
    }

    /** `isSeparator`: moves to the mapped state on a separator, else leaves the state alone. */
    method IsSeparator(uri: string, localName: string) returns (separator: bool)
      modifies this`state
      ensures (state, separator) == Classify(old(state), uri, localName)
    {
      var tag := Element(uri, localName);
      if tag in SeparatorMap {
        state := SeparatorMap[tag];
        return true;
      }
      return false;
    }

    /**
     * The part of `handlePartial` the base class decides: whether the
     * one-time hook runs now, and which branch follows (or the throw). The
     * hooks themselves belong to the concrete handler.
     */
    method HandlePartial() returns (runFirst: bool, dispatch: Result<Hook, Failure>)
      modifies this`firstPartialHandled
      ensures runFirst <==> !old(firstPartialHandled)
      ensures firstPartialHandled
      ensures dispatch == DispatchFor(state)
      ensures var step := HandleStep(old(Snapshot()));
        step.0 == Snapshot() &&
        step.1 == (if runFirst then [FirstPartialHook] else []) + (if dispatch.Success? then [dispatch.value] else []) &&
        step.2 == dispatch.Success?
    {
      runFirst := !firstPartialHandled;
      if runFirst {
        firstPartialHandled := true;
      }
      dispatch := DispatchFor(state);
    }
  }
}
