# aixm-uuid-subst in Dafny

This project models the processing core of `aixm-uuid-subst`, a tool that
rewrites AIXM 5.1 Basic Message documents one partial at a time. A partial is
the subtree of one top-level child of the message root. The model covers
three parts of that core.

- **The boundary state machine and dispatcher** (`AIXMPartialHandler`). Each
  top-level child is classified by its expanded name. `message:hasMember`
  opens feature partials and `aixm:messageMetadata` opens the metadata
  partial. Each completed partial then goes to the one-time `firstPartial`
  hook and to the hook that matches the current state.
- **The substitution handler** (`AIXMUUIDSubstitution`). It works in place on
  the first `aixm:timeSlice` of each feature:
  - every `gml:id` under the timeSlice gets `"uuid."` followed by a newly drawn UUID;
  - the begin position is set to the effective date;
  - the sequence number is set to `1` and the correction number to `0`;
  - when a remark is configured, an `xsi:nil="true"` annotation is removed and
    a new `aixm:annotation` tree is put in the slot the feature type requires.

  The feature is then handed to the streaming writer.
- **The identifier extractor** (`IdentifierExtractor`). It maps the text of
  each feature's `gml:identifier` to a newly drawn UUID in an
  insertion-ordered map, where the last write wins. The map can be written as
  a two-column CSV table.

Modules:

- `Wrappers` (wrappers.dfy): `Option`, `Result`, `Outcome`, and the exceptions the code can throw.
- `Dom` (dom.dfy): the part of the W3C DOM the code uses. It has:
  - a `Node` class whose attribute and child lists are updated in place;
  - `setAttributeNS` and the `textContent` setter;
  - the child-axis lookups;
  - a `Selection` that holds the answers of the descendant-axis lookups;
  - a `UuidGenerator` that stands for `UUID.randomUUID()`.
- `PartialHandler` (partial_handler.dfy): the state machine as a class. Beside it sits a pure model of a whole run (`HandleStep`, `Run`), with the lemmas about it.
- `UuidSubstitution` (uuid_substitution.dfy): the substitution handler as a class whose methods change the tree in place.
- `IdentifierExtraction` (identifier_extractor.dfy): the extractor as a class, and `Execute` over a run of partials. Beside them sit the map as an entry sequence, the CSV lines, and a CSV reader used as the partner of the writer.

Kotlin inheritance is modelled by composition. A concrete handler holds the
base `AIXMPartialHandler` in `handler`. The base `HandlePartial` reports
whether the one-time hook runs and which branch follows. The concrete handler
then runs its own hooks.

The tool's description speaks of:
- revision selection by sequence and correction number;
- a `gml:id` exception map;
- a second pass that substitutes identifiers and cross-references;
- an identifier map in which each identifier is inserted at most once.

The modelled code does none of this. `handleFeature` takes the first
timeSlice as it is and reads no identifier map. `identifierMap[key] = uuid`
overwrites the value of a repeated identifier. The model follows the code.

## Model

| member | source | states |
|---|---|---|
| PartialHandler.CompareStrings | src/main/kotlin/com/solitec/aixm/uuidsubst/AIXMPartialHandler.kt:27 | a proper prefix compares below the longer string and the longer string above its prefix, because the length difference decides once the characters agree |
| PartialHandler.CompareStringsZeroIff | src/main/kotlin/com/solitec/aixm/uuidsubst/AIXMPartialHandler.kt:27 | the JVM string comparison used by `compareTo` is 0 exactly on equal strings |
| PartialHandler.CompareStringsAntisymmetric | src/main/kotlin/com/solitec/aixm/uuidsubst/AIXMPartialHandler.kt:27 | swapping the operands negates the string comparison |
| PartialHandler.CompareStringsTransitive | src/main/kotlin/com/solitec/aixm/uuidsubst/AIXMPartialHandler.kt:27 | the string order is transitive |
| PartialHandler.CompareElements | src/main/kotlin/com/solitec/aixm/uuidsubst/AIXMPartialHandler.kt:25-28 | `x` compares below `y` exactly when its `uri` compares below, or the `uri`s are equal and its `localName` compares below: the lexicographic order that `compareValuesBy` gives |
| PartialHandler.CompareElementsZeroIff | src/main/kotlin/com/solitec/aixm/uuidsubst/AIXMPartialHandler.kt:25-28 | `Element.compareTo` (by `uri`, then `localName`) returns 0 exactly when both fields are equal |
| PartialHandler.CompareElementsAntisymmetric | src/main/kotlin/com/solitec/aixm/uuidsubst/AIXMPartialHandler.kt:25-28 | `compareTo` is antisymmetric |
| PartialHandler.CompareElementsTransitive | src/main/kotlin/com/solitec/aixm/uuidsubst/AIXMPartialHandler.kt:25-28 | `compareTo` is transitive, so it is a lexicographic order fit for the `TreeMap` |
| PartialHandler.SeparatorLookupIsEquality | src/main/kotlin/com/solitec/aixm/uuidsubst/AIXMPartialHandler.kt:33-40 | a lookup in the separator `TreeMap` by `compareTo` finds a key exactly when the name is one of the two configured keys |
| PartialHandler.Classify | src/main/kotlin/com/solitec/aixm/uuidsubst/AIXMPartialHandler.kt:38-45 | `isSeparator` answers true exactly for the metadata and `hasMember` names. The metadata name gives `MessageMeta` and `hasMember` gives `Feature`. Any other name leaves the state unchanged |
| PartialHandler.DispatchFor | src/main/kotlin/com/solitec/aixm/uuidsubst/AIXMPartialHandler.kt:53-64 | `MessageMeta` dispatches to `handleMessageMetadata` and `Feature` to `handleFeature`. `Nothing` throws `IllegalStateException`. Each holds in both directions |
| PartialHandler.HandleStep | src/main/kotlin/com/solitec/aixm/uuidsubst/AIXMPartialHandler.kt:47-66 | `handlePartial` sets the flag and leaves the state alone. It runs `firstPartial` first exactly when the flag was clear, and never later in the same call. It ends with the dispatched hook when it returns, and with nothing but `firstPartial` when it throws |
| PartialHandler.ChildStepThrowsIff | src/main/kotlin/com/solitec/aixm/uuidsubst/AIXMPartialHandler.kt:38-64 | one top-level child (`isSeparator`, then `handlePartial`) throws exactly when the state is still `Nothing` and its name is no separator. A separator name sets the state the table maps it to, and any other name keeps the state |
| PartialHandler.Run | src/main/kotlin/com/solitec/aixm/uuidsubst/AIXMPartialHandler.kt:38-66 | only a run over at least one child can throw, and it runs at most one hook per child besides the one-time `firstPartial` |
| PartialHandler.NoFirstPartialOnceHandled | src/main/kotlin/com/solitec/aixm/uuidsubst/AIXMPartialHandler.kt:48-51 | once the flag is set, no later partial runs `firstPartial` |
| PartialHandler.FirstPartialRunsOnce | src/main/kotlin/com/solitec/aixm/uuidsubst/AIXMPartialHandler.kt:31-51 | in a run over at least one partial, `firstPartial` is the first hook and runs exactly once, whether or not the run completes |
| PartialHandler.RunCompletesAfterBoundary | src/main/kotlin/com/solitec/aixm/uuidsubst/AIXMPartialHandler.kt:53-64 | once a separator has been seen, no later partial throws |
| PartialHandler.RunCompletesIff | src/main/kotlin/com/solitec/aixm/uuidsubst/AIXMPartialHandler.kt:38-64 | a run completes exactly when it is empty or its first top-level child is a separator |
| PartialHandler.AIXMPartialHandler.constructor | src/main/kotlin/com/solitec/aixm/uuidsubst/AIXMPartialHandler.kt:31-32 | a new handler is in `Nothing` with the flag clear |
| PartialHandler.AIXMPartialHandler.IsSeparator | src/main/kotlin/com/solitec/aixm/uuidsubst/AIXMPartialHandler.kt:38-45 | the new state and the answer are those of `Classify` on the old state |
| PartialHandler.AIXMPartialHandler.HandlePartial | src/main/kotlin/com/solitec/aixm/uuidsubst/AIXMPartialHandler.kt:47-66 | the one-time hook runs exactly when the flag was clear, and the flag is set afterwards. The branch is `DispatchFor(state)`. The call is the step `HandleStep` describes |
| Dom.Node.Element | src/main/kotlin/com/solitec/aixm/uuidsubst/AIXMUUIDSubstitution.kt:194 | `createElementNS(uri, qName)` gives an element with that name, the local part of the qualified name, and no attributes or children |
| Dom.Node.Text | src/main/kotlin/com/solitec/aixm/uuidsubst/AIXMUUIDSubstitution.kt:171 | a text node carries its data and has no name, attributes or children |
| Dom.UuidGenerator.constructor | src/main/kotlin/com/solitec/aixm/uuidsubst/AIXMUUIDSubstitution.kt:154 | no UUID has been drawn from the supply yet |
| Dom.WithGmlId | src/main/kotlin/com/solitec/aixm/uuidsubst/AIXMUUIDSubstitution.kt:153-155 | every `gml:id` attribute takes the new value. Every other attribute is unchanged, and names and order are kept |
| Dom.AttributeIndex | src/main/kotlin/com/solitec/aixm/uuidsubst/AIXMUUIDSubstitution.kt:196 | finds the attribute with the same expanded name, or reports that there is none |
| Dom.SetAttributeNS | src/main/kotlin/com/solitec/aixm/uuidsubst/AIXMUUIDSubstitution.kt:196 | `setAttributeNS` replaces a same-named attribute in place, or appends a new one |
| Dom.SetAttributeNSOnEmpty | src/main/kotlin/com/solitec/aixm/uuidsubst/AIXMUUIDSubstitution.kt:168 | on an element without attributes, `setAttributeNS` leaves exactly the new attribute |
| Dom.FirstMatching | src/main/kotlin/com/solitec/aixm/uuidsubst/AIXMUUIDSubstitution.kt:101 | returns the first child, in document order, that a child-axis path selects, or reports that no child matches |
| Dom.ExtractChild | src/main/kotlin/com/solitec/aixm/uuidsubst/IdentifierExtractor.kt:87 | `extractNode` on a child-axis path gives the first child in document order that matches, and gives one exactly when such a child exists. A missing context node is taken to select nothing (see Left out) |
| Dom.SetTextContent | src/main/kotlin/com/solitec/aixm/uuidsubst/AIXMUUIDSubstitution.kt:93 | after the `textContent` setter, the element holds only new text nodes that spell the string |
| Dom.DirectText | src/main/kotlin/com/solitec/aixm/uuidsubst/IdentifierExtractor.kt:87-88 | the `textContent` getter on an element that holds a single text node gives that node's data, which is what `SetTextContent` leaves behind |
| Dom.Selection.TextTargets | src/main/kotlin/com/solitec/aixm/uuidsubst/AIXMUUIDSubstitution.kt:92-97 | every node selected by one of the three descendant lookups is a target of the text step |
| Dom.UuidGenerator.RandomUUID | src/main/kotlin/com/solitec/aixm/uuidsubst/AIXMUUIDSubstitution.kt:154 | the k-th call returns the k-th string of the supply |
| UuidSubstitution.GmlIdValueInjective | src/main/kotlin/com/solitec/aixm/uuidsubst/AIXMUUIDSubstitution.kt:154 | distinct UUIDs give distinct `"uuid." + UUID` values |
| UuidSubstitution.PartialXMLWriter.constructor | src/main/kotlin/com/solitec/aixm/uuidsubst/AIXMUUIDSubstitution.kt:73-77 | a new writer has no root, no wrapper and nothing streamed |
| UuidSubstitution.PartialXMLWriter.StartDocument | src/main/kotlin/com/solitec/aixm/uuidsubst/AIXMUUIDSubstitution.kt:78 | the writer records the root it opens with |
| UuidSubstitution.PartialXMLWriter.ChangeSeparator | src/main/kotlin/com/solitec/aixm/uuidsubst/AIXMUUIDSubstitution.kt:79-82 | the writer records the wrapper element it streams into |
| UuidSubstitution.PartialXMLWriter.StreamElement | src/main/kotlin/com/solitec/aixm/uuidsubst/AIXMUUIDSubstitution.kt:111 | the streamed element is appended to the output |
| UuidSubstitution.FeatureOf | src/main/kotlin/com/solitec/aixm/uuidsubst/AIXMUUIDSubstitution.kt:87 | `partial.firstChild` is missing exactly when the partial has no children, and is otherwise its first child |
| UuidSubstitution.TimeSliceOf | src/main/kotlin/com/solitec/aixm/uuidsubst/AIXMUUIDSubstitution.kt:89 | the timeSlice found is the feature's first `aixm:timeSlice` child in document order. None is found exactly when there is no feature or the feature has no such child |
| UuidSubstitution.AnnotationSlot | src/main/kotlin/com/solitec/aixm/uuidsubst/AIXMUUIDSubstitution.kt:121-128 | the slot is the position of the first element child the feature type puts after the annotation, or the end when there is none |
| UuidSubstitution.Placed | src/main/kotlin/com/solitec/aixm/uuidsubst/AIXMUUIDSubstitution.kt:127-131 | placing the annotation adds exactly one child |
| UuidSubstitution.PlacedSpec | src/main/kotlin/com/solitec/aixm/uuidsubst/AIXMUUIDSubstitution.kt:120-133 | after placement, the annotation stands immediately before the first child that must follow it, or last. Nothing before it must follow it, and removing it gives back the old children in their old order |
| UuidSubstitution.Without | src/main/kotlin/com/solitec/aixm/uuidsubst/AIXMUUIDSubstitution.kt:102-104 | `removeChild` drops exactly the child at the index and keeps the others in order. With nothing found, nothing changes |
| UuidSubstitution.NewAixmElement | src/main/kotlin/com/solitec/aixm/uuidsubst/AIXMUUIDSubstitution.kt:165 | `createElementNS(aixm, "aixm:x")` gives a fresh, empty element with local name `x` |
| UuidSubstitution.SetGmlId | src/main/kotlin/com/solitec/aixm/uuidsubst/AIXMUUIDSubstitution.kt:168 | the new element's only attribute is the `gml:id` with the value |
| UuidSubstitution.AttrsOf | src/main/kotlin/com/solitec/aixm/uuidsubst/AIXMUUIDSubstitution.kt:152 | gives the attribute lists of the selected elements, in order |
| UuidSubstitution.AIXMUUIDSubstitution.constructor | src/main/kotlin/com/solitec/aixm/uuidsubst/AIXMUUIDSubstitution.kt:55-70 | a new handler has no writer and no document element, and its state machine is at its start |
| UuidSubstitution.AIXMUUIDSubstitution.FirstPartial | src/main/kotlin/com/solitec/aixm/uuidsubst/AIXMUUIDSubstitution.kt:72-84 | an existing writer is kept. Otherwise a fresh writer is opened on the document element and set to the `hasMember` wrapper, with nothing streamed yet |
| UuidSubstitution.AIXMUUIDSubstitution.RootElement | src/main/kotlin/com/solitec/aixm/uuidsubst/AIXMUUIDSubstitution.kt:187-199 | a fresh element with the root's name becomes the document element and carries the root's attributes in order. A second root is refused, as `appendChild` on a document that already has an element refuses it |
| UuidSubstitution.AIXMUUIDSubstitution.ConvertToList | src/main/kotlin/com/solitec/aixm/uuidsubst/AIXMUUIDSubstitution.kt:138-144 | the list has the node list's length and its items in index order |
| UuidSubstitution.AIXMUUIDSubstitution.RegenerateGmlIds | src/main/kotlin/com/solitec/aixm/uuidsubst/AIXMUUIDSubstitution.kt:151-156 | the k-th selected `gml:id` becomes `"uuid."` plus the k-th UUID drawn. No other attribute changes, and one UUID is drawn per attribute |
| UuidSubstitution.AIXMUUIDSubstitution.RegeneratedIdsUnique | src/main/kotlin/com/solitec/aixm/uuidsubst/AIXMUUIDSubstitution.kt:151-156 | with a UUID source that never repeats, every owner that carried a `gml:id` still carries one, and no two owners share a regenerated value |
| UuidSubstitution.AIXMUUIDSubstitution.CreateAnnotation | src/main/kotlin/com/solitec/aixm/uuidsubst/AIXMUUIDSubstitution.kt:164-185 | the result is the fixed tree `annotation` / `Note[gml:id]` / (`purpose`=`REMARK`, `translatedNote` / `LinguisticNote[gml:id]` / `note`=text). It is built from fresh nodes, and the two ids use the two UUIDs drawn, in that order |
| UuidSubstitution.AIXMUUIDSubstitution.CreateNote | src/main/kotlin/com/solitec/aixm/uuidsubst/AIXMUUIDSubstitution.kt:167-181 | gives the `Note` subtree with its id from the first UUID drawn |
| UuidSubstitution.AIXMUUIDSubstitution.CreatePurpose | src/main/kotlin/com/solitec/aixm/uuidsubst/AIXMUUIDSubstitution.kt:170-172 | gives a fresh `aixm:purpose` holding only the text `REMARK` |
| UuidSubstitution.AIXMUUIDSubstitution.CreateTranslatedNote | src/main/kotlin/com/solitec/aixm/uuidsubst/AIXMUUIDSubstitution.kt:174-181 | gives the `translatedNote` / `LinguisticNote[gml:id]` / `note`=text subtree, with the id from the UUID drawn |
| UuidSubstitution.AIXMUUIDSubstitution.PlaceAnnotation | src/main/kotlin/com/solitec/aixm/uuidsubst/AIXMUUIDSubstitution.kt:120-133 | on an element, the new child list is `Placed` of the old one. On a text node the insertion is refused and nothing changes |
| UuidSubstitution.AIXMUUIDSubstitution.ResetTexts | src/main/kotlin/com/solitec/aixm/uuidsubst/AIXMUUIDSubstitution.kt:92-97 | the selected begin position holds the effective date, the sequence number `1` and the correction number `0` |
| UuidSubstitution.AIXMUUIDSubstitution.RewriteTimeSlice | src/main/kotlin/com/solitec/aixm/uuidsubst/AIXMUUIDSubstitution.kt:91-97 | the `gml:id` values are regenerated and the three texts are reset. The timeSlice keeps its children |
| UuidSubstitution.AIXMUUIDSubstitution.ReplaceAnnotation | src/main/kotlin/com/solitec/aixm/uuidsubst/AIXMUUIDSubstitution.kt:101-106 | the first `xsi:nil="true"` annotation child is removed, and the new remark annotation is placed in its slot among the remaining children. Two UUIDs are drawn. A text node refuses the insertion and keeps the list without the nil annotation |
| UuidSubstitution.AIXMUUIDSubstitution.HandleFeature | src/main/kotlin/com/solitec/aixm/uuidsubst/AIXMUUIDSubstitution.kt:86-114 | on a feature without a timeSlice, the `!!` throws `NullPointerException`. No UUID is drawn, no node's attributes or children change, and nothing is streamed. Otherwise the ids are regenerated and the three texts reset. A configured remark replaces the annotation of the timeSlice's first child; a text node there refuses it with `HierarchyRequestError` and gains nothing; without a remark, that child keeps its children. The UUID count follows, and the feature is streamed exactly when no `!!` or insertion failed |
| UuidSubstitution.AIXMUUIDSubstitution.HandleTimeSlice | src/main/kotlin/com/solitec/aixm/uuidsubst/AIXMUUIDSubstitution.kt:91-112 | once the timeSlice is found: the ids are regenerated and the three texts reset. A configured remark replaces the first child's annotation, or a text node refuses it and gains nothing. The UUID count follows, and the feature is streamed exactly when no step threw |
| UuidSubstitution.AIXMUUIDSubstitution.FinishFeature | src/main/kotlin/com/solitec/aixm/uuidsubst/AIXMUUIDSubstitution.kt:99-112 | a configured remark replaces the annotation, or a text node refuses it and gains nothing. Without one, the first child is untouched. The feature is streamed exactly when the writer exists and no step threw |
| UuidSubstitution.AIXMUUIDSubstitution.RemarkStep | src/main/kotlin/com/solitec/aixm/uuidsubst/AIXMUUIDSubstitution.kt:99-106 | a missing first child of the timeSlice throws. A text node refuses the insertion and loses only its nil annotation. An element gets the annotation in place |
| UuidSubstitution.AIXMUUIDSubstitution.HandlePartial | src/main/kotlin/com/solitec/aixm/uuidsubst/AIXMPartialHandler.kt:47-66 | the first partial creates the writer. `Nothing` throws. A `Nothing` partial, a metadata partial and a feature without a timeSlice change no node and stream nothing. A feature partial that passes is streamed, after what the writer held |
| UuidSubstitution.AIXMUUIDSubstitution.GmlIdsKept | src/main/kotlin/com/solitec/aixm/uuidsubst/AIXMUUIDSubstitution.kt:99-112 | the remark and streaming steps keep the regenerated ids |
| UuidSubstitution.AIXMUUIDSubstitution.TextsStay | src/main/kotlin/com/solitec/aixm/uuidsubst/AIXMUUIDSubstitution.kt:99-112 | the reset texts survive the remark step, except in a child list that step rewrites |
| UuidSubstitution.LookupsFramed | src/main/kotlin/com/solitec/aixm/uuidsubst/AIXMUUIDSubstitution.kt:87-89 | the feature and timeSlice lookups depend only on the child lists and the attributes they read |
| UuidSubstitution.MatchKept | src/main/kotlin/com/solitec/aixm/uuidsubst/AIXMUUIDSubstitution.kt:101 | the `xsi:nil` lookup depends only on the children's attributes |
| UuidSubstitution.LocalPartOfPrefixed | src/main/kotlin/com/solitec/aixm/uuidsubst/AIXMUUIDSubstitution.kt:165 | the local name of `prefix:local` is `local` |
| IdentifierExtraction.KeyIndex | src/main/kotlin/com/solitec/aixm/uuidsubst/IdentifierExtractor.kt:88 | finds the entry holding the key, or reports that there is none |
| IdentifierExtraction.AsMapKeys | src/main/kotlin/com/solitec/aixm/uuidsubst/IdentifierExtractor.kt:47 | the keys of the map are the keys of its entries |
| IdentifierExtraction.AsMapSize | src/main/kotlin/com/solitec/aixm/uuidsubst/IdentifierExtractor.kt:47 | with distinct keys, the map has one key per entry |
| IdentifierExtraction.AsMapReplace | src/main/kotlin/com/solitec/aixm/uuidsubst/IdentifierExtractor.kt:88 | overwriting the entry of an existing key is a map update |
| IdentifierExtraction.AsMapAppend | src/main/kotlin/com/solitec/aixm/uuidsubst/IdentifierExtractor.kt:88 | appending a new key is a map update |
| IdentifierExtraction.PutAsMap | src/main/kotlin/com/solitec/aixm/uuidsubst/IdentifierExtractor.kt:88 | `identifierMap[k] = v` sets `k` to `v` and leaves every other key's value unchanged |
| IdentifierExtraction.PutEntries | src/main/kotlin/com/solitec/aixm/uuidsubst/IdentifierExtractor.kt:88 | keeps insertion order: existing keys keep their places, and only a new key grows the map, at the end. No entry but the new one appears, and distinct keys stay distinct |
| IdentifierExtraction.PutAll | src/main/kotlin/com/solitec/aixm/uuidsubst/IdentifierExtractor.kt:85-89 | a batch of puts never shrinks the map and adds at most one entry per identifier put |
| IdentifierExtraction.PutAllKeys | src/main/kotlin/com/solitec/aixm/uuidsubst/IdentifierExtractor.kt:85-89 | after a sequence of puts, the key set is the old keys plus every identifier put |
| IdentifierExtraction.PutAllLastWins | src/main/kotlin/com/solitec/aixm/uuidsubst/IdentifierExtractor.kt:88 | a repeated identifier keeps the UUID of its last occurrence |
| IdentifierExtraction.PutAllKeysDistinct | src/main/kotlin/com/solitec/aixm/uuidsubst/IdentifierExtractor.kt:47 | the map never holds a key twice |
| IdentifierExtraction.PutAllEntries | src/main/kotlin/com/solitec/aixm/uuidsubst/IdentifierExtractor.kt:88 | every entry pairs an identifier put with the UUID drawn for it |
| IdentifierExtraction.PutAllValuesDistinct | src/main/kotlin/com/solitec/aixm/uuidsubst/IdentifierExtractor.kt:88 | if the UUID source never repeats, no two identifiers share a UUID |
| IdentifierExtraction.CsvLine | src/main/kotlin/com/solitec/aixm/uuidsubst/IdentifierExtractor.kt:80 | an entry is written as its two fields in double quotes around a comma: five characters more than the fields, opening and closing with a quote. `CsvLineRoundTrip` reads it back |
| IdentifierExtraction.CsvRows | src/main/kotlin/com/solitec/aixm/uuidsubst/IdentifierExtractor.kt:80 | one `"old","new"` line per entry, in map order |
| IdentifierExtraction.CsvLines | src/main/kotlin/com/solitec/aixm/uuidsubst/IdentifierExtractor.kt:78-81 | the header `"original","new"` comes first, then one line per entry, so the output has the map's size plus one lines |
| IdentifierExtraction.IndexOf | src/main/kotlin/com/solitec/aixm/uuidsubst/IdentifierExtractor.kt:80 | finds the first occurrence of the character, which the CSV reader uses to split a line |
| IdentifierExtraction.CsvLineRoundTrip | src/main/kotlin/com/solitec/aixm/uuidsubst/IdentifierExtractor.kt:80 | a CSV line reads back as its entry when the key holds no double quote |
| IdentifierExtraction.CsvRowsRoundTrip | src/main/kotlin/com/solitec/aixm/uuidsubst/IdentifierExtractor.kt:80 | the data lines read back as the entries, in order |
| IdentifierExtraction.CsvRoundTrip | src/main/kotlin/com/solitec/aixm/uuidsubst/IdentifierExtractor.kt:76-82 | the whole CSV table reads back as the map's entries, in order |
| IdentifierExtraction.CsvLineCount | src/main/kotlin/com/solitec/aixm/uuidsubst/IdentifierExtractor.kt:79-80 | the CSV has one line per distinct identifier, plus the header |
| IdentifierExtraction.PutAllExtend | src/main/kotlin/com/solitec/aixm/uuidsubst/IdentifierExtractor.kt:61-65 | two batches of puts, the second drawing its UUIDs where the first stopped, build the same map as one batch over the joined identifiers, so the map does not depend on where a run is cut |
| IdentifierExtraction.IdentifierOf | src/main/kotlin/com/solitec/aixm/uuidsubst/IdentifierExtractor.kt:86-87 | an identifier text is found exactly when the partial wraps a feature that has a `gml:identifier` child |
| IdentifierExtraction.IdentifierIsFirst | src/main/kotlin/com/solitec/aixm/uuidsubst/IdentifierExtractor.kt:86-88 | the key put is the `textContent` of the feature's first `gml:identifier` child in document order |
| IdentifierExtraction.ExtractionPrefix | src/main/kotlin/com/solitec/aixm/uuidsubst/IdentifierExtractor.kt:61-65 | a run only grows: the identifiers recorded after some children stay the first ones recorded after more, and once a child has thrown, later children change nothing |
| IdentifierExtraction.ExtractionLeavesNothing | src/main/kotlin/com/solitec/aixm/uuidsubst/AIXMPartialHandler.kt:53-64 | a run that has not thrown has left `Nothing` |
| IdentifierExtraction.ExtractionCompletesIff | src/main/kotlin/com/solitec/aixm/uuidsubst/IdentifierExtractor.kt:61-65 | an extraction completes exactly when it is empty or its first top-level child is a separator |
| IdentifierExtraction.ExtractionAgreesWithRun | src/main/kotlin/com/solitec/aixm/uuidsubst/IdentifierExtractor.kt:61-65 | the extractor's run completes exactly when the base handler's `Run` over the same child names does |
| IdentifierExtraction.RecordedIff | src/main/kotlin/com/solitec/aixm/uuidsubst/IdentifierExtractor.kt:85-89 | an identifier is recorded exactly when a feature partial reached without a throw carries it. Metadata partials and features without `gml:identifier` record nothing |
| IdentifierExtraction.ExtractedKeys | src/main/kotlin/com/solitec/aixm/uuidsubst/IdentifierExtractor.kt:61-65 | the final key set is exactly the set of identifier texts of the feature partials |
| IdentifierExtraction.IdentifierExtractor.constructor | src/main/kotlin/com/solitec/aixm/uuidsubst/IdentifierExtractor.kt:45-47 | a new extractor has an empty map and a handler at its start |
| IdentifierExtraction.IdentifierExtractor.HandleFeature | src/main/kotlin/com/solitec/aixm/uuidsubst/IdentifierExtractor.kt:85-90 | with a `gml:identifier` child, its text is put with the next UUID drawn. Without one, the map and the UUID source are unchanged |
| IdentifierExtraction.IdentifierExtractor.HandlePartial | src/main/kotlin/com/solitec/aixm/uuidsubst/AIXMPartialHandler.kt:47-66 | `Nothing` throws. Only a feature partial changes the map, because `firstPartial` and `handleMessageMetadata` keep their empty defaults |
| IdentifierExtraction.IdentifierExtractor.Feed | src/main/kotlin/com/solitec/aixm/uuidsubst/IdentifierExtractor.kt:63 | one top-level child is one step of the run: `isSeparator`, then `handlePartial`. No node changes |
| IdentifierExtraction.IdentifierKept | src/main/kotlin/com/solitec/aixm/uuidsubst/IdentifierExtractor.kt:86-88 | the identifier lookup gives the same answer while no node changes |
| IdentifierExtraction.RunStep | src/main/kotlin/com/solitec/aixm/uuidsubst/IdentifierExtractor.kt:61-65 | the map after one more partial is the batch of puts over the longer run |
| IdentifierExtraction.RunChild | src/main/kotlin/com/solitec/aixm/uuidsubst/IdentifierExtractor.kt:61-65 | feeding one child keeps the run invariant, or throws exactly when the run model throws |
| IdentifierExtraction.SeenStep | src/main/kotlin/com/solitec/aixm/uuidsubst/IdentifierExtractor.kt:61-65 | what the run has read stays what the children held at its start |
| IdentifierExtraction.Execute | src/main/kotlin/com/solitec/aixm/uuidsubst/IdentifierExtractor.kt:61-65 | the returned map is the batch of puts of the identifiers the run records, with UUIDs drawn in order. It fails exactly when the run model throws |

## Left out

- `PartialDocumentHandler.parse` (SAX streaming) is not part of this model. A run is given as the sequence of top-level children, each with its expanded name and its subtree. The root-element callback is the method `RootElement`.
- `AIXMUUIDSubstitution.execute` is not modelled. It creates the handler, runs the parser and closes the writer, so it is plumbing around the parser that is not part of this model. `IdentifierExtractor.execute` is modelled as `Execute` over the given children.
- `PartialXMLWriter` serialisation, the output stream, `endDocument`, `PrintWriter` and line terminators are I/O. The writer is reduced to the root, the wrapper and the sequence of streamed elements.
- `document.adoptNode` transfers DOM ownership. It is not modelled, and the tree has no owner documents.
- `NamespaceContextEx` and `AUSConstants` are not part of this model. The namespace URIs are taken to be the AIXM 5.1, AIXM 5.1 message, GML 3.2 and XML Schema instance URIs. The separator names `aixm:messageMetadata` and `message:hasMember` stand for the `AUSConstants` entries the separator table is built from.
- The descendant-axis lookups (`descendant::…` in `XPathTool`) are an input, the `Selection`. They are assumed sound (`Selection.Sound`): the node-set lists no node twice, each element it lists carries a `gml:id`, and each single-node path yields an element of the name it ends in. The child-axis lookups are evaluated by the model.
- Dom.ExtractChild: `XPathTool` is not part of this model. `extractNode` on a missing context node (the `firstChild` of a partial without children) is taken to select nothing, as a null result.
- The tree has only element and text nodes (`NodeKind`). Comments, CDATA sections and processing instructions are not modelled. A text node is not kept from having children, so a refused annotation is stated as leaving the children without their nil annotation (`RemarkRefused`); a DOM text node has none.
- The `textContent` getter is modelled as the concatenation of the direct text children. Text inside nested elements is not included, so an identifier with markup inside is not modelled.
- `String.compareTo` is modelled on Unicode characters. UTF-16 surrogate-pair ordering is not modelled.
- `FeaturePropertiesFactory` is not part of this model. `propertiesFor(name).isAfterAnnotation(localName)` is the function parameter `isAfterAnnotation`.
- `XMLGregorianCalendar.toXMLFormat()` is an opaque string, the `Calendar` datatype.
- `UUID.randomUUID()` is the `k`-th string of a supplied sequence. Uniqueness is an explicit assumption, `Injective(supply)`, made only by the lemmas that need it: `PutAllValuesDistinct` and `RegeneratedIdsUnique`.
- The CSV writer does not escape double quotes. The round trip is therefore proved only for keys without a double quote.
- Main.kt (command-line parsing, files, XSLT pretty-printing) and build.gradle.kts are not part of this model.
- UuidSubstitution.AIXMUUIDSubstitution.HandleFeature: the placement of the remark annotation is stated relative to the first child's children as the remark step finds them (`before`). This equals the original list unless a descendant lookup selected that child itself.
- UuidSubstitution.AIXMUUIDSubstitution.HandleTimeSlice: as for `HandleFeature`, `before` is tied to the first child's original children only when no descendant lookup selected that child. When one did, `before` is the child list the text reset left, and no clause says what it holds.
- UuidSubstitution.AIXMUUIDSubstitution.RootElement: the copied attribute list equals the root's only when no two attributes share an expanded name. That is always so in a well-formed start tag, and `setAttributeNS` would merge a repeated name.
- UuidSubstitution.AIXMUUIDSubstitution.HandlePartial: for a feature partial that has a timeSlice, the rewrite of the ids, the texts and the annotation is not restated. `HandleFeature`'s contract states it.
- IdentifierExtraction.Execute: `seen`, what the run read of each child, is a ghost out-parameter. The result is tied to the children through it.
