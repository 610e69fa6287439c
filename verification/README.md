# Verified models of the YAML, Markdown, command-line and device code

Dafny models of the parts of this repository whose correctness spans whole runs or several
functions, with proofs of what those parts promise.

- **YAML emitter** (`go-yaml/emitterc.go`, `go-yaml/writerc.go`). `EmitterGrammar` defines the
  language of event streams and a small recogniser for it; `Emitter` is the state machine of the
  source with its stacks of states, indents and flow levels and its lookahead queue
  (`EmitterQueue`, `EmitterIndent`), and `EmitterRuns` follows it over whole nodes. `TextWriter` is
  the bounded output buffer. `ScalarWriter`, `PlainScalar`, `DoubleQuoted` and `ScalarStyle` are
  the scalar analyser, the style choice and the three inline writers; `PlainExact` shows that the
  analyser lets through exactly the plain text that can be read. What they write is read back
  by `ScalarScanner`, the folding and escape rules of the repository's own scanner: those of
  sections 5.7, 6.5 and 7.3.1 to 7.3.3 of YAML 1.2.2, except that this scanner also takes NEL, LS
  and PS for line breaks. `Utf8` ties the byte tests of the source to code points.
- **YAML trees** (`go-yaml/decode.go`, `go-yaml/encode.go`). `YamlMeaning` is a reference semantics
  of decoding into untyped values, without counters and shared state; `Decoder` is the decoder with
  both, proved against it. `YamlLaws` states that semantics by the shape of a node and `YamlMerge`
  merge precedence. `YamlErrors` lists the calls a decode makes and its first error, with examples
  in `YamlCycles`; `YamlReports` follows the decoder along that list. `YamlGraph` and `YamlWork`
  measure work and follow alias chains, and `AliasRatio` is the test that limits it. `NodeEvents`
  and `NodeCoder` are the parser from events to nodes and the encoder back; `NodeReading` says what
  parsing must give in terms of events and nodes alone.
- **Markdown** (`blackfriday`). `SyntaxTree` is the heap tree with its five pointers and the three
  editing operations, `TreeWalk` the pointer-chasing walker, `TreeVisits` how often it sees a node.
  `HeadingIds` is the heading ID generator, `HtmlEscape` the entity-aware escaper.
- **Command line** (`cobra`). `CommandLookup` holds the two argument scanners and the search for a
  subcommand, `CommandLaws` what they make of arguments by their shape, `EditDistance` the distance
  behind suggestions.
- **GPU discovery** (`discover/runner.go`). `DeviceFilter`, `DeviceRenumber` and `DeviceDedup` are
  the three passes over the device list.

Objects that the source updates in place are classes here, and each such method is proved against a
function of the old state; a panic or a failed write is a result. Callbacks, environment variables,
library functions (`resolve`, case folding, number printing, flag tables) and the write handler are
parameters. The visitor of a tree walk may answer by anything it has seen so far.

`dafny verify dfyconfig.toml` checks everything.

## Where the code and its documentation differ

The model follows the code.

- Merge precedence: of two own keys of equal value (`1` and `0x1`) the later wins, and a merge
  source's quoted `"<<"` key is dropped. `YamlMerge.FirstBindingByKeys` says for which keys the
  documented order holds whatever the values, `YamlMerge.FirstBindingExactly` for which values.
- A document that contains itself is not reported as such if another error comes first
  (`YamlCycles.CycleBehindBadScalar`) or if a merge never comes to the value with the cycle
  (`YamlCycles.OverriddenCycleIsHarmless`). `Decoder.Decode` gives the error of every document, and
  a condition under which a merge-free document is reported exactly if it contains itself.
- Compact sequences with an odd `best_indent` let a nested indent step back
  (`EmitterIndent.MonotoneExactlyWhen`, `EmitterRuns.StepsBack`).
- `filterOverlapByLibrary` announces the newest library that supports all devices. Its flag is
  never reset, so it keeps the newest directory if all are alike and the oldest otherwise
  (`DeviceFilter.KeepsNewestCovering`).
- The last loop over devices compares with a device that may be replaced while the loop runs. It
  can leave two devices that it takes for one (`DeviceDedup.RelatedPairIsLeft`,
  `DeviceDedup.SecondVulkanIsLeft`) and drop one that is like no survivor
  (`DeviceDedup.ViewIsStranded`). `DeviceDedup.ApartExactly` and `DeviceDedup.CoveredExactly` say
  exactly when neither can happen.
- A Markdown visitor is announced to see every node twice. A leaf is seen once
  (`TreeVisits.LeafSeenOnce`), and so is a container whose children are skipped
  (`TreeVisits.SkippedSeenOnce`). `TreeVisits.SeenTwiceExactly` says which nodes of a walk are seen
  on exit too, and `TreeVisits.AllTwiceExactly` on which walks all of them are.
- The alias allowance is announced to stay between 396,000 and 400,000 decodes over its range. It
  leaves that band almost everywhere (`AliasRatio.AllowanceBand`); what holds is that the ratio never
  exceeds 0.99.

## Model

| member | source | states |
|---|---|---|
| `Utf8.BytesSeeRunes` | go-yaml/yamlprivateh.go:80-197 | in the bytes of any text, width, decoding and the printable, break, blank and ASCII tests at a character's offset answer for that character |
| `Utf8.EncodeInjective` | go-yaml/emitterc.go:79-104 | bytes written for two texts are equal only if the texts are |
| `TextWriter.Writer.constructor` | go-yaml/emitterc.go:324-362 | a new writer has delivered and buffered nothing, stands at a line start, and uses the width and line break defaults of STREAM-START |
| `TextWriter.Writer.Flush` | go-yaml/writerc.go:33-48 | bytes delivered plus bytes buffered stay all bytes put; on success the buffer is empty, on failure nothing moves |
| `TextWriter.Writer.Store` | go-yaml/emitterc.go:79-104 | the bytes of one character go to the end of the buffer, within its bounds |
| `TextWriter.Writer.Put` | go-yaml/emitterc.go:31-48 | one character is appended to all that was put and the column advances by one, after a flush if there is no room |
| `TextWriter.Writer.PutBreak` | go-yaml/emitterc.go:50-76 | the configured line break is appended and the column is zero |
| `TextWriter.Writer.WriteBreak` | go-yaml/emitterc.go:117-136 | an LF becomes the configured break, any other break is copied |
| `TextWriter.Writer.WriteIndent` | go-yaml/emitterc.go:1524-1549 | exactly when a new line is due a break is put, one more below a foot comment of this indent, and then blanks up to the indent |
| `TextWriter.Writer.WriteIndicator` | go-yaml/emitterc.go:1551-1564 | the indicator is put, after one space where one is needed, and the line flags are set as asked |
| `TextWriter.Writer.WriteColon` | go-yaml/emitterc.go:830-843 | after the colon of a block value the column test of a compact sequence holds exactly if the key is simple |
| `ScalarScanner.ScannedConcat` | go-yaml/scannerc.go:2437-2690 | the scanner of quoted text may be run piece by piece |
| `ScalarScanner.PScannedConcat` | go-yaml/scannerc.go:2693-2850 | so may the scanner of plain text |
| `ScalarWriter.WriteSingleQuoted` | go-yaml/emitterc.go:1702-1759 | whatever the width and line break, the text written for a safe value, folds, doubled breaks and doubled quotes included, is read back as the value; where no break is allowed a value of one line is written on one line, with its apostrophes doubled and nothing else changed |
| `ScalarWriter.ScannedFold` | go-yaml/emitterc.go:1702-1759 | a fold is read as one space |
| `ScalarWriter.SingleBreak` | go-yaml/emitterc.go:1723-1733 | the doubled first LF of a run and the later breaks read back as the value's breaks |
| `ScalarWriter.SingleQuotedSpace` | go-yaml/emitterc.go:1711-1722 | a space is written as a fold exactly if breaks are allowed, it opens a run of one, the line is past the width and it is neither first nor last; otherwise as it is |
| `PlainScalar.WritePlain` | go-yaml/emitterc.go:1643-1700 | the text written for a safe value, folds included, is read back as the value in its context; where no break is allowed it is the value itself |
| `PlainScalar.PlainSpaceOut` | go-yaml/emitterc.go:1653-1664 | a space is written as a fold exactly if breaks are allowed, the line is past the width and no space is next to it; otherwise as it is |
| `PlainExact.PlainExactly` | go-yaml/emitterc.go:1289-1440 | text may be plain if and only if it is printable, on one line and read back as it stands by the scanner; in flow context also only without a colon |
| `PlainExact.IndicatorCharacters` | go-yaml/emitterc.go:1331-1355 | the indicator tests, by their characters |
| `DoubleQuoted.EscapeReads` | go-yaml/emitterc.go:1777-1850 | every escape, short or of two, four or eight digits, is read back as its character |
| `DoubleQuoted.EscapeIsShortest` | go-yaml/emitterc.go:1797-1850 | one letter wherever the scanner has one for an escaped character, otherwise the fewest digits that hold it |
| `DoubleQuoted.WriteHex` | go-yaml/emitterc.go:1839-1846 | the digits put are those of the number, most significant first |
| `DoubleQuoted.WriteEscape` | go-yaml/emitterc.go:1777-1850 | what is put is the escape of the character |
| `DoubleQuoted.DoubleFold` | go-yaml/emitterc.go:1852-1866 | a fold with its backslash guard stands for the spaces it replaces |
| `DoubleQuoted.DoubleQuotedSpace` | go-yaml/emitterc.go:1852-1866 | a space is written as a fold, guarded before another space, exactly if breaks are allowed, it opens a run, the line is past the width and it is neither first nor last; otherwise as it is |
| `DoubleQuoted.EscapedAsItStands` | go-yaml/emitterc.go:1768-1770 | printable text without quotes, backslashes and breaks is not escaped, unless it must be made ASCII |
| `DoubleQuoted.EscapedIsAscii` | go-yaml/emitterc.go:1768-1770 | without unicode only ASCII is written |
| `DoubleQuoted.WriteDoubleQuoted` | go-yaml/emitterc.go:1761-1880 | for every value, width and positive indent, the text written is read back as the value; where no break is allowed it is one line, each character escaped where it must be |
| `ScalarStyle.Analyze` | go-yaml/emitterc.go:1289-1440 | each flag of the analysis means what it is used for, both ways |
| `ScalarStyle.IndicatorsAt` | go-yaml/emitterc.go:1331-1362 | the two switches find exactly the positions that forbid plain text in block and in flow context |
| `ScalarStyle.StyleExactly` | go-yaml/emitterc.go:1031-1077 | the style chosen, in terms of the value: double quotes if forced, else the style asked for wherever it can carry the value, else single quotes for plain text where these can, else double quotes; none exactly without tag and implicit flags |
| `ScalarStyle.StyleFits` | go-yaml/emitterc.go:1031-1077 | the style chosen can carry the value where it stands; a block style is the one asked for; a key of several lines is always double-quoted |
| `ScalarStyle.EmitScalar` | go-yaml/emitterc.go:1124-1142 | analysis, choice and writer together: the style is that one, for every request and in every context; a non-empty value is read back from what was written inline; a key stays on one line; what is left to the block writers was asked for and fits them |
| `EmitterGrammar.AcceptsExactlyStreams` | go-yaml/emitterc.go:365-547 | the recogniser ends on exactly the words stream = START document* END of the grammar |
| `EmitterGrammar.WordRuns` | go-yaml/emitterc.go:882-904 | a node of the grammar is read completely and leaves the open collections as they were, one place on |
| `EmitterGrammar.NodeFromRun` | go-yaml/emitterc.go:882-904 | a run that finishes starts with one node of the grammar |
| `EmitterQueue.NeedMoreEvents` | go-yaml/emitterc.go:168-202 | the loop waits exactly when the head needs lookahead that is neither complete nor cut short by its own end |
| `EmitterQueue.WaitsExactly` | go-yaml/emitterc.go:168-202 | before scalars and aliases a document start waits for one more event, a sequence start for two, a mapping start for three, anything else for none |
| `EmitterQueue.EndIsEnough` | go-yaml/emitterc.go:187-202 | once the head's own end is there, nothing more is waited for |
| `EmitterQueue.QueueBounds` | go-yaml/emitterc.go:168-202 | at most three events wait; a collection start is processed only with its successor known |
| `EmitterQueue.DocumentEndDrains` | go-yaml/emitterc.go:146-202 | at the end of a document or stream nothing can still be waiting |
| `EmitterIndent.DeeperExactly` | go-yaml/emitterc.go:228-254 | one level deeper is, at the outermost level, the best indent in flow style and none otherwise; in a block sequence two more; elsewhere the one multiple of the best indent after the old indent, less two for a compact sequence |
| `EmitterIndent.IndentsExactly` | go-yaml/emitterc.go:228-254 | the indents of nested levels are the one chain that does this at every level |
| `EmitterIndent.IndentsGrow` | go-yaml/emitterc.go:228-254 | without compact sequences, or with an even best indent, nested indents never decrease |
| `EmitterIndent.OddIndentStepsBack` | go-yaml/emitterc.go:228-254 | for every odd best indent there is a nesting that steps back |
| `EmitterIndent.MonotoneExactlyWhen` | go-yaml/emitterc.go:228-254 | all nestings are monotone if and only if compact sequences are off or the best indent is even |
| `EmitterIndent.ScalarIndent` | go-yaml/emitterc.go:926-938 | a scalar's indent is positive and beyond its parent's, in every nesting |
| `Emitter.Machine.IncreaseIndent` | go-yaml/emitterc.go:228-254 | the old indent is saved; the new one is two more in a block sequence and otherwise the least multiple of the best indent above it, less two if compact, so the saved indents are those of the deeper nesting |
| `Emitter.Machine.EmitNode` | go-yaml/emitterc.go:882-971 | a node event is taken exactly if it starts a node; a scalar or alias leaves the stacks as they were, a start opens one collection, in flow style exactly inside flow, when canonical, on request or when empty |
| `Emitter.Machine.OpensFlow` | go-yaml/emitterc.go:940-971 | a start opens a flow collection if and only if one is open around it, the emitter is canonical, it asks for flow style or its end comes next |
| `Emitter.Machine.Enter` | go-yaml/emitterc.go:550-588 | entering a collection adds its indentation level and counts a flow level |
| `Emitter.Machine.Leave` | go-yaml/emitterc.go:747-771 | its END restores the levels, and so the indents, the flow level and the state of before |
| `Emitter.Machine.SequenceItem` | go-yaml/emitterc.go:550-630 | the item states, flow and block, move as the recogniser does, with the open collections and levels given exactly |
| `Emitter.Machine.MappingKey` | go-yaml/emitterc.go:633-706 | the key states, flow and block, move as the recogniser does, with the open collections and levels given exactly |
| `Emitter.Machine.MappingValue` | go-yaml/emitterc.go:709-744 | the value states, simple or not, move as the recogniser does, with the open collections and levels given exactly |
| `Emitter.Machine.StartStream` | go-yaml/emitterc.go:324-362 | only STREAM-START is taken; a best indent outside 2 to 9 becomes 2 |
| `Emitter.Machine.StartDocument` | go-yaml/emitterc.go:365-486 | only a document start or the stream's end is taken |
| `Emitter.Machine.DocumentContent` | go-yaml/emitterc.go:500-517 | only a node is taken as content |
| `Emitter.Machine.EndDocument` | go-yaml/emitterc.go:519-547 | only the document's end is taken |
| `Emitter.Machine.StateMachine` | go-yaml/emitterc.go:257-321 | every event is taken exactly when the recogniser takes it; the open collections and their indentation levels afterwards are given exactly |
| `Emitter.Machine.StackDiscipline` | go-yaml/emitterc.go:550-806 | in every state inside a document: one state per open collection, one indent per entered one, each as deep as its collection asks, compact only for block sequences under keys; the flow level counts entered flow collections, no block collection sits in a flow one |
| `Emitter.Machine.Emit` | go-yaml/emitterc.go:146-162 | events are processed once each and in order, at most three wait, document ends drain the queue, a collection that asks for flow style or whose end comes next is always opened so, and an error on a sound event means that no stream starts like this |
| `EmitterRuns.TakeFirst` | go-yaml/emitterc.go:747-771 | the first node of a collection makes the chain of indents one longer, by the depth of its collection; two short of the multiple exactly for a block sequence under a key, asked to be compact, whose text begins a line |
| `EmitterRuns.TakeKey` | go-yaml/emitterc.go:697-705 | after a key that is a scalar or alias the value is served in the simple state exactly if the key is on one line, no longer than 128, and not in a flow mapping of a canonical emitter |
| `EmitterRuns.EmitTree` | go-yaml/emitterc.go:257-321 | over the events of any whole node the open collections and the levels around it are kept |
| `EmitterRuns.EmitWholeNode` | go-yaml/emitterc.go:550-806 | after any whole node the indents are what they were |
| `EmitterRuns.StepsBack` | go-yaml/emitterc.go:228-254 | for every odd best indent the emitter accepts, a stream that drives the machine to indents that step back; that the sequence is compact follows from the colon the writer has put |
| `Emitter.EmitAll` | go-yaml/emitterc.go:146-321 | a fresh emitter ends in the end state with nothing waiting exactly on the event streams of the grammar |
| `YamlTree.ShortOfLong` | go-yaml/resolve.go:96-114 | a short tag survives its long form |
| `YamlTree.Spellings` | go-yaml/resolve.go:96-114 | a tag of YAML's own has a long and a short spelling, every other tag one |
| `AliasRatio.AllowedAliasRatio` | go-yaml/decode.go:468-482 | the allowed ratio lies between 0.10 and 0.99 |
| `AliasRatio.AllowanceBand` | go-yaml/decode.go:474-481 | the allowance lies in the announced band exactly for 400,000 to 404,494 decodes and for 4,000,000 |
| `AliasRatio.AllowanceExceedsBand` | go-yaml/decode.go:474-481 | at a million decodes it is above 841,666 |
| `AliasRatio.TooManyExactly` | go-yaml/decode.go:468-491 | the test in whole numbers: more than 100 calls inside aliases, more than 1000 in all, and more than 99 percent, a tenth or the interpolated share of them |
| `AliasRatio.TalliedDecides` | go-yaml/decode.go:484-491 | a run stops early if and only if some prefix of its calls fails the test |
| `AliasRatio.ShortRunsPass` | go-yaml/decode.go:484-491 | a run of at most 1000 calls, or with at most 100 inside aliases, never does |
| `AliasRatio.WorkBound` | go-yaml/decode.go:484-491 | as long as the test passes, all calls are at most 1000 or a hundred times those outside aliases |
| `YamlGraph.CostIsSize` | go-yaml/decode.go:484-522 | without merges, the calls outside aliases are the nodes of the tree |
| `YamlGraph.CostAtMostDouble` | go-yaml/decode.go:977-989 | with merges, they are fewer than twice the nodes |
| `YamlGraph.ChainsAreFresh` | go-yaml/decode.go:533-544 | if decoding succeeds, no chain of aliases meets an alias twice or one in progress |
| `YamlGraph.SuccessMeansAcyclic` | go-yaml/decode.go:533-544 | success on a merge-free document means that no alias lies below its own target |
| `YamlErrors.TidyFails` | go-yaml/decode.go:484-544 | where every scalar resolves, every alias has a target, every key is a scalar and every merge takes mappings, the first error is a cycle or none, with merges or without |
| `YamlWork.CallsAreExpanded` | go-yaml/decode.go:484-544 | where only a cycle can fail, nothing is merged and no key repeats, a decode takes one call for each node of the tree with its aliases expanded, fewer only if it meets a cycle |
| `YamlLaws.SequenceMeaning` | go-yaml/decode.go:729-765 | a sequence fails exactly if an item fails; otherwise it is the list of the values of the items that have one, in order |
| `YamlLaws.MappingMeaning` | go-yaml/decode.go:767-862 | a mapping of distinct scalar keys without merges is the map from what the keys resolve to, to the values of their pairs |
| `YamlLaws.RepeatsExactly` | go-yaml/decode.go:769-783 | a mapping is passed over if and only if two keys are scalars or aliases of the same text, or collections of one kind |
| `Decoder.Decoding.Count` | go-yaml/decode.go:484-491 | a call is counted, as one inside an alias if one is in progress, and the counters are those of all calls made |
| `Decoder.Decoding.Unmarshal` | go-yaml/decode.go:484-522 | the reference value, aliases in progress and merged fields as before, calls within the node's cost; an error other than "excessive" means the node has no value, it is the first one in decode order, and the calls made are those of the reference list; "excessive" comes exactly at the first call on that list that fails the test |
| `Decoder.Decoding.UnmarshalAlias` | go-yaml/decode.go:533-544 | the same of an alias, which costs nothing outside aliases; "contains itself" is reported only of a real cycle |
| `Decoder.Decoding.UnmarshalSequence` | go-yaml/decode.go:729-765 | the list of the items that decode |
| `Decoder.Decoding.UnmarshalMapping` | go-yaml/decode.go:767-862 | the map of the reference semantics, own keys first, then the merge; a value passed over leaves a null if it is tagged so and its key is unset |
| `Decoder.Decoding.CollectKeys` | go-yaml/decode.go:977-989 | all keys of the parent are taken before any source is read; an error is the first among them |
| `Decoder.Decoding.Merge` | go-yaml/decode.go:977-1014 | the map afterwards is that of the mapping with all its sources; merged fields are cleared again; an error is the first of keys and sources |
| `Decoder.Decoding.MergeSources` | go-yaml/decode.go:990-1011 | one source, or each of a sequence in turn, adds its bindings of keys not yet taken; an error is the first among them, values of taken keys left out |
| `Decoder.Decoding.MergeInto` | go-yaml/decode.go:810-862 | a source adds its own keys that are not taken, then its own merges |
| `Decoder.Decode` | go-yaml/decode.go:484-544 | success gives the reference value within max(1000, 100 N) calls on N merge-free nodes and rules out cycles; "excessive" is reported if and only if the reference list of calls has a prefix that fails the test, so never within 1000 calls; every other document ends with its first error, on tidy documents none or a cycle, and on tidy merge-free ones "contains itself" is reported if and only if some alias is met below its own target; a tidy acyclic document of at most 1000 expanded nodes decodes, in one call each |
| `YamlCycles.CycleBehindBadScalar` | go-yaml/decode.go:484-544 | an input that contains itself and whose first error is a scalar that does not resolve |
| `YamlCycles.OverriddenCycleIsHarmless` | go-yaml/decode.go:812-840 | a tidy input with a merge that contains itself and has no error, because its own key overrides the value with the cycle |
| `YamlMerge.Precedence` | go-yaml/decode.go:767-862 | for every key of a decoded map: its last own binding, else nothing if claimed, else its first binding among the sources |
| `YamlMerge.FirstBindingWins` | go-yaml/decode.go:977-1014 | the first binding in the order own keys, then sources with their merges, for a key with at most one own binding that is not the merge key's own text |
| `YamlMerge.FirstBindingByKeys` | go-yaml/decode.go:977-1014 | given the keys alone, the first binding wins whatever the values if and only if the key has at most one own binding and no source binds what only the merge key claims |
| `YamlMerge.FirstBindingExactly` | go-yaml/decode.go:977-1014 | key by key and with the values given, the condition under which the first binding wins, both ways |
| `YamlMerge.LaterOwnKeyWins` | go-yaml/decode.go:767-862 | an input on which the later of two equal own keys wins |
| `YamlMerge.QuotedMergeKeyIsLost` | go-yaml/decode.go:977-1014 | an input on which a source's quoted merge key is dropped |
| `NodeEvents.ScalarRoundTrip` | go-yaml/encode.go:441-457 | the event written for a parsed scalar parses to the normal form of that scalar |
| `NodeEvents.TagSurvives` | go-yaml/encode.go:441-457 | of a scalar made by hand, text and anchor come back; its tag does if and only if it is explicit or not what the text resolves to, or else it is `!!str` or the text is written bare, a `<<` only with the merge tag |
| `NodeEvents.CollectionTag` | go-yaml/encode.go:457-468 | the tag of a collection, explicit or implied, survives |
| `NodeEvents.RoundTrip` | go-yaml/encode.go:432-577 | encoding a parsed node and parsing again gives its normal form, the same identities and anchors, and leaves exactly what followed |
| `NodeEvents.NormKeeps` | go-yaml/encode.go:542-572 | the normal form keeps kinds, values, tags, anchors, alias targets and children if and only if no plain untagged text with a line break has a tag other than `!!str` |
| `NodeEvents.ParseEncodeParse` | go-yaml/decode.go:147-308 | for such trees the round trip restores the tree and reads all events |
| `NodeEvents.EncodeIsNode` | go-yaml/encode.go:471-575 | the events of any tree are one node of the emitter's grammar |
| `NodeReading.ParseReads` | go-yaml/decode.go:140-308 | a parsed tree in preorder and the events taken, ends aside, go together one by one: tag, value, anchor, quoting and flow are those of the event, an untagged quoted scalar is `!!str`, an untagged bare one the merge key or what its text resolves to, the identity is the place, and an alias stands for the last node before it with its anchor |
| `NodeReading.ParsesExactly` | go-yaml/decode.go:147-308 | parsing succeeds if and only if the events begin with a node of the grammar in which every alias has such a node |
| `NodeCoder.Parser.Parse` | go-yaml/decode.go:147-252 | the events taken spell the node in this sense, the anchor table holds the last node of each anchor, and nothing is returned exactly if the events begin with no node or an anchor is unknown |
| `NodeCoder.Parser.Items` | go-yaml/decode.go:254-268 | the loop collects the items up to the sequence end |
| `NodeCoder.Parser.Pairs` | go-yaml/decode.go:270-308 | the loop collects key and value pairs up to the mapping end |
| `NodeCoder.Encoder.ChooseTag` | go-yaml/encode.go:439-470 | the tag kept and the need for quotes are those of the encoding function |
| `NodeCoder.Encoder.Node` | go-yaml/encode.go:432-577 | exactly the events of the node are appended to the output |
| `NodeCoder.Reencode` | go-yaml/encode.go:432-577 | parse, encode, parse: the output is in the grammar, the second parse succeeds, and the trees agree exactly under the condition of NormKeeps |
| `SyntaxTree.WithoutShaped` | blackfriday/node.go:155-169 | a forest stays one when a node leaves its list, and the node is in no list then |
| `SyntaxTree.AttachedShaped` | blackfriday/node.go:173-200 | a forest stays one when an orphan is inserted that the new parent is not below |
| `SyntaxTree.NoCycles` | blackfriday/node.go:155-200 | no node is below its own child |
| `SyntaxTree.CutIsWithout` | blackfriday/node.go:155-169 | the pointer changes of Unlink spell the child lists without the node |
| `SyntaxTree.PutIsAttached` | blackfriday/node.go:173-200 | the pointer changes of an insertion spell the child lists with the node between its new neighbours |
| `SyntaxTree.PutIsForestExactly` | blackfriday/node.go:173-200 | after an insertion the pointers spell some forest if and only if the new parent is not the moved node or below it |
| `SyntaxTree.Node.Unlink` | blackfriday/node.go:155-169 | the tree stays well formed and the node, with its subtree, is removed from its parent's list |
| `SyntaxTree.Node.AppendChild` | blackfriday/node.go:173-184 | well formed, and the child is removed from where it was and appended |
| `SyntaxTree.Node.InsertBefore` | blackfriday/node.go:188-200 | well formed, and the sibling is removed from where it was and inserted just before this node |
| `SyntaxTree.Node.LeafKinds` | blackfriday/node.go:203-238 | the kinds that cannot have children |
| `TreeWalk.Walker.Next` | blackfriday/node.go:317-336 | one pointer move is one step along the path from the root |
| `TreeWalk.VisitAndMove` | blackfriday/node.go:287-301 | a visit and the move after it leave exactly the rest of the recursive traversal, whatever the visitor answers |
| `TreeWalk.Walk` | blackfriday/node.go:287-301 | the walk ends and makes exactly the visits of the recursive traversal |
| `TreeWalk.WalkStaysInside` | blackfriday/node.go:287-336 | every visit is to a node of the subtree, and none is made twice |
| `TreeWalk.SiblingsApart` | blackfriday/node.go:155-200 | the subtrees of two children share no node |
| `TreeWalk.PlainWalk` | blackfriday/node.go:287-336 | a visitor that always goes on sees containers on entry and exit around their children, and leaves once |
| `TreeVisits.SeenTwiceExactly` | blackfriday/node.go:280-336 | in every walk that comes to its end a node entered is seen on exit if and only if it is a container and the visitor answered GoToNext on its entry |
| `TreeVisits.AllTwiceExactly` | blackfriday/node.go:280-336 | such a walk sees every node of its subtree twice if and only if all of them are containers and the visitor asks for the children of each |
| `TreeVisits.TraverseEnters` | blackfriday/node.go:280-336 | whatever is seen on exit was entered before |
| `TreeVisits.EndsAtTerminate` | blackfriday/node.go:287-301 | a walk ends early exactly at the first visit that is answered Terminate |
| `TreeVisits.LeafSeenOnce` | blackfriday/node.go:280-336 | a tree of one leaf, seen once |
| `TreeVisits.SkippedSeenOnce` | blackfriday/node.go:280-336 | a tree of one container, seen once because its children are skipped |
| `HeadingIds.GivenIsFresh` | blackfriday/html.go:251-268 | the search ends with an ID that is unused and extends the one asked for, which it is if that was free |
| `HeadingIds.RepeatsAreNumbered` | blackfriday/html.go:251-268 | one ID asked for over and over is given as id, id-1, id-2 and so on |
| `HeadingIds.Renderer.EnsureUniqueHeadingId` | blackfriday/html.go:251-268 | that ID is given, the keys grow by it alone, and the counters are those of the search |
| `HeadingIds.GiveAll` | blackfriday/html.go:251-268 | over any requests the IDs are pairwise distinct, each extends its request, and the map's keys are exactly they |
| `HtmlEscape.NodeIsEntity` | blackfriday/esc.go:45-65 | an entity is found exactly where the name run ends in a semicolon and the table has it, with its end |
| `HtmlEscape.EntityExactly` | blackfriday/esc.go:45-65 | the front of a text is an entity if and only if it is a table entry from an ampersand to a semicolon |
| `HtmlEscape.EscapeEntities` | blackfriday/esc.go:23-42 | the loop writes the escaped text, with no slice out of range |
| `HtmlEscape.EscapedIsClean` | blackfriday/esc.go:15-42 | the output has no raw `<`, `>` or `"`, and every `&` starts a table entity |
| `HtmlEscape.CleanEverywhere` | blackfriday/esc.go:45-65 | being clean is a property of every place of the text |
| `HtmlEscape.EscapeIdempotent` | blackfriday/esc.go:15-17 | escapeHTML is idempotent and leaves alone exactly the clean texts |
| `HtmlEscape.EscapeShows` | blackfriday/esc.go:15-21 | with entities read as what they mean, escapeHTML changes nothing and escapeAllHTML shows the input |
| `HtmlEscape.UnescapeAll` | blackfriday/esc.go:19-21 | replacing the four escapes inverts escapeAllHTML on every text |
| `EditDistance.Close` | cobra/cobra.go:206-218 | one more character changes the recurrence by at most one, so skipping the minimum loses nothing |
| `EditDistance.NoneCheaper` | cobra/cobra.go:192-223 | no edit script is cheaper than the recurrence |
| `EditDistance.LevIsDistance` | cobra/cobra.go:192-223 | the recurrence is the cost of a cheapest script |
| `EditDistance.Ld` | cobra/cobra.go:192-223 | the table gives the cost of a cheapest script between the strings, lower-cased if asked |
| `EditDistance.ZeroOnlyOnEqual` | cobra/cobra.go:192-223 | zero exactly on equal strings |
| `EditDistance.Symmetric` | cobra/cobra.go:192-223 | symmetric |
| `EditDistance.Triangle` | cobra/cobra.go:192-223 | the triangle inequality, by composing scripts |
| `CommandLookup.StripFlags` | cobra/command.go:696-731 | the words outside flags, flag values and anything after `--`, in order |
| `CommandLookup.ArgsMinusFirstX` | cobra/command.go:736-771 | the arguments without the first place, outside flags and values, that holds the word |
| `CommandLookup.ScannersAgree` | cobra/command.go:696-771 | the word starts the stripped arguments if and only if it stands at the first word's place, and that is the place removed |
| `CommandLookup.FindNext` | cobra/command.go:820-839 | the first subcommand of that name or alias, else the only one the word abbreviates, else none |
| `CommandLookup.NextPicks` | cobra/command.go:820-839 | the same of the lookup as a function |
| `CommandLaws.NameOrAliasPicks` | cobra/command.go:820-827 | the first subcommand whose name or one of whose aliases is the word, whatever else the word shortens |
| `CommandLaws.AbbreviationPicks` | cobra/command.go:828-836 | without one, and where prefixes count, the only one with a name or alias that begins with the word |
| `CommandLaws.NothingPicked` | cobra/command.go:828-839 | where they do not count, or there are none or two such, none |
| `CommandLookup.Find` | cobra/command.go:780-801 | the search ends with the command and arguments of the search function |
| `CommandLookup.FindTakesOnlyWords` | cobra/command.go:780-801 | the arguments returned are the input in order without the matched words; each word picks the next command; the search stops only without a word or without a match |
| `CommandLaws.LongFlag` | cobra/command.go:713-725 | `--name` hides the argument after it if and only if it needs a value |
| `CommandLaws.ShortFlag` | cobra/command.go:717-725 | so does `-x` |
| `CommandLaws.FlagWithValue` | cobra/command.go:713-727 | a flag with an equals sign never does |
| `CommandLaws.FlagCluster` | cobra/command.go:717-727 | nor does a cluster of short flags |
| `CommandLaws.NoFlag` | cobra/command.go:726-728 | nor a lone dash or the empty argument |
| `CommandLaws.WordFirst` | cobra/command.go:706-728 | a word that nothing hides comes first; after a double dash there are none |
| `CommandLaws.FindsPast` | cobra/command.go:780-801 | a word after a flag that does not hide it picks the subcommand, which is searched with the other arguments |
| `CommandLaws.FindsAfterFlag` | cobra/command.go:780-801 | so with `--name=value`, and with `--name` if it needs no value; if it needs one and no other word follows, the search stays where it is |
| `DeviceFilter.ChooseDirectory` | discover/runner.go:413-436 | the first directory if all support the same devices, else the last |
| `DeviceFilter.KeepsNewestCovering` | discover/runner.go:406-436 | the newest directory that supports all devices is kept if and only if all are alike or it is the last |
| `DeviceFilter.OldestIsKept` | discover/runner.go:406-436 | an input on which the oldest is kept although the middle one supports all devices |
| `DeviceFilter.FilterLibrary` | discover/runner.go:409-452 | exactly the entries of other directories for devices the kept one has are marked |
| `DeviceFilter.FilterOverlapByLibrary` | discover/runner.go:406-454 | the same over all libraries, in any order |
| `DeviceFilter.Coverage` | discover/runner.go:406-454 | every supported device survives in some directory of its library; where the kept directory has it, there and nowhere else |
| `DeviceRenumber.DeleteAndRenumber` | discover/runner.go:172-193 | deletion in place is the filter of the unmarked devices, renumbered by rank within their library |
| `DeviceRenumber.SurvivorsAreUnmarked` | discover/runner.go:174-179 | the survivors are the unmarked devices, each once and in order |
| `DeviceRenumber.RenumberedIdsDistinct` | discover/runner.go:180-192 | afterwards library and ID identify a device if and only if the non-numeric IDs did before |
| `DeviceRenumber.FiltersGoBy` | discover/runner.go:184-190 | a numeric ID is kept as the filter ID, or the token of the visible devices at that place where there is one; a filter ID given before is looked up alike; nothing else changes |
| `DeviceRenumber.RanksCountUp` | discover/runner.go:180-192 | numeric IDs count up from zero within each library |
| `DeviceDedup.DropDuplicates` | discover/runner.go:196-237 | the double loop is the de-duplication function; if being the same device is an equivalence, one device per class is left |
| `DeviceDedup.ApartExactly` | discover/runner.go:196-237 | however some devices are listed the survivors are pairwise different, if and only if no device passed over as different from one is like the duplicate that replaces that one |
| `DeviceDedup.CoveredExactly` | discover/runner.go:196-237 | however they are listed every device is like some survivor, if and only if none dropped as like one differs from the duplicate that replaces that one |
| `DeviceDedup.EquivalenceSuffices` | ml/device.go:451-475 | neither happens where being the same device is an equivalence |
| `DeviceDedup.DedupOnePerClass` | discover/runner.go:196-237 | then survivors come from the input, are pairwise different devices, and every input device has one |
| `DeviceDedup.DedupPrefers` | discover/runner.go:203-214 | a survivor is of a preferred library exactly if its class has such a device |
| `DeviceDedup.FrontStays` | discover/runner.go:199-234 | the device in front is kept if it is of a preferred library or no duplicate of another library comes |
| `DeviceDedup.FirstDuplicateTakesOver` | discover/runner.go:199-234 | otherwise the first such duplicate takes its place |
| `DeviceDedup.PciIdsDecide` | ml/device.go:451-475 | on devices with PCI IDs the comparison is an equivalence, that of folded IDs, and the library tells backend from duplicate |
| `DeviceDedup.TwinsDecide` | ml/device.go:451-499 | where a PCI ID is missing, duplicates are exactly a Vulkan and a CUDA or ROCm device with the same description and similar memory, and besides only devices without PCI IDs that share library and ID are related |
| `DeviceDedup.RelatedPairIsLeft` | discover/runner.go:196-237 | an input, with a Vulkan device without PCI ID, that leaves two devices with one PCI ID |
| `DeviceDedup.SecondVulkanIsLeft` | discover/runner.go:196-237 | an input, with two Vulkan devices like one CUDA device, that leaves one of them beside it |
| `DeviceDedup.ViewIsStranded` | discover/runner.go:196-237 | an input from which a device is dropped that differs from the one left |

## Left out

- Comments in the YAML emitter, parser and encoder, and the two emitter states only comments reach; all comment fields are taken as empty.
- The writers of literal and folded block scalars; `ScalarStyle.EmitScalar` hands over to them.
- PlainScalar.WritePlain: values with a line break, for which the writer has a branch but which the style choice never gives it.
- TextWriter.Writer.constructor: the output encoding is always UTF-8, so no byte order mark is written.
- Emitter.Machine.StartStream: width and line break defaults are those of `TextWriter`, not of the machine.
- Emitter.Machine.StartDocument: directives and the open-ended marker before them.
- Emitter.Machine.EndDocument: the flush, which loses nothing by `TextWriter.Writer.Flush`, and the reset of tag directives.
- YamlGraph.CostAtMostDouble: mappings whose keys are collections, whose keys may themselves hold merges.
- The text of indicators, anchors, tags and directives that the emitter writes around scalars; `Emitter` models its control, `ScalarStyle` the scalars.
- ScalarStyle.EmitScalar: says nothing about reading back an empty plain scalar, which is no text at all.
- `ScalarScanner` is stricter than the scanner in two points, so it accepts less: content at column 0 of a continuation line, and plain text that begins like a document marker.
- Decoding into typed Go values, structs, custom unmarshalers, base64, times and durations; the model decodes into untyped values.
- Decoder.Decode: the type errors that the decoder collects without stopping appear only as the `false` they cause; mapping keys that are collections tagged as strings are not modelled.
- Decoder.Decode: rules out cycles after success only for merge-free documents; with merges that is false.
- AliasRatio.TooManyExactly: ratios are exact; the source divides and compares in float64.
- Decoder.Decoding.UnmarshalAlias: an alias without a target, which the parser never makes, is an error where it is met; the source would dereference nil one call later.
- NodeCoder.Encoder.Node: document nodes, zero nodes and invalid UTF-8.
- NodeCoder.Parser.Parse: document nodes and the end of the stream; event sequences that no YAML parser emits, such as a document inside a sequence.
- TreeWalk.Walk: the visitor does not edit the tree.
- The recorded name a command was called as (`commandCalledAs`), and `Traverse`.
- CommandLookup.Find: the argument validation error that the source returns beside the command; flag lookups are sets of names that need no value, and parsing of flags is pflag's.
- CommandLookup.StripFlags: the characters of a string stand for its bytes, in which the source measures a short flag.
- The order in which `filterOverlapByLibrary` sorts directories is a parameter; the statements hold for every order and speak of its first and last element.
- DeviceRenumber.RenumberedIdsDistinct: printed numbers are assumed to be read as numbers and to be distinct.
- The probing of devices, concurrency of the validation pass, and logging in GPU discovery.
- The Markdown block and inline scanners, the renderer's output apart from headings and escaping, and the table of contents.
- HtmlEscape.EscapeEntities: the entity table is a parameter with the stated shape; its 2,000 entries are not listed.
- Shell completion, help and usage text, the API client, server, authentication and model code.
