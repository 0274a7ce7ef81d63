# decision-model-sdk-go: a model of its protocols and codecs

This Dafny project models the parts of the Go SDK that are hardest to get
right, and proves what their comments, documentation and tests promise. Paths
below are those of the Go repository.

What is modelled, and where:

- **The response decoder** (`internal/codec`). `Json` is a JSON tree and its
  preorder events; `TreeDecode` reads a body off its tree, the last member of
  a name winning at every level, and is the reference. `Machine` is the
  visitor as a pure transition system, `Visitor` the visitor with its fields
  updated in place, proved against it. `VisitorProof`, `DecodeProof` and
  `Nesting` follow a run over a whole tree, `Prefix` one over the part of a
  tree that a broken body delivers; `Folds` folds legends and probabilities;
  `Lazy` is the second pass; `Parser` says what is assumed of the JSON parser;
  `Finish` and `Decoder` put them together. The main result is
  `Decoder.DecodeSystemOne`: for every body the streaming decode and the
  reference give the same answer or the same first failing path. `DecodeLaws`
  says, with every name, order, bound and reason written out, what both then
  do, and `Numerals` which texts spell which numbers. `Control` and
  `Cut` are the fast byte tests beside it; that the cut traversal decides
  nothing else rests on the quotes that `cutPoint` counts.
- **The cold-start gate and the header-write token** (`internal/h2gate`).
  `Gate` and `Token` are labelled steps of any number of requests, and
  theorems over all their runs; `GateRoutes` and `TokenRoutes` say of two
  states alone where each request may go and what changes with it, and that
  every such route is open; `GateTransport` holds the gate's critical sections
  on mutable objects, each proved to be the step of that name.
- **Pooled request bodies** (`internal/codec/scratch.go`) in `Scratch`, with
  the packed state word as one number; `ScratchText` reads off a run what its
  calls wrote, and proves that its readers deliver that.
- **The adapter's lifecycle** (`adapter/adapter.go`): `Adapter` is the
  cleanup on the adapter's own fields, `Lifecycle` any interleaving of calls
  and Closes, and `LifecycleRoutes` where each may go, of the states alone.
- **Parsers and printers**: the struct-tag grammar (`Tag`, `TagRoundTrip`,
  `TagWellFormed`, `TagSays`), the escaping of untrusted text (`SafeText`,
  `Characters`), field paths (`PathText`, `SchemaPaths`), the Report
  (`JsonTree`, `Embeddable`, `EmbedLimits`, `Report`, `ReportRoundTrip`,
  `ReportWritten`, `ReportAccepts`, `ReportLibrary`) and the repair of invalid
  UTF-8 (`Utf8`, `Utf8Repair`).
- **Arithmetic and bounds**: the latency of a Report in binary64 (`Latency`,
  `LatencyBound`, `LatencyRange`), the retry loops (`Evaluate`), the body reader
  (`ReadBody`).

A Go string is a Dafny string whose characters are bytes. Go's integers are
unbounded here except where their width matters, which is written out:
levels, token counts, the state word, the Report's integers.

Where the code and its documentation disagree, the model follows the code:

- `Stats` documents SettleHolds as a part of FirstHolds
  (`internal/h2gate/transport.go:85-90`). A request that is handed a second
  unsettled connection counts a second settle hold and no first hold, so two
  settle holds can stand beside one first hold (`Token.SettleHoldsCanExceed`).
  Over every run SettleHolds is within FirstHolds exactly when the settle holds
  of requests that had engaged FirstHold before are no more than the first
  holds on connections of a request's own (`Token.HoldsBalance`).
- A field path is documented as cut at 320 characters (`text.go:24-29`). Each
  cut adds an ellipsis that the count of the room does not hold, so a path can
  take 322 (`PathText.CapExceeded`), never more, and at most 320 exactly when
  what fills it leaves room for the last ellipsis (`PathText.PathCap`); where
  the SDK's own text is the first part that does not fit, that is when the
  parts before it take less than 320 (`PathText.CapAtOwn`).
- The path's type is documented to write nothing after the ellipsis
  (`text.go:54-57`). A name that the path's limit cuts before a wide escape
  leaves the path open (`PathText.TextAfterCut`); it ends the path exactly when
  what is kept of it fills the room (`PathText.CutNameEnds`). No path of the
  response schema comes near either limit (`PathText.SchemaPathFits`,
  `SchemaPaths.PrintedWhole`, `SchemaPaths.ModelsPrintedWhole`).
- The leaders' sum (`Gate.CountersAgree`) holds up to the adds that requests
  make after they leave the lock, since the counters are added to outside it;
  the lemma names them.

## Model

| member | source | states |
|---|---|---|
| `Decoder.DecodeSystemOne` | internal/codec/decode.go:330-397 | for every body: of one the parser accepts, the streaming decode with its cut traversal, folds and lazy pass gives the same result or the same first failing path and reason as the recursive last-member-wins reading of the tree; of one it refuses, trailing data included, the failure at the root that comes first in the body; the unknown kinds it reports are those before the first type failure |
| `Decoder.DecodeModels` | internal/codec/decode.go:353-407 | the same for a model list |
| `DecodeLaws.SystemOneUsage` | internal/codec/visitor.go:607-616 | a System One body decodes to the counts that the last usage member spells, absent or null counting nothing; a usage that is missing, no object or holds a member that is no count is refused there, the input first, once types and model are right |
| `DecodeLaws.TokensCounted` | internal/codec/visitor.go:607-616 | a count written as the decimal numeral of n decodes to n, which is then below 2^64, and minus zero to zero |
| `DecodeLaws.TokensDecode` | internal/codec/visitor.go:607-616 | a body that nothing but its usage member can refuse decodes when its counts are the numerals of any two numbers below 2^64, to those numbers |
| `DecodeLaws.BadCountRefused` | internal/codec/visitor.go:607-616 | a numeral of 2^64 or more, and a number with another sign, a point or an exponent, is refused as no count at usage.input_tokens |
| `DecodeLaws.OutcomeRule` | internal/codec/commit.go:39-82 | what an answer comes to, with names, order and reasons written out: refused for its type, left out when its type is not noul, choice or score, refused for the first member, as the schema lists them, that is absent, mistyped, or whose first bad spelling is no level or ends in a bad value, and otherwise holding its members' numbers, texts and folds |
| `DecodeLaws.TopRefusals` | internal/codec/decode.go:649-664 | the paths and reasons of a missing or mistyped model, answers or models member |
| `DecodeLaws.CardRule` | internal/codec/commit.go:409-423 | a model card is refused for its name, its description or its release date, in that order, with path and reason, and is otherwise those three texts |
| `DecodeLaws.NestingRule` | internal/codec/visitor.go:334-341 | a body that nests more than 4096 containers is refused, and none is refused for its nesting that does not |
| `DecodeLaws.SkippedIs` | internal/codec/decode.go:637-648 | of the answers of unknown types the first eight are named and all are counted |
| `Numerals.LevelIs` | internal/codec/commit.go:346-366 | the keys that read as level n are exactly the numerals of n, zeros before them or not, after a plus or not, for n below 2^32 |
| `Decoder.Traverse` | internal/codec/decode.go:434-481 | traversing the body cut before its last brace changes no answer, whatever the body: the outcome is the whole traversal's, and the visitor then knows what the root's members say |
| `Decoder.TraverseCut` | internal/codec/decode.go:440-481 | over the body cut where cutPoint says, a decision that is taken is the decision of the whole traversal and the trailing-data check |
| `Decoder.TraverseWhole` | internal/codec/decode.go:483-496 | the whole traversal fails with the first failure of the delivered text, nesting or root, then with the parser's or the trailing-data failure, or leaves the visitor knowing the members |
| `Parser.CutReadsAll` | internal/codec/decode.go:453-521 | a traversal of a body cut where cutPoint says that ends with errCut after whole members of the root has read a body that is not broken, up to its root's end, with only whitespace after that |
| `Parser.CutIsClean` | internal/codec/decode.go:498-548 | what cutPoint accepts is outside strings by the lexer, right after a container or a string, with no escape cut |
| `Parser.BrokenCut` | internal/codec/decode.go:453-521 | a body that is refused somewhere never comes to its last brace with the root's members whole |
| `Parser.ParsersExist` | internal/codec/decode.go:434-496 | what is assumed of the parser can be met, by a body whose cut traversal decides and by one that is not JSON |
| `Prefix.PrefixScan` | internal/codec/visitor.go:311-424 | however far a tree's events are read, the visitor stops at the first event whose text, nesting or place at the root is refused, for that reason, and at no other |
| `Decoder.WholeRun` | internal/codec/visitor.go:334-742 | the run over a tree's events fails exactly as the tree's scan does, at its first failure in preorder, or ends knowing every member, with peak the tree's height |
| `DecodeProof.SystemOneRun` | internal/codec/visitor.go:334-742 | over the events of any tree the transition system fails in the JSON layer with the first failure of the tree in preorder, or ends with model, usage and the answer set that the last members of the tree say |
| `DecodeProof.ModelsRun` | internal/codec/visitor.go:409-440 | the same for a model list: the cards of the last models member, or its failure |
| `DecodeProof.RootMembers` | internal/codec/visitor.go:671-742 | the members of the root, in order, leave what the last member of each name says; an earlier one leaves no trace, whatever its kind was |
| `DecodeProof.AnswersMembers` | internal/codec/commit.go:370-404 | an answers object leaves one entry per name, at the place of its first appearance, with what the last value of that name means |
| `DecodeProof.AnswerObject` | internal/codec/visitor.go:346-424 | one answer object's events leave the outcome that its members, last one of a name winning, have: the known answer, the unknown kind, or the first failing member in schema order |
| `DecodeProof.CardElems` | internal/codec/commit.go:409-423 | the list's elements leave the cards and the first failing card of the tree |
| `VisitorProof.OutcomeMatches` | internal/codec/commit.go:39-82 | committing the scratch that an answer's members filled gives the tree's outcome for that answer |
| `VisitorProof.AnswerMembers` | internal/codec/visitor.go:445-599 | each member of an answer overwrites what an earlier member of its name left, and every other member is kept |
| `VisitorProof.PlainValue` | internal/codec/visitor.go:346-424 | a value in a slot that does not read its kind, at any nesting and size, changes the visitor only by marking the slot wrong: none of its events reaches the state |
| `VisitorProof.IgnoredValue` | internal/codec/visitor.go:346-424 | a value nobody reads leaves every field but peak as it was and fails only for its text or its nesting |
| `Nesting.RunDepth` | internal/codec/visitor.go:346-424 | along every run sp + ign is the nesting depth of the events read, and peak the deepest nesting met |
| `Nesting.PeakIsHeight` | internal/codec/visitor.go:346-424 | a body read to its end leaves no open container and the height of its tree in peak |
| `Nesting.PrefixReasons` | internal/codec/visitor.go:334-341 | no prefix of any tree's events can make the visitor fail for its stack's bound: errReadDepth, and a pop of an empty stack, are unreachable |
| `Nesting.BetweenIsBoundary` | internal/codec/visitor.go:431-433 | betweenRootMembers holds at an event exactly when the events read are the opening brace and a whole number of the root's members |
| `Nesting.AfterKey` | internal/codec/visitor.go:671-742 | right after a key of the root the visitor is not between members |
| `Nesting.CutAgrees` | internal/codec/decode.go:467-481 | handing the root's end to a run that stopped before it decides what the whole run decides |
| `Machine.RunConcat` | internal/codec/visitor.go:334-742 | a run over two event lists is the run over the first followed by the run over the second, unless the first fails |
| `VisitorClass.Visitor.Reset` | internal/codec/visitor.go:275-310 | whatever the last decode left, a reset visitor stands before the root with no member read |
| `VisitorClass.Visitor.CheckString` | internal/codec/visitor.go:317-332 | a string is refused exactly when it is not valid UTF-8, or holds a control character while some string of the body holds one unescaped; the body is scanned at most once |
| `VisitorClass.Visitor.Find` | internal/codec/commit.go:391-404 | the position of a name's entry, or -1, whether the set is scanned or hashed |
| `VisitorClass.Visitor.Put` | internal/codec/commit.go:370-388 | a repeated name keeps its position and takes the new value, a new one goes to the end, across the change from scan to hash |
| `VisitorClass.Visitor.Push` | internal/codec/visitor.go:334-341 | the container goes on the fixed stack, or the bound is reported and nothing changes |
| `VisitorClass.Visitor.Begin` | internal/codec/visitor.go:346-400 | a container starting in the current slot is read, marked as a wrong kind and skipped, or refused past the nesting bound, with the scratch of what it opens started anew |
| `VisitorClass.Visitor.End` | internal/codec/visitor.go:403-424 | the innermost container ends: a skipped one is counted down and settles its slot at the last level, a read one commits its answer or card |
| `VisitorClass.Visitor.NextCard` | internal/codec/visitor.go:436-440 | inside a model list the next element's slot is a card's |
| `VisitorClass.Visitor.WrongKind` | internal/codec/visitor.go:445-507 | a value of the wrong kind in any slot marks that member, and only it, wrong; a legend level takes a container |
| `VisitorClass.Visitor.Scalar` | internal/codec/visitor.go:511-520 | a scalar outside the root object is refused at the root and ignored in skipped containers |
| `VisitorClass.Visitor.Assign` | internal/codec/visitor.go:525-599 | a string or number in any slot is stored where that slot says, clears the member's earlier failure, or is of the wrong kind |
| `VisitorClass.Visitor.OnNull` | internal/codec/visitor.go:641-653 | null is an absent token count and a wrong kind everywhere else |
| `VisitorClass.Visitor.OnKey` | internal/codec/visitor.go:671-742 | a key opens the slot its container and mode give it; a name outside the schema opens none |
| `VisitorClass.Visitor.CheckMembers` | internal/codec/commit.go:39-82 | the members an answer's kind needs are checked in schema order until one fails; otherwise the answer holds the folded legend and probabilities |
| `VisitorClass.Visitor.CommitAnswer` | internal/codec/commit.go:39-82 | the scratch becomes the entry of its name: a known answer, an unknown kind or its first failure |
| `VisitorClass.Visitor.CommitCard` | internal/codec/commit.go:409-423 | a card joins the list, and the list's failure is the first failing card's first failing member |
| `VisitorClass.Visitor.OnEvent` | internal/codec/visitor.go:641-742 | one parser event does to the visitor's fields what the transition system does, with the same error |
| `VisitorClass.Visitor.Preorder` | internal/codec/visitor.go:334-742 | the events of a body, in order until one is refused, do what the transition system's run does |
| `VisitorClass.ValidString` | internal/codec/validate.go:34-51 | true exactly for well-formed UTF-8 (table 3-7 of the Unicode Standard) without a byte below 0x20 |
| `Folds.FoldPairs` | internal/codec/commit.go:163-332 | the scan and the hash branch give the fold of the pairs, and the failure at the first spelling, in first-position order, that is no level or whose last value is bad |
| `Folds.FoldedEntries` | internal/codec/commit.go:163-332 | a list is the fold of the pairs exactly when its keys are distinct and in the order of their first pairs, each value is that of the last pair that reads as its key, and every readable key is there |
| `Folds.FirstFailureAgrees` | internal/codec/commit.go:100-147 | firstFailure finds the spelling rule's position whenever no level was met under two spellings |
| `Folds.FirstFailure` | internal/codec/commit.go:100-111 | the first unreadable key or the first entry with a bad last value, whichever comes first |
| `Folds.SpellingFailure` | internal/codec/commit.go:123-147 | the first position, in first-position order of the spellings, whose spelling is unreadable or has a bad last value |
| `Folds.FirstFailingIs` | internal/codec/commit.go:113-122 | the failing position is the only one that fails with none before it |
| `Folds.FindEntry` | internal/codec/commit.go:163-227 | hashed and scanned lookups of a folded level agree |
| `Folds.ParseLevel` | internal/codec/commit.go:346-366 | a key is a level exactly when it is an optional + and digits of at most 2^32 - 1, although the loop stops at the first prefix past that |
| `Lazy.Pass.FindBytes` | internal/codec/lazy.go:39-137 | for every structured level that the visitor kept, the pass leaves the text of the last member that spells it, in the last legend of the last member of that answer's name in the last answers; it never fails, so errLazyMissed is unreachable |
| `Lazy.FoldResolves` | internal/codec/lazy.go:26-38 | folding a legend with the levels' bytes is folding it with marks and then giving each marked level the bytes of its last member, through levels superseded from text to structure and back and levels spelled several ways |
| `Lazy.Pass.FindNodes` | internal/codec/lazy.go:58-70 | each marked answer's node is the last member of its name |
| `Lazy.Pass.ReadMembers` | internal/codec/lazy.go:91-129 | after a legend's members every structured level holds the bytes of the last member that spells it |
| `Lazy.Pass.ReadLegend` | internal/codec/lazy.go:87-134 | a level is missed exactly when no member spells it |
| `Lazy.Pass.LastMember` | internal/codec/lazy.go:47-57 | the last member of a name, and an error exactly for a value that is no object |
| `Finish.FinishSystemOne` | internal/codec/decode.go:634-690 | type failures, then model, usage and answers, then the answers in first-appearance order: the first of these in the tree is reported, or the result the tree has, structured levels with their bytes |
| `Finish.FinishModels` | internal/codec/decode.go:411-433 | the models failure of the tree, or its cards |
| `Finish.TypePass` | internal/codec/decode.go:637-648 | the first type failure, and the unknown kinds before it, the first eight by name and all of them counted |
| `Finish.TopFailureOf` | internal/codec/decode.go:649-664 | the first top-level failure in the order model, usage, answers, as the last members have it |
| `Finish.EntryPass` | internal/codec/decode.go:665-675 | the first failing answer; when there is none, how many are known and whether a level waits for bytes |
| `Finish.BytesFound` | internal/codec/decode.go:676-682 | the bytes the pass found are the bytes the tree gives the answer's levels |
| `Finish.BuildAnswers` | internal/codec/decode.go:676-688 | the known answers of the tree in order, resolved, and no failure |
| `Control.HasControlByte` | internal/codec/control.go:39-60 | true exactly when some byte is below 0x20, words and tail together |
| `Control.WordTestExact` | internal/codec/control.go:15-60 | the word test is exact for every 64-bit word, borrows between its bytes included |
| `Control.ControlInString` | internal/codec/control.go:66-80 | true exactly when a byte-by-byte lexer meets a byte below 0x20 inside a string (section 7 of RFC 8259) |
| `Control.RawControlInString` | internal/codec/control.go:85-87 | skipping the scan when no byte is below 0x20 changes no answer |
| `Cut.CutPoint` | internal/codec/decode.go:522-548 | the index of the last byte other than whitespace when it is a brace and the body before it passes every condition of a cut, -1 exactly when it does not |
| `Cut.CutOutsideStrings` | internal/codec/decode.go:498-548 | a cut that is accepted never splits a string |
| `Cut.CutParity` | internal/codec/decode.go:505-548 | no cut inside a string is accepted, and no cut outside strings is refused for its quotes |
| `Cut.CutExactly` | internal/codec/decode.go:522-587 | a body may be cut exactly before a closing brace past its fourth byte, outside every string, after a brace, a closing bracket or a quote and white space, with every backslash u followed by four hexadecimal digits |
| `Cut.EvenIsOutside` | internal/codec/decode.go:550-570 | quotes minus escaped quotes is even exactly when a byte-by-byte lexer stands outside every string |
| `Cut.RunIsEscaped` | internal/codec/decode.go:550-570 | the lexer is past a backslash exactly after an odd number of them |
| `Cut.EscapedQuotes` | internal/codec/decode.go:554-570 | jumping from backslash to backslash counts the quotes after an odd run of them |
| `Cut.UEscapesComplete` | internal/codec/decode.go:575-587 | true exactly when four hexadecimal digits follow every \\u of the body |
| `Cut.LastNonSpace` | internal/codec/decode.go:598-607 | the last byte other than JSON whitespace |
| `Gate.GateSafety` | internal/h2gate/transport.go:219-376 | in every reachable state only the newest generation can be pending, each channel is closed once and exactly when its generation ended, every parked waiter of a pending generation has exactly one live leader, and after a handover nobody is parked on the new generation |
| `Gate.StepKeeps` | internal/h2gate/transport.go:219-376 | every atomic step of any request keeps that, across leader failure, abandonment, panic, cancellation and bound expiry |
| `GateRoutes.RoutesFollowed` | internal/h2gate/transport.go:219-376 | over all runs, from the two states alone: every step moves one request along a route its place and its generation's outcome leave open, and changes the gate, the generations and each counter by exactly what belongs to that route; a step that moves none is an add that was due or the leader's hook |
| `GateRoutes.WokenWhere` | internal/h2gate/transport.go:253-276 | a request that leaves the select for a send finds its generation released, one that leaves with an error finds it failed, and one that leads or waits anew finds it without a leader |
| `GateRoutes.RoutesOpen` | internal/h2gate/transport.go:219-376 | every route that may be taken can be, by one action |
| `GateRoutes.LeaderDecides` | internal/h2gate/transport.go:310-356 | the leader of a pending generation can end it in each of the three ways |
| `GateRoutes.HookReleases` | internal/h2gate/transport.go:285-300 | and its hook makes the gate warm and moves nobody |
| `GateRoutes.ColdGateHolds` | internal/h2gate/transport.go:271-274 | in every reachable state a gate that is not warm has let past exactly as many requests as fell through at their wait bound |
| `Gate.ParkedIsLed` | internal/h2gate/transport.go:246-276 | a waiter of a pending generation has a live leader, and no handover is open |
| `Gate.NobodyStuck` | internal/h2gate/transport.go:253-275 | from every reachable state at most three steps of a parked request's leader and its own get it out of the select; where it goes is WokenWhere's |
| `Gate.WarmForGood` | internal/h2gate/transport.go:285-300 | no step turns a warm gate back, changes an ended generation's outcome or drops a generation |
| `Gate.CountersAgree` | internal/h2gate/transport.go:66-99 | leaders = releases + handovers + cold resets + one while a leader is in flight, up to the adds that a request still has to make; at most one release, exactly on a warm gate; failures never exceed resets and handovers |
| `Gate.AbandonHandsOver` | internal/h2gate/transport.go:363-376 | a leader that leaves waiters behind hands over a new generation on which nobody is parked |
| `GateTransport.Transport.Enter` | internal/h2gate/transport.go:219-248 | the locked entry lets through, makes the caller the leader or parks it, as one action of the gate |
| `GateTransport.Transport.BecomeLeader` | internal/h2gate/transport.go:235-243 | a leader takes the generation a handover left, or starts one on a cold gate |
| `GateTransport.Transport.ParkOn` | internal/h2gate/transport.go:246-249 | a waiter is counted on the newest generation |
| `GateTransport.Transport.Unpark` | internal/h2gate/transport.go:277-283 | leave takes one waiter off its own generation and touches no other |
| `GateTransport.Transport.ReleaseGate` | internal/h2gate/transport.go:285-300 | release warms the gate and ends the generation once; a second release changes nothing |
| `GateTransport.Transport.AbandonLocked` | internal/h2gate/transport.go:363-376 | abandonLocked ends the generation, then turns cold with no waiter or hands a new one over, and returns the waiters |
| `GateTransport.Transport.LeadResponded` | internal/h2gate/transport.go:320-327 | a leader with a response is the gate's action of that name |
| `GateTransport.Transport.LeadGone` | internal/h2gate/transport.go:310-343 | a leader that left, by a return or by a panic, resolves its generation once |
| `GateTransport.Transport.LeadFailed` | internal/h2gate/transport.go:345-356 | a failed dial fails the generation and turns the gate cold |
| `Token.TokenConserved` | internal/h2gate/transport.go:596-658 | over every interleaving the channel's length is the number of requests that took the token and have not received it back; a request that is to receive finds its own token; each returns it at most once, and only if it took it; a finished one owes nothing |
| `Token.StepConserves` | internal/h2gate/transport.go:402-750 | every hook, timer, expiry and exit of any request keeps that |
| `Token.ReceiveEnabled` | internal/h2gate/transport.go:650-658 | giveBack's receive never blocks and takes no other request's token |
| `Token.TokenComesBack` | internal/h2gate/transport.go:596-607 | the holder's own exit frees the token, whatever the others do |
| `TokenRoutes.RoutesFollowed` | internal/h2gate/transport.go:402-750 | over all runs, from the two states alone: a step changes the place and the flags of one request in a way that is open to it, and the token, the marks and each counter by exactly what goes with that |
| `TokenRoutes.RoutesOpen` | internal/h2gate/transport.go:402-750 | every such change can be made, by one action |
| `TokenRoutes.CancelledNeverGoesOut` | internal/h2gate/transport.go:487-513 | a request cancelled while it waits for the token never goes out, with it or without it |
| `TokenRoutes.ExpiriesCounted` | internal/h2gate/transport.go:498-658 | in every reachable state TokenExpiries is the number of requests that went out without the token, and HoldExpiries counts the hold bounds that gave one back |
| `TokenRoutes.BoundExpires` | internal/h2gate/transport.go:650-658 | an armed hold bound gives the token back, unless it is back already, and counts that once |
| `Token.HoldsBalance` | internal/h2gate/transport.go:85-90 | in every reachable state FirstHolds is the number of requests that engaged it, and SettleHolds stays within it exactly when no more settle holds came to requests that had engaged it before than first holds came with connections of a request's own |
| `Token.SettleHoldsCanExceed` | internal/h2gate/transport.go:85-90 | a run from the initial state whose settle holds outnumber its first holds, against the counters' documentation |
| `Token.Marks.MarkUnsettled` | internal/h2gate/transport.go:752-768 | a mark goes to the end and the oldest of eight goes when it does not fit |
| `Token.Marks.TakeUnsettled` | internal/h2gate/transport.go:770-786 | the first mark of the connection goes, and it says whether there was one |
| `Token.UnmarkAt` | internal/h2gate/transport.go:770-786 | taking a mark removes the first occurrence only |
| `ScratchText.ReadersSeeTheirBody` | internal/codec/scratch.go:102-264 | in every reachable state what a reader has read is a prefix of what the call of its own body appended between its Store and the next, and while it is open the buffer holds all of that and is neither pooled nor being recycled; no copy outlives the reader's reference |
| `ScratchText.BodiesAreTheirTexts` | internal/codec/scratch.go:102-118 | every body is the texts its own call appended, whatever the buffer held before |
| `ScratchText.NewBodyBegins` | internal/codec/scratch.go:102-113 | a call that takes the pooled scratch begins empty, in its own generation, with one reference |
| `ScratchText.ReadDelivers` | internal/codec/scratch.go:236-250 | a Read of an open reader delivers the next bytes its call appended, up to the last |
| `ScratchText.ClosedReads` | internal/codec/scratch.go:236-250 | a Read of a closed reader delivers nothing and leaves everything as it was |
| `ScratchText.CloseDrops` | internal/codec/scratch.go:252-264 | the first Close drops one reference, recycling the scratch when it was the last, and no second one does |
| `ScratchText.CapacityIs` | internal/codec/scratch.go:204-218 | over every run the scratch's capacity is what its calls grew it to, given up exactly when it passes the ceiling |
| `Scratch.CountsReferences` | internal/codec/scratch.go:42-46 | the packed count is the call's reference, while it is not released, plus one per open reader of that generation; recycle runs once per body, at zero; no pooled buffer passes the ceiling |
| `Scratch.StepKeeps` | internal/codec/scratch.go:106-264 | every step of any handle and reader keeps these |
| `Scratch.UnrefEnabled` | internal/codec/scratch.go:185-202 | unref's panic is unreachable: a reader past its Close finds its own generation and a count above zero |
| `Scratch.StaleHandleInert` | internal/codec/scratch.go:120-183 | a handle kept for fewer than 2^32 reuses can neither open nor release a later body |
| `Scratch.LiveHandle` | internal/codec/scratch.go:120-183 | a live handle opens exactly while a reference is left and releases exactly once |
| `Scratch.DropRef` | internal/codec/scratch.go:185-202 | dropping a reference borrows from no other field of the word |
| `Scratch.SetReleased` | internal/codec/scratch.go:165-183 | release sets its flag and drops one reference in one subtraction, and changes nothing else |
| `Scratch.MatchesAgain` | internal/codec/scratch.go:37-46 | a handle matches a later body exactly after a multiple of 2^32 reuses |
| `Scratch.BodiesFixed` | internal/codec/scratch.go:133-150 | a body's bytes never change once it is built |
| `Lifecycle.LifecycleSafety` | adapter/adapter.go:170-315 | over every interleaving at most one cleanup runs, only when the adapter is closed and no call runs; order lists exactly the owned keys, each once; no provider is closed twice, and no owned one is closed |
| `Lifecycle.StepOneCleanup` | adapter/adapter.go:263-284 | every step keeps one cleanup at a time, and a Close that joined one finds its result |
| `Lifecycle.StepClosedOnce` | adapter/adapter.go:213-315 | every step keeps every built provider in one place: owned once, closed once, or dropped |
| `Lifecycle.QuietForGood` | adapter/adapter.go:170-187 | once a cleanup may start no call builds or uses a provider ever again |
| `Lifecycle.JoinedResult` | adapter/adapter.go:263-272 | a Close that waited for another's cleanup returns that cleanup's result, and only when it has ended |
| `LifecycleRoutes.RoutesFollowed` | adapter/adapter.go:170-315 | over all runs, from the two states alone: every step moves one call or Close along a route open to it, with that route's effect; a cleanup ends with the panic, the first error or success of some fates of the providers, keeps the keys that failed or were not reached and finishes exactly the providers that closed |
| `LifecycleRoutes.RoutesOpen` | adapter/adapter.go:170-315 | every such route can be taken |
| `LifecycleRoutes.ProviderBuilt` | adapter/adapter.go:213-233 | a running call gets the provider its key has, or a new one is built and listed last; a factory that fails changes nothing |
| `Adapter.Cache.CloseOwned` | adapter/adapter.go:291-315 | after any cleanup, one that fails or panics included, order holds the keys whose close failed and those not reached, in order, and lists what is owned; the first error is returned and each other provider is closed once |
| `Adapter.KeptIs` | adapter/adapter.go:286-315 | a key is kept exactly when its close failed or was not reached |
| `Adapter.Cache.Provide` | adapter/adapter.go:213-233 | the cached provider, or a new one at the end of order; an error leaves no entry |
| `ReportRoundTrip.ReportRoundTrips` | adapter/report.go:230-474 | a written Report reads back, with the same usage, numbers and counts, its text with invalid UTF-8 replaced, and writes to the same JSON tree again, for every latency below 2^22 seconds in size |
| `ReportLibrary.LibraryExists` | adapter/report.go:230-474 | what the round trip relies on of the JSON printer, the parser and the float arithmetic can be met |
| `ReportLibrary.EveryRounds` | adapter/report.go:259-260 | every number has a nearest one of 53 significant bits |
| `ReportRoundTrip.AttemptRoundTrips` | adapter/report.go:311-373 | an attempt that is written reads back to its reread form and writes to the same tree; which form that is, AttemptBodies and AttemptReadsBack say |
| `ReportWritten.AttemptBodies` | adapter/report.go:311-387 | an attempt is written exactly when its encodings are known and its schema is one JSON value; its response is then null for no body or one that parses to null, the parsed tree exactly when the stored encoding is empty and the body is JSON within the limits, and else its repaired text marked text; the same for its request, which is a member exactly when there is one |
| `ReportWritten.AttemptReadsBack` | adapter/report.go:582-691 | a written attempt reads back field by field: texts repaired, a JSON body as one that parses to the same tree, a null request as the body null, optional members as they were, and writes to the same tree |
| `ReportWritten.ReportReadsBack` | adapter/report.go:230-474 | so does a whole Report: the same usage, numbers, order and counts, and its text repaired |
| `ReportWritten.ReportShape` | adapter/report.go:230-309 | the objects of a written Report by name and in their documented order, with the numbers as numerals, the optional members exactly when they are due, and the attempts one by one |
| `ReportWritten.ReportWrites` | adapter/report.go:222-309 | a Report is written exactly when no two of its questions, nor two labels of one, have one name once repaired, and each attempt's encodings are known and its schema is one JSON value |
| `ReportWritten.AttemptShape` | adapter/report.go:311-373 | the members of an attempt and of its debug_info come in their documented order |
| `ReportAccepts.ReportAccepted` | adapter/report.go:442-627 | a JSON tree is read as a Report exactly when its usage and debug are objects whose named members are all there, the optional ones apart, each of its kind and in range, and it is read as what they spell; every other tree is refused and other members are ignored |
| `ReportAccepts.AttemptAccepted` | adapter/report.go:629-691 | the same for an attempt: its messages, parameters, debug_info, and its bodies as their encodings say |
| `ReportRoundTrip.DebugReads` | adapter/report.go:582-627 | every member of debug reads back: numbers as they were, names and messages as UTF-8, attempts as written |
| `ReportRoundTrip.DistsRoundTrip` | adapter/report.go:279-289 | distributions keep their order, labels and numbers, through the check that no name comes twice |
| `Report.BodyStable` | adapter/report.go:375-387 | a body that was written, in whichever of the three forms, reads back to one that is written the same way; AttemptBodies says which form a body takes |
| `Report.RequestStable` | adapter/report.go:683-691 | a recorded request that is written as null reads back as the body null and is written as null again |
| `Report.InfoReads` | adapter/report.go:654-681 | debug_info reads back, its optional members absent exactly when they were not written |
| `Report.UsageReads` | adapter/report.go:561-579 | usage reads back to itself |
| `Report.FindsMember` | adapter/report.go:491-512 | a reader finds a member exactly when the writer wrote it, with its value |
| `Latency.LatencyRoundTrips` | adapter/report.go:259-260 | a Duration below 2^22 seconds in size, divided by 1e9, multiplied back and rounded in round-to-nearest binary64, is the same nanosecond count |
| `Latency.RoundingError` | adapter/report.go:66-75 | rounding a number of at most 2^53 / 2^q to 53 bits is off by at most half of 1 / 2^q |
| `Latency.RoundIs` | adapter/report.go:570-572 | rounding takes the nearest integer, and of two the one farther from zero |
| `TagRoundTrip.SpecRoundTrips` | typed.go:692-928 | every well-formed spec printed with the four escapes parses back to itself, key set included |
| `TagRoundTrip.TagRoundTrips` | typed.go:54-105 | entries printed in any order parse to the spec that says the same |
| `TagSays.TagSaysIts` | typed.go:692-928 | each entry in its own letters and the field it fills: the tag of any entries parses to the spec whose fields are theirs and whose other fields are empty |
| `TagSays.YesNo` | typed.go:692-748 | yes=a;no=b, with the texts escaped, parses to the answers a and b and nothing else |
| `TagSays.EscapeIs` | typed.go:899-928 | exactly the semicolon, the bar, the equals sign and the backslash are spelled with a backslash |
| `TagSays.OtherEscapesRefused` | typed.go:899-928 | a backslash before any other character is refused where it stands |
| `TagWellFormed.WellFormedIs` | typed.go:750-928 | the well-formed specs are exactly those that some tag parses to, so the round trip misses none |
| `TagRoundTrip.EntriesTerminated` | typed.go:774-928 | past the entry scan no inner scan and no unescape meets an unterminated escape: that error comes only from a backslash that ends the tag |
| `TagRoundTrip.ParsedTerminated` | typed.go:750-772 | a tag that parses has a character after every backslash |
| `TagRoundTrip.OptionsTerminated` | typed.go:842-875 | on terminated text the options' scan always ends and no option fails for its escape |
| `TagRoundTrip.LevelsTerminated` | typed.go:878-895 | the same for levels |
| `TagRoundTrip.UnescapeTerminated` | typed.go:899-928 | unescape finds a character after every backslash of terminated text |
| `Tag.ParseTag` | typed.go:750-772 | the loop over a tag's entries gives the recursive grammar's spec or its first error |
| `Tag.TagSpec.AddEntry` | typed.go:797-838 | an entry adds its key and value, or fails for an unknown or repeated key, a missing, empty or unwanted value, or what its value fails for |
| `Tag.ParseOptions` | typed.go:842-875 | an option for every part between unescaped bars, each a label, or a label and a description |
| `Tag.ParseLevels` | typed.go:878-895 | a level for every part between unescaped bars, none empty |
| `Tag.ScanEntry` | typed.go:781-794 | the first separator that no backslash escapes, or the end, and an error exactly when a backslash ends the text before one |
| `Tag.Unescape` | typed.go:899-928 | each of the four escapes stands for its character, and any other is an error |
| `SafeText.RenderingInjective` | internal/engine/text.go:61-107 | with backslashes doubled two texts that render alike uncut are equal |
| `SafeText.FullUnescaped` | internal/engine/text.go:61-107 | an unescaper recovers exactly the bytes of an uncut doubled rendering, invalid UTF-8 included |
| `SafeText.AppendSafeText` | internal/engine/text.go:74-107 | the loop appends the rendering: every character as one piece, cut at the limit |
| `SafeText.CutIs` | internal/engine/text.go:71-73 | a cut rendering is whole pieces of the full one that fit the limit, the most that do, then one ellipsis |
| `SafeText.RenderedShown` | internal/engine/text.go:61-125 | a rendering is UTF-8 without a control or hiding character, of at most the limit and one ellipsis |
| `Characters.CharacterWritten` | internal/engine/text.go:74-125 | how every Unicode scalar value is written, letter by letter: itself, a doubled backslash, one of the seven named escapes, or hexadecimal in two, four or eight digits, for exactly the control and format characters |
| `Characters.ByteWritten` | internal/engine/text.go:74-107 | a byte that begins no character is written alone, in two hexadecimal digits |
| `Characters.FormatsAre` | internal/engine/text.go:109-125 | the format characters are the listed ones |
| `PathText.RenderFieldPath` | text.go:30-52 | the renderer writes the path's parts in order, each where the last one ended, as the printed path of the lemmas below |
| `PathText.PathPrinted` | text.go:57-93 | a printed path is its parts in order, each whole, or cut after a whole character and marked with one ellipsis, or left out |
| `PathText.PathCap` | text.go:24-29 | a printed path is safe UTF-8 of at most 322 characters, and of at most 320 exactly when what fills it leaves room for the ellipsis that ends it |
| `PathText.CapAtOwn` | text.go:65-76 | where the SDK's own text is the first part that does not fit, the printed path has one character more than the parts before it take in full: it is within 320 exactly when they take less |
| `PathText.CapExceeded` | text.go:24-29 | a path of 322 characters, past the documented cap |
| `PathText.TextAfterCut` | text.go:54-57 | a path that goes on after the ellipsis of a name cut by the path's limit, against the type's documentation |
| `PathText.CutNameEnds` | text.go:80-93 | a name that the path's limit cuts keeps as many whole characters as fit, and ends the path exactly when they fill the room |
| `PathText.PathFits` | text.go:57-93 | a path whose parts take at most 320 characters is printed in full |
| `PathText.SchemaPathFits` | internal/engine/text.go:127-131 | no path the response schema can produce takes more than 281 characters |
| `PathText.Path.Fixed` | text.go:65-76 | the SDK's own text in place: the step of the printed path for such a part |
| `PathText.Path.Name` | text.go:80-93 | a server's name in place: the step of the printed path for such a part, with the characters it took counted |
| `SchemaPaths.PrintedWhole` | text.go:14-52 | the path of every refused System One body is printed whole, but for names cut at their own limit |
| `SchemaPaths.ModelsPrintedWhole` | text.go:14-52 | and so is that of every refused model list of fewer than 10^20 cards |
| `SchemaPaths.SystemOneOnSchema` | internal/codec/decode.go:634-690 | every failure a System One decode reports has a path of the response schema |
| `SchemaPaths.ModelsOnSchema` | internal/codec/decode.go:411-433 | and so has every failure of a model list, its position within the list |
| `Evaluate.Evaluation.Decode` | adapter/evaluate.go:313-345 | over all runs: the n-th provider request carries two messages and two more for each malformed output before it, so none carries fewer than one before; the answers and the reasons are those of the requests, in order; every request but the last was followed for its reason; at most (malformed retries + 1)(retries + 1) requests, one more than the retries of both kinds unless the context was done before it; every granted wait stayed under the budget; the totals count every answer; and the outcome is that of the last answer, every earlier one being malformed |
| `Evaluate.Evaluation.RunWithRetries` | adapter/retry.go:365-403 | one attempt more than the retries counted, one reason for each wait that was granted, none past the budget or the maximum, and an attempt only on a live context |
| `Evaluate.Evaluation.Request` | adapter/evaluate.go:317-321 | one corrective attempt keeps the accounts whether it ends in an answer or an error, and every provider request of it carries the messages it was given |
| `Evaluate.Evaluation.CountMalformed` | adapter/evaluate.go:333-344 | a corrective retry adds one reason and two messages |
| `Evaluate.Evaluation.Record` | adapter/evaluate.go:422-428 | a result's counts join the totals |
| `Evaluate.TotalIs` | adapter/evaluate.go:430-436 | a total is known exactly when every result reported its count, and is then their sum |
| `ReadBody.ReadBody` | internal/engine/read.go:32-88 | the whole body exactly when it ends within the limit, however the reader splits it; a declared length past the limit is refused unread; never more than limit + 1 bytes are held; buffers for an honestly declared length d take at most 2d + 1 bytes together, and one buffer of d + 1 up to 256 KiB, as one of 4 KiB does for a shorter undeclared body |
| `ReadBody.Grow` | internal/engine/read.go:90-105 | the bytes held move to a strictly larger buffer of at most limit + 1 |
| `ReadBody.ThriftyGrows` | internal/engine/read.go:38-46 | growth by doubling up to a declared end keeps the buffers' total within twice the end and one byte |
| `Utf8Repair.ReplaceInvalidUTF8` | internal/codec/errorbody.go:218-245 | the text with one U+FFFD for each maximal subpart of what is not UTF-8, well-formed |
| `Utf8Repair.DecodeReplace` | adapter/reason.go:379-401 | the same text, so the two implementations agree on every byte string |
| `Utf8Repair.MaximalSubpartOfBody` | internal/codec/errorbody.go:247-276 | how many bytes of text that is not UTF-8 one U+FFFD stands for: its maximal subpart, by the table |
| `Utf8Repair.MaximalSubpartOfReason` | adapter/reason.go:403-434 | the same length from another table |
| `Utf8Repair.SubpartIsMaximal` | internal/codec/errorbody.go:247-276 | what is skipped is the longest start of a well-formed sequence, or one byte (section 3.9 of the Unicode Standard) |
| `Utf8Repair.RepairedByParts` | internal/codec/errorbody.go:218-245 | the text is split into well-formed sequences, kept, and maximal subparts, each replaced by one U+FFFD |
| `Utf8Repair.RepairedValid` | internal/codec/errorbody.go:218-245 | what is written is well-formed UTF-8 |
| `Utf8Repair.ValidKept` | internal/codec/errorbody.go:218-245 | well-formed text is left alone |
| `Characters.ScalarEncodes` | internal/codec/errorbody.go:247-276 | the encoding of every scalar value is a well-formed sequence that decodes to it |
| `Characters.SequenceIs` | internal/codec/errorbody.go:247-276 | and every well-formed sequence is the encoding of one |
| `Characters.MarksAre` | internal/codec/errorbody.go:218-245 | the replacement is U+FFFD, and a cut's ellipsis U+2026 |
| `LatencyBound.LatencyDiffers` | adapter/report.go:66-75 | from 2^22 seconds on, for every Duration, the nanoseconds that come back differ from the written ones by less than one part in 2^51 of them |
| `LatencyRange.LatencyRefused` | adapter/report.go:70-75 | the reader refuses a written latency exactly when it is of 2^63 - 512 nanoseconds or more, the tie at that number going to even, and reads every other Duration |
| `LatencyRange.Refused` | adapter/report.go:570-575 | it refuses exactly the latencies whose nanoseconds round to 2^63 |
| `LatencyBound.Relative` | adapter/report.go:66-75 | rounding to 53 bits is off by at most one part in 2^53, at every magnitude from 1 on |
| `Embeddable.Embeddable` | adapter/report.go:389-432 | one pass over a body's tokens with a stack of seen names says yes exactly for a JSON text whose objects repeat no name, with integers of no more than 4300 digits, and containers nested no deeper than 1000, and no for a text that breaks off in a syntax error at any token |
| `Embeddable.TreePasses` | adapter/report.go:395-432 | over a tree's tokens, inside any open containers, the stack comes back as it was when the tree fits, and the pass refuses when it does not |
| `Embeddable.NeverPanics` | adapter/report.go:409-418 | no token of a body, nor any before a syntax error, pops an empty stack or names a member outside an object |
| `Embeddable.MembersFitIs` | adapter/report.go:389-394 | the names seen so far decide exactly that no two members share a name |
| `EmbedLimits.FitsIs` | adapter/report.go:389-432 | a body may be held as JSON exactly when it nests at most 1000 levels, every number in it has a fraction, an exponent or at most 4300 digits, and no object repeats a name |

## Left out

- Decoder.DecodeSystemOne: the parser, its skipper and the way it ends at a cut are foreign code; `Parser.Parsed` says what is assumed of them, in terms of bytes and tokens: tokens end in order and never in white space, a closing brace outside strings is delivered unless it is refused, after whole members of the root it is refused only after a comma, backslashes stand in strings, and at a clean cut the tokens before it are delivered.
- Decoder.DecodeSystemOne: the sharing of strings with the request and the single allocation of copies (`intern`, `option`, `arenaString`, `spare`) are not modelled; values are.
- Control.RawControlInString: `padShort` and every other concern of memory safety.
- The decoder's pool, its scratch ceiling (`scratchBytes`, `DecoderCeiling`) and its work counters (`stats`).
- VisitorClass.Visitor.Reset: the flags of the top level, of an answer and of the model list are grouped into three records, fields of the visitor that are replaced whole.
- Folds.FoldPairs: `foldLegend`, `foldLevels` and `foldLabels` are one algorithm over different keys and values, and are one generic method here.
- Machine.RunConcat: a binary64 is a real number and a zero has no sign.
- The gate's `parked` gauge, which only tests read, and its logging.
- Gate.GateSafety: the dial's error and its text; the failing leader's cause is one outcome.
- Token.TokenConserved: the wait bound (`stalled`), the connection bound, body wrapping and the classification of errors in `send`; which hook fires is any interleaving.
- Token.StepConserves: the channel, the hooks and the locks are steps of a transition system over values, not objects, since the interest is in their interleavings.
- Scratch.StepKeeps: so are the handles, the readers and the compare-and-swap loops; a load and the swap that succeeds on its value are one step.
- ScratchText.ReadersSeeTheirBody: `GetBody`, the garbage collector's part, and one scratch at a time, since scratches share nothing.
- Lifecycle.LifecycleSafety: what a call does with its provider, the HTTP responses and error bodies; a factory's outcome and a provider's Close are any choice.
- Lifecycle.LifecycleSafety: a provider is the index of its build, so a factory that returns one provider for two keys, which is then closed twice, is outside the model.
- ReportRoundTrip.ReportRoundTrips: the JSON printer and parser are a parameter of which `Faithful` says what is relied on (`ReportLibrary.LibraryExists` shows that it can be met); the writers' loops are sequences given by their elements; the wording of the reader's errors, and floats that are not finite, are not modelled.
- Embeddable.Embeddable: the tokens come from a tree, cut at a syntax error; the tokenizer is not modelled.
- Latency.LatencyRoundTrips: ties may round either way, and the exponent's range is unbounded; no number here comes near its ends.
- The struct-tag rules that depend on the field (`keyOutside`, `planField`, `lookupTag`) and the text of errors.
- SafeText.RenderedShown: credentials, redaction and `SafeMessage`.
- Evaluate.Evaluation.RunWithRetries: how long a backoff is (`delay`, `backoff`, `roundMillis`) and which errors a policy retries; both are part of the plan.
- Evaluate.Evaluation.Decode: the schema's validation, prompts and the probabilities' conversion (`convert`).
- ReadBody.ReadBody: readers that make no progress for ever; a reader's chunks and its fault are given.
- The root retry loop, the request encoder, the header and URL checks, and `ReadErrorBody`'s messages, which would add easier members.
