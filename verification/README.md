# A verified model of the observing Pub/Sub proxy

The proxy sits between Pub/Sub clients and an upstream server. Traffic taps emit
observations into one bounded channel that never blocks; a single task folds them into
the monitored state; snapshots of that state cross a wire; a terminal UI shows them as a
topic tree, a message list and a payload viewer. This project models that whole path in
Dafny and proves what each part is for.

`dafny verify dfyconfig.toml` checks everything. One module a file:

- `Basics`, `Sums`, `Ordering`, `Strings`: options, sums over maps, byte-wise key order,
  splitting and joining text.
- `Events`, `State`, `StateLog`: observations and the sink; the state owner, as a class
  whose methods loop as the code does and are proved against `Applied`, `Trimmed` and
  `Replay`; the state as an index over the log of observations.
- `StreamingPull`, `Pumps`, `LiveCount`, `Proxy`: a tapped bidirectional stream as a step
  system with one atomic step between awaits; its two pump loops in source form, and the
  runs of the step system they are; counting consumers when a close may find nobody; any
  number of streams sharing one sink with the state owner.
- `Tree`, `TreeItems`, `TreeView`, `TreeIds`: the topic trie, the widget's items, what an
  accepted panel shows, and when identifiers change.
- `Json`, `Highlight`, `Tokens`, `JsonView`, `JsonRead`, `HexDump`, `MessageView`: the
  payload viewer, what the tokens of any line are, and how what it shows is read back.
- `Convert`, `App`: the wire conversion and the keyboard state machine.
- `Base64`, `Capture`, `EndToEnd`: what the taps capture, and the path from a publish call
  to the viewer.

An imperative part of the code is a method with loops, or a class, whose `ensures` ties it
to a specification function; what the code promises is then proved of that function, over
every input, every history or every interleaving.

## Hypotheses the results need

Each is written out in the statement that needs it; wherever a promise fails without it,
the exact condition is proved or a run that breaks the promise is given.

- A stream may name a second subscription, which re-latches it, although the protocol
  forbids that (`proto/google/pubsub/v1/pubsub.proto:2248-2250`). `CloseMatchesOpen` says
  exactly when the close names what was opened, and `RenamingMisreports` gives a run where
  it does not.
- The sink may drop. `DropMiscounts` gives, for every capacity, a run in which one dropped
  open loses a consumer; `ForwardingIgnoresSink` needs no such hypothesis.
- A close that finds no live consumer takes none off. `SaturatedIsDeepestDebt` says how many
  such closes a sequence of observations holds.
- `LiveConsumersExactly` puts the three together: in every run, with no hypothesis, it says
  exactly when the live count shown, plus queued opens less queued closes, is the number of
  open streams.
  `LiveConsumersAreOpenStreams` is the case without drops and without renamed streams.
- `PanelRefusedExactly` says when the tree widget refuses its items; it never does while
  topic names are free of U+0001 (`PanelNeverRefused`), and `MarkedNameRefused` builds a
  state where it does.
- Two published topics with the same last path component share a node, so the tree shows
  fewer messages than were published exactly then (`TreeTotalIsPublished`).
- Identifiers are not stable across every rebuild: publishing `g.a` after `g.x` renames the
  group `g` (`GroupRenamed`), and publishing `q/a` after `p/a` renames the topic shown as
  `a` (`TopicRenamed`), while `z.a` after `g.x` renames nothing shown (`OthersKept`).
  `ObservationKeepsIds` says exactly which identifiers an observation changes: those of the
  nodes at which a topic published for the first time comes before every other.
- Line counts are cast to 16 bits: the last line is reachable exactly below 65536 lines
  (`LastLineReachable`).
- An age the receiver's clock cannot reach back to becomes zero; the wire round trip holds
  exactly when every age is representable (`WireRoundTrip`).
- `ConnectedIsRecentlyActive` assumes that the clock readings of the log never decrease, as
  a monotonic clock guarantees, and that no client's address reads `unknown`, which is what
  clients without an address are counted under.
- `EveryEventNamed` assumes that the first frame names the subscription and that upstream
  delivers nothing before it has received that frame. `UnnamedExactly` says exactly when an
  event carries no subscription, and `UnnamedMisreports` gives a run in which one does.
- `LivenessSkew` assumes, for any time after arrival, that the server had seen what it
  reports by the time it sent it; `LiveAtReceiver` is exact without that.

The comment at `src/proxy/subscriber.rs:133-134` speaks of latching the subscription, as if
once; the code re-latches on every frame that names one, and the model follows the code.
The comments at `src/ui/tree.rs:33-34` and `src/ui/tree.rs:107-108` call identifiers stable;
they are so exactly in the sense above. The capacity of the sink (8192 at
`src/observe/state.rs:241`) is a parameter: the results hold for every capacity.

## Model

| member | source | states |
|---|---|---|
| Events.ObservationSink.Observe | src/observe/events.rs:84-95 | An observation is appended, or dropped when the channel is full or closed; the channel never exceeds its capacity and nothing already queued moves |
| Events.OfferedFits | src/observe/events.rs:89-94 | Of several sends in a row an open channel takes in the first ones, as many as there is room for, in order; a closed one takes in nothing |
| State.AppState.PushRecent | src/observe/state.rs:103-115 | The message goes to the back under the next sequence number, which advances by one |
| State.AppState.TrimRecent | src/observe/state.rs:118-122 | The newest `cap` messages remain, in order, for cap 0 included; nothing else changes |
| State.AppState.Apply | src/observe/state.rs:126-178 | The whole new state after any observation is the one the specification gives, whatever the message loop does in between |
| State.AppState.ApplyAdmin | src/observe/state.rs:182-198 | After both loops the listed entries exist and no others do, duplicates and traffic-created entries included, and mappings are the last ones listed |
| State.MappedTopicIsLast | src/observe/state.rs:190-198 | A listing attaches a subscription to a topic if and only if the last entry of that name says so, and to none exactly if no entry has the name |
| State.Drain | src/observe/state.rs:259-267 | One wake-up extends the owner's history by the burst's folds and exactly one trim |
| State.Run | src/observe/state.rs:250-272 | Every published snapshot is the replay of all bursts so far, and the loop ends at the first burst that finds no reader |
| StateLog.TopicsIndexLog | src/observe/state.rs:126-145 | Over every history: each topic's count, each publisher's count and last-seen time, who is a publisher at all, and existence equal their definitions over the whole log, where clients are told apart by their raw addresses |
| StateLog.AddressIsPublisher | src/observe/state.rs:134-141 | Over every history an address is a publisher exactly if it has published; its count sums its own publishes alone and it was last seen at the last of them |
| StateLog.SubscriptionsIndexLog | src/observe/state.rs:146-198 | Over every history: delivered, acked, existence and topic mapping equal their definitions over the whole log, and live consumers are the largest net change any tail of it makes; a vanished subscription keeps its last mapping and listings change no counter |
| StateLog.TopicCountIsListing | src/observe/state.rs:201-203 | The topic count is the number of distinct topics in the latest listing |
| StateLog.ConnectedIsRecentlyActive | src/observe/state.rs:206-212 | Connected publishers are exactly as many as there are (topic, client) pairs with a publish inside the window, different addresses being different clients and no address one more |
| StateLog.CountsAddUp | src/observe/state.rs:126-145 | Each topic's count is the sum of its publishers' counts and the sum over topics is the next sequence number |
| StateLog.MessageAsPublished | src/observe/state.rs:103-115 | Message j of a publish is numbered by all messages published before it, and keeps its topic, data, attributes, length, flag and time |
| StateLog.BufferIsSuffix | src/observe/state.rs:103-122 | At every moment the buffer is a suffix of everything ever published, never shorter than the bound allows |
| StateLog.PublishedBufferIsNewest | src/observe/state.rs:259-271 | A published buffer is exactly the newest min(cap, total) messages, numbered contiguously up to the last |
| StateLog.SequenceNumberIsIdentity | src/observe/state.rs:58-59 | Two snapshots of one run that retain a sequence number retain the same message under it |
| StateLog.BurstIndependence | src/observe/state.rs:259-271 | Clock readings aside, a published snapshot is a function of the observations alone, however they were split into bursts |
| StateLog.LogOfBurstOps | src/observe/state.rs:259-271 | What the owner folds in over some bursts is every observation of them, in order, each at its burst's reading, and the last thing it does before publishing is to trim |
| StateLog.BurstsPublishNewest | src/observe/state.rs:259-271 | After any bursts the published buffer is exactly the newest min(cap, total) of the messages they brought |
| StateLog.CutsPublishAlike | src/observe/state.rs:259-271 | Two ways of cutting the same observations into bursts publish the same state, clock readings aside |
| StreamingPull.Transparency | src/proxy/subscriber.rs:128-218 | In every interleaving upstream has received an in-order prefix of the client's frames and the client of upstream's, each at most STREAM_BUFFER + 1 behind |
| StreamingPull.TransparencyIsTight | src/proxy/subscriber.rs:30 | A concrete run in which upstream is exactly STREAM_BUFFER + 1 frames behind |
| StreamingPull.FaithfulAlways | src/proxy/subscriber.rs:128-218 | What was received, what is in the channel and what is in hand are together exactly what was read, in both directions, and neither channel overflows |
| StreamingPull.ReportedAlways | src/proxy/subscriber.rs:135-223 | In every reachable state the latch is the last name given, the open is claimed exactly if one was given, what was and is about to be reported is what the frames say, and every event names what was last named at a point in the frames that never goes back |
| StreamingPull.ReportsLatestName | src/proxy/subscriber.rs:152-199 | In every run each open, ack, delivery and close reported is about the subscription last named in the frames read by then |
| StreamingPull.CompletedStream | src/proxy/subscriber.rs:135-223 | A finished stream's opens, acks and deliveries are those of its frames, each attributed to a subscription named in order; at most one open, a close exactly if there was an open and only as the last event |
| StreamingPull.CloseMatchesOpen | src/proxy/subscriber.rs:142-151 | The close names the opened subscription if and only if the last subscription named is the first |
| StreamingPull.RenamingMisreports | src/proxy/subscriber.rs:142-151 | A concrete run that opens one subscription and closes another |
| StreamingPull.EveryEventNamed | proto/google/pubsub/v1/pubsub.proto:2247-2250 | If the first frame names the subscription and upstream delivers only after receiving it, no event carries an empty subscription |
| StreamingPull.UnnamedExactly | src/proxy/subscriber.rs:142-199 | In every run an event carries no subscription if and only if it is reported before the client has named one |
| StreamingPull.UnnamedMisreports | src/proxy/subscriber.rs:152-160 | A concrete run that reports an acknowledgement for no subscription |
| StreamingPull.OneNameThroughout | src/proxy/subscriber.rs:142-199 | A stream that names one subscription has all its events, deliveries included, attributed to it |
| Pumps.Tap.TapFrame | src/proxy/subscriber.rs:140-160 | Latch, claim of the one open, and acks after one more frame are those of all frames so far; what is reported reaches the sink, in order, and nothing else does |
| Pumps.Tap.InboundPump | src/proxy/subscriber.rs:135-166 | The loop forwards every frame up to the first error or refused send, latches and reports exactly the frames read, and leaves the sink's channel as sending those reports leaves it |
| Pumps.Tap.RelayReplies | src/proxy/subscriber.rs:187-211 | The loop forwards replies up to and including the first error, and reports exactly the non-empty deliveries, each on what the other pump has latched as its frame is read, all of them to the sink |
| Pumps.Tap.OutboundPump | src/proxy/subscriber.rs:171-212 | Likewise with the connection attempt, whose refusal is the one frame forwarded and reports nothing |
| Pumps.Tap.Close | src/proxy/subscriber.rs:220-223 | A close of the latched subscription is offered to the sink exactly if the stream announced itself, so an open sink with room ends with it |
| Pumps.InboundPumpIsRun | src/proxy/subscriber.rs:135-166 | The client-to-server loop ends where the step system does in a run in which only that pump acts: same frames forwarded, same observations, latch, flag and close |
| Pumps.OutboundPumpIsRun | src/proxy/subscriber.rs:171-212 | The server-to-client loop, with or without a connection, ends where the step system does in a run in which only that pump acts, from any state in which the other awaits |
| Pumps.RunsAreInboundLoops | src/proxy/subscriber.rs:135-166 | Conversely, in every interleaving, whenever that pump awaits, what it has forwarded, its opens and acks, latch and flag are where its loop ends on the frames read |
| Pumps.RunsAreOutboundLoops | src/proxy/subscriber.rs:171-212 | In every interleaving, whatever is re-latched meanwhile, what this pump has forwarded and delivered is where its loop ends on the frames read and the latches held as each was tapped |
| Pumps.ReadsEndAtError | src/proxy/subscriber.rs:188-208 | In every interleaving an upstream error is the last frame read, so what was read is what the loop can have read |
| Proxy.ForwardingIgnoresSink | src/observe/events.rs:89-94 | From any two systems with the same streams, the same run forwards the same frames whatever becomes of the observations |
| LiveCount.LiveLeftIsLargestTail | src/observe/state.rs:160-172 | Adding opens and taking off closes, never below zero, leaves the largest net change over all tails of the observations |
| LiveCount.SaturatedIsDeepestDebt | src/observe/state.rs:166-172 | The closes that find nobody are exactly as many as closes ever exceeded opens by in a prefix; none do if and only if they never did |
| Proxy.LiveIndexesLog | src/observe/state.rs:160-172 | In every history the live count, of a subscription or in total (`src/observe/state.rs:215-217`), is opens less closes folded in plus the closes that found nobody |
| Proxy.BookedAlways | src/observe/events.rs:89-94 | In every run, opens less closes reported by all streams are those offered, and those folded in, queued and lost |
| Proxy.Ledger | src/observe/state.rs:160-172 | In every run: live consumers plus opens less closes queued and lost are the opens less closes reported by all streams plus the closes that found nobody |
| Proxy.LiveConsumersAreOpenStreams | src/observe/state.rs:160-172 | For any number of streams, any interleaving and any drain, if nothing is dropped and streams keep to one name, live consumers plus queued opens less queued closes are the open streams, per subscription and in total, and no close ever finds nobody |
| Proxy.OneNameNeverInDebt | src/proxy/subscriber.rs:215-223 | Streams that keep to one name never make closes outnumber opens in any prefix of what was offered, however they interleave |
| Proxy.LiveConsumersExactly | src/proxy/subscriber.rs:142-151 | In every run, with no hypothesis, that figure is right if and only if the closed streams that named the subscription first, plus the closes that found nobody, equal the closed streams that named it last plus the opens less closes that were lost |
| Proxy.DropMiscounts | src/observe/events.rs:90-94 | For every channel capacity, a run in which one open dropped on a full channel leaves an open stream uncounted |
| Proxy.OfferedIsKeptAndLost | src/observe/events.rs:89-94 | In every run, drops and all, what was offered is an order-preserving merge of what was folded in and queued with what was lost |
| Proxy.NothingLost | src/observe/state.rs:259-271 | Without drops, what was folded in followed by what is queued is everything offered, in order |
| Proxy.SettledStateIsCanonical | src/observe/state.rs:259-271 | In every run a published state depends on the observations kept so far and on no interleaving; those merge with the queued and the lost to all that was offered |
| Proxy.NetsCountStreams | src/proxy/subscriber.rs:220-223 | What all streams reported, opens less closes, counted stream by stream |
| Tree.Insert | src/ui/tree.rs:42-46 | The loop that walks down segment by segment, creating missing nodes, and writes the topic there yields the trie with that topic inserted |
| Tree.Build | src/ui/tree.rs:35-47 | The loop over all topics that skips silent ones builds the trie of the published topics |
| Tree.TrieHoldsLastPublished | src/ui/tree.rs:35-47 | The node at a path is a topic exactly if some published topic belongs there, and then holds the lexicographically last such topic |
| Tree.TrieNodesArePrefixes | src/ui/tree.rs:43-46 | Apart from the root, nodes are exactly the prefixes of published paths; the root never is a topic |
| Tree.TreeTotalIsPublished | src/ui/tree.rs:125-128 | The tree's total never exceeds the messages published (`src/ui/widgets.rs:43`), and equals them if and only if no two published topics share their last path component |
| TreeItems.PublisherLeaves | src/ui/tree.rs:87-95 | The skipping loop yields the leaves of exactly the publishers with messages, in key order |
| TreeItems.LeavesForTopic | src/ui/tree.rs:84-105 | The leaves are the publishers' followed by the consumers' |
| TreeItems.LeavesExactly | src/ui/tree.rs:84-105 | An item is a leaf if and only if it belongs to an active publisher or active consumer; none is repeated or missing |
| TreeItems.NodeIdsDiffer | src/ui/tree.rs:65-70 | Two children of a node never share an identifier, whatever topics are called |
| TreeItems.GroupsDiffer | src/ui/tree.rs:109-114 | First descendant topic plus segment tells sibling groups apart, even if names contain the separator |
| TreeItems.LeavesDistinct | src/ui/tree.rs:84-105 | Publisher and consumer leaves of a topic never share an identifier |
| TreeItems.NodeIsNoLeaf | src/ui/tree.rs:58-105 | Without U+0001 in topic names a nested node never has the identifier of a leaf |
| TreeItems.PanelRefusedExactly | src/ui/tree.rs:72-80 | The widget refuses the panel if and only if some topic has a leaf with the identifier of a node right below it |
| TreeItems.PanelNeverRefused | src/ui/app.rs:297-298 | With no U+0001 in published topic names no `expect` can fail, at any level, whatever peers and subscriptions are called |
| TreeItems.MarkedNameRefused | src/ui/tree.rs:72-80 | A concrete state, reached by four observations, whose panel is refused |
| TreeView.PanelIsTrie | src/ui/tree.rs:49-80 | An accepted panel is the trie: every item carries its node's identifier, holds first the node's children in key order and then, for a topic, a leaf for each active publisher and each active consumer and nothing else, all told apart |
| TreeView.NodeShownOnce | src/ui/tree.rs:49-80 | For every node of the trie the identifiers along its path lead to exactly one item of an accepted panel, and that item shows the node |
| TreeIds.FirstTopicIsAhead | src/ui/tree.rs:116-122 | The first topic of the node at a path is the published topic at or below it that comes before all others there, parents first and branches in order |
| TreeIds.IdIsFromFirst | src/ui/tree.rs:65-70 | A node is shown exactly where a published topic is at or below it, and the first such topic alone decides its identifier |
| TreeIds.IdFromUnique | src/ui/tree.rs:109-114 | Different first topics give one node different identifiers, even if names contain the separator |
| TreeIds.IdsDependOnPublished | src/ui/tree.rs:109-122 | Topic and group identifiers are a function of the set of published topic names |
| TreeIds.IdChangesExactly | src/ui/tree.rs:107-114 | When one more topic is published, a shown node's identifier changes if and only if the new topic is at or below it and comes before its first topic |
| TreeIds.PublishedAfter | src/observe/state.rs:126-145 | The published set after an observation: one more topic for a non-empty publish, else the same |
| TreeIds.ObservationKeepsIds | src/ui/tree.rs:33-34 | An observation leaves the node at a path, shown or not, with what it is called if and only if it does not publish, for the first time, a topic that comes before every other there |
| TreeIds.GroupRenamed | src/ui/tree.rs:107-114 | A concrete pair of publishes after which a group that was shown has another identifier |
| TreeIds.TopicRenamed | src/ui/tree.rs:46-68 | A concrete pair of publishes after which a topic node has another identifier |
| TreeIds.OthersKept | src/ui/tree.rs:33-34 | A concrete pair of publishes after which every identifier shown is the same although a topic became published |
| Json.UnescapeEscaped | src/ui/message_view.rs:52 | Printed strings read back as themselves, whatever characters they hold (section 7 of RFC 8259) |
| Json.EscapedPlain | src/ui/message_view.rs:52 | A string is printed as it is if and only if it holds no quote, backslash or control character below the blank; it never gets shorter |
| Json.PrettyIsPage | src/ui/message_view.rs:52-53 | The pretty-printed text is the printer's lines joined by newlines |
| Json.LineIsIndented | src/ui/message_view.rs:52-53 | A printed line begins with exactly two blanks a level |
| Highlight.HighlightJsonLine | src/ui/message_view.rs:115-172 | For any line: the scanning loop yields the scanner's spans, none empty, which concatenate to the line |
| Highlight.NextToken | src/ui/message_view.rs:120-169 | One round of the loop moves past exactly one token and classes it |
| Highlight.ScanString | src/ui/message_view.rs:129-141 | The inner loop with its escape flag stops right after the closing quote, or at the end of the line |
| Highlight.ScanKeepsLine | src/ui/message_view.rs:115-172 | For any line, spans are non-empty and lose, repeat or reorder nothing |
| Highlight.StringRunStops | src/ui/message_view.rs:129-141 | However a string is escaped, the scanner ends it exactly at the printer's closing quote |
| Highlight.ScanLine | src/ui/message_view.rs:115-172 | Scanning a line the printer writes yields the printer's tokens with their classes |
| Tokens.Alphabets | src/ui/message_view.rs:121-162 | White space, letters and what numbers are made of, character by character |
| Tokens.TokenExactly | src/ui/message_view.rs:120-169 | Of any line, printed or not, one round takes exactly the token that is there: the longest run of its kind, one mark of punctuation, or a string up to the quote that closes it, a key if and only if the next character other than white space is a colon |
| Tokens.SpansExactly | src/ui/message_view.rs:115-172 | The spans are the only way to cut a line into such tokens |
| JsonView.SplitGivesLayout | src/ui/message_view.rs:53 | Splitting the text at newlines gives back exactly the printer's lines |
| JsonView.HighlightingUndoesPrinting | src/ui/message_view.rs:50-54 | For every JSON value, highlighting its printed text yields the value's own tokens, keys, strings, numbers, literals and punctuation told apart |
| JsonView.AsJson | src/ui/message_view.rs:50-54 | The highlighted lines, and that they read as the value's tokens |
| JsonRead.NumeralRead | src/ui/message_view.rs:50-54 | Every number reads back, digit for digit, from how it is printed |
| JsonRead.TokensRead | src/ui/message_view.rs:50-54 | A value's tokens, whatever follows them, read back as the value |
| JsonRead.ShownIsValue | src/ui/message_view.rs:50-54 | Printing any value, splitting the text into lines, highlighting each and reading the tokens gives the value back |
| HexDump.HexRow | src/ui/message_view.rs:82-92 | The row's hex column, exactly 49 characters wide; the padding subtraction cannot go below zero |
| HexDump.AsHex | src/ui/message_view.rs:78-112 | The chunk loop yields the rows of the dump |
| HexDump.DumpRoundTrip | src/ui/message_view.rs:78-112 | For every byte sequence every column is full width and reading the columns back recovers the bytes |
| HexDump.OffsetsCountBytes | src/ui/message_view.rs:106 | A row's label, of at least eight digits and two blanks, reads as the number of bytes dumped before it |
| HexDump.GutterShowsBytes | src/ui/message_view.rs:94-108 | The gutter shows each printable byte as itself and every other as a dot |
| HexDump.RowShowsBytes | src/ui/message_view.rs:94-108 | Every row of a dump shows its own bytes of the payload in its gutter |
| HexDump.DumpRows | src/ui/message_view.rs:78-81 | There is one row for every sixteen bytes and one for what is left |
| MessageView.AsText | src/ui/message_view.rs:58-75 | Text lines if and only if every character is printable ASCII, a tab, a newline, a return or beyond U+009F |
| MessageView.TextLinesRejoin | src/ui/message_view.rs:66-74 | The lines of a text rejoin to the text with tabs widened and carriage returns gone |
| MessageView.TidiedPlain | src/ui/message_view.rs:66-74 | Text without tabs and returns is shown as it is |
| MessageView.TidiedAround | src/ui/message_view.rs:66-74 | A tab becomes four blanks, a return nothing, and all around them is kept |
| MessageView.RenderBody | src/ui/message_view.rs:23-46 | Whatever view is chosen the payload can be read back from it: JSON lines read as the value's tokens and these as the value, text lines rejoin to the tidied text, hex rows read back as the bytes; each view only when the earlier ones do not apply |
| MessageView.DetailLines | src/ui/app.rs:434-471 | The detail view is the four header lines, true size and cut included, the attributes in order under their heading, a rule, and the body's lines from first to last |
| MessageView.ScrollStaysInside | src/ui/app.rs:434-471 | In every session, however payloads parse, the scroll position is a line of the opened message |
| Convert.WireRoundTrip | src/monitor/convert.rs:48-68 | Decoding and re-encoding at one instant gives back the same wire snapshot if and only if every age is representable |
| Convert.StateRoundTrip | src/monitor/convert.rs:19-68 | Encoding and decoding on two clocks preserves everything but the next sequence number and carries readings over as ages |
| Convert.AgeAfterTrip | src/monitor/convert.rs:93-109 | An age arrives floored to the millisecond, or as zero if the receiver's clock does not reach back that far |
| Convert.LiveAtReceiver | src/monitor/convert.rs:93-109 | At any time after arrival a publisher is live at the UI (`src/ui/widgets.rs:53`) if and only if its age at the server, floored to the millisecond, or nothing if the UI's clock cannot date it, plus the time since arrival, is inside the window |
| Convert.LivenessSkew | src/monitor/convert.rs:3-9 | For every delay, every pair of clocks and any time the snapshot is shown, a publisher that would be live at the server is live at the UI, and one live at the UI was seen within the window plus a millisecond |
| App.ViewModel.HandleEvent | src/ui/app.rs:75-98 | The whole new view-model state after any input |
| App.ViewModel.ToggleFocus | src/ui/app.rs:103-116 | Leaving the messages clears the selection; entering them selects the newest |
| App.ViewModel.HandleMessagesKey | src/ui/app.rs:146-183 | The whole new state in list and in detail view |
| App.ViewModel.MoveSelection | src/ui/app.rs:187-199 | The selection after a move by search |
| App.ViewModel.OpenSelected | src/ui/app.rs:203-214 | Opens the selected message if it is retained, else nothing |
| App.IndexOfSeq | src/ui/app.rs:414-416 | The first position with a sequence number, or none if no message has it |
| App.AlwaysConsistent | src/ui/app.rs:75-214 | In every session tree focus implies list view and no selection, detail view implies messages focus, and scroll stays below the line count |
| App.QuitIsFinal | src/ui/app.rs:82-88 | Once set, the quit flag is never reset |
| App.ListKeysSelect | src/ui/app.rs:167-180 | In the list over a contiguous buffer Up and `k` select the number before, Down and `j` the one after, as far as the messages go, starting from the newest if the selected one has rotated out; Home selects the oldest, End the newest; nothing else changes |
| App.EmptyListKeys | src/ui/app.rs:187-214 | With no messages these keys leave nothing selected and Enter opens nothing |
| App.DetailKeysScroll | src/ui/app.rs:146-166 | In a detail view Up and `k` scroll one line up, Down and `j` one down as far as the last line, Home to the top; Esc, Left and Backspace close it |
| App.KeysEverywhere | src/ui/app.rs:75-116 | Ctrl-C and `q` ask to quit from every state, Esc from the tree; Tab enters the messages on the newest, and leaves them for the tree with nothing selected |
| App.OtherKeysIgnored | src/ui/app.rs:75-183 | No other key, and no event that is no key press, changes anything |
| App.OpenedMessageStays | src/ui/app.rs:201-214 | The opened message never changes while it is shown, whatever snapshots arrive |
| App.LastLineReachable | src/ui/app.rs:153-156 | Scrolling down reaches the last line if and only if there are fewer than 65536 lines |
| App.PageIsTenLines | src/ui/app.rs:157-161 | A page key does what ten line keys do, at the edges too |
| App.SelectionMovesBySeq | src/ui/app.rs:187-199 | On a contiguous buffer a move by search is the clamped sequence number plus the step |
| App.HighlightFollowsMove | src/ui/app.rs:354-366 | The highlighted row moves by the step, within the list |
| App.EnterOpensSelected | src/ui/app.rs:179 | Enter opens exactly the selected message, at its top, if and only if it is retained |
| App.LeavingResumes | src/ui/app.rs:100-116 | Leaving the messages panel from anywhere restores tail-following |
| App.PanelsKeepTheirFloors | src/ui/app.rs:267-275 | The body keeps its floor always and is otherwise exactly as high as its tree needs, unless that would take rows from the messages' floor; the messages panel keeps its own floor for every tree if and only if the frame has at least 27 rows |
| Base64.DecodesExactly | src/proxy/rest.rs:57-64 | In one alphabet the texts that decode to some bytes are exactly their encodings with any part of the padding |
| Base64.AlphabetsAgree | src/proxy/rest.rs:365-373 | Text that decodes in both alphabets decodes alike, so the order of the attempts does not matter |
| Base64.EitherAlphabetRoundTrip | src/proxy/rest.rs:365-373 | Decoding undoes encoding for all bytes, in either alphabet, padded or not |
| Base64.NeverWrong | src/proxy/rest.rs:365-373 | Whatever non-empty data comes out is what the text encodes |
| Base64.MixedYieldsNothing | src/proxy/rest.rs:363-373 | Text mixing the two alphabets' own symbols yields no data |
| Capture.CaptureRest | src/proxy/rest.rs:270-298 | Whatever JSON encodes a message (payload in either alphabet with any part of its padding, attributes as string members, anything else besides), what is captured has the payload's first min(length, cap) bytes, its true length, a right flag and exactly those attributes; truncating in place captures as the gRPC tap (`src/proxy/publisher.rs:39-54`) would |
| Capture.EncodedMessageRead | src/proxy/rest.rs:270-298 | Reading any client's JSON for a message gives back the message |
| Capture.UndecodableIsEmpty | src/proxy/rest.rs:363-373 | Data that is no text, or text that encodes nothing in either alphabet, is captured as no bytes |
| Capture.MemberSays | src/proxy/rest.rs:270-298 | A member read is what the last field of that name holds, and absent exactly if no field has the name |
| Capture.PathExact | src/proxy/rest.rs:304-307 | A path reads as a resource and a verb if and only if it is built from them |
| Capture.ContainsExactly | src/proxy/rest.rs:196-251 | A resource is taken for a topic or subscription if and only if its collection occurs somewhere in the name |
| Capture.RestPublishObserved | src/proxy/rest.rs:196-225 | A REST publish is counted if and only if it is a successful POST to a topic's publish path whose body holds an array with at least one message |
| Capture.RestPullObserved | src/proxy/rest.rs:226-238 | Likewise for pulls, counted from the response |
| Capture.RestAckObserved | src/proxy/rest.rs:239-251 | Likewise for acknowledgements, counted from the request |
| Capture.GrpcObserved | src/proxy/subscriber.rs:76-110 | A gRPC call is observed if and only if it succeeded: a pull and an acknowledgement with their counts, zero included, a publish (`src/proxy/publisher.rs:39-54`) with its captured messages |
| Capture.MeantIsObserved | src/proxy/rest.rs:196-225 | From either protocol the messages observed are those the client meant, in order, under its topic, if the call was a publish that went through, and none otherwise |
| EndToEnd.ViewerShowsWhatWasPublished | src/proxy/publisher.rs:39-54 | Every message in every snapshot, after the wire, has its sender's topic, first min(length, cap) bytes, true length and attributes, and is flagged truncated if and only if it was cut, from either tap |
| EndToEnd.ViewerShowsWhatWasMeant | src/proxy/rest.rs:270-298 | The same of what each client meant to publish, before it was encoded: whatever alphabet, padding and protocol it came in, however the queue was drained, whatever the clocks say |
| EndToEnd.WireReportsTopic | src/monitor/convert.rs:70-91 | Every figure of a topic on the wire is the figure of the log: its count, its existence, who publishes, each one's count, and the age of each one's last publish |
| EndToEnd.WireReportsSubscription | src/monitor/convert.rs:118-126 | Every figure of a subscription on the wire is the figure of the log |
| EndToEnd.WireReportsMessage | src/monitor/convert.rs:128-146 | Every message on the wire is, field by field, the one sent under its number |
| EndToEnd.ArrivesContiguous | src/monitor/convert.rs:148-165 | A published buffer reaches the UI contiguously numbered |
| EndToEnd.SelectionAnchored | src/ui/app.rs:185-199 | A sequence number selected in the UI denotes the same message in every snapshot that retains it |

## Left out

- Sockets, HTTP/2, tonic, hyper, axum, gzip and the forwarding macro: channels are bounded sequences, upstream and clients are arbitrary environments.
- Runtime fairness and shutdown: the step systems say what may happen, not that it does.
- The admin poller, the reconnecting client, the command line, the load generator, logging and binaries: thin glue that would only add easy members.
- 64-bit counters: assumed not to overflow, so they are unbounded naturals; ages on the wire are kept to 64 bits.
- Clock readings: `Instant` is nanoseconds since the earliest representable instant; the owner's readings are parameters of its steps.
- Burst boundaries in `Proxy`: folds and trims are separate steps at arbitrary readings, which allows every run of the burst loop and more; `State.Run` is the loop itself.
- Aliasing in the trie: nodes are values, so the mutable reference that walks down is the node at hand with the nodes it came through, and writing through it is putting them back.
- Tree line texts, styles, layout, the tree widget's own open and selected state, and age and size formatting.
- Key modifiers other than the one that tells Ctrl-C from a plain `c`.
- Parsing by serde_json and UTF-8 decoding: payloads arrive with the JSON value and the text that parsing made of them; number spelling is any spelling section 6 of RFC 8259 allows for the printer, and the members of an object are those the parser kept, in its order.
- The decoder library's own code: `Base64.Decode` states its documented behaviour for the configured engines (padding optional in any part, unused bits zero).
- The field `exists` is called `present` in the model, as the other is a keyword.
- Header relaying and error bodies of the REST tap: set removal and constants.
- PanelNeverRefused: a sufficient condition on topic names alone; the exact one, which also involves peers and subscriptions, is `PanelRefusedExactly`.
