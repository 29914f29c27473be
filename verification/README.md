# Realtime core: a verified model

A Dafny model of the realtime core of the meguca imageboard: how messages are
framed, who is subscribed to what, what every pulse of the dispatcher sends to
whom, how post bodies are parsed and diffed, what a client may do over its
connection, how buffers pass from Rust to Go, and two pieces of the browser
client. `dafny verify dfyconfig.toml` checks all of it.

| file | models |
|---|---|
| `Codec.dfy` | message types, escaping, framing, joined batches, the splitter and the decoder |
| `Utf8.dfy`, `Client.dfy`, `ClientLog.dfy` | byte scans over UTF-8, the draft of an open post, the connection's state machine, what it did told by its messages |
| `PostBody.dfy`, `Parser.dfy`, `BodyText.dfy`, `BodyTags.dfy`, `Diff.dfy` | body trees, the recursive parser, what it keeps of a text and of its tags, the differ |
| `Registry.dfy` | set maps and the client registry |
| `Feeds.dfy`, `Pulsar.dfy`, `Dispatch.dfy` | one feed, one pulse, whole runs |
| `Views.dfy`, `IndexStream.dfy`, `Notices.dfy` | what clients know of a thread, hear on the thread index and hear of new threads, over whole runs |
| `History.dfy`, `IndexPosts.dfy` | what feeds hold of each post, and show of it on the index, told by the requests alone |
| `Keying.dfy` | what the assignment of thread messages as written does |
| `Dispatcher.dfy` | the dispatcher as it is written, with its loops, proved against `Pulsar.dfy` |
| `Handoff.dfy`, `Ordering.dfy` | goroutines handing reference-counted buffers over |
| `Scheduler.dfy` | the timer queue and scheduler of the browser client |
| `Location.dfy`, `Strings.dfy`, `Decimal.dfy` | locations and their URLs |
| `Wrappers.dfy` | options, results and sequences |

Code that updates fields or loops is a class or method proved against a
function; what the system promises is proved of those functions. Main results:

- **Round trip.** `Codec.RoundTrip`: batches nested to any depth decode to their
  messages in order, exactly if parts are below 2^31 bytes and no decompressed
  chunk ends in the header byte.
- **Streams.** `Dispatch.StreamIsComplete`, `IndexStreams.IndexStreamIsComplete`,
  `Dispatch.InitExactlyOnce`: over whole runs nothing a feed writes is lost,
  repeated or, on a thread, reordered for a client that stays, and each
  subscription is initialised once.
- **Convergence.** `Views.ViewsConverge`: what such a client hears determines the
  thread's open posts, although an init message already holds pending events.
- **Caches.** `Dispatch.RunKeepsOk`: in every reachable state a cached message
  serves the current data.
- **Contents.** `Histories.RunIsHeld`, `Histories.LastTextIsShown`,
  `IndexPosts.IndexShowsLastFive`: after every run each post is what the requests
  made it, and the index shows a thread's own post and its last five.
- **Fan-out.** `Pulsars.PulseHeard`, `Reduction.ReduceIsUnion`: what every client
  hears in a pulse, whatever the shape of the parallel reduction.
- **Parsing and diffing.** `Parser.ParseBodyIsGood`, `BodyTexts.TextIsKept`,
  `BodyTags.TagsAreKept`, `Diff.DiffTreeExact`: tags nest strictly in order; a
  tree shows exactly the letters of its body that no empty tag pair swallows, each
  under exactly the tags open around it; a patch is right exactly under a stated
  condition.
- **Connection.** `Clients.RunEffects`, `ClientLogs.RunIsLogged`: nothing is
  subscribed, created or edited without a proven key, at most one post is ever
  open, and what is done is what the messages ask for, in order.
- **Ownership.** `Handoff.EveryRunOwnsOnce`, `Handoff.UnbufferedIsNecessary`:
  every buffer is released once, exactly because the channel does not buffer.

## Where the code falls short of its intent

The model does what the code does. Where that misses a property the system is
built on, the exact condition under which it holds is proved, and the intended
form stands beside the literal one.

- Messages keyed by client are assigned as if keyed by thread. Results about
  streams and views are of the intended keying;
  `Dispatcher.PulsarThread.SendMessages` is the code as written, and
  `Keyings.RunAsWrittenExact`, `Keyings.PulseAsWrittenExact` and
  `Keyings.InitAsWrittenExact` say when it does the same; `Keyings.ReachableLoss`
  is a run on which it does not.
- Messages of two pulses may reach a client out of order, although the dispatcher
  waits for its writes to preserve sequence (`Ordering.OrderExact`).
- A thread nobody has open does not report to the thread index until someone asks
  for the whole index (`IndexStreams.IndexDelayExact`).
- A feed keeps one recent post at start-up instead of five
  (`Feeds.ScanRecentExact`).
- The expiry threshold is a duration where a time is meant
  (`Dispatch.CleanUpExact`).
- A chunk of decompressed data ending in the header byte is rejected
  (`Codec.ChunksAgree`), and so are joined parts from 2^31 bytes on
  (`Codec.RoundTrip`).
- The differ swaps the sides of plain texts and reverses one side only
  (`Diff.LiteralTextExact`, `Diff.DiffTextExact`), loses wrappers
  (`Diff.LiteralDiffExact`, `Diff.WrapperLossIsFatal`), and may never return, nor
  then the pulse that calls it (`Diff.DiffReturnsExact`,
  `Dispatch.PulseReturnsExact`).
- A patch of the draft keeps the wrong part of the text, edits at its end are
  refused, and the count drifts from the text (`Drafts.PatchExactness`,
  `Drafts.PatchRejections`, `Clients.RunDriftExact`).
- A text may be short enough in characters for the client and too long in bytes
  for the parser (`Dispatch.AcceptedTextExact`).
- References are never recognised (`Fragments.ParseReference`), every URL gains a
  character (`BodyTexts.FragmentShows`), and an empty tag pair swallows the rest
  (`BodyTexts.TextIsKept`, `BodyTexts.EmptyPairExact`).
- Removing a pair from a double set map can leave an empty bucket
  (`SetMaps.DoubleSetMap.RemoveByKeyValue`).
- The timer queue's iterator does not advance (`Scheduler.IterationExact`), and
  the next tick can wrap around, so that a timer tick may never end
  (`Scheduler.NextStartExact`, `Scheduler.TickEndsExact`,
  `Scheduler.TickNeverEnds`).

## Model

| member | source | states |
|---|---|---|
| `MessageTypes.FromCode` | protocol/src/message_types.rs:9-48 | A byte is read as a message type exactly if it is that type's code, and as none otherwise |
| `Codec.EscapePieces` | protocol/src/codec.rs:25-49 | A payload escaped in any pieces gives the bytes of escaping it whole |
| `Codec.Position` | protocol/src/codec.rs:30-30 | Finds the first HEADER byte, or says there is none |
| `Codec.Escaper.Write` | protocol/src/codec.rs:26-44 | Appends exactly the escaped source to the output |
| `Codec.FeedInTwo` | protocol/src/codec.rs:285-331 | Two writes of the splitter, the first not ending in HEADER, do what one write of both does, errors included |
| `Codec.FeedEndingInHeaderFails` | protocol/src/codec.rs:294-299 | A write ending in HEADER is rejected, wherever the bytes come from |
| `Codec.ChunksAgree` | protocol/src/codec.rs:285-331 | Any chunking is accepted exactly if the whole is and no chunk ends in HEADER, and then gives the same buffer, starts and types |
| `Codec.FeedKeepsWellFormed` | protocol/src/codec.rs:285-331 | A write keeps as many starts as types, starts ascending and inside the buffer |
| `Codec.MessageSplitter.Write` | protocol/src/codec.rs:285-331 | The loop accepts what the specification accepts and leaves its buffer, starts and types |
| `Codec.LengthRoundTrip` | protocol/src/codec.rs:105-105 | Length prefixes read back as written below 2^31, and sign-extend to huge values from there on |
| `Codec.Encoder.WriteMessage` | protocol/src/codec.rs:118-128 | Appends one framed and escaped message to the stream |
| `Codec.Encoder.Finish` | protocol/src/codec.rs:132-134 | The finished bytes are the encoding of the messages written |
| `Codec.Join` | protocol/src/codec.rs:90-110 | Joining encoded parts gives the encoding of the joined batch |
| `Codec.FillKeepsWellFormed` | protocol/src/codec.rs:164-227 | Decoding arbitrary bytes is total, and an accepted state is well-formed, so every payload slice is in range |
| `Codec.FeedStream` | protocol/src/codec.rs:118-128 | The splitter recovers type and payload of every message of an encoded stream |
| `Codec.FillEncoded` | protocol/src/codec.rs:164-227 | Refilling a splitter from an encoded tree of batches succeeds exactly if every part, at any depth, is below 2^31 bytes and no decompressed chunk ends in HEADER, and then appends exactly its messages |
| `Codec.RoundTrip` | protocol/src/codec.rs:90-227 | For batches nested to any depth, with parts below 2^32 bytes: decoding succeeds exactly if every part is below 2^31 bytes and no decompressed chunk ends in HEADER, and then yields the flattened list of types and payloads in order |
| `Codec.ChunkBorderRejected` | protocol/src/codec.rs:294-299 | A valid message is rejected when decompression splits it after an escaped HEADER |
| `Codec.OversizedPartRejected` | protocol/src/codec.rs:105-219 | A part of 2^31 up to 2^32 bytes at any depth and position makes the whole undecodable |
| `Codec.FillSplitter` | protocol/src/codec.rs:164-227 | The recursive decoder with its loop over parts agrees with the specification |
| `Codec.NewDecoder` | protocol/src/codec.rs:156-161 | Rejects exactly what decoding rejects; otherwise the decoder yields the decoded messages |
| `Codec.Decoder.PeekType` | protocol/src/codec.rs:234-236 | The type of the next message, if any, without advancing |
| `Codec.Decoder.SkipNext` | protocol/src/codec.rs:239-241 | Drops the next message, if any |
| `Codec.Decoder.ReadNext` | protocol/src/codec.rs:244-263 | The payload of the next message, in range, and advances past it |
| `Utf8.CodePointsOfEncoded` | websockets/websockets/src/client.rs:440-442 | Counting start bytes of encoded text counts its characters |
| `Utf8.CodePointOfEncoded` | websockets/websockets/src/client.rs:440-442 | The bytes of a character hold its code point as section 3 of RFC 3629 lays it out |
| `Utf8.EncodeInjective` | websockets/websockets/src/client.rs:440-442 | Different texts have different encodings |
| `Utf8.BytePos` | websockets/websockets/src/client.rs:455-466 | The forward scan returns a start byte with exactly the given number of characters before it, or none if there are not that many |
| `Utf8.BytePosExact` | websockets/websockets/src/client.rs:455-466 | On encoded text that is the offset of character k, and none exactly if k is out of range |
| `Utf8.DropLast` | websockets/websockets/src/client.rs:418-437 | The backward scan cuts before the n-th character start from the end, or leaves the bytes alone |
| `Utf8.DropLastExact` | websockets/websockets/src/client.rs:418-437 | On encoded text that removes exactly the last n characters |
| `Drafts.PlainEditKeepsCount` | websockets/websockets/src/client.rs:240-249 | An append or backspace is accepted exactly within the bounds, and keeps the count equal to the number of characters, at most 2000 |
| `Drafts.BackspaceUndoesAppend` | websockets/websockets/src/client.rs:418-437 | Backspacing what was appended restores the draft |
| `Drafts.PatchExactness` | websockets/websockets/src/client.rs:445-480 | After an accepted patch the count is right exactly if the text has position + 2 * removed characters, and the text is the intended splice exactly if the part kept equals the part that should have been |
| `Drafts.PatchRejections` | websockets/websockets/src/client.rs:445-480 | An edit at the end of the text, a removal up to the end and a pure removal are all rejected |
| `Drafts.PatchLosesTail` | websockets/websockets/src/client.rs:471-476 | Inserting at the front of any text leaves the insertion alone, with a count that still includes the text |
| `Drafts.EditDrift` | websockets/websockets/src/client.rs:486-511 | What each accepted edit adds to the difference between count and text, exactly, and the bounds 0 to 2000 of the count |
| `Clients.RunIsAuthenticated` | websockets/websockets/src/client.rs:527-626 | Over every message sequence: past the handshake the identity in use was registered fresh or had its signature verified against the recorded key; a requested reshake is for a key that an earlier message offered and the database knew; a post is open only while synchronizing |
| `Clients.RunEffects` | websockets/websockets/src/client.rs:187-258 | Over every message sequence at most one post is ever created and only it is edited, and every subscription, creation and edit comes after a proven key |
| `ClientLogs.RunIsLogged` | websockets/websockets/src/client.rs:187-511 | Over every message sequence the connection survives: everything done, in order, and the post open with its thread and text, are what the messages and the services' answers say, each subscription naming the feed asked for, each creation and edit the thread asked for, each body set being the edited text in bytes |
| `ClientLogs.RunSubscribes` | websockets/websockets/src/client.rs:274-296 | In particular the feeds subscribed to are those of the synchronisation requests, in order |
| `ClientLogs.AcceptanceExact` | websockets/websockets/src/client.rs:187-300 | A message keeps the connection alive exactly under these conditions, state by state: a fresh or verified key, a reshake signed for the ID on record, a feed that is 0 or exists, a creation while no post is open, an edit that fits; and what state follows |
| `Clients.RunDriftExact` | websockets/websockets/src/client.rs:486-511 | Over every message sequence the count is within 0 to 2000 and exceeds the number of characters by exactly the sum of what the edits added, so it is right exactly if that is zero |
| `Clients.RunKeepsCount` | websockets/websockets/src/client.rs:486-511 | In particular it is right if every patch ends where twice its removal does |
| `Clients.ClosedStays` | websockets/websockets/src/client.rs:134-258 | A connection that failed on a prefix of its messages has failed for good |
| `Clients.Shortened` | websockets/websockets/src/client.rs:418-437 | On bytes: the encoding of the text without its last n characters |
| `Clients.Patched` | websockets/websockets/src/client.rs:445-480 | On bytes: accepts exactly positions and removals strictly inside the text, and gives the encoding of what the source splices |
| `Clients.Client.UpdateBody` | websockets/websockets/src/client.rs:486-511 | Changes the open post as specified for the edit, and nothing else |
| `Clients.Client.HandleAuthSaved` | websockets/websockets/src/client.rs:576-605 | Implements the handshake with a saved key |
| `Clients.Client.Handshake` | websockets/websockets/src/client.rs:527-574 | Implements the first handshake |
| `Clients.Client.SyncTo` | websockets/websockets/src/client.rs:274-296 | Succeeds exactly if the feed is 0 or its thread exists, and then subscribes to that very feed and confirms it; otherwise nothing is done |
| `Clients.Client.Receive` | websockets/websockets/src/client.rs:187-258 | One message: same state, effects and rejection as the specified step |
| `Clients.Client.ReceiveMessage` | websockets/websockets/src/client.rs:134-258 | A batch: same state, effects and rejection as the specified sequence; an empty batch is rejected |
| `Fragments.ParseReference` | websockets/websockets/src/body/links.rs:114-151 | No word is ever recognised as a reference: the label's end is compared with positions counted from elsewhere |
| `Fragments.SplitPunctuation` | websockets/websockets/src/body/fragment.rs:127-167 | The three parts make up the word, the outer ones hold at most one character, and the middle of a word is not empty |
| `Fragments.FragmentLoop` | websockets/websockets/src/body/fragment.rs:3-122 | The word loop with its text and node buffers computes the specified node or error |
| `Fragments.FailureStays` | websockets/websockets/src/body/fragment.rs:3-122 | A failing lookup ends the fragment with its error, whatever words follow |
| `Fragments.FragmentIsPlain` | websockets/websockets/src/body/fragment.rs:3-122 | A fragment holds no tag, no empty sibling and, in an open post, nothing pending and no embed; it fails only if a lookup does |
| `Fragments.UnmatchedTextIsKept` | websockets/websockets/src/body/fragment.rs:14-112 | Text in which no word is matched comes back unchanged as one text node |
| `Fragments.LoneUrl` | websockets/websockets/src/body/fragment.rs:66-94 | The tree of a URL on its own in an open post: an extra ">" before it |
| `BodyTexts.UrlGainsQuote` | websockets/websockets/src/body/fragment.rs:66-94 | Of matched words exactly the URLs, embeds included, are put behind an extra ">", wherever they stand and whether the post is open or not; the others behind nothing |
| `BodyTexts.MatchExact` | websockets/websockets/src/body/fragment.rs:28-94 | What a word becomes, in both directions: a command only in a closed post outside of quotes, an embed only in a closed post, a URL if it is valid and no embed, a link if it names a post that exists or is not known yet |
| `BodyTexts.LinkForm` | websockets/websockets/src/body/links.rs:81-112 | A link carries the number behind its ">" signs and the thread and page that were looked up, or zeros if they are not known |
| `BodyTexts.FragmentRenders` | websockets/websockets/src/body/fragment.rs:3-122 | A fragment shows its words one by one with single spaces between them, whatever they are matched to |
| `BodyTexts.FragmentShows` | websockets/websockets/src/body/fragment.rs:3-122 | A fragment whose matched words are shown as written comes out to the character but for one ">" before every URL, and unchanged exactly if it holds none |
| `BodyTexts.ParseFits` | websockets/websockets/src/body/util.rs:24-68 | An induction principle along the parser: what holds of lines, code blocks and nothing, and survives tagging and pairing, holds of every result together with the parts it was made of |
| `BodyTexts.TextIsKept` | websockets/websockets/src/body/util.rs:24-68 | Every tree shows exactly the letters of the parts the parser meets, words and code blocks, in order. These are what is left of the body once delimiters, newlines and all that follows an empty pair are taken out; the number of letters lost is exact, and none is exactly if no letter follows an empty pair the parser meets |
| `BodyTexts.OpenWordExact` | websockets/websockets/src/body/links.rs:81-165 | A word of an open post is shown with its letters exactly if it is not a link padded with zeros |
| `BodyTexts.OpenReadable` | websockets/websockets/src/body/links.rs:81-165 | So the law above applies to an open post exactly if no word of it is a padded link and its code blocks are shown with their letters |
| `BodyTexts.OpenTextIsKept` | websockets/websockets/src/body/mod.rs:39-51 | The law of kept text for every such open post |
| `BodyTexts.EmptyPairExact` | websockets/websockets/src/body/util.rs:37-38 | The parser agrees with one that goes on behind empty pairs exactly if nothing behind one that it meets parses to anything |
| `BodyTexts.GoingOnKeepsText` | websockets/websockets/src/body/util.rs:24-68 | The parser that goes on keeps every letter of every body |
| `Parser.ParseIsGood` | websockets/websockets/src/body/util.rs:24-68 | Parsing from any level up, text without the outer delimiters yields only inner tags: this covers remainders that re-enter at the top from inside a tag |
| `Parser.QuotedIsGood` | websockets/websockets/src/body/formatting.rs:45-78 | Lines are quoted once and hold no tag below the quote |
| `Parser.ParseBodyIsGood` | websockets/websockets/src/body/mod.rs:39-51 | Every body parses to a tree where Code, Spoiler, Bold, Italic and Quoted nest strictly in that order, no sibling is empty and no quote holds a command; an open post's holds nothing pending and no embed; with lookups that succeed only a body over 2000 bytes is rejected |
| `BodyTags.TagsAreKept` | websockets/websockets/src/body/formatting.rs:9-78 | The leaves of the tree are those of the body's parts in order, and around them stand exactly the tags open there: Spoiler for "**", Bold for "@@", Italic for "~~", Quoted for a line that starts with ">" |
| `BodyTags.TagsMatchNodes` | websockets/websockets/src/body/formatting.rs:9-43 | The tree has exactly one Bold node per "@@" pair met that is not empty, closed or not; likewise for the other tags and for quoted lines |
| `BodyTags.LeavesStandUnderTags` | websockets/websockets/src/body/formatting.rs:9-78 | Every leaf stands under exactly the nodes, outermost first, of the tags open at its place in the body |
| `BodyTags.PartsWritten` | websockets/websockets/src/body/util.rs:24-68 | The parts of a body and the opening delimiters of the tags met stand in the body in this order |
| `Parser.EmptyPairSwallows` | websockets/websockets/src/body/util.rs:30-46 | An empty tag pair, wherever it stands, drops all that follows it |
| `Diff.LoopExits` | websockets/websockets/src/body/diff.rs:55-66 | The comparing loop stops at the first difference, and never on equal sequences |
| `Diff.DiffIndex` | websockets/websockets/src/body/diff.rs:55-66 | On different sequences the loop returns the length of the common prefix |
| `Diff.ComputeDiffText` | websockets/websockets/src/body/diff.rs:43-76 | The source's statements compute the specified patch wherever they return |
| `Diff.DiffTextExact` | websockets/websockets/src/body/diff.rs:43-76 | Hangs exactly if what follows the common prefix is reversed; its patch is right exactly if the new text's end mirrors the part matched |
| `Diff.LiteralPlainTextNeverRight` | websockets/websockets/src/body/diff.rs:24-24 | With the sides of Text nodes swapped, the patch between different texts is never right |
| `Diff.LiteralTextExact` | websockets/websockets/src/body/diff.rs:15-26 | The source's text differ is right exactly on equal texts and on links or code with a mirrored tail |
| `Diff.TrimmedTextRight` | websockets/websockets/src/body/diff.rs:43-76 | Trimming both ends alike is right on every pair of texts under 65536 characters |
| `Diff.AddedEndIsRight` | websockets/websockets/src/body/diff.rs:43-76 | A link or code block that only grew at the end is always patched rightly |
| `Diff.FacingEndsAreWrong` | websockets/websockets/src/body/diff.rs:43-76 | Links "ab" and "bcd" are patched wrongly |
| `Diff.ReversalIsStuck` | websockets/websockets/src/body/diff.rs:55-69 | The diff of links "ab" and "ba" never returns |
| `Diff.UnchangedIsEqual` | websockets/websockets/src/body/diff.rs:4-41 | With a differ that detects changes, no patch means equal trees and conversely |
| `Diff.DiffTreeExact` | websockets/websockets/src/body/diff.rs:4-41 | For any such text differ: the tree's patch is right exactly if every text reached is and no replacement happens below a wrapper |
| `Diff.IntendedDiffExact` | websockets/websockets/src/body/diff.rs:4-76 | With the intended text differ: the diff is none exactly on equal trees, and patching is right exactly if nothing is replaced below a wrapper, so always on wrapper-free trees |
| `Diff.WrapperLossIsFatal` | websockets/websockets/src/body/diff.rs:27-30 | Two different targets get the same patch, so no way of applying patches can be right on both |
| `Diff.LiteralDiffExact` | websockets/websockets/src/body/diff.rs:4-76 | As written, the patch is right exactly if all differing texts are mirrored links or code and nothing is replaced below a wrapper |
| `Diff.PatchIsSafe` | websockets/websockets/src/body/diff.rs:4-41 | A patch holds no pending node or embed that the new tree does not |
| `Diff.LiteralStuckExact` | websockets/websockets/src/body/diff.rs:55-69 | The text diff never returns exactly if the texts differ and what follows their common prefix is reversed |
| `Diff.DiffReturnsExact` | websockets/websockets/src/body/diff.rs:4-76 | The tree diff returns exactly if it meets no such text; the intended one always does |
| `SetMaps.Insert` | protocol/src/util.rs:26-28 | Adds exactly one pair to the relation |
| `SetMaps.Remove` | protocol/src/util.rs:30-37 | Removes exactly one pair, and leaves no empty bucket |
| `SetMaps.SameRelation` | protocol/src/util.rs:6-52 | Without empty buckets the relation determines the map |
| `SetMaps.DoubleSetMap.Add` | protocol/src/util.rs:93-96 | Both directions hold the same relation with one more pair |
| `SetMaps.DoubleSetMap.RemoveByKey` | protocol/src/util.rs:106-112 | Drops the key from both directions |
| `SetMaps.DoubleSetMap.RemoveByKeyValue` | protocol/src/util.rs:122-128 | Removes exactly one pair in both directions, and leaves an empty bucket exactly if it was the key's only pair |
| `Registries.AddClientExact` | websockets/websockets/src/registry.rs:74-78 | Registering keeps the registry consistent exactly if the ID has no feed or key yet |
| `Registries.SetClientKeyExact` | websockets/websockets/src/registry.rs:81-88 | A known client has the key afterwards and no other client changes; this keeps the registry consistent exactly if the client is unknown or has no other key |
| `Registries.RemoveClientConsistent` | websockets/websockets/src/registry.rs:56-65 | Removal keeps it consistent, and no lookup map names the client afterwards |
| `Registries.SetClientThreadConsistent` | websockets/websockets/src/registry.rs:91-101 | Moving keeps it consistent, and the client then waits for its new feed alone |
| `Registries.DrainConsistent` | websockets/websockets/src/registry.rs:107-115 | The snapshot keeps it consistent and leaves exactly the registrations for unknown feeds |
| `Registries.RunsStayConsistent` | websockets/websockets/src/registry.rs:21-115 | After any operations with fresh IDs and keys set once, the lookup maps are the inverses of the descriptors, waiting clients are subscribers and no bucket is empty |
| `Registries.RunsDescribe` | websockets/websockets/src/registry.rs:21-115 | After any such run the registry holds of each client exactly the key and the feed it was last given, in its descriptor and in the lookups, and awaits its initialisation exactly if no snapshot took it since |
| `Registries.RemovedClientLeavesNoTrace` | websockets/websockets/src/registry.rs:56-65 | After any such run, removing a client leaves no trace of it |
| `Registries.ClientRegistry.Unsubscribe` | websockets/websockets/src/registry.rs:23-28 | Leaves a feed and its waiting clients |
| `Registries.ClientRegistry.Connect` | websockets/websockets/src/registry.rs:74-78 | Registers a client; consistent exactly if the ID was fresh |
| `Registries.ClientRegistry.Disconnect` | websockets/websockets/src/registry.rs:56-65 | Removes a client from every map |
| `Registries.ClientRegistry.SetKey` | websockets/websockets/src/registry.rs:81-88 | Sets a client's key; consistent exactly if it had no other |
| `Registries.ClientRegistry.SetThread` | websockets/websockets/src/registry.rs:91-101 | Moves a client between feeds |
| `Feeds.InsertKeepsLargestFive` | websockets/websockets/src/pulsar.rs:267-273 | While post IDs grow, the heap holds exactly the five largest |
| `Feeds.ScanRecent` | websockets/websockets/src/pulsar.rs:174-188 | At start-up the scan keeps exactly the largest ID |
| `Feeds.ScanRecentExact` | websockets/websockets/src/pulsar.rs:174-188 | So the heap is right at start-up exactly if there is at most one recent post |
| `Feeds.MakeChangesFrame` | websockets/websockets/src/pulsar.rs:335-342 | Writing changes touches bodies and encoders only, and appends exactly the patches in order |
| `Feeds.MakeChangesBodies` | websockets/websockets/src/pulsar.rs:335-342 | Every post with a change gets its new body, and no other post changes |
| `Feeds.FreshInit` | websockets/websockets/src/pulsar.rs:207-220 | The init message, cached or encoded, serves the current data |
| `Feeds.FreshPart` | websockets/websockets/src/pulsar.rs:228-264 | The global part, cached or encoded, holds the open posts that are the thread's own post or among the last five kept, and serves the current recent posts of that kind |
| `Feeds.ProcessSpec` | websockets/websockets/src/pulsar.rs:594-689 | A feed's share of a pulse leaves nothing pending and nobody waiting, its data diffed and its caches right |
| `Feeds.ProcessMessages` | websockets/websockets/src/pulsar.rs:621-673 | Of a feed's subscribers, waiting ones are sent init then pending events, the rest pending events alone if any, and nobody else anything |
| `Feeds.ProcessParts` | websockets/websockets/src/pulsar.rs:675-689 | If an index is wanted, exactly one part serving the feed's new data, and otherwise none |
| `Reduction.ReduceIsUnion` | websockets/websockets/src/pulsar.rs:687-712 | For any shape of the parallel reduction and any swaps: global lists are permutations of the feeds' and the thread map is the union of theirs |
| `Reduction.UnionOfTwo` | websockets/websockets/src/pulsar.rs:687-712 | Maps of disjoint feeds merge to the same in either order |
| `Pulsars.SetsAreDisjoint` | websockets/websockets/src/pulsar.rs:621-673 | No client gets a thread message from two feeds |
| `Pulsars.MergedThreads` | websockets/websockets/src/pulsar.rs:588-713 | A client has a merged thread message exactly if its own feed made one, and it is that one |
| `Pulsars.ThreadHeard` | websockets/websockets/src/pulsar.rs:588-713 | What a subscriber decodes after the merge: init first exactly if it waits, then all its feed has to send, in order |
| `Pulsars.AssignGlobalHeard` | websockets/websockets/src/pulsar.rs:716-768 | Index parts reach waiting subscribers of the global feed, its messages all of them, and no other client's message is touched |
| `Pulsars.MergeHeard` | websockets/websockets/src/pulsar.rs:773-802 | Every client hears what was queued for it, then the server-wide messages once |
| `Pulsars.PulseHeard` | websockets/websockets/src/pulsar.rs:529-586 | What every client hears in a pulse; clients outside the snapshot have no entry |
| `Keyings.AsWrittenExact` | websockets/websockets/src/pulsar.rs:563-570 | As written, a thread client hears what is due to it exactly if the same is due to the client numbered like its thread: both are on one feed and both or neither wait, or on feeds with the same to send and neither waits, or nothing is due to either |
| `Keyings.PulseAsWrittenExact` | websockets/websockets/src/pulsar.rs:563-570 | A pulse as written is right for all clients exactly if that holds for every client on a thread |
| `Keyings.InitAsWrittenExact` | websockets/websockets/src/pulsar.rs:563-570 | As written, a client on a known thread hears its init message first exactly if the client numbered like the thread is on it and waits, and any init message exactly if that client waits for one |
| `Keyings.AsWrittenSilentExact` | websockets/websockets/src/pulsar.rs:563-570 | As written, a thread client hears nothing of any feed exactly if nothing is due to the client numbered like its thread |
| `Keyings.RunAsWrittenExact` | websockets/websockets/src/pulsar.rs:563-570 | Over every run during which a client stays on a thread, the code as written gives it what it should hear at every step exactly if at every pulse the same is due to the client numbered like the thread |
| `Keyings.AsWrittenSendsNothing` | websockets/websockets/src/pulsar.rs:563-570 | If no client is numbered like a feed in use, thread clients hear nothing of their feeds |
| `Pulsars.PulseKeepsOk` | websockets/websockets/src/pulsar.rs:529-713 | A pulse keeps the invariant of the dispatcher |
| `Dispatch.StepKeepsOk` | websockets/websockets/src/pulsar.rs:428-526 | Every operation keeps the invariant |
| `Dispatch.RunKeepsOk` | websockets/websockets/src/pulsar.rs:201-344 | In every reachable state a cached init message or global part exists only without pending bodies, holds the current open posts and the current recent posts plus at most posts cleaned up since; no thread feed keeps waiting clients; no unsafe node is stored or pending |
| `Dispatch.LoadedIsOk` | websockets/websockets/src/pulsar.rs:419-425 | The invariant holds after loading |
| `Dispatch.PulseForClient` | websockets/websockets/src/pulsar.rs:588-673 | In a pulse a thread client hears exactly what its feed has to send, and one init message, first, exactly if it waits |
| `Dispatch.StreamIsComplete` | websockets/websockets/src/pulsar.rs:267-344 | Over every run during which a client stays on a feed, what it hears and what is pending are what was pending and all written since: nothing lost, duplicated or reordered |
| `Dispatch.InitExactlyOnce` | websockets/websockets/src/pulsar.rs:533-549 | Over every run each subscription to a thread feed is answered by one init message, withdrawn by a move or disconnection, or still waiting, and none comes unasked |
| `Dispatch.OnlyUnknownFeedsAreAwaited` | websockets/websockets/src/pulsar.rs:533-549 | After a pulse exactly the registrations for unknown feeds remain |
| `Keyings.AsWrittenLosesInit` | websockets/websockets/src/pulsar.rs:563-570 | As written, a waiting client stops waiting, and loses its init message exactly if the client numbered like its thread does not wait too |
| `Keyings.ReachableLoss` | websockets/websockets/src/pulsar.rs:563-570 | A run from an empty server that ends so: client 1 subscribes to thread 2 and, whatever the schedule of the pulse, stops waiting and hears no init message |
| `Dispatch.IndexIsServed` | websockets/websockets/src/pulsar.rs:716-768 | If any feed exists, a client waiting for the index and still on it hears first one part per feed, serving its new data, and nobody waits after |
| `Dispatch.IndexWaitsForFeeds` | websockets/websockets/src/pulsar.rs:556-559 | Without feeds, clients waiting for the index are kept waiting |
| `Dispatch.EverythingHeardIsSafe` | websockets/websockets/src/pulsar.rs:309-344 | No client is ever sent a pending node or embed of an open post |
| `Dispatch.BodiesAreSafe` | websockets/websockets/src/pulsar.rs:327-337 | The parser and differ meet what the invariant needs of them, whatever the lookups do |
| `Dispatch.WireDelivers` | websockets/websockets/src/pulsar.rs:578-584 | Decoding the bytes written to a client gives the serialised events it is said to hear, in order |
| `Dispatch.AcceptedTextExact` | websockets/websockets/src/body/mod.rs:40-42 | Of all texts a client may hold exactly those of at most 2000 bytes are parsed; among them all ASCII ones whose count is right |
| `Dispatch.AcceptedTextDropped` | websockets/websockets/src/body/mod.rs:40-42 | More than 1000 two-byte characters are accepted from the client and dropped by the next pulse |
| `Dispatch.PulseReturnsExact` | websockets/websockets/src/pulsar.rs:309-337 | A pulse as written returns exactly if no pending body it diffs has a text reversed behind a common prefix; with the intended differ it always does |
| `Dispatch.CleanUpExact` | websockets/websockets/src/pulsar.rs:516-526 | The elapsed-time threshold keeps what a creation-time threshold would exactly if no recent post lies between the two, and drops nothing exactly if all posts are newer than it |
| `Views.SeenAgain` | websockets/websockets/src/pulsar.rs:281-306 | Hearing a stream of events a second time changes nothing |
| `Views.RequestIsShown` | websockets/websockets/src/pulsar.rs:447-506 | The events of a request tell all it does to the open posts |
| `Views.StepSettles` | websockets/websockets/src/pulsar.rs:428-526 | In every reachable state what is pending is already part of the open posts |
| `Views.PulseBringsUpToDate` | websockets/websockets/src/pulsar.rs:632-673 | After a pulse the view of a client on a known feed is exactly the thread's open posts, times and images |
| `Views.ViewsConverge` | websockets/websockets/src/pulsar.rs:588-673 | Over every run during which a client stays on a feed, its view lacks exactly what is pending, or its init message is still due; events repeated after an init message do no harm |
| `Views.LoadedIsSettled` | websockets/websockets/src/pulsar.rs:419-425 | It is so after loading |
| `IndexStreams.ReduceTotal` | websockets/websockets/src/pulsar.rs:687-712 | However the feeds are reduced, each message to the index arrives as often as feeds sent it |
| `IndexStreams.ChangesReachIndex` | websockets/websockets/src/pulsar.rs:281-306 | Of the patches exactly those of the thread's own post and of the last five posts kept are written for the index, in order |
| `IndexStreams.RequestReachesIndex` | websockets/websockets/src/pulsar.rs:281-306 | Every new post, and images of the thread's own post and of the last five kept, are written for the index |
| `IndexStreams.IndexClientHears` | websockets/websockets/src/pulsar.rs:716-768 | Under either keying: besides init parts and notices, a client on the index hears exactly what the feeds send to it |
| `IndexStreams.IndexStreamIsComplete` | websockets/websockets/src/pulsar.rs:716-768 | Under either keying: over every run during which a client stays on the index, it hears each event as often as it was pending or written for the index, less as often as it still is |
| `IndexStreams.IndexDelayExact` | websockets/websockets/src/pulsar.rs:596-601 | A pulse holds a feed's messages to the index back exactly if there are any, nobody is on the feed and nobody waits for the index |
| `IndexStreams.IndexInits` | websockets/websockets/src/pulsar.rs:716-768 | Under either keying: a client on the index hears one init message per feed exactly if it waits for them, and else none |
| `IndexStreams.IndexInitExactlyOnce` | websockets/websockets/src/pulsar.rs:533-559 | Under either keying: over every run each subscription to the index is answered in one pulse, withdrawn by a move or disconnection, or still owed, and none is answered unasked |
| `IndexPosts.LargestFiveExact` | websockets/websockets/src/pulsar.rs:267-273 | A post is among the five kept exactly if fewer than five of those seen have larger IDs |
| `IndexPosts.RunKeeps` | websockets/websockets/src/pulsar.rs:267-273 | Over every run in which a thread's post IDs grow, exactly the last five posts its feed has seen are kept apart |
| `IndexPosts.PartExact` | websockets/websockets/src/pulsar.rs:223-264 | The part for the index holds exactly the listed posts: the thread's own and those with fewer than five larger IDs among the posts seen |
| `IndexPosts.RequestExact` | websockets/websockets/src/pulsar.rs:302-304 | New posts are always written for the index, images exactly if their post is open and listed |
| `IndexPosts.PulsePatchesExact` | websockets/websockets/src/pulsar.rs:302-344 | Of the patches a pulse writes for a thread exactly those of listed posts are written for the index |
| `IndexPosts.LoadedKnows` | websockets/websockets/src/pulsar.rs:174-188 | At start-up a thread's feed has seen the newest of its recent posts only |
| `IndexPosts.IndexShowsLastFive` | websockets/websockets/src/pulsar.rs:223-264 | After any run from start-up, with growing post IDs, a client that waits for the index hears of each thread its own post and the last five of those made since and the newest recent one at start-up: the open ones exactly, the recent ones but for posts cleaned up since. For threads made in the run these are the last five of all posts |
| `Histories.BodyAfterDiff` | websockets/websockets/src/pulsar.rs:309-344 | After a round of diffing an open post holds the tree of the text that waited for it, if that parses and differs, and else its old body; nothing else of the data changes |
| `Histories.RunIsHeld` | websockets/websockets/src/pulsar.rs:267-344 | After every run a feed holds of each post exactly what requests, clean-ups and pulses say: creation time, image, the tree of the last text seen by a pulse while somebody was on the thread or waited for the index, the text come since, and whether it is recent |
| `Histories.TextIsSettled` | websockets/websockets/src/pulsar.rs:309-344 | A text not followed by another becomes its post's body with the first pulse that works on the thread and stays it; until then it waits |
| `Histories.LastTextIsShown` | websockets/websockets/src/pulsar.rs:309-344 | With a differ that finds no difference exactly on equal trees, the post then holds the tree of that text, or the body it had if the text does not parse |
| `Histories.DifferTellsApart` | websockets/websockets/src/body/diff.rs:4-41 | The intended differ is of that kind; the differ as written is, on pairs on which it returns |
| `Histories.PatchLeads` | websockets/websockets/src/pulsar.rs:309-344 | Every patch a pulse writes leads from the body of one of the thread's open posts before it to the one after it, wherever the differ is right, and only there |
| `Histories.ChangedBodyIsPatched` | websockets/websockets/src/pulsar.rs:309-344 | Every body a pulse changes has such a patch |
| `ThreadNotices.PulseTells` | websockets/websockets/src/pulsar.rs:773-802 | Under either keying: every connected client hears all pending notices of new threads, in order |
| `ThreadNotices.EveryThreadIsTold` | websockets/websockets/src/pulsar.rs:428-444 | Under either keying: over every run during which a client stays connected it hears of every new thread once, in order, with its ID, time and subject, but for those no pulse has seen yet |
| `Dispatcher.CollectChanges` | websockets/websockets/src/pulsar.rs:312-334 | One change for each pending text of an open post that parses to a tree with a difference, with that tree and that difference, all computed before any is applied; the loop agrees with the specification |
| `Dispatcher.WriteChanges` | websockets/websockets/src/pulsar.rs:335-342 | Applies all changes and writes their patches; the loop agrees with the specification |
| `Dispatcher.DiffOpenBodies` | websockets/websockets/src/pulsar.rs:309-344 | Every open post ends with the tree of its pending text if that parses and differs, and else with its old body; the loop agrees with the specification |
| `Dispatcher.ProcessFeed` | websockets/websockets/src/pulsar.rs:594-689 | One feed's share of a pulse; the loop agrees with the specification |
| `Dispatcher.AggregateFeedMessages` | websockets/websockets/src/pulsar.rs:588-713 | All feeds' shares, reduced in some order; the loop agrees with the specification |
| `Dispatcher.AssignThreadMessages` | websockets/websockets/src/pulsar.rs:561-570 | The loop as written, keyed by thread; the loop agrees with the specification |
| `Dispatcher.AssignGlobalFeedMessages` | websockets/websockets/src/pulsar.rs:716-768 | Global messages inserted over the thread messages; the loop agrees with the specification |
| `Dispatcher.MergeServerWideMessages` | websockets/websockets/src/pulsar.rs:773-802 | Server-wide messages appended to every client's; the loop agrees with the specification |
| `Dispatcher.Take` | websockets/websockets/src/pulsar.rs:533-549 | The drainer of the registrations; the loop agrees with the specification |
| `Dispatcher.PulsarThread.InsertThread` | websockets/websockets/src/pulsar.rs:428-444 | Adds a feed with its first post and a server-wide notice |
| `Dispatcher.PulsarThread.OnThread` | websockets/websockets/src/pulsar.rs:474-513 | Handles a request on a thread's feed after clearing caches, or does nothing for an unknown thread |
| `Dispatcher.PulsarThread.CleanUp` | websockets/websockets/src/pulsar.rs:516-526 | Drops expired recent posts in every feed |
| `Dispatcher.PulsarThread.Snapshot` | websockets/websockets/src/pulsar.rs:533-549 | Moves registrations of known feeds from the registry to the dispatcher |
| `Dispatcher.PulsarThread.SendMessages` | websockets/websockets/src/pulsar.rs:529-586 | One pulse: new state of registry and dispatcher, and every client's message, as specified for the code as written |
| `Handoff.StepKeepsInv` | websockets/bindings.go:63-106 | Every step keeps each buffer owned by exactly one party until it is unreferenced |
| `Handoff.EveryRunOwnsOnce` | websockets/bindings.go:63-106 | In every interleaving no buffer is unreferenced twice, and one is exactly when its courier finished and nobody is writing it |
| `Handoff.RunsAreBounded` | websockets/websockets.go:153-184 | Without new work the goroutines take a bounded number of steps |
| `Handoff.NextStep` | websockets/websockets.go:153-184 | While a reference is owned some goroutine has an enabled step towards dropping it |
| `Handoff.CancellationFreesCouriers` | websockets/bindings.go:74-79 | After cancellation every blocked sender can finish, and drops its reference once |
| `Handoff.QuiescentIsReleased` | websockets/websockets.go:92-117 | Once no goroutine can move, every buffer was unreferenced exactly once |
| `Handoff.ClientEndsExact` | websockets/websockets.go:153-184 | Once no goroutine can move, a client has ended and is unregistered exactly if its registration failed, it was handed a close, a write failed or it was cancelled; otherwise it is registered and waits for messages |
| `Handoff.AliveOnceRegistered` | websockets/websockets.go:188-207 | A client is up after its registration exactly if that did not fail |
| `Handoff.MessagesArrive` | websockets/bindings.go:63-85 | Once no goroutine can move, every message for a client that exists was handed to it, unless the client was cancelled |
| `Handoff.BufferedChannelLeaks` | websockets/websockets.go:93-100 | With a buffering channel a buffer can be leaked |
| `Handoff.UnbufferedIsNecessary` | websockets/websockets.go:93-100 | Every run ends with all buffers released exactly if the channel does not buffer |
| `Handoff.AllocateId` | websockets/websockets.go:188-207 | The first ID after the counter that is not in use, around any overflow, as long as there is one |
| `Ordering.HandedOnce` | websockets/bindings.go:63-85 | Only outstanding messages are handed over, and each once |
| `Ordering.OrderExact` | websockets/bindings.go:63-85 | A client is sure to be handed its messages in the order they were written exactly while at most one is outstanding |
| `Ordering.PulsesMayOvertake` | websockets/websockets/src/pulsar.rs:65-70 | Waiting for the writes to return does not keep pulses apart: the second one's message may be handed over first |
| `Scheduler.NewRelativeTime` | client/src/time/scheduler.rs:97-124 | Future exactly if the time lies ahead; the largest unit that fits into the distance, or seconds; and the whole units in it, as far as they fit a byte |
| `Scheduler.RelativeExact` | client/src/time/scheduler.rs:97-124 | The same of the specification; whole units always fit a byte between times of the 32-bit clock |
| `Scheduler.Divisor` | client/src/time/scheduler.rs:159-173 | The accumulated divisor is the unit's length in seconds |
| `Scheduler.NextStartExact` | client/src/time/scheduler.rs:159-173 | The next update lies in the future exactly if the unit now is in ends before 2^32, and is then the unit's end |
| `Scheduler.InsertIsExact` | client/src/time/queue.rs:12-27 | Insertion keeps the queue sorted and adds exactly the value |
| `Scheduler.InsertPlace` | client/src/time/queue.rs:12-27 | A value goes behind the leading ticks due no later, so behind those due at the same time |
| `Scheduler.DueIsExact` | client/src/time/queue.rs:50-63 | On a sorted queue the leading due ticks are all due ticks |
| `Scheduler.RemoveIsExact` | client/src/time/queue.rs:29-42 | Removal keeps the order and takes out exactly one tick of the subscriber, if any |
| `Scheduler.QueueIterator.Next` | client/src/time/queue.rs:96-105 | One call of the iterator: it yields the value of its node and stays there |
| `Scheduler.ItemAsWritten` | client/src/time/queue.rs:96-105 | Every call yields the first tick |
| `Scheduler.ItemOfNodes` | client/src/time/queue.rs:96-105 | Going on to the next node would yield the ticks in order, then end |
| `Scheduler.IterationExact` | client/src/time/queue.rs:96-105 | Iteration ends, and likewise agrees with going from node to node, exactly on the empty queue |
| `Scheduler.LoopTurns` | client/src/time/scheduler.rs:227-244 | If refreshing brings every tick into the future at last, the loop of a timer tick makes exactly as many turns as the ticks need |
| `Scheduler.TickEndsExact` | client/src/time/scheduler.rs:227-244 | The loop of a timer tick ends exactly if every tick in the queue lies in the future after at most six refreshes, as many as there are units |
| `Scheduler.TickNeverEnds` | client/src/time/scheduler.rs:227-244 | A post of September 2020 seen at 4292352000 keeps the loop going for ever |
| `Scheduler.LeavesExact` | client/src/time/scheduler.rs:159-173 | A tick ever gets into the future exactly if it does within six refreshes, and a due one exactly if one of these finds a unit of time that ends before 2^32 |
| `Scheduler.TickConserves` | client/src/time/scheduler.rs:227-244 | With or without wrap-around, where the loop ends: the queue holds exactly the ticks as they left, all in the future, and the responses are exactly those of each tick for every time it was due |
| `Scheduler.NoWrapExact` | client/src/time/scheduler.rs:227-244 | Without wrap-around that is one response for each tick due, in order |
| `Scheduler.AnswersAreAccurate` | client/src/time/scheduler.rs:227-244 | Every response of a timer tick shows its own subscriber's time, as seen when the update was due |
| `Scheduler.TimerScheduler.Insert` | client/src/time/queue.rs:45-47 | Inserts into the queue |
| `Scheduler.TimerScheduler.Pop` | client/src/time/queue.rs:58-63 | Takes the head |
| `Scheduler.TimerScheduler.RefreshTick` | client/src/time/scheduler.rs:278-282 | Answers one subscriber and schedules its next tick |
| `Scheduler.TimerScheduler.ServeHead` | client/src/time/scheduler.rs:227-244 | Serves the first due tick |
| `Scheduler.TimerScheduler.ServeDue` | client/src/time/scheduler.rs:227-244 | Where it ends, the loop makes exactly the specified turns and sends exactly their responses |
| `Scheduler.TimerScheduler.OnTick` | client/src/time/scheduler.rs:215-245 | Where it ends: every tick was answered each time it was due and put back as it left, all are in the future; every response shows its subscriber's own time as of when it was due; without wrap-around each due subscriber got exactly one response, in order |
| `Scheduler.TimerScheduler.Register` | client/src/time/scheduler.rs:248-258 | Answers a new subscriber at once and schedules its tick |
| `Scheduler.TimerScheduler.Remove` | client/src/time/scheduler.rs:285-287 | Takes a subscriber out of the queue |
| `Scheduler.TimerScheduler.ChangeTimestamp` | client/src/time/scheduler.rs:253-256 | Answers a subscriber at once with its new time, which alone it has a tick for afterwards |
| `Decimal.UnsignedRoundTrip` | client/src/state.rs:544-612 | Printed numbers parse back |
| `Decimal.I32RoundTrip` | client/src/state.rs:544-612 | Printed signed numbers parse back |
| `Strings.SplitUndoesJoin` | client/src/state.rs:544-560 | Splitting undoes joining of parts without the separator |
| `Locations.FeedRoundTrip` | client/src/state.rs:544-612 | The feed part of a path parses back |
| `Locations.FocusRoundTrip` | client/src/state.rs:570-612 | The focus part of a path parses back |
| `Locations.RoundTrip` | client/src/state.rs:544-612 | Parsing the path and hash of a location gives it back, for any u64 thread, i32 page and focus |

## Left out

- DEFLATE and bincode are parameters: any compression that inverts, with any
  chunking, and any serialisation of events to typed payloads.
- RSA verification, key registration, captchas, thread and post insertion, post
  location and URL matching are parameters of the steps that call them;
  highlighting, commands, dice and embeds are oracles returning nodes or none.
- Encoding errors, which the source logs as impossible, do not occur.
- Validation of thread and post creation requests (subject, tags, name, tripcode
  and spam score) is one flag of the environment.
- The random choices of hash map order, of rayon's reduction shape and of its
  swaps are arguments, and results hold for all of them.
- Feeds are values in the dispatcher's map, since the map owns them; aliasing
  does not arise. The binary heap of last posts is its ascending content.
- The Go and Rust hand-off is a state machine on values; memory, locks and
  pointers behind it are not modelled.
- Thread and post IDs come from the database: new threads are taken to be fresh and
  not zero, client IDs fresh, and loaded bodies free of pending nodes.
- Convergence of bodies: patch messages do not name their post, and an init
  message already holds what they change.
- Views.ViewsConverge: concerns open posts without their bodies, for that reason.
- Clients.RunKeepsCount: states one direction; Clients.RunDriftExact has both.
- Codec.RoundTrip: parts of 2^32 bytes and more are excluded, because their length
  prefix wraps around to that of some other part.
- BodyTexts.TextIsKept: is about trees whose words and code blocks are shown with
  their letters; how embeds, commands and highlighting are shown is up to the
  browser.
- Scheduler.TimerScheduler.ServeDue: does not cover loops that never end; which
  these are is Scheduler.TickEndsExact.
- Scheduler.TimerScheduler.OnTick: likewise.
- Removal of threads is unimplemented in the source.
- Intervals and sleeping of the dispatcher's thread, and persistence of bodies.
- The remaining message handlers, database, cache, image, authentication,
  configuration and server code in Go, and the user interface.
