# LnaLang4U, verified

A Dafny model of the parts of the repository where state is easiest to get wrong, with
proofs over all inputs and all runs:

- the Rax radix tree of the server (`Rax*.dfy`): insertion with splits, removal with
  joins, inline leaves, and the ordered iterator, over an explicit arena of nodes;
- the two-tier prefix cache of the patched SGLang (`Hi*.dfy`): splits, locks, writes and
  loads in flight, eviction on both tiers, prefetches from storage;
- the server's text machinery: the tracker of tool-call markup and the slow recogniser
  beside it (`DsmlTracker.dfy`, `DsmlPieces.dfy`, `DsmlSlow.dfy`), the incremental stream
  (`Stream*.dfy`), rendering and parsing of tool calls (`Dsml*.dfy`, `Json*.dfy`), stop
  strings (`StopScan.dfy`), the chat prompt and a reader of it (`ChatPrompt.dfy`,
  `PromptReader.dfy`);
- the server's memory: which block belongs to a tool-call id (`Tool*.dfy`), its section in
  checkpoint files (`ToolMap.dfy`), the checkpoint cache (`KvCache.dfy`), SHA-1
  (`Sha1*.dfy`);
- the queue between client threads and the worker (`JobQueue.dfy`), as a state machine
  over all interleavings;
- folded ranges of the line editor (`Folds.dfy`, `LineEditor.dfy`, `PasteText.dfy`).

Objects that the source updates in place are classes with the source's fields, loops are
loops, and each method is proved against a function or a relation on values; the laws are
then lemmas about those. `dafny verify dfyconfig.toml` checks everything.

Text is one character per byte and free of NUL, as C strings are.

## Model

| member | source | states |
|---|---|---|
| Rax.Rax.constructor | Lang4-sm120/rax.c:248-260 | A new tree denotes the empty map; its one node, its counters and its arena agree. |
| Rax.Rax.LowWalk | Lang4-sm120/rax.c:559-620 | The walk stops where the string first leaves the tree: in a node, between the bytes of a compressed node, or on an inline value, with the path and the parent links that lead there. |
| RaxWalk.StoppedLookup | Lang4-sm120/rax.c:559-620 | What the tree holds for the string can be read off the place where the walk stopped, for every tree and string. |
| Rax.Rax.Find | Lang4-sm120/rax.c:1101-1117 | Over every reachable tree the result is that of the abstract map: the stored value, or none. |
| Rax.Rax.GenericInsert | Lang4-sm120/rax.c:629-1083 | Whatever split, compression or inline-leaf change it takes, the map becomes the old map with the key set (kept if present and not overwriting); the new/old flag and the previous value are exact; counters, sorted edges, inline bits and node count stay exact. |
| Rax.Rax.Insert | Lang4-sm120/rax.c:1087-1089 | The map with the key set, for every tree and key. |
| Rax.Rax.TryInsert | Lang4-sm120/rax.c:1094-1096 | The map with the key set only if it was missing. |
| Rax.Rax.RemoveCleanup | Lang4-sm120/rax.c:1226-1265 | Climbing from an emptied node removes exactly the chain that holds nothing, and reports that joining may be tried exactly if one child is left. |
| Rax.Rax.TryCompress | Lang4-sm120/rax.c:1370-1465 | Joining a chain keeps the map; it writes past the node size limit exactly if the joined bytes are more than the limit. |
| Rax.Rax.Remove | Lang4-sm120/rax.c:1269-1465 | Found flag and previous value are exact; the map loses exactly the key and every invariant holds again, unless the joining overruns; it overruns if and only if the tree before the call meets a stated condition, and never while all other keys fit in one node. |
| RaxOverrun.ForkOverruns | Lang4-sm120/rax.c:1399-1440 | A whole failing family: in any tree that holds exactly two keys that part after 1 to 65534 bytes, one of them ending one byte past the fork and the other having more than 65535 bytes, removing the shorter one overruns. |
| Rax.LongKeysOverrun | Lang4-sm120/rax.c:1399-1440 | A run from the empty tree that reaches the overrun: insert two keys, remove the second. |
| RaxJoin.ShortKeysFit | Lang4-sm120/rax.c:1399-1440 | While every key has at most 65535 bytes no chain of any tree for these keys is too long to join. |
| RaxShrink.ScansAgree | Lang4-sm120/rax.c:1389-1440 | The guarded first scan and the unguarded second scan see the same chain exactly if all of it fits in one node. |
| RaxIteration.RaxIterator.Seek | Lang4-sm120/rax.c:1899-2108 | For every tree, operator and key the iterator stands on the least key above, the greatest below, the key itself, the first or the last, or is at the end exactly if there is none; stops inside compressed nodes and on inline leaves included. |
| RaxIteration.RaxIterator.Next | Lang4-sm120/rax.c:1680-1785 | The next key is the least of the greater ones; the end is reported exactly if there is none. |
| RaxIteration.RaxIterator.Prev | Lang4-sm120/rax.c:1803-1893 | The previous key is the greatest of the smaller ones; the end is reported exactly if there is none. |
| RaxIteration.Forward | Lang4-sm120/rax.c:1899-2123 | Seek with any operator and then repeated next gives every key from the seek point on, each once, in strictly rising byte order, each with its value; an unknown operator is refused. |
| RaxIteration.Backward | Lang4-sm120/rax.c:1899-2138 | The same downward with repeated prev. |
| RaxOrder.ClimbMeetsAll | Lang4-sm120/rax.c:2113-2123 | A climb by least-greater steps through an upward closed set of keys meets all of it in strictly rising order. |
| RaxOrder.SinkMeetsAll | Lang4-sm120/rax.c:2128-2138 | The same downward. |
| HiRadix.HiRadixCache.constructor | sglang-diskkv/hiradix_cache_patched.py:252-257 | The empty cache: nothing on either tier, all slots free, no locks. |
| HiRadix.HiRadixCache.SplitNode | sglang-diskkv/hiradix_cache_patched.py:909-934 | A split leaves the text of every node, the slots of every prefix, all locks and in-flight transfers as they were; both halves carry the lock count. |
| HiRadix.HiRadixCache.MatchPrefix | sglang-diskkv/hiradix_cache_patched.py:770-805 | Splitting as it goes, it keeps the meaning of the tree; the device indices are the slots of the longest resident prefix, and with the host hit length they reach the longest match in the tree; the device node stands at the end of the resident part, and the host node is the nearest one with a host copy on the way up from the match: none between has one. |
| HiRadix.HiRadixCache.Insert | sglang-diskkv/hiradix_cache_patched.py:936-1005 | The returned length is that of the longest prefix that was resident; every later page gets exactly the given slot, earlier ones keep theirs; unless the request is chunked, each page of that prefix counts one hit more and no other resident page does, and pages new to the tree count one hit; host copies, slots and locks stay consistent, through splits, restored evicted nodes and write-through; nodes held on the host stay and no foreign slot enters the host pool. |
| HiHits.UnhitStays | sglang-diskkv/hiradix_cache_patched.py:909-934 | Steps that leave keys and counts of resident nodes alone leave the hits of every resident page. |
| HiHits.SplitUnhit | sglang-diskkv/hiradix_cache_patched.py:909-934 | After a split every page has the hits it had. |
| HiRadix.HiRadixCache.WriteBackup | sglang-diskkv/hiradix_cache_patched.py:288-309 | A copy is made if and only if the free host pages and those that could be freed, on the host alone with no holder at or below their node, are enough for the node; then the node has the copy and is locked under its own ticket, else neither; no page counts a hit. |
| HiRadix.HiRadixCache.IncHitCount | sglang-diskkv/hiradix_cache_patched.py:324-333 | The pages of the node count one hit more unless the request is chunked, and no other resident page does; the node is written to the host if and only if it has no copy there, its hits reach the threshold and there is or can be made room. |
| HiRadix.HiRadixCache.AckWrite | sglang-diskkv/hiradix_cache_patched.py:335-376 | The ack gives back exactly the lock its write took. |
| HiRadix.HiRadixCache.AckLoad | sglang-diskkv/hiradix_cache_patched.py:378-391 | The ack gives back exactly the lock its load took. |
| HiRadix.HiRadixCache.IncLockRef | sglang-diskkv/sglang-source/python/sglang/srt/mem_cache/radix_cache.py:589-602 | Every node from the given one to the root counts one hold more; the sizes move between evictable and protected by the returned amount. |
| HiRadix.HiRadixCache.DecLockRef | sglang-diskkv/sglang-source/python/sglang/srt/mem_cache/radix_cache.py:604-623 | The inverse for the hold that is given back. |
| HiRadix.HiRadixCache.EvictBackuped | sglang-diskkv/hiradix_cache_patched.py:457-463 | Device slots return to the pool, as many as the device tier and the evictable size lose; the host copy stays, and the parent becomes a candidate exactly if no child is resident. |
| HiRadix.HiRadixCache.EvictRegular | sglang-diskkv/hiradix_cache_patched.py:465-470 | Device slots return to the pool, as many as the device tier and the evictable size lose; the host tier is unchanged if and only if the node had no children. |
| HiRadix.HiRadixCache.Evict | sglang-diskkv/hiradix_cache_patched.py:411-455 | Whatever the order of victims, it frees as many slots as the device tier loses, stops only at the requested amount or with nothing evictable left, never takes a held prefix, and loses a host copy if and only if a resident, not backed up prefix of it went. |
| HiRadix.HiRadixCache.EvictHost | sglang-diskkv/hiradix_cache_patched.py:472-500 | Whatever the order of victims, only evicted leaves go that nobody holds on the host; as many pages come free as could be freed and no longer can; it stops only when the requested pages came free or none can be freed; the last leaf taken was still needed, and host slots are conserved. |
| HiRoom.ThinnedIdle | sglang-diskkv/hiradix_cache_patched.py:472-500 | Thinning out the host frees exactly pages that could be freed: on the host alone, with no holder at or below their node. |
| HiRoom.NoneIdle | sglang-diskkv/hiradix_cache_patched.py:472-500 | When no evicted leaf without holders is left, no page at all can be freed. |
| HiRadix.HiRadixCache.LoadBack | sglang-diskkv/hiradix_cache_patched.py:502-558 | A load takes place if and only if what is missing reaches the threshold, stays within the quota, and fits in the free device pages and those evictable without the path itself - all of the state before the call; then exactly the missing end of the path gets fresh device slots, is locked under its own ticket, and resident prefixes that stay keep their slots; else nothing but eviction happens. |
| HiRadix.HiRadixCache.InsertHelperHost | sglang-diskkv/hiradix_cache_patched.py:847-881 | Pages from storage get the given host slots exactly from the end of the longest match on, and the returned length is that match. |
| HiPrefetch.Start | sglang-diskkv/hiradix_cache_patched.py:807-845 | A prefetch reserves host slots for all its pages if and only if the free ones and those that could be freed off the way to its node are enough; it evicts only if too few are free; its node is held and stays; free, shown and reserved slots add up as before. |
| HiPrefetch.InsertMeanwhile | sglang-diskkv/hiradix_cache_patched.py:936-1005 | An insertion with all its splits, write-throughs and host evictions leaves a prefetch under way: its node is in the tree and held, and its slots are nobody else's. |
| HiPrefetch.Finish | sglang-diskkv/hiradix_cache_patched.py:700-758 | Of the slots of a prefetch the ones for pages the tree already had go to the pool, the ones up to the agreed length are exactly those shown for the new pages, the ones between agreed and completed length are queued, and the node is let go. |
| HiPrefetch.Abort | sglang-diskkv/hiradix_cache_patched.py:1032-1046 | A prefetch that is given up changes nothing but its hold, and all its slots are still its own, to be freed. |
| HiPrefetch.Drain | sglang-diskkv/hiradix_cache_patched.py:645-652 | Queued slots go back to the pool, and every slot stays in one place. |
| HiPrefetch.Run | sglang-diskkv/hiradix_cache_patched.py:700-845 | From start to the last queued slot, refused, aborted or finished, no host slot is lost and the node is held as often as before; what was fetched is in the tree. |
| HiSafety.HeldStays | sglang-diskkv/hiradix_cache_patched.py:288-558 | In every reachable state each prefix of a held text - a request, a write or a load in flight, split or not - is resident, has a positive lock count and is no candidate for eviction. |
| HiSafety.TiersNest | sglang-diskkv/hiradix_cache_patched.py:288-558 | In every reachable state a resident node has a resident parent, and a node that is not resident has a host copy and no lock. |
| HiSafety.SizesAddUp | sglang-diskkv/hiradix_cache_patched.py:393-410 | Evictable and protected size are never negative and add up to the number of resident pages. |
| HiOrphan.OrphanRun | sglang-diskkv/hiradix_cache_patched.py:465-470 | For every key of two pages or more: a prefetch of it ends after another request put its first page on the device, then one page is evicted; all pages that were on the host are gone from the tree, and of the host pool, which was complete before, one slot is left. |
| DsmlTracker.Tracker.Update | Lang4-sm120/ds4_server.c:3646-3785 | The object's loop computes the one-shot scan of the text from the state it was in; what class that scan gives is told from the text alone by DsmlPieces.MessageTells and TellsIff. |
| DsmlTracker.Resume | Lang4-sm120/ds4_server.c:3646-3785 | Scanning a text and then a longer one equals scanning the longer one at once, unless the first stopped torn. |
| DsmlTracker.SplitsUnlessTorn | Lang4-sm120/ds4_server.c:3646-3785 | Cutting the text here is harmless for every continuation if and only if the scan of the first part is not torn: it does not wait in payload on a final less-than sign. |
| DsmlTracker.ChunksDoNotMatter | Lang4-sm120/ds4_server.c:3646-3785 | Any number of updates leaves the full state of one update on the whole text, if no cut is torn. |
| DsmlTracker.ChunksMayMatter | Lang4-sm120/ds4_server.c:3646-3785 | For every torn cut some continuation leads to a different state. |
| DsmlTracker.ExampleTorn | Lang4-sm120/ds4_server.c:3646-3785 | A concrete text, a tool call cut after the less-than sign of its value, that is torn. |
| DsmlClass.StringOpen | Lang4-sm120/ds4_server.c:3671-3687 | In a string value whose close tag has not come the class is payload, unless the text ends in two bytes or more of that tag: then it is syntax. |
| DsmlClass.JsonOpen | Lang4-sm120/ds4_server.c:3689-3720 | In a literal the class is that of a JSON string exactly if an odd number of unescaped quotes has come, else JSON structure, or syntax if the text ends in two bytes or more of the close tag. |
| DsmlPieces.MessageTells | Lang4-sm120/ds4_server.c:3646-3785 | For every list of calls written as a block, any text without a start tag before it, any text after it and every cut: before the start tag is complete and after the end tag the class is outside, in a tag it is syntax, in a string value payload, in a literal by its quotes, if every string's kind can be read and every literal's quotes are paired. |
| DsmlPieces.TellsIff | Lang4-sm120/ds4_server.c:3646-3785 | The class is right at every cut of the message if and only if no string argument has a key ending in string= and no literal has an unpaired quote. |
| DsmlPieces.JsonTrackable | Lang4-sm120/ds4_server.c:3689-3720 | A literal that is a JSON value always meets that condition, even with the close tag written as an escape in it. |
| DsmlPieces.Watch | Lang4-sm120/ds4_server.c:3646-3785 | A tracker that is updated with each chunk has, after the last, the class that the text alone gives, if no chunk before it ended torn. |
| DsmlSlow.SuffixPartial | Lang4-sm120/ds4_server.c:3514-3524 | The loop finds whether the text ends in a part of the tag of at least so many bytes. |
| DsmlSlow.ScanJson | Lang4-sm120/ds4_server.c:3526-3553 | The loop over a literal computes its class from the text. |
| DsmlSlow.StateForText | Lang4-sm120/ds4_server.c:3556-3622 | The loop of the slow recogniser, which looks at all of the text, computes its specified class. |
| DsmlSlow.TrackerIsSlow | Lang4-sm120/ds4_server.c:3511-3785 | The tracker gives the class of the slow recogniser on every text in which no finished literal has its first close tag inside quotes. |
| DsmlSlow.QuotedDiffers | Lang4-sm120/ds4_server.c:3603-3612 | A family on which they differ: after any text that opens a literal, a close tag in quotes, the close tag and the end of the block are the end for the tracker, and not for the slow recogniser. |
| Json.EscapeText | Lang4-sm120/ds4_server.c:2558-2604 | The loop writes the escaped text of every string. |
| Json.ReadString | Lang4-sm120/ds4_server.c:209-251 | The loop reads exactly the string that a quoted text spells, escapes and surrogate pairs included, or refuses it. |
| Json.StringRoundTrip | Lang4-sm120/ds4_server.c:2558-2604 | Reading back an escaped string gives the string and stops at its closing quote, whatever follows (section 7 of RFC 8259). |
| JsonEscapes.EncodedIs | Lang4-sm120/ds4_server.c:177-195 | Bytes encode a code point in the shortest form (section 3 of RFC 3629, surrogates allowed) if and only if they are the bytes written for it. |
| JsonEscapes.DigitIs | Lang4-sm120/ds4_server.c:170-175 | A hexadecimal digit has the value of its place among the digits, in either case. |
| JsonEscapes.PiecesRead | Lang4-sm120/ds4_server.c:209-251 | What every string of characters and escapes is read as, to its closing quote: a high surrogate takes the next escape of four digits with it, whatever that is. |
| JsonEscapes.StringReads | Lang4-sm120/ds4_server.c:209-251 | A string of characters, one-letter escapes and escapes of four digits is read as what it stands for (section 7 of RFC 8259) if and only if no high surrogate comes before an escape of four digits that is no low surrogate. |
| Json.JsonParts | Lang4-sm120/ds4_server.c:2558-2604 | Escaping in pieces equals escaping at once, so arguments may be streamed. |
| Json.TextIsClean | Lang4-sm120/ds4_server.c:2558-2604 | No control character is left in escaped text. |
| JsonArgs.ParseArgs | Lang4-sm120/ds4_server.c:1713-1756 | The loop reads the members of an object in order, or refuses the text. |
| JsonArgs.LiteralStands | Lang4-sm120/ds4_server.c:2718-2729 | Which values of other kind than string are written so that they are read back whole before any comma or closing brace: exactly the empty one and those that start with a JSON value that is not a string. |
| JsonArgs.ObjectCanonical | Lang4-sm120/ds4_server.c:1713-1756 | Whatever text is read as an object, every literal in the result is a value without needless spaces. |
| JsonNumber.NumberStop | Lang4-sm120/ds4_server.c:253-261 | A number, in any form the C library takes, is read the same before everything that cannot belong to a number. |
| JsonValue.SkipAny | Lang4-sm120/ds4_server.c:343-356 | The recursive descent with its loops over array items and object members skips exactly the specified value, or refuses it. |
| JsonValue.SkipNest | Lang4-sm120/ds4_server.c:293-341 | The same for one array or object, up to the nesting limit. |
| JsonGrammar.SkippedIsJson | Lang4-sm120/ds4_server.c:284-360 | A text is skipped up to a place if and only if it is space and a tree of the grammar of section 2 of RFC 8259 up to there - lists with commas between items and none after the last, names and colons exactly in objects - nested no deeper than allowed. |
| JsonGrammar.TreeSkips | Lang4-sm120/ds4_server.c:284-360 | Every such tree is skipped to its end, with any space where the grammar allows it. |
| JsonGrammar.DecimalRead | Lang4-sm120/ds4_server.c:253-261 | Every number of section 6 of RFC 8259 is read to its end. |
| JsonValue.Minify | Lang4-sm120/ds4_server.c:374-399 | The loop drops exactly the spaces outside strings of the value at the start, and returns a text that has none unchanged. |
| JsonSqueeze.SqueezeValue | Lang4-sm120/ds4_server.c:343-356 | A value is skipped to its end whatever may follow it, whether its spaces are kept or dropped, at every depth. |
| JsonSqueeze.MinifiedReads | Lang4-sm120/ds4_server.c:374-399 | A value written without spaces is a value, is read to its end whatever may follow it, and writing it so again changes nothing. |
| JsonSqueeze.StrippedTwice | Lang4-sm120/ds4_server.c:374-399 | Dropping the spaces outside strings twice is dropping them once. |
| JsonSqueeze.NestingLimit | Lang4-sm120/ds4_server.c:284-356 | Nested arrays are skipped if and only if they are at most 256 deep. |
| JsonArgs.ObjectRoundTrip | Lang4-sm120/ds4_server.c:2718-2729 | Arguments written as a JSON object come back in order, strings byte for byte and literals without needless spaces, if and only if every literal is empty or starts with a JSON value that is not a string. |
| JsonArgs.QuotedDiffers | Lang4-sm120/ds4_server.c:2718-2729 | A family on which it fails: a JSON string in a parameter that is marked as no string. |
| JsonArgs.ShortIsSame | Lang4-sm120/ds4_server.c:374-399 | They are the same arguments if and only if no literal had needless spaces. |
| JsonArgs.ReturnedSame | Lang4-sm120/ds4_server.c:1814-1877 | Calls that went to a client as JSON and came back are the same calls, and so rendered as the same block, if and only if every argument that is not a string is a JSON value without needless spaces and not a string; a text that is no object becomes one argument named arguments. |
| JsonArgs.SameRoundTrip | Lang4-sm120/ds4_server.c:1713-1756 | The same for the arguments of one call. |
| StreamText.Utf8SafeLen | Lang4-sm120/ds4_server.c:909-931 | The backward loop over continuation bytes finds the specified safe end, and everything on the final flush. |
| StreamText.Utf8SafeIs | Lang4-sm120/ds4_server.c:909-931 | In text of whole characters the limit is cut back exactly if a character goes on there, and then to its first byte. |
| StreamText.Utf8IsProper | Lang4-sm120/ds4_server.c:896-931 | Every prefix of UTF-8 text (section 4 of RFC 3629) has the property the stream needs. |
| StreamText.EntitySafeIs | Lang4-sm120/ds4_server.c:3787-3802 | The limit is cut back exactly to the start of an unfinished entity. |
| StreamText.CloseSafeIs | Lang4-sm120/ds4_server.c:3804-3819 | The limit is cut back exactly to where an unfinished closing tag starts. |
| StreamText.ParamSafeLen | Lang4-sm120/ds4_server.c:3804-3819 | The loop over the closing tag computes the safe end of a parameter value. |
| StreamText.TextSafeLimit | Lang4-sm120/ds4_server.c:4411-4450 | The loops compute how much of content or reasoning may be sent. |
| StreamText.UnescapeParts | Lang4-sm120/ds4_server.c:2677-2702 | Decoding entities in parts equals decoding at once if no entity spans the seam. |
| StreamObject.OpenaiStream.Update | Lang4-sm120/ds4_server.c:4042-4122 | The object's loops compute the specified translation of the text so far; StreamSent.DeliveredIs says what that is for all four settings, StreamHeld.UpdateWaits what may be missing. |
| StreamChunks.Resume | Lang4-sm120/ds4_server.c:3966-4122 | An update on a prefix and a final one on the whole equal one final update on the whole, from every fitting state. |
| StreamChunks.ChunksDoNotMatter | Lang4-sm120/ds4_server.c:3966-4122 | However UTF-8 text is cut into updates, after the final flush the reasoning, content, calls and argument deltas are those of a single final update. |
| StreamWhole.NothingSplit | Lang4-sm120/ds4_server.c:3787-4122 | No delta of any update ends inside a character, an entity, a closing tag or the start of a tool block, for every way the text may go on. |
| StreamWhole.PieceIsSent | Lang4-sm120/ds4_server.c:3966-4122 | The piece of text that NothingSplit speaks of is what a step adds to reasoning or content, and nothing else is added. |
| StreamWhole.ValuePiece | Lang4-sm120/ds4_server.c:3804-3964 | Inside a parameter the piece, encoded, is what a step adds to the arguments of its call, and its end adds the quote of a string. |
| StreamParse.StreamedIsParsed | Lang4-sm120/ds4_server.c:2811-2984 | The streamed reasoning and content equal those that the parser returns if and only if the text is empty, or it closes its reasoning and both find the same block. |
| StreamParse.OneBlockAgrees | Lang4-sm120/ds4_server.c:2811-2984 | With one closing think tag and one well-formed block after it they always agree. |
| StreamParse.StreamedInChunks | Lang4-sm120/ds4_server.c:2811-2984 | The same equivalence for text that came in any updates. |
| StreamParse.SpellingsDiffer | Lang4-sm120/ds4_server.c:2828-2860 | A family on which they differ: two spellings of the block start. |
| StreamParse.ReasoningDiffers | Lang4-sm120/ds4_server.c:2811-2860 | A family on which they differ: a block before the end of reasoning. |
| StreamCalls.CallsStreamed | Lang4-sm120/ds4_server.c:2862-2984 | When reasoning is closed and both find the same block, the streamed calls have the names of the parsed ones, in order, and for arguments the object of their parameters, if and only if every parameter says whether it is a string. |
| StreamCalls.CallsInChunks | Lang4-sm120/ds4_server.c:2862-2984 | The same for text that came in any updates. |
| StreamCalls.CallsFrom | Lang4-sm120/ds4_server.c:2862-2984 | The law of the calls from any state that awaits the answer, with or without reasoning before it. |
| StreamSent.DeliveredIs | Lang4-sm120/ds4_server.c:4042-4122 | For every text, with or without thinking and with or without tools: reasoning is the text between the think tags, or none; content is the text after them, up to the space before the first block if there are tools, or all of it; without a block there are no calls. |
| StreamSent.PlainText | Lang4-sm120/ds4_server.c:4042-4122 | Without thinking and tools the text itself is sent. |
| StreamSent.DeliveredInChunks | Lang4-sm120/ds4_server.c:4042-4122 | The same for text that came in any updates. |
| StreamSent.PlainCalls | Lang4-sm120/ds4_server.c:2862-2984 | Without thinking, when both find the same block, the streamed calls are the parsed ones if and only if every parameter says whether it is a string. |
| StreamSent.PlainAgrees | Lang4-sm120/ds4_server.c:2811-2984 | Without thinking, streamed and parsed content and reasoning are the same if and only if no think tag closes before the block and the block the parser takes is the first. |
| StreamSent.Feed | Lang4-sm120/ds4_server.c:4042-4122 | A new stream object that is updated with each chunk and then finished has sent what the text alone says. |
| StreamHeld.UpdateWaits | Lang4-sm120/ds4_server.c:3787-4122 | After every update that is not the last, what has not been sent is only the start of a think tag, a tag or an entity, a cut character of at most four bytes, or space before an angle in the last 80 bytes; otherwise all has been sent. |
| StreamHeld.PlainSoon | Lang4-sm120/ds4_server.c:4042-4122 | Without thinking and tools, after every update the text up to its last four bytes has been sent, in its order. |
| StreamArgs.StreamedArgs | Lang4-sm120/ds4_server.c:2718-2729 | If every parameter that is not a string is one JSON value, the streamed arguments are read as the same arguments as those of the finished message. |
| DsmlRender.AttrRoundTrip | Lang4-sm120/ds4_server.c:1758-1766 | Attribute escaping is undone by decoding, for every string. |
| DsmlRender.MaskedCloses | Lang4-sm120/ds4_server.c:1777-1801 | In masked text followed by the closing tag the first closing tag found is the real one. |
| DsmlRender.MaskedDecodes | Lang4-sm120/ds4_server.c:1777-1788 | Masking changes nothing that decoding sees. |
| DsmlRender.DecodeChanges | Lang4-sm120/ds4_server.c:2677-2702 | Decoding returns a string unchanged if and only if it spells no entity. |
| DsmlRender.MaskChanges | Lang4-sm120/ds4_server.c:1790-1801 | Masking returns a literal unchanged if and only if it does not contain the closing tag. |
| DsmlRender.AppendCalls | Lang4-sm120/ds4_server.c:1857-1877 | The loops write nothing for no calls, the remembered text if there is one, else the canonical block. |
| DsmlRoundTrip.BlockReads | Lang4-sm120/ds4_server.c:2828-2984 | A canonical block after any text is parsed: raw block, content, reasoning and every call and argument in order. |
| DsmlRoundTrip.CallsRead | Lang4-sm120/ds4_server.c:2880-2984 | The calls of a block are read in order up to its end tag. |
| DsmlRoundTrip.ArgComesBack | Lang4-sm120/ds4_server.c:1803-1812 | An argument comes back with key, value and kind if and only if, as a string, it spells no entity and its key does not end in string=, or, as a literal, it has no closing tag. |
| DsmlRoundTrip.RoundTrip | Lang4-sm120/ds4_server.c:1857-1877 | Rendering and parsing returns the same names and ordered arguments if and only if each argument meets that condition. |
| DsmlRoundTrip.KindConfused | Lang4-sm120/ds4_server.c:2704-2716 | A concrete call whose argument key is string= and whose kind is misread. |
| ToolMemory.ToolMemory.constructor | Lang4-sm120/ds4_server.c:4775-4780 | The new memory remembers nothing, and both indexes, both kinds of lists and the byte count say so. |
| ToolMemory.ToolMemory.RemoveEntry | Lang4-sm120/ds4_server.c:4858-4872 | One entry goes from list, index and its block's list; a block without entries goes; references and bytes stay exact. |
| ToolMemory.ToolMemory.Prune | Lang4-sm120/ds4_server.c:4874-4880 | The least recent entries go until both limits hold. |
| ToolMemory.ToolMemory.Put | Lang4-sm120/ds4_server.c:4889-4929 | The entry becomes the most recent, a new text under an old id replaces it, and then the limits hold. |
| ToolMemory.ToolMemory.Lookup | Lang4-sm120/ds4_server.c:4946-4955 | It finds exactly the remembered block and makes the entry the most recent. |
| ToolMemory.ToolMemory.Attach | Lang4-sm120/ds4_server.c:4983-5036 | A message gets a block back exactly if all its ids are known and belong to one block; the missing ids are counted. |
| ToolState.IndexesAgree | Lang4-sm120/ds4_server.c:4767-4929 | In every reachable state both indexes know exactly the listed ids and blocks, and a block's references are its entries. |
| ToolItems.PrunedIsLongest | Lang4-sm120/ds4_server.c:4874-4880 | What is kept is the longest run of most recent entries within both limits. |
| ToolItems.TouchedAllSame | Lang4-sm120/ds4_server.c:4946-4955 | Lookups change the order and nothing else. |
| ToolRecency.RecentFirst | Lang4-sm120/ds4_server.c:4782-4929 | After every run of puts and lookups from the empty memory the ids are in the order of their last use, and each has the block it was last given. |
| ToolRecency.OldestGoes | Lang4-sm120/ds4_server.c:4874-4880 | An id that a put forgets was used before every id that stays. |
| ToolRecency.AddedIs | Lang4-sm120/ds4_server.c:4889-4929 | A put makes its id the first, with its block; it counts as of this process if it is or was with the same block; every other id keeps block and origin. |
| ToolItems.RememberedReplays | Lang4-sm120/ds4_server.c:4957-4966 | Calls remembered together are replayed byte for byte, if the memory has room for them at all. |
| ToolMap.NextBlock | Lang4-sm120/ds4_server.c:5387-5412 | The loop over the six spellings finds the block with the smallest start. |
| ToolMap.BestIsFirst | Lang4-sm120/ds4_server.c:5387-5412 | It is a block, and no closed block of any spelling starts before it. |
| ToolMap.Write | Lang4-sm120/ds4_server.c:5432-5501 | Declared count and byte total of the first pass are those of what the second pass writes: each remembered block of the text once, with all its ids. |
| ToolMap.LoadSection | Lang4-sm120/ds4_server.c:5503-5537 | The loop reads the pairs of a section, or stops at the first record it cannot take. |
| ToolMap.LoadOfSection | Lang4-sm120/ds4_server.c:5503-5537 | Reading a written section gives the pairs up to the first unreadable one, and nothing if there are more than four times the entries the memory holds. |
| ToolMap.PairsAre | Lang4-sm120/ds4_server.c:5432-5501 | Exactly the ids of the remembered blocks that stand in the text are written, each once. |
| ToolMap.MapRestores | Lang4-sm120/ds4_server.c:5432-5537 | Into an empty memory with room the ids of the text's blocks come back with their blocks if and only if all are readable: ids of 1 to 256 bytes, blocks of at most 512 MiB; no other id appears. |
| ToolMap.MapReplays | Lang4-sm120/ds4_server.c:5432-5537 | Then a message whose ids belong to one block of the text gets that block byte for byte. |
| ToolMap.LongIdHides | Lang4-sm120/ds4_server.c:5520-5521 | Of the reader alone: an id of more than 256 bytes in a section loses itself and every later pair. |
| ToolMemory.ToolMemory.BlockIds | Lang4-sm120/ds4_server.c:5450-5456 | Walking the list of a block gives the ids of its entries. |
| ToolMemory.ToolMemory.BlockGroups | Lang4-sm120/ds4_server.c:5432-5501 | The ids of every block of the memory, by its text. |
| ToolSaved.GroupsSeparate | Lang4-sm120/ds4_server.c:4889-4929 | In every reachable memory no id belongs to two blocks and no block lists an id twice. |
| ToolSaved.NewId | Lang4-sm120/ds4_server.c:480-500 | A new id has less than 64 bytes and is not empty. |
| ToolSaved.PutStaysShort | Lang4-sm120/ds4_server.c:4889-4929 | If ids have at most 256 bytes and the limits hold, both hold after every put. |
| ToolSaved.LoadedShort | Lang4-sm120/ds4_server.c:5503-5537 | Every pair taken from a file has an id of 1 to 256 bytes. |
| ToolSaved.BytesAre | Lang4-sm120/ds4_server.c:4874-4929 | The accounted bytes depend on which ids and blocks are held, not on their order. |
| ToolSaved.MemoryRestores | Lang4-sm120/ds4_server.c:5432-5537 | For every memory the server can have and every text: after saving and loading into a new memory, exactly the ids whose block stands in the text are known, each with its block. |
| ToolSaved.MemoryReplays | Lang4-sm120/ds4_server.c:5432-5537 | A message that would get a block of the text back before a restart gets it back after. |
| ToolSaved.Restart | Lang4-sm120/ds4_server.c:5432-5537 | Saving the section, starting a new memory, loading, and attaching: the message gets the same block byte for byte. |
| KvCache.StoreLength | Lang4-sm120/ds4_server.c:5802-5811 | The stored length is the whole prompt or an aligned prefix that leaves the trim off; it reaches the minimum whenever the prompt does. |
| KvCache.GreatestStable | Lang4-sm120/ds4_server.c:5802-5811 | It is the greatest aligned length between the minimum and what the trim leaves, or the whole prompt if there is none. |
| KvCache.LowerIs | Lang4-sm120/ds4_server.c:5675-5721 | Of two files the one with fewer uses of its tokens per byte goes first, by cross multiplication, and of equals the one used earlier; a file without bytes has no uses. |
| KvCache.Step | Lang4-sm120/ds4_server.c:5813-5822 | The distance of checkpoints is the interval rounded up to the alignment. |
| KvCache.Cache.Evict | Lang4-sm120/ds4_server.c:5675-5721 | Files go until the rest is within the budget, none if it was before, never more than needed, and no file stays that is worth less than one that went. |
| KvCache.Cache.Store | Lang4-sm120/ds4_server.c:5871-6044 | Exactly when the state is that of the tokens asked for and worth a file: a matching file stays with its tool map renewed; else the file of this history - its text, tokens, size and time - is in the directory under the digest of its text when eviction starts, and only eviction takes files; if writing fails nothing is added. Otherwise nothing changes. |
| KvCache.Cache.StoreAndLoad | Lang4-sm120/ds4_server.c:5871-6193 | A stored state that eviction left is found by the next load of every prompt that starts with its text: the model's history then stands for at least that text, and the prompt handed on decodes to the request. |
| KvCache.Cache.FindPrefix | Lang4-sm120/ds4_server.c:6068-6090 | Whatever the directory order, the entry found is an eligible one with the longest text whose digest is that of the prompt's prefix. |
| KvCache.Cache.Load | Lang4-sm120/ds4_server.c:6092-6193 | After a hit the prompt handed on decodes to exactly the request's text and extends the loaded history, which stands for the longest eligible text; the used file's time and count are renewed, or the file goes if it is a long cold one, and no other changes; without digest collisions there is a hit if and only if a file is eligible. |
| KvCache.Cache.LivePrefix | Lang4-sm120/ds4_server.c:6202-6227 | The state in memory is used if and only if the request starts with its text, and then the prompt decodes to the request. |
| KvCache.Cache.Choose | Lang4-sm120/ds4_server.c:6937-6974 | The state in memory is used if and only if its text is the start of the request; else it is saved if it is worth a file, and the disk is asked: without digest collisions it answers if and only if a usable file is the start of the request, with the file of the longest text, and that use is noted; the prompt handed on decodes to the request and extends the cached tokens, and without a hit it is the tokenized request. |
| KvCache.Cache.Prefill | Lang4-sm120/ds4_server.c:6937-7048 | The same choice, and then, whatever was stored, evicted or failed, the model's history decodes to exactly the request's text and all files are sound; a cold prompt is stored at its stable length when that is due, and else the files are those of the choice. |
| KvCache.Cache.Grow | Lang4-sm120/ds4_server.c:6057-6066 | Generation appends its token; a checkpoint is stored exactly when the next one is due, as the store law says, and the mark of the last one moves only then. |
| Sha1.Context.Transform | Lang4-sm120/ds4_server.c:5192-5231 | The in-place rounds compute the compression function of section 6.1.2 of FIPS 180-4. |
| Sha1.Context.Update | Lang4-sm120/ds4_server.c:5243-5258 | Feeding appends to the message, for every length and every fill of the buffer. |
| Sha1.Context.Final | Lang4-sm120/ds4_server.c:5260-5275 | The padding loop ends, and the digest is that of the padded message; below 2^61 bytes it is the digest for every padding section 5.1.1 allows. |
| Sha1.OnePadding | Lang4-sm120/ds4_server.c:5260-5268 | Below 2^61 bytes the padding of section 5.1.1 exists, is unique, and is the one used. |
| Sha1.DigestOfParts | Lang4-sm120/ds4_server.c:5243-5275 | Any split of a message into updates gives the digest of the whole message. |
| Sha1Example.Abc | Lang4-sm120/ds4_server.c:5192-5275 | The digest of the message abc is the one that FIPS 180-4 prints, which fixes every constant and shift of the rounds. |
| Sha1.BytesHex | Lang4-sm120/ds4_server.c:5286-5293 | A checkpoint is named by the lower-case hexadecimal text of the digest of its whole text. |
| Sha1.HexTells | Lang4-sm120/ds4_server.c:5277-5284 | Different digests have different texts. |
| StopScan.Push | Lang4-sm120/ds4_server.c:822-834 | The list keeps the exact greatest length and never an empty string. |
| StopScan.FindFrom | Lang4-sm120/ds4_server.c:865-885 | The loop finds the earliest of all stop strings, and of those the first listed. |
| StopScan.WindowEnough | Lang4-sm120/ds4_server.c:7183-7195 | If the text so far has no stop string, searching the window finds the first stop string of the whole text. |
| StopScan.Generate | Lang4-sm120/ds4_server.c:7164-7287 | Whatever the pieces, the text kept is that of a full search after every piece; the bytes sent are in the end exactly that text, never a byte of a stop string; no delta but the last ends inside a character; after each piece all but the longest stop string less a byte, and a cut character of at most four bytes, has been sent. |
| StopScan.FiresFirst | Lang4-sm120/ds4_server.c:7183-7287 | The search fires with the first piece that completes a stop string and cuts at the earliest one. |
| StopScan.CutsMatterIffNested | Lang4-sm120/ds4_server.c:7183-7287 | The kept text is the same for all pieces of a text if and only if no stop string ends inside another whose start holds none. |
| StopScan.CutsMayMatter | Lang4-sm120/ds4_server.c:7183-7287 | The stop strings abc and b: after ab the text keeps its a, but abc at once keeps nothing. |
| ChatPrompt.Render | Lang4-sm120/ds4_server.c:1901-1978 | The loops compute the specified prompt of every history; PromptReader.PromptReads and HeadIs say what that is. |
| PromptReader.PromptReads | Lang4-sm120/ds4_server.c:1901-1978 | A reader that knows only the marks gets the conversation back from the prompt - every question, tool result and answer in order, with its calls, and reasoning exactly where it is to be shown - if and only if no text that is shown holds a mark or a tag that is taken for another part; and then the prompt ends by asking for an answer, with or without reasoning, exactly if one is due. |
| PromptReader.HeadIs | Lang4-sm120/ds4_server.c:1909-1929 | The head is the begin mark, the preface, and the system texts in order and the text about tools as paragraphs. |
| PromptReader.EscapedBack | Lang4-sm120/ds4_server.c:1768-1775 | An escaped tool result decodes to the result, for every text. |
| PromptReader.LastUserIs | Lang4-sm120/ds4_server.c:1915-1918 | The last question is the last message of a user or a tool. |
| PromptReader.WaitsIs | Lang4-sm120/ds4_server.c:1931-1974 | An answer is due if and only if a user or tool has spoken and the model has not since. |
| PromptReader.WaitsToolIs | Lang4-sm120/ds4_server.c:1931-1974 | A tool result joins the one before it if and only if a tool has spoken and neither user nor model since. |
| PromptReader.RenderRead | Lang4-sm120/ds4_server.c:1901-1978 | What the renderer's loops write reads back as the conversation, under that condition. |
| ChatPrompt.CheckpointSuffix | Lang4-sm120/ds4_server.c:6699-6710 | The text that turns a prompt into the prompt with its tool turn: reasoning and closing tag if thinking, content, the remembered or canonical block, and the end mark. |
| ChatPrompt.ToolCheckpoint | Lang4-sm120/ds4_server.c:6699-6710 | Prompt and suffix equal the rendering of the history with that turn if and only if the model does not think, or the turn does not change whether tools are in use, or no question was answered before. |
| ChatPrompt.FirstToolTurnDiffers | Lang4-sm120/ds4_server.c:1933-1960 | A family on which it fails: after a question, an answer and a question, the first tool turn of a thinking conversation brings old reasoning back into the rendering. |
| ChatPrompt.ThinkCheckpoint | Lang4-sm120/ds4_server.c:6712-6742 | Without tools, and while no later message adds to the system text, the prompt less its last think tag, plus the closed turn, is a prefix of a later rendering if and only if a question follows. |
| ChatPrompt.NextPromptExtends | Lang4-sm120/ds4_server.c:1901-1978 | With tools in use, or without thinking, prompt and turn are a prefix of every later prompt whose new messages add nothing to the system text. |
| ChatPrompt.SystemSame | Lang4-sm120/ds4_server.c:1909-1914 | Later messages leave the system text as it is if and only if none has a system or developer role, but for empty ones when there was no system text. |
| ChatPrompt.LaterSystemDiffers | Lang4-sm120/ds4_server.c:1909-1929 | A family on which the prefix is lost: a later system message is moved to the front, before the first question. |
| JobQueue.RunsInOrder | Lang4-sm120/ds4_server.c:7482-7522 | In every interleaving jobs run one at a time, in the order they were accepted, each at most once; no thread touches a job whose client is gone, and no client leaves before its job is done. |
| JobQueue.NothingIsMissed | Lang4-sm120/ds4_server.c:7482-7522 | When the worker has left, all accepted jobs have run and are done; a sleeping worker has nothing to do and a sleeping client is not done: no wakeup is lost. |
| JobQueue.Keeps | Lang4-sm120/ds4_server.c:7482-7522 | Every step keeps the links, the mutexes, the order and the state of each thread consistent. |
| JobQueue.SomeStep | Lang4-sm120/ds4_server.c:7495-7522 | There is no deadlock: unless all is quiet some thread can take a step. |
| JobQueue.Bounded | Lang4-sm120/ds4_server.c:7495-7522 | However the threads are scheduled, they take at most a fixed number of steps from each state. |
| JobQueue.StuckIsDone | Lang4-sm120/ds4_server.c:7725-7748 | Where no thread can go on every accepted job is done and every client has been answered and has left. |
| Folds.InsertKeeps | Lang4-sm120/linenoise.c:1138-1152 | After an insertion each surviving fold hides the bytes it hid; only the one around the place goes. |
| Folds.DeleteKeeps | Lang4-sm120/linenoise.c:1156-1171 | After a deletion each surviving fold hides the bytes it hid; exactly the touched ones go. |
| Folds.CursorMoves | Lang4-sm120/linenoise.c:998-1062 | The cursor map is monotone and within what is shown. |
| Folds.CursorSplits | Lang4-sm120/linenoise.c:998-1062 | What is shown before the cursor is what is shown of the text before it. |
| LineEditor.Editor.FoldAdd | Lang4-sm120/linenoise.c:1095-1108 | The in-place shift puts the range where its start belongs, unless all slots are used. |
| LineEditor.Editor.FoldRemove | Lang4-sm120/linenoise.c:1116-1122 | The in-place shift drops one range. |
| LineEditor.Editor.Insert | Lang4-sm120/linenoise.c:1487-1504 | Folds stay in order, apart, not empty and inside the text, and hide what they hid. |
| LineEditor.Editor.Delete | Lang4-sm120/linenoise.c:1618-1627 | The same for deleting the character or the whole fold at the cursor. |
| LineEditor.Editor.Backspace | Lang4-sm120/linenoise.c:1630-1640 | The same for the character or fold before the cursor. |
| LineEditor.Editor.DeletePrevWord | Lang4-sm120/linenoise.c:1644-1659 | The same for a word; the cursor ends after a space or at the start. |
| LineEditor.Editor.MoveLeft | Lang4-sm120/linenoise.c:1540-1545 | The cursor moves, and over a whole fold in one step. |
| LineEditor.Editor.MoveRight | Lang4-sm120/linenoise.c:1548-1553 | The same to the right. |
| LineEditor.Editor.Paste | Lang4-sm120/linenoise.c:1776-1853 | A paste is inserted with its line ends made one and, if long or of several lines, under a fold of exactly its bytes; what does not fit is dropped as a whole. |
| LineEditor.Editor.Render | Lang4-sm120/linenoise.c:998-1062 | What is shown is the gaps and markers in order, with the cursor in it. |
| PasteText.ReadPaste | Lang4-sm120/linenoise.c:1789-1815 | The matcher without back-tracking reads exactly up to the first end marker. |
| PasteText.NormalizedIs | Lang4-sm120/linenoise.c:1824-1837 | No carriage return is left, text without one is unchanged, and text stays non-empty. |

## Where the code falls short

Each has an input that shows it and the exact condition under which the code is right.

- Joining nodes after a removal can write more bytes than a node may have: the second scan
  (`Lang4-sm120/rax.c:1426`) does not repeat the guard of the first
  (`Lang4-sm120/rax.c:1399`). Input: `Rax.LongKeysOverrun`, and the family
  `RaxOverrun.ForkOverruns`. Condition: `Rax.Rax.Remove` overruns if and only if
  `RaxOverrun.Overruns` holds of the tree before the call; keys of at most 65535 bytes never
  do (`RaxJoin.ShortKeysFit`).
- Evicting a resident node that is not backed up forgets host copies below it
  (`sglang-diskkv/hiradix_cache_patched.py:465-470`). Input: `HiOrphan.OrphanRun`.
  Condition: `HiRadix.HiRadixCache.EvictRegular` keeps the host tier if and only if the node
  has no children; over a whole `Evict` a host copy is lost if and only if a resident prefix
  of it without a host copy goes, so a host copy all of whose resident prefixes are backed up
  before the call is safe.
- A tracker update that ends on a less-than sign inside payload can end in another state
  than a single update (`Lang4-sm120/ds4_server.c:3646-3785`). Input:
  `DsmlTracker.ExampleTorn`. Condition: `DsmlTracker.SplitsUnlessTorn`.
- The tracker calls a string argument whose key ends in `string=` a literal, and does not see
  the end of a literal with an unpaired quote. Condition: `DsmlPieces.TellsIff`; a literal that
  is a JSON value has none (`DsmlPieces.JsonTrackable`).
- The slow recogniser goes on behind the first close tag of a literal even if that stands in
  quotes (`Lang4-sm120/ds4_server.c:3603-3612`), and the tracker does not. Input:
  `DsmlSlow.QuotedDiffers`. They agree where `DsmlSlow.TrackerIsSlow` says.
- In a JSON string a high surrogate takes the next escape of four digits with it even if that
  is no low one (`Lang4-sm120/ds4_server.c:232-236`), so one character is lost. Condition:
  `JsonEscapes.StringReads`.
- A message that holds one of the marks of the prompt reads as more turns than it is.
  Condition: `PromptReader.PromptReads`.
- An argument whose key ends in `string=`, a string that spells an entity, and a literal
  with the closing tag do not survive rendering and parsing. Input:
  `DsmlRoundTrip.KindConfused`. Condition: `DsmlRoundTrip.ArgComesBack` and
  `DsmlRoundTrip.RoundTrip`.
- Streamed and parsed message can differ. Inputs: `StreamParse.SpellingsDiffer`,
  `StreamParse.ReasoningDiffers`. Condition: `StreamParse.StreamedIsParsed` for reasoning and
  content, `StreamCalls.CallsStreamed` for the calls, and `StreamSent.PlainAgrees` and
  `StreamSent.PlainCalls` for answers without thinking.
- A stop string inside another makes the kept text depend on the token pieces. Input:
  `StopScan.CutsMayMatter`. Condition: `StopScan.CutsMatterIffNested`.
- The rewritten tool turn is not the next prompt's rendering if it is the first use of tools
  in a thinking conversation that has answers already. Input:
  `ChatPrompt.FirstToolTurnDiffers`. Condition: `ChatPrompt.ToolCheckpoint`. While the request
  declares tools the condition holds; but a message is parsed for calls whether or not it does
  (`Lang4-sm120/ds4_server.c:3007`), and any call found is enough for the rewriting
  (`Lang4-sm120/ds4_server.c:7367`), so a model that writes a block unasked reaches the failure.
- A system or developer message that comes after the first turn is rendered at the front, so
  the evaluated prompt no longer starts the next one. Input: `ChatPrompt.LaterSystemDiffers`.
  Condition: `ChatPrompt.SystemSame` says when the front stays, and then
  `ChatPrompt.NextPromptExtends` and `ChatPrompt.ThinkCheckpoint` hold.
- An argument marked as no string whose text is not a JSON value, or is a JSON string, does not
  come back from the JSON object it is written into. Input: `JsonArgs.QuotedDiffers`.
  Condition: `JsonArgs.LiteralStands` and `JsonArgs.ObjectRoundTrip`.

`ToolMap.LongIdHides` is a fact about the reader of checkpoint sections that the server cannot
meet: an id is made in 64 bytes (`Lang4-sm120/ds4_server.c:5051-5056`), or was read under the
same limit, and so every remembered id can be read again (`ToolSaved.PutStaysShort`,
`ToolSaved.LoadedShort`, `ToolSaved.MemoryRestores`).

## Left out

- Rax: padding and realloc (a node keeps its address when it is rewritten), running out of
  memory, the random walk, the defragmentation callback, printing and touching. The header's
  leaf bitmap is a row of 13 booleans. A slot word is either a value or a node address by its
  constructor, so a stored value is taken never to be mistaken for an address; in C the same
  bits could be both, and only the bitmap tells them apart.
- Rax: no claim of greatest compression; removing the key of a compressed node never tries to
  join (`Lang4-sm120/rax.c:1316`). The iterator is taken not to see changes of its tree.
- RaxIteration.RaxIterator.Next: asks for an iterator that a known operator has placed, as the
  source does not define the rest.
- HiRadixCache: the `write_back` policy, collectives between ranks, the storage backend with
  its prefetch timing and metrics, priorities (victims may come in any order), extra keys; a
  page stands for the unit of a key. Acks come one id at a time. Finding leaves of the base
  class is finding nodes without children.
- HiPrefetch: when a prefetch may start and when it ends (rate limit, threshold, time), hits in
  storage and the transfer itself are parameters; slots that the transfer threads queue are
  drained with the others.
- HiPrefetch.Finish: asks for the node to be in the tree still. No insertion and no eviction from
  the host takes it out (`HiPrefetch.InsertMeanwhile`, `HiRadix.HiRadixCache.EvictHost`), but the
  eviction of a resident node above it that is not backed up can cut it off, as
  `HiOrphan.OrphanRun` shows for pages.
- Stream: text beyond the given length, ids of tool calls, event framing; the Anthropic form of
  the stream.
- DsmlSlow.TrackerIsSlow: one direction only; behind a close tag in quotes the slow recogniser
  reads other text, and may by chance come to the same class.
- StreamArgs.StreamedArgs: one direction only; the reader takes a comma before a closing brace,
  so a last value that ends in a comma is read the same although it is not one value.
- JSON: values of numbers (only their extent is modelled), and the C locale is taken.
- Chat prompt: the wording of the tool section and of the preface for longest thinking are
  parameters; parsing of requests is left out, and so are the thinking tracker that decides
  whether a turn is rewritten and the session calls that do it.
- Tool memory: the two radix indexes are maps here; that the tree is a map is the Rax part.
  Record sizes are those of a 64-bit machine.
- KvCache: the least length of a file is positive, as the command line demands
  (`Lang4-sm120/ds4_server.c:8033-8034`).
- KvCache: bytes of the file header, damaged files, failing deletion, a failing prefill, and
  times; tokenizer and model are parameters, the tokenizer with the law that its tokens spell the
  text.
- KvCache.Cache.Evict: scores are exact fractions, not doubles.
- JobQueue: the count of clients that the final shutdown waits for, and failing thread creation.
- LineEditor: lengths of characters are parameters that stay inside the text, as they do for
  well-formed UTF-8; the two arrays of a fold are one array of pairs; recall from history, mask
  mode and drawing are left out.
- Sockets, HTTP, logging, tracing, command line, the engine and its kernels, the Python gateway
  and the benchmarks: no state of the kind proved here, or code that is not part of this model.
