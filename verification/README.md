# Client-server architecture: verified models

A Dafny model of the two cores of the repository, with proofs.

**The JSON codec and tree** (`external/cJSON/cJSON.c`). Values, their printed text and
the parse of a text are functions (`Json.dfy`, `JsonString.dfy`, `JsonNumber.dfy`,
`Unicode.dfy`). What is proved about them is in `JsonStringProofs.dfy`,
`JsonSpelling.dfy`, `JsonNumerals.dfy`, `JsonGrammar.dfy`, `JsonLayout.dfy`,
`JsonRoundTrip.dfy` and `JsonReprint.dfy`. The parser, the printer, duplication,
comparison and the list operations are imperative and work on an explicit C memory: a
pointer is an address, a node is a cell of the memory, `NULL` is 0, and allocation and
freeing change the memory (`CMemory.dfy`, `CHeap.dfy`, `ParseStringPasses.dfy`,
`ParseBuffer.dfy`, `PrintBuffer.dfy`, `CListOps.dfy`, `CLists.dfy`, `CDuplicate.dfy`,
`CCompare.dfy`, `JsonEndToEnd.dfy`). A ghost `Tree` says which nodes belong to a value;
`Held` and `Linked` say that the memory stores it with every `child`, `next` and `prev` as
it must be, `head->prev` being the last sibling.

**The server** (`src/server`). The tables, the lockout, the stock cache, the sessions, the
event queues and alerts are functions on one `State`, and an input takes a state to the next
(`Tables.dfy`, `Authentication.dfy`, `StockCache.dfy`, `EventQueue.dfy`, `Server.dfy`). The
classes `Storage`, `Authenticator`, `Inventory`, `SessionManager`, `EventQueue` and
`ServerProcess` are the mutable objects; each method is proved to do what the function says.
What is replied is in `ServerReplies.dfy`. What holds over whole runs is proved about the
functions (`ServerSessions.dfy`, `ServerConnections.dfy`, `ServerHistory.dfy`,
`ServerLedger.dfy`, `ServerLocks.dfy`, `ServerLockout.dfy`, `ServerCache.dfy`,
`ServerIsolation.dfy`, `ServerDeletion.dfy`, `ServerProvenance.dfy`,
`ServerDelivery.dfy`), and `ServerProcess.Serve` connects the objects with runs. The thread
pool and the cache under concurrency are machines of atomic steps (`ThreadPool.dfy`,
`CacheInterleaving.dfy`, `CacheConflicts.dfy`).

Main results:

- A text is accepted, with a given value, if and only if it is derived from a document of the
  JSON grammar, with any blanks between the tokens (`AcceptsExactly`).
- The printed text is, token by token, that of the compact or the formatted layout
  (`LayoutExact`).
- Parsing undoes printing, in both layouts, exactly for values nested at most 1000 deep whose
  strings hold no NUL (`RoundTripExact`), also on nodes and buffers (`PrintAndParse`); whatever
  is parsed at all can be printed and parsed again (`Reprint`).
- Printing into a fixed buffer succeeds exactly when it has two bytes more than the text.
- The second pass over a string literal never writes more than the first pass allocated,
  although malformed `\u` escapes put the two out of step (`OutputFits`).
- However a string is spelled, it is read as the UTF-8 of its characters.
- A failed parse or copy leaves the memory as it was. A copy is new memory only, and has the
  same value exactly when no string holds a NUL, since strings are copied up to there.
- Append, insert, detach, delete and replace are the sequence operations on child lists;
  appending is so exactly for an item whose `next` is NULL, or to an empty list.
- Comparison is symmetric, and decides equality up to member order exactly when members of one
  name agree.
- Wrong passwords are slowed to three per block time while times fit in 31 bits, and not at all
  afterwards; alert locks hold until the administrator unlocks; every row has a provenance.
- A client's stock replies are the same in a run without the messages of the other clients'
  sessions, if none of these takes a lock off the client or makes it a user; and these are
  exactly the messages that a later reply can depend on (`LeftOutExactly`).
- An active session's connection is open exactly when no read error has come up on it.
- The cache answers like the table in every serial run, and in every interleaving with one
  operation in flight per client. Two operations of one client may be in flight at once if and
  only if they are not updates of one item to different quantities, or an update and a get of
  one item.
- Who is connected, logged in and active, at which address, with which rows and which history,
  and what is queued for and sent to each user, is read off the inputs and the replies of a run
  (`ServerHistory.dfy`, `LedgerOverRuns`, `SentOverRuns`).
- Queued alerts are conserved; the thread pool starts tasks in order, at most once.

## Model

| member | source | states |
|---|---|---|
| `JsonString.Hex4` | external/cJSON/cJSON.c:570-594 | 0 to 0xFFFF, and 0 when one of the four bytes is no digit |
| `JsonString.HexValueExact` | external/cJSON/cJSON.c:570-594 | the digits 0 to 9, a to f and A to F, and no others, have the values of a literal table |
| `JsonSpelling.UEscapeHex4` | external/cJSON/cJSON.c:570-594 | the code of a `\u` escape is what four digits of that table make to the base 16 |
| `ParseStringPasses.ParseHex4` | external/cJSON/cJSON.c:570-594 | the loop over four bytes, stopping with 0 at the first that is no digit, computes `Hex4` |
| `Unicode.FromPair` | external/cJSON/cJSON.c:629-646 | the code point of a surrogate pair is beyond the basic plane and gives both halves back |
| `Unicode.Utf8ReadsBack` | external/cJSON/cJSON.c:651-690 | decoding the UTF-8 bytes of any code point up to 0x10FFFF gives that code point |
| `ParseStringPasses.EncodeUtf8` | external/cJSON/cJSON.c:651-690 | the shifting loop and the length mark write exactly the UTF-8 of the code point behind what is already there |
| `ParseStringPasses.LiteralToUtf8` | external/cJSON/cJSON.c:598-694 | one or two `\u` escapes become their UTF-8 and 6 or 12 bytes are used; 0 exactly for a bad or unpaired escape |
| `ParseStringPasses.FindEnd` | external/cJSON/cJSON.c:708-734 | the first pass finds the closing quote exactly if there is one, and counts the escapes before it |
| `ParseStringPasses.UnescapeStep` | external/cJSON/cJSON.c:738-784 | one round of the second pass writes what the escape or byte stands for, or fails on an unknown escape |
| `ParseStringPasses.Unescaped` | external/cJSON/cJSON.c:729-788 | the second pass stays inside an array of exactly the estimated size, for every literal, and yields the unescaped string |
| `JsonStringProofs.OutputFits` | external/cJSON/cJSON.c:708-785 | size estimate: what is written from any point is at most what is left of the literal less the escapes still counted, also when the passes are out of step |
| `JsonStringProofs.StepFits` | external/cJSON/cJSON.c:738-784 | no single step writes more than it uses up of the estimate |
| `JsonStringProofs.LiteralFits` | external/cJSON/cJSON.c:598-694 | the same for `\u` escapes, including malformed ones that swallow a backslash |
| `JsonStringProofs.StringTextReadsBack` | external/cJSON/cJSON.c:697-917 | parsing the printed literal of any string gives the string as a C reader sees it and ends right behind it |
| `JsonSpelling.SpellingIndependence` | external/cJSON/cJSON.c:570-803 | section 7 of RFC 8259: every mixture of raw UTF-8, the eight short escapes, `\u` in either hex case and surrogate pairs, given by literal tables, is read as the UTF-8 of the characters |
| `JsonSpelling.UnpairedSurrogateRejected` | external/cJSON/cJSON.c:612-649 | section 2.2 of RFC 2781: a lone or reversed surrogate escape is rejected wherever in a literal it comes up |
| `JsonSpelling.UnpairedBehindText` | external/cJSON/cJSON.c:612-649 | the same behind every well-spelled text, whatever follows |
| `JsonSpelling.ShortEscapeExact` | external/cJSON/cJSON.c:738-784 | the eight short escapes and what they stand for, and no others |
| `JsonSpelling.UnknownEscapeRejected` | external/cJSON/cJSON.c:738-784 | any other escape is rejected wherever it comes up |
| `JsonSpelling.UnclosedRejected` | external/cJSON/cJSON.c:708-734 | a literal that the buffer ends in is rejected |
| `JsonSpelling.MalformedReads` | external/cJSON/cJSON.c:598-694 | a `\u` escape with a byte that is no digit is read as NUL |
| `JsonNumber.StrtodOfIntText` | external/cJSON/cJSON.c:275-362 | reading back the decimal text of any integer uses all of it and gives the integer |
| `JsonNumber.ToIntExact` | external/cJSON/cJSON.c:345-354 | the saturating conversion to `int` is exact on 32-bit integers |
| `JsonNumber.ToIntTruncates` | external/cJSON/cJSON.c:345-354 | the conversion to `int` goes towards zero and saturates at both ends |
| `JsonNumber.RunEnd` | external/cJSON/cJSON.c:288-319 | the bytes taken for a number are the longest run of number bytes |
| `JsonNumerals.StrtodReads` | external/cJSON/cJSON.c:275-362 | a number with digits, point and exponent is read whole and has exactly its decimal value |
| `JsonNumerals.StrtodSound` | external/cJSON/cJSON.c:275-362 | whatever is read as a number is one |
| `Json.SkipBlanks` | external/cJSON/cJSON.c:933-951 | skipping bytes up to 32 never moves back, in spite of the step back at the end of the buffer, and stays inside |
| `Json.ParseValue` | external/cJSON/cJSON.c:1174-1219 | terminates on every byte string and depth; a success strictly advances and stays within the length |
| `Json.ParseNumber` | external/cJSON/cJSON.c:275-362 | a success strictly advances and stays within the length |
| `Json.ParseArray` | external/cJSON/cJSON.c:1287-1368 | a success is below the nesting limit, runs from an opening bracket to a closing one and stays within the length |
| `Json.ParseObject` | external/cJSON/cJSON.c:1424-1522 | a success is below the nesting limit, runs from an opening brace to a closing one and stays within the length |
| `ParseBuffers.ParseBuffer.SkipWhitespace` | external/cJSON/cJSON.c:933-951 | the loop sets the offset to `SkipBlanks` of it |
| `ParseBuffers.ParseBuffer.ParseStringItem` | external/cJSON/cJSON.c:697-809 | both passes together store the parsed string in the node, or leave the memory alone |
| `ParseBuffers.ParseBuffer.ParseNumberItem` | external/cJSON/cJSON.c:275-362 | stores the number in the node, or leaves the memory alone |
| `ParseBuffers.ParseBuffer.ParseValueItem` | external/cJSON/cJSON.c:1174-1219 | succeeds exactly when the pure parse does and then stores its value below the node; a failure leaves the memory as it was; depth is restored and never exceeds 1000 |
| `ParseBuffers.ParseBuffer.ParseArrayItem` | external/cJSON/cJSON.c:1287-1368 | the same for arrays, refused without a bracket: the children are new, linked both ways, and freed again on failure |
| `ParseBuffers.ParseBuffer.ParseElements` | external/cJSON/cJSON.c:1314-1342 | the loop over the items builds the chain of the parsed items |
| `ParseBuffers.ParseBuffer.ParseObjectItem` | external/cJSON/cJSON.c:1424-1522 | the same for objects, refused without a brace |
| `ParseBuffers.ParseBuffer.ParseMemberList` | external/cJSON/cJSON.c:1450-1497 | the loop over the members builds the chain of the parsed members |
| `ParseBuffers.ParseBuffer.ParseMemberItem` | external/cJSON/cJSON.c:1468-1496 | one member: its name and value are stored in the node |
| `ParseBuffers.Parse` | external/cJSON/cJSON.c:981-1048 | a non-NULL result exactly when the text parses, a new well-linked tree with its value and the end of the parse; otherwise nothing is leaked |
| `JsonGrammar.AcceptsExactly` | external/cJSON/cJSON.c:981-1048 | a text is parsed as a value, up to its last byte, if and only if it is a byte order mark or none, blanks, a document with that value nested at most 1000 deep, blanks and a NUL |
| `JsonGrammar.TextReads` | external/cJSON/cJSON.c:981-1048 | what may stand in front of a document and behind it, with and without the required NUL; anything else behind it is refused |
| `JsonGrammar.TextSound` | external/cJSON/cJSON.c:981-1048 | whatever is parsed is a document up to where the parse ended |
| `JsonGrammar.DocReads` | external/cJSON/cJSON.c:1174-1522 | a document, with any blanks between its tokens, is parsed to its value anywhere in a buffer |
| `JsonGrammar.DocOf` | external/cJSON/cJSON.c:1174-1522 | every value that is parsed is that of a document at its place |
| `JsonGrammar.PrintedReads` | external/cJSON/cJSON.c:981-1048 | printed text is parsed with any blanks around it and a mark in front, and refused with anything else behind it |
| `JsonRoundTrip.ValueReadsBack` | external/cJSON/cJSON.c:1174-1618 | the printed text of a value, anywhere in a buffer, is read back as the value, for both layouts and every depth that is left |
| `JsonRoundTrip.TooDeepFails` | external/cJSON/cJSON.c:1292-1294 | text nested deeper than the limit is always refused |
| `JsonRoundTrip.RoundTrip` | external/cJSON/cJSON.c:981-1618 | parsing printed text gives the value with strings cut at NUL and consumes exactly the text, if and only if nesting is at most 1000 |
| `JsonRoundTrip.RoundTripExact` | external/cJSON/cJSON.c:981-1618 | the same value comes back if and only if nesting is at most 1000 and no string or name holds a NUL |
| `JsonReprint.ParsedDepth` | external/cJSON/cJSON.c:1174-1522 | a parse that succeeds from some depth gives a value that fits below the nesting limit from there |
| `JsonReprint.Reprint` | external/cJSON/cJSON.c:981-1618 | for every accepted text whose numbers are 32-bit integers: printing the value and parsing that, in either layout, gives it with strings cut at NUL, and doing so again changes nothing |
| `PrintBuffers.PrintBuffer.Ensure` | external/cJSON/cJSON.c:425-492 | grants exactly when offset, need and one more byte fit into the limit, keeps what is written, and grows the buffer only if allowed |
| `PrintBuffers.PrintBuffer.UpdateOffset` | external/cJSON/cJSON.c:495-503 | `strlen` moves the offset to the end of what was written, as it holds no NUL |
| `PrintBuffers.PrintBuffer.Measure` | external/cJSON/cJSON.c:836-856 | the first pass counts length and escape bytes |
| `PrintBuffers.PrintBuffer.StoreString` | external/cJSON/cJSON.c:858-916 | the second pass writes exactly the quoted, escaped string and its NUL, inside what was granted |
| `PrintBuffers.PrintBuffer.PrintString` | external/cJSON/cJSON.c:812-923 | appends the literal, if and only if it fits with two more bytes |
| `PrintBuffers.PrintBuffer.PrintNumber` | external/cJSON/cJSON.c:512-567 | appends the decimal text of a 32-bit integer, if and only if it fits with two more bytes |
| `PrintBuffers.PrintBuffer.PrintValue` | external/cJSON/cJSON.c:1222-1284 | appends exactly the pure printer's text, if and only if every value has a JSON kind and the text fits with two more bytes; nothing before it changes |
| `PrintBuffers.PrintBuffer.PrintArray` | external/cJSON/cJSON.c:1371-1421 | the same for arrays; `LayoutExact` says what the text is |
| `PrintBuffers.PrintBuffer.PrintElements` | external/cJSON/cJSON.c:1391-1410 | the same for the loop over the items |
| `PrintBuffers.PrintBuffer.PrintObject` | external/cJSON/cJSON.c:1525-1618 | the same for objects |
| `PrintBuffers.PrintBuffer.PrintMembers` | external/cJSON/cJSON.c:1548-1601 | the same for the loop over the members |
| `PrintBuffers.PrintPreallocated` | external/cJSON/cJSON.c:1156-1171 | exact capacity: for a tree of JSON kinds, a buffer of n bytes is enough if and only if n is at least the text's length plus 2; then it holds text, NUL and its old rest |
| `PrintBuffers.PrintBuffered` | external/cJSON/cJSON.c:1129-1154 | the text does not depend on the initial size; it fails only for NULL, an invalid kind, a negative size or text beyond the size limit |
| `PrintBuffers.Print` | external/cJSON/cJSON.c:1061-1119 | exactly the text and a NUL, shrunk to fit; NULL for NULL and invalid kinds |
| `JsonLayout.LayoutExact` | external/cJSON/cJSON.c:1222-1618 | the text is that of the tokens: compact, or with a space behind each comma of an array, and in an object a newline behind the brace and each member, the tabs of the depth in front of it and a tab behind its colon |
| `JsonLayout.LengthExact` | external/cJSON/cJSON.c:1371-1618 | the formatted text is longer by exactly these blanks |
| `JsonLayout.QuotedExact` | external/cJSON/cJSON.c:812-923 | a string is written in quotes up to its first NUL, with seven short escapes and the other control characters as `\u00xx` |
| `JsonLayout.IntTextExact` | external/cJSON/cJSON.c:512-567 | an integer is written with a minus if it is negative and its digits, the first of them not zero |
| `JsonEndToEnd.PrintAndParse` | external/cJSON/cJSON.c:981-1119 | on nodes: printing and parsing again gives a second tree in new memory with the same value to C readers, if and only if it fits and is nested at most 1000 deep |
| `CCompare.CutNormal` | external/cJSON/cJSON.c:2596-2701 | cutting strings at NUL makes no difference to comparison |
| `CHeap.Heap.New` | external/cJSON/cJSON.c:218-225 | a zeroed node at an address that was free |
| `CHeap.Heap.Delete` | external/cJSON/cJSON.c:228-246 | frees exactly the nodes of the siblings and all their children |
| `CDuplicate.Duplicator.Duplicate` | external/cJSON/cJSON.c:2359-2431 | the copy has only new nodes, is linked at every level and is the original with strings and names cut at NUL; the original is unchanged; it fails exactly beyond 10000 levels and then leaks nothing |
| `CDuplicate.Duplicator.DuplicateItem` | external/cJSON/cJSON.c:2355-2357 | the same from the top, NULL for NULL; a shallow copy has the cut data and no children; a deep copy has the same value if and only if no string or name holds a NUL |
| `CDuplicate.Duplicator.DuplicateChildren` | external/cJSON/cJSON.c:2397-2421 | the loop over the children keeps the chain of cut copies |
| `CDuplicate.AlikeValue` | external/cJSON/cJSON.c:173-189 | the value of a copy is the value with strings cut at NUL, so the same if and only if there is no NUL |
| `CDuplicate.CopyCutsAtNul` | external/cJSON/cJSON.c:2378-2391 | the copy of a string with a NUL in it, as the parser makes of an escaped one, has another value |
| `CListOps.AppendRing` | external/cJSON/cJSON.c:1706-1755 | appending to a ring of siblings gives the ring with the new one last if and only if the ring is empty or the new one has no `next` |
| `CListOps.AppendedCycle` | external/cJSON/cJSON.c:1706-1755 | a concrete item with a `next` that makes the list run in a circle |
| `CListOps.InsertRing` | external/cJSON/cJSON.c:1995-2009 | inserting gives the ring with the new one at its position, also at the head |
| `CListOps.DetachRing` | external/cJSON/cJSON.c:1927-1947 | detaching gives the ring without that sibling, wherever it is |
| `CListOps.ReplaceRing` | external/cJSON/cJSON.c:2021-2046 | replacing gives the ring with the replacement in its place, also for a single sibling |
| `CLists.GetArraySize` | external/cJSON/cJSON.c:1621-1639 | the number of children, 0 for NULL |
| `CLists.GetArrayItem` | external/cJSON/cJSON.c:1641-1663 | the child at the index, NULL if there is none |
| `CLists.AddItemToArray` | external/cJSON/cJSON.c:1730-1760 | the list with the item at its end, every link closed, if and only if the list is empty or the item has no `next`; refused exactly for NULL or the array itself; nothing changes but links of the list's nodes |
| `CLists.InsertItemInArray` | external/cJSON/cJSON.c:1984-2010 | the list with the item at the position, or at the end when the position is beyond it, if and only if it is inserted before a child or can be appended; inserted into its own list, the array has no child list any more |
| `CLists.DetachItemViaPointer` | external/cJSON/cJSON.c:1922-1949 | the list without the item, which is then in no list and has its own children as before |
| `CLists.DetachItemFromArray` | external/cJSON/cJSON.c:1951-1957 | the same by index, NULL exactly when there is no such item |
| `CLists.DeleteItemFromArray` | external/cJSON/cJSON.c:1959-1961 | the same, and exactly the item's nodes are freed; of the others only links in the list change |
| `CLists.ReplaceItemViaPointer` | external/cJSON/cJSON.c:2012-2049 | the list with the replacement in the item's place, whose nodes, and no others, are freed |
| `CLists.ReplaceItemInArray` | external/cJSON/cJSON.c:2051-2057 | the same by index; of other nodes only links in the list change |
| `CCompare.GetObjectItem` | external/cJSON/cJSON.c:1665-1691 | the first child of that name, NULL if a child without a name comes before it or there is none |
| `CCompare.CompareDoubleTolerance` | external/cJSON/cJSON.c:506-509 | two numbers are told apart exactly when they differ by more than one part in 2^52 of either |
| `CCompare.CompareDoubleExact` | external/cJSON/cJSON.c:506-509 | on 32-bit integers the comparison with tolerance is equality |
| `CCompare.CompareNodes` | external/cJSON/cJSON.c:2596-2701 | the node comparison terminates, in spite of swapped arguments, and returns `Compare` of the trees; false for NULL |
| `CCompare.CompareElements` | external/cJSON/cJSON.c:2646-2665 | the loop over two lists decides that they have one length and equal items |
| `CCompare.CompareMembers` | external/cJSON/cJSON.c:2667-2693 | one pass decides that each member is equal to the first of its name on the other side |
| `CCompare.CompareDecides` | external/cJSON/cJSON.c:2596-2701 | trees without common nodes compare equal if and only if in both members of one name agree and their values are equal up to member order |
| `CCompare.CompareProper` | external/cJSON/cJSON.c:2596-2701 | trees of one memory, overlapping or the same, with distinct names in each object: equal if and only if the values are, up to member order |
| `CCompare.CompareValue` | external/cJSON/cJSON.c:2596-2701 | trees of one memory that compare equal have one value, up to member order |
| `CCompare.CompareSound` | external/cJSON/cJSON.c:2596-2701 | trees of one memory whose members of one name agree compare equal if and only if the values are equal |
| `CCompare.CompareSymmetric` | external/cJSON/cJSON.c:2596-2701 | symmetry, for all trees |
| `CCompare.CompareTransitive` | external/cJSON/cJSON.c:2596-2701 | transitivity, for all trees of one memory with 32-bit integers, whether or not members of one name agree |
| `CCompare.CompareCopy` | external/cJSON/cJSON.c:2596-2701 | a tree equals its copy, cut at NUL, if and only if members of one name agree |
| `CCompare.DuplicateNames` | external/cJSON/cJSON.c:2667-2693 | an object with two different members of one name is not equal to its own copy |
| `Tables.LatestSorted` | src/server/storage.cpp:301-328 | the history is the client's inventory entries, each as often as in the log, the latest first |
| `Tables.LatestStable` | src/server/storage.cpp:301-328 | entries of one time stay in the order of the log |
| `Tables.Int32` | src/server/storage.cpp:243 | the stored time as it is read into an `int`: in range, congruent modulo 2^32, and the same exactly for 32-bit values |
| `Storages.Storage.SaveStockUpdate` | src/server/storage.cpp:102-128 | inserts or overwrites one row; refused, with nothing changed, for a client that is no user |
| `Storages.Storage.GetStock` | src/server/storage.cpp:130-152 | the row's quantity, if there is a row |
| `Storages.Storage.GetFullInventory` | src/server/storage.cpp:154-186 | the loop collects all rows of the client, or nothing if there are none |
| `Storages.Storage.CreateUser` | src/server/storage.cpp:188-213 | a new user with cleared counters; refused for an existing or empty name |
| `Storages.Storage.GetUserLoginData` | src/server/storage.cpp:230-253 | a found user's password and counter, and the one 32-bit number that is congruent to the stored time; nothing for an unknown user |
| `Storages.Storage.UpdateLoginAttempts` | src/server/storage.cpp:255-277 | clears or counts; refused beyond three |
| `Storages.Storage.GetInventoryHistory` | src/server/storage.cpp:301-328 | the loop collects exactly the client's inventory entries, the latest first |
| `Storages.Storage.SetClientLockStatus` | src/server/storage.cpp:330-345 | sets the flag, and tells whether the user exists |
| `Storages.Storage.IsClientLocked` | src/server/storage.cpp:347-359 | the flag, false for an unknown user |
| `ServerReplies.AuthenticateReplies` | src/server/authenticator.cpp:15-61 | which result each call has: unknown name, alert lock, block window, right password, third failure, other failure |
| `Authentication.AuthenticateRow` | src/server/authenticator.cpp:15-61 | what a call does to the user's row in each case, and that it touches no other row and no stock |
| `Authentication.AuthenticateTotal` | src/server/storage.cpp:59 | the check on the counter never fires |
| `Authentication.LockedExactlyAtThree` | src/server/authenticator.cpp:31-60 | a known user without alert lock is told that the account is locked exactly when the stored counter ends at 3 |
| `Authentication.WrongCounted` | src/server/authenticator.cpp:33-53 | a wrong password continues the account: every fourth one comes at least a block time after the third |
| `Authentication.SpreadSpan` | src/server/authenticator.cpp:33-53 | n such times span at least (n - 1) / 3 block times |
| `Authentication.WindowExact` | src/server/storage.cpp:243 | with three failures a call is refused as intended if and only if the stored time fits in 31 bits or the window is over |
| `Authentication.TruncatedTime` | src/server/storage.cpp:243 | a concrete later time at which the fourth wrong password is evaluated after one second |
| `Authenticators.Authenticator.Authenticate` | src/server/authenticator.cpp:15-61 | the method, reading first and updating then, computes `Authenticate` |
| `ServerLockout.NextAttempts` | src/server/authenticator.cpp:15-61 | whatever comes in, a user's counter and time change only by a wrong password for that user, or by a success |
| `ServerLockout.LockoutOverRuns` | src/server/authenticator.cpp:15-61 | time bound: in any run, n wrong passwords for a user from counter 0 without a success between span at least (n - 1) / 3 block times |
| `ServerLockout.UnboundedBeyond` | src/server/authenticator.cpp:33-53 | beyond 31 bits the bound fails: any number of wrong passwords is evaluated within one second of a run |
| `ServerLockout.CounterOverRuns` | src/server/storage.cpp:59 | in every reachable state every counter is between 0 and 3 |
| `StockCache.UpdateCoherent` | src/server/inventory.cpp:16-42 | an update keeps the cache coherent with the table |
| `StockCache.GetCoherent` | src/server/inventory.cpp:44-66 | a read returns the row and keeps the cache coherent |
| `StockCache.SummaryCoherent` | src/server/inventory.cpp:88-110 | a summary returns all rows and keeps the cache coherent |
| `ServerCache.CoherentOverRuns` | src/server/inventory.cpp:16-110 | in every reachable state of the server the cache is coherent, and every stock or inventory reply is what the tables hold |
| `Inventories.Inventory.UpdateStock` | src/server/inventory.cpp:16-42 | rejects negative quantities and unknown items, then writes row, log and cache, which stays coherent |
| `Inventories.Inventory.ValidateInventory` | src/server/inventory.cpp:126-149 | accepts exactly the catalogue |
| `ServerReplies.ValidateExact` | src/server/inventory.cpp:126-149 | the three categories and their items by name; the category is tested first |
| `ServerReplies.UpdateReplies` | src/server/commandProcessor.cpp:137-181 | what an update is replied, in the order of the tests, by any client whose name begins with "Hub", by a user and by others; all but an accepted one leave rows, cache and histories alone |
| `Inventories.Inventory.GetStock` | src/server/inventory.cpp:44-66 | from a coherent cache: the row of the table |
| `Inventories.Inventory.GetInventorySummary` | src/server/inventory.cpp:88-110 | from a coherent cache: all rows of the table |
| `CacheInterleaving.InterleavedCoherence` | src/server/inventory.cpp:31-110 | in every interleaving with at most one operation of a client in flight, the client gets the replies of the bare table, and its cache is as below |
| `CacheInterleaving.CompatibleCoherence` | src/server/inventory.cpp:31-110 | with any number of operations in flight that do not conflict: cached entries are their rows except those about to be written, a full cache is the whole slice, gets return the row, summaries all rows but those about to be written, and with nothing in flight the cache is coherent |
| `CacheInterleaving.SoundStep` | src/server/inventory.cpp:31-110 | every step of non-conflicting operations under the cache mutex keeps that |
| `CacheConflicts.HarmlessExactly` | src/server/inventory.cpp:31-110 | two operations of one client leave a coherent cache in every interleaving if and only if they are not updates of one item to different quantities, or an update and a get of one item |
| `CacheInterleaving.OthersStay` | src/server/inventory.cpp:31-110 | a step of the server is a step of its client's own rows, cache, operations and replies, and changes nothing of another's |
| `CacheConflicts.TwoInFlight` | src/server/inventory.cpp:31-39 | a run from an empty cache with two updates of one item ends with nothing in flight and a cache that differs from the table |
| `CacheConflicts.GetInFlight` | src/server/inventory.cpp:31-66 | the same with an update and a get of one item |
| `CacheInterleaving.AloneUpdate` | src/server/inventory.cpp:31-39 | the two steps of an update, with nothing between them, are the update |
| `CacheInterleaving.AloneGet` | src/server/inventory.cpp:44-66 | the steps of a read, with nothing between them, are the read |
| `CacheInterleaving.AloneSummary` | src/server/inventory.cpp:88-110 | the steps of a summary, with nothing between them, are the summary |
| `EventQueues.EventQueue.PushEvent` | src/server/eventQueue.cpp:12-21 | the event goes last, the oldest is dropped at capacity, other queues stay |
| `EventQueues.EventQueue.PopEvent` | src/server/eventQueue.cpp:23-38 | the first event, if any, leaves the queue |
| `EventQueues.Conservation` | src/server/eventQueue.cpp:12-38 | over any operations: the events pushed are those that left and then those queued, in order; at most the capacity is queued; pushed = taken + dropped + queued |
| `SessionManagers.SessionManager.RegisterSession` | src/server/sessionManager.cpp:10-25 | active, not offline, connected, and counted as a reconnection unless it is the first |
| `SessionManagers.SessionManager.UnregisterSession` | src/server/sessionManager.cpp:27-32 | offline instead of active |
| `SessionManagers.SessionManager.LockClient` | src/server/sessionManager.cpp:34-49 | sets the row's flag and caches it, exactly for a known user |
| `SessionManagers.SessionManager.UnlockClient` | src/server/sessionManager.cpp:51-64 | clears both |
| `SessionManagers.SessionManager.IsClientLocked` | src/server/sessionManager.cpp:66-83 | the row's flag, when the cache holds locked rows only |
| `SessionManagers.SessionManager.GetActiveUdpAddresses` | src/server/sessionManager.cpp:103-116 | the loop lists each active user with an address once, with that address |
| `ServerSessions.NextKeeps` | src/server/clientSession.cpp:40-112 | every input keeps the invariant of sessions and registry, never removes a user, and counts one registration per login |
| `ServerSessions.RegistryOverRuns` | src/server/sessionManager.cpp:10-32 | in every reachable state active and offline users are disjoint, together those who have logged in, and reconnections are logins less distinct users |
| `ServerSessions.ConnectedOverRuns` | src/server/sessionManager.cpp:10-25 | a user counts as connected if and only if a login as that user is among the replies |
| `ServerConnections.ActiveOverRuns` | src/server/clientSession.cpp:40-112 | in every reachable state the connection of an active session is open if and only if no read error came up on it while it was open |
| `ServerConnections.ReadErrorLeaves` | src/server/clientSession.cpp:50-58 | a run that leaves a session active on a closed connection |
| `ServerHistory.OpenFromHistory` | src/server/clientSession.cpp:40-112 | which connections are open and who has logged in on them: since the connect no disconnect, read error, failed write, goodbye or internal error; the last login |
| `ServerHistory.ActiveFromHistory` | src/server/sessionManager.cpp:10-32 | on which connection a user is active: that of the last login, unless a connection with that name has ended since, other than by a read error |
| `ServerHistory.AddressFromHistory` | src/server/udpHandler.cpp:64-103 | the UDP address of a connection is that of the last keepalive which named the user who was active on it then |
| `ServerLocks.LockCacheOverRuns` | src/server/sessionManager.cpp:34-83 | in every reachable state the lock cache is among the locked rows, so `isClientLocked` is the row's flag |
| `ServerLocks.LockedUntilUnlocked` | src/server/commandProcessor.cpp:246-295 | once a user is locked, no login as that user succeeds until the administrator's session unlocks it with the phrase |
| `ServerLocks.AlertLocks` | src/server/alertManager.cpp:15-41 | an "infection" or "enemy_threat" alert locks the user it names; no other alert and nobody else |
| `ServerIsolation.CommandViewOther` | src/server/commandProcessor.cpp:30-334 | a command of another client, or one that is not about stock, changes nothing of a client's rows, cache and history, whether or not the client is a user |
| `ServerIsolation.CommandViewOwn` | src/server/commandProcessor.cpp:117-244 | a client's stock command sees and changes only its own rows, cache and history |
| `ServerIsolation.NextView` | src/server/clientSession.cpp:118-234 | the same for every input of the server |
| `ServerIsolation.RunView` | src/server/commandProcessor.cpp:117-244 | in any run a client gets the replies it would get as the only client |
| `ServerIsolation.NonInterference` | src/server/commandProcessor.cpp:117-244 | two runs with the same own stock commands give the same own replies, whatever the others do |
| `ServerDeletion.OthersDeleted` | src/server/clientSession.cpp:118-234 | taking the messages of all sessions logged in as another client out of any run leaves the client's stock replies, rows, cache and history as they are, if none of them takes a lock off the client or makes it a user |
| `ServerDeletion.LeftOut` | src/server/commandProcessor.cpp:30-334 | such a message of another client's session keeps the two runs alike when only one of them has it |
| `ServerDeletion.InBoth` | src/server/clientSession.cpp:118-234 | every other input keeps them alike, logins, locks and closed connections included, and gives one reply to a stock command |
| `ServerDeletion.MattersNoticed` | src/server/commandProcessor.cpp:246-334 | after an unlock of the locked client, or a registration of an unknown one, the client can log in and be served where it could not without, from any state and counter |
| `ServerDeletion.LeftOutExactly` | src/server/commandProcessor.cpp:30-334 | a message of another client's session can be left out of every continuation without such messages, with the same stock replies, if and only if it does not take a lock off the client or make it a user |
| `ServerProvenance.NextRow` | src/server/inventory.cpp:19-39 | a row holds what the input has set it to, which is then an accepted update by its own client with a catalogue item and a quantity that is not negative, or what it held before |
| `ServerProvenance.NamesOverRuns` | src/server/clientSession.cpp:135-153 | a session has a user's name only after it logged in as that user |
| `ServerProvenance.RowsOverRuns` | src/server/commandProcessor.cpp:140-148 | every reachable row is an item of the literal catalogue, not negative, of a registered client whose name does not begin with "Hub", and holds the last accepted update of it, from a session that had logged in as that client |
| `ServerLedger.LedgerOverRuns` | src/server/inventory.cpp:16-110 | over every run a client's rows are exactly what its accepted updates have set, and its history has exactly an entry for each of them and for each of its summaries |
| `ServerDelivery.BroadcastOnce` | src/server/udpHandler.cpp:105-132 | each user gets exactly one send if active with an address, exactly one queue entry if offline, and nothing otherwise |
| `ServerDelivery.SentOverRuns` | src/server/clientSession.cpp:259-285 | over every run the sends to a user, read off inputs and replies, are exactly the alerts while active, to the address of the last keepalive, the waiting alerts with each answered message, and the answers to keepalives |
| `ServerDelivery.DeliveryOverRuns` | src/server/clientSession.cpp:259-285 | over every run a user's queue is what the alerts it missed have pushed and its answered messages have taken: bounded, in order, without repeats, and pushed = taken + dropped + queued |
| `ServerProcesses.ServerProcess.ProcessCommand` | src/server/commandProcessor.cpp:30-101 | the dispatch does what `Server.ProcessCommand` says |
| `ServerProcesses.ServerProcess.UpdateStock` | src/server/commandProcessor.cpp:137-181 | refused for hubs; otherwise the inventory's result, or an internal error when the database refuses |
| `ServerProcesses.ServerProcess.UnlockClient` | src/server/commandProcessor.cpp:246-295 | only for the administrator with the phrase |
| `ServerProcesses.ServerProcess.RegisterUser` | src/server/commandProcessor.cpp:297-334 | only for the administrator; an existing name closes the connection |
| `ServerProcesses.ServerProcess.ProcessMessage` | src/server/clientSession.cpp:118-234 | before a login nothing but a login is accepted (`BeforeLogin`) |
| `ServerReplies.BeforeLogin` | src/server/clientSession.cpp:118-210 | what is replied on a connection without a login; an unknown name is told the same as a wrong password |
| `ServerReplies.UnlockReplies` | src/server/commandProcessor.cpp:246-295 | what an unlock is replied, and that it takes the lock off exactly the user named |
| `ServerReplies.RegisterReplies` | src/server/commandProcessor.cpp:297-334 | what a registration is replied, and the row of the new user |
| `ServerReplies.PlainReplies` | src/server/commandProcessor.cpp:30-115 | what the commands without a payload and unknown ones are replied, and that they change nothing |
| `ServerProcesses.ServerProcess.HandleEventQueue` | src/server/clientSession.cpp:259-285 | takes at most one event |
| `ServerProcesses.ServerProcess.Run` | src/server/clientSession.cpp:40-112 | message, write, one queued event, and the unregistrations |
| `ServerProcesses.ServerProcess.Broadcast` | src/server/udpHandler.cpp:105-132 | the two loops send to every reachable user and queue for every offline one, in any order |
| `ServerProcesses.ServerProcess.ProcessAlert` | src/server/alertManager.cpp:15-41 | locks if the alert asks for it, then always broadcasts |
| `ServerProcesses.ServerProcess.HandleKeepalive` | src/server/udpHandler.cpp:64-103 | sets the address of the registered session, each time; `AddressFromHistory` says which address that is over a run |
| `ServerProcesses.ServerProcess.Serve` | src/server/server.cpp:436-474 | the objects, fed inputs one after the other, make a run of the state machine |
| `ThreadPools.StepKeepsReady` | src/server/threadPool.cpp:23-42 | whoever is past the wait sees a task or the end of the run, and past the exit test a task, although `stop` may come between |
| `ThreadPools.FirstInFirstOut` | src/server/threadPool.cpp:15-42 | in every interleaving tasks started and then tasks queued are the tasks enqueued, and no worker takes from an empty queue |
| `ThreadPools.FewTasksAfterStop` | src/server/threadPool.cpp:23-51 | after `m_running` is false it stays so and at most one more task per thread starts |

## Left out

- Numbers other than 32-bit integers in printing and comparing, infinities and the rounding of a parsed number to a double: they are libc's `strtod` and `%1.15g`.
- PrintBuffers.PrintBuffer.PrintNumber: requires a 32-bit integer, the only numbers the printer is modelled for.
- PrintBuffers.PrintBuffer.PrintValue: requires 32-bit integers as the only numbers, and has no raw items.
- PrintBuffers.PrintBuffer.PrintArray: requires 32-bit integers as the only numbers.
- PrintBuffers.PrintBuffer.PrintElements: requires 32-bit integers as the only numbers.
- PrintBuffers.PrintBuffer.PrintObject: requires 32-bit integers as the only numbers.
- PrintBuffers.PrintBuffer.PrintMembers: requires 32-bit integers as the only numbers.
- PrintBuffers.PrintPreallocated: requires 32-bit integers as the only numbers.
- PrintBuffers.PrintBuffered: requires 32-bit integers as the only numbers.
- PrintBuffers.Print: requires 32-bit integers as the only numbers.
- JsonEndToEnd.PrintAndParse: requires 32-bit integers as the only numbers.
- ParseBuffers.Parse: does not state the parse end that is reported for a failed parse.
- CLists.DetachItemViaPointer: requires the item to be a child of the parent, which the code does not test.
- CCompare.GetObjectItem: does not model the case-insensitive lookup.
- CCompare.CompareNodes: does not model case-insensitive comparison and raw items.
- CCompare.CompareDecides: requires 32-bit integers and trees without common nodes, since a node compared with itself is equal by the pointer test; `CompareValue`, `CompareSound` and `CompareProper` are about trees that may share nodes.
- `cJSON_Minify`: `minify_string` does not treat a doubled backslash as a pair, so it does not preserve meaning.
- Case-insensitive lookup and comparison, adding to and replacing in objects by name.
- Allocation failure, custom hooks, the locale's decimal point, raw items, reference and constant-key flags, the global error position.
- The field `valueint` is not stored: it is always the saturated conversion of the number, `JsonNumber.ToInt`.
- The bytes of strings are values of the node, not cells of the C memory; the buffers of parsing and printing are arrays.
- Raw request text, requests that are no objects, and the text of replies: requests arrive parsed, replies are named.
- Log entries of components other than the inventory: some are modelled as one entry, those of a broadcast not at all; no property depends on them.
- Passwords are compared as they are; bcrypt, SQLite, Prometheus, zlib, YAML and POSIX queues are abstracted to tables, a comparison and counters.
- Ties in the history's order are taken in the order of the log.
- Maintenance mode: the only caller of the command processor passes `false` for it.
- The sleep in `handleEventQueue`, in which a keepalive may come in from another thread.
- Pending TCP writes and re-arming epoll: a partial write is popped before it is reused.
- Sockets: `sendto` is an entry in a trace, whether or not it succeeds.
- ServerProcesses.ServerProcess.Serve: does not interleave inputs; concurrency is modelled for the cache and the thread pool.
- Thread pool liveness on shutdown, draining and joining.
- Logger files and rotation, configuration loading, the clients, scripts and containers.
