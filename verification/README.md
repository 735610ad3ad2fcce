# Verification of imcore

imcore is an XMPP client core in C. This project models its stateful and algorithmic parts in
Dafny and proves what they promise over all inputs, all runs and any number of threads:

- **the condition variable of the Windows port** (`src/pthread-win32.c`): a step system in which
  every shared access of every thread is one step. Tokens and threads are conserved; a broadcast
  serves every thread it counted, is answered by exactly one event, never deadlocks and always
  returns; a call goes through its accesses once and in order, back to a caller that holds the mutex; and
  exactly the runs are found in which tokens never outnumber the waiting threads;
- **stanzas** (`src/xmpp-stanza.c`, `src/xmpp-parser-expat.c`): the measuring printer on a bounded
  buffer, and that printing, reading and rebuilding a tree gives the same names, texts, attributes
  and resolved namespaces, however the reader cuts the text;
- **the login** (`src/xmpp-auth.c`, `src/xmpp-handler.c`, `src/xmpp-conn.c`): TLS, SASL with
  fallback, stream restart, binding and session, driven by a list of handlers that changes while
  it is walked: what every login needs of the server, what is enough for one, and the life of every handler;
- **MT19937-64** (`src/random.c`), **MD5** (`src/md5.c`), **the DNS message codec** (`src/srv.c`),
  **the hash table** (`src/hash.c`), **the circular list and the allocation ring** (`src/list.h`,
  `src/mm.c`), **Base64 and DIGEST-MD5** (`src/base64.c`, `src/xmpp-sasl.c`).

`dafny verify dfyconfig.toml` verifies everything with Dafny 4.11, under its default limits and also with
`--resource-limit 2000000`.

## How the model is built

What the C code changes step by step is a class or a method over arrays, with the fields, branches
and constants of the source, and is proved against a function of the old state; the theorems are
lemmas about those functions. The condition variable and the login are step systems on values,
because their properties range over whole runs: the login dispatcher is in addition a class
(`LoginDispatch.Connection`) whose walking loops with their saved successors are proved equal to
the step function.

Where C would go on after an access outside a table or a block, the model stops and says so: a method
answers `Stray` or `inside == false`, and exactly when it does is part of its contract. A plain
`char` is signed, as on x86.

| files | part |
|---|---|
| `CondVar`, `CondVarTotals`, `CondVarInvariant`, `CondVarBroadcast`, `CondVarSignals`, `CondVarCalls` | the condition variable |
| `Stanza`, `XmlText`, `StanzaPrinter`, `StanzaReader`, `StanzaReading`, `StanzaBuilder`, `StanzaCallbacks`, `StanzaElements`, `StanzaRoundTrip`, `StanzaApostrophe` | printer, reader, tree builder |
| `Login`, `LoginReading`, `LoginInvariant`, `LoginSteps`, `LoginResults`, `LoginLink`, `LoginStages`, `LoginCompletes`, `LoginNeeds`, `LoginCalls`, `LoginDispatch`, `LoginHandlers` | the login machine and the dispatcher |
| `MersenneTemper`, `MersenneTwister`, `MersenneSeeding`, `MersenneLag`, `MersenneWords`, `MersenneBits`, `MersenneExample` | random numbers |
| `Md5`, `Md5Digest`, `Md5Padding`, `Md5Example` | RFC 1321 |
| `DnsName`, `DnsEncode`, `DnsMessage`, `DnsRecords` | RFC 1035 |
| `SignedChar`, `HashKey`, `HashTable`, `HashIterator` | signed characters and the chained table |
| `LinkedList`, `AllocationRing` | `list.h` and its client |
| `Base64`, `Base64Example`, `DigestText`, `DigestTurns`, `DigestReply`, `DigestMd5`, `DigestExample` | RFC 3548 and RFC 2831 |

## Where the code and its documentation differ

The model follows the code.

- `src/hash.c:30` and `:99` say that without a free function a conflicting key is refused. The test
  at line 100 is the other way round: it refuses exactly the keys that are not there, so such a
  table stays empty for ever (`HashTable.Table.Add`). The table of handlers by id is one
  (`src/xmpp-conn.c:125`), so as the code stands no login is ever completed
  (`LoginResults.NoLoginAsWritten`). The login model takes the policy of the table as a parameter
  `storesIds`; the safety results hold for both, and with the documented policy a login does
  complete (`LoginCompletes.FullLoginCompletes`).
- Attribute values are printed between apostrophes (`src/xmpp-stanza.c:272`) but apostrophes are not
  escaped (`:141-155`). The text of a tree with names and characters of XML 1.0 reads back exactly when no
  attribute value has one (`StanzaApostrophe.ReadsBackIffNoApostrophe`).
- Repeated signals release more tokens than there are waiting threads
  (`src/pthread-win32.c:468-484`, `CondVarSignals.SignalsOverRelease`), and so does a broadcast after one
  signal that is not yet consumed (`CondVarSignals.SignalThenBroadcast`): the comment at lines 432-433 that
  one waiter continued does not mean that the semaphore count stays below the waiters. It does in exactly
  the runs in which every release fits (`CondVarSignals.CoveredIffReleasesFit`); a broadcast fits if and only
  if no token is left and no counted thread has taken one.
- The Base64 encoder shifts signed characters (`src/base64.c:57`): in a whole group of three, the sign of a
  byte of 128 or more overwrites the bytes before it. Decoding gives the text back exactly when in every
  whole group the bytes before such a byte are 255 (`Base64.DecodeOfEncode`); 0x41 0xC3 0xA9 is coded as
  `//+p` (`Base64.AccentIsLost`), and a DIGEST-MD5 reply with such a name is misread
  (`DigestReply.AccentIsMisread`).
- The decoder allocates by the padding at the end (`src/base64.c:96-115`) and stores what comes before it. On
  seven-bit text it stays inside its block exactly when the length is no multiple of four, some bytes are
  counted or the first group is not plain (`Base64.StaysInsideIffRoomy`); `AAAA====` does not
  (`Base64.PaddedQuadStrays`). A character of 128 or more is looked up in front of the table.
- A hash is a signed `int` and its remainder can be negative (`src/hash.c:79-90`): a key names a bucket exactly
  when it has an even number of characters of 128 or more or its hash is a multiple of the number of
  buckets (`HashKey.NamesIff`); the key 0xE9 has index -3 of 10 (`HashKey.OneLetterMisses`).
- The reading loops for domain names need not end (`DnsName.SelfPointerNeverEnds`); they end inside the
  message exactly when they do so within as many moves as it has bytes
  (`DnsName.EndsIffWithinLength`).
- The reading code compares the labels of a name without their dots (`src/srv.c:214`). Copying leaves the
  1024 bytes of a field exactly when the labels measure at most 1024 and with dots and end mark more
  (`DnsMessage.NameOverrunsIff`), as 17 labels of 60 bytes do (`DnsMessage.SeventeenLabelsOverrun`).
- A name written by `netbuf_add_domain_name` is read back exactly when each of its words has 1 to 63
  bytes and it does not end in a dot (`DnsEncode.ReadsBackIffProper`); longer words are written
  whole behind a length byte of 63.
- A value of the digest reply is read back exactly when it has no double quote, or outside quotes no
  comma and no quote at its start (`DigestReply.FieldReadsBackIffGood`).

## Model

| member | source | states |
|---|---|---|
| CondVarInvariant.StepKeepsInv | src/pthread-win32.c:410-518 | any access by any thread keeps the invariant: both locks exclusive, `waiters` the number of threads between their increment and decrement, tokens released = taken + semaphore count, the drain rules of a broadcast, the ledger of events |
| CondVarInvariant.RunKeepsInv | src/pthread-win32.c:382-518 | the invariant holds in every state of every run of any number of threads |
| CondVarInvariant.ConservedMove | src/pthread-win32.c:410-484 | the per-thread history of tokens and waits and the shared counters move together in each access |
| CondVarInvariant.AccessKeepsRules | src/pthread-win32.c:491-518 | one access in a broadcast keeps: semaphore covers every unserved waiter, nobody joins, at most one thread owes the event |
| CondVarInvariant.AccessMovesEvents | src/pthread-win32.c:435-451 | events set, events used and rounds of broadcast stay in step |
| CondVarBroadcast.ResetMeetsNoReader | src/pthread-win32.c:508-513 | at the unlocked reset of `was_broadcast` nobody is counted, nobody holds the inner lock, and every other thread is outside every section that reads the flag |
| CondVarBroadcast.NotifierIsUnique | src/pthread-win32.c:433-451 | at most one thread owes the continue event, and then `waiters` is 0 and the broadcaster is waiting for it |
| CondVarBroadcast.NotifierWasLast | src/pthread-win32.c:435-451 | in every run the thread that owes the event is the one whose decrement brought `waiters` from 1 to 0 |
| CondVarBroadcast.NoEventSurvives | src/pthread-win32.c:506-513 | outside the waiting part of a broadcast no event is set, and each round has set and used exactly one |
| CondVarBroadcast.BroadcastServesEveryone | src/pthread-win32.c:491-518 | when a broadcast that found waiters resets its flag, each thread it counted has taken exactly its one token and has not returned, `waiters` is 0, one event was set and used |
| CondVarBroadcast.BroadcastReturns | src/pthread-win32.c:491-518 | under every schedule a broadcast lasts at most eight steps for each thread of the system, all threads together |
| CondVarBroadcast.BroadcastNeverStuck | src/pthread-win32.c:424-513 | in every state inside a broadcast the broadcaster or a thread inside wait can step |
| CondVarSignals.StepCoveredIff | src/pthread-win32.c:410-518 | from a state with no more tokens than threads that need one, a step leads to another if and only if what it releases fits |
| CondVarSignals.CoveredIffReleasesFit | src/pthread-win32.c:468-518 | in a run tokens never outnumber the threads that need one if and only if every release fits: one more at a signal, `waiters` more at a broadcast |
| CondVarSignals.BroadcastFitsIff | src/pthread-win32.c:491-498 | a broadcast fits if and only if the semaphore is 0 and every counted thread still needs a token |
| CondVarSignals.SignalsOverRelease | src/pthread-win32.c:468-484 | for every n a run leads to n tokens against one waiting thread |
| CondVarSignals.SignalThenBroadcast | src/pthread-win32.c:468-498 | a run with one signal and one broadcast leads to two tokens against one waiting thread |
| CondVarCalls.AccessAdvances | src/pthread-win32.c:410-518 | each access of a call leads to the next one of that call, and the last one back to the caller; only a broadcast that finds nobody leaves early |
| CondVarCalls.CallReturns | src/pthread-win32.c:410-518 | whatever call a thread is in, in every later state it is further on in that call or has returned from it to a caller that holds the external mutex |
| CondVarCalls.WokenReturnsFirst | src/pthread-win32.c:429-464 | a thread that has been woken begins no other wait before it has returned with the external mutex held |
| CondVarCalls.SignalReleasesIffSeen | src/pthread-win32.c:468-484 | a signal that returns has released one token if it saw a waiter and the semaphore took it, and none otherwise |
| CondVarCalls.SignalledWaitReturns | src/pthread-win32.c:410-484 | a run in which a wait is signalled ends with both threads returned, one token taken, nobody waiting and the mutex held by the one that waited |
| CondVarCalls.BroadcastThenReturn | src/pthread-win32.c:410-518 | a run in which a broadcast returns, with flag, event and tokens used up |
| StanzaPrinter.Snprintf | src/xmpp-stanza.c:199-311 | the snprintf-style write: the whole length is returned, at most `left` places are written, the rest of the buffer is unchanged |
| StanzaPrinter.RenderUpdate | src/xmpp-stanza.c:186-197 | keeps left = max(0, buflen - written) and the write position with it |
| StanzaPrinter.ProgressStep | src/xmpp-stanza.c:186-197 | one more piece of text, in room or beyond it, leaves the buffer as one write of the whole text would |
| StanzaPrinter.PrintedInTwo | src/xmpp-stanza.c:186-311 | two writes in room are one write of both texts |
| StanzaPrinter.PrintedBeyond | src/xmpp-stanza.c:186-311 | once the room is used up further text changes nothing |
| StanzaPrinter.Emit | src/xmpp-stanza.c:219-311 | the pair of write and update after each piece keeps the printer's progress |
| StanzaPrinter.RenderAttributes | src/xmpp-stanza.c:246-279 | the loop over the table prints each attribute but an `xmlns` equal to the parent's |
| StanzaPrinter.RenderRecursive | src/xmpp-stanza.c:199-311 | for every tree and every buffer size: the full length is returned, the buffer holds the text as far as it fits, and nothing outside the given room changes |
| StanzaPrinter.RenderTag | src/xmpp-stanza.c:232-309 | the same for one element with its children |
| StanzaPrinter.RenderChildren | src/xmpp-stanza.c:286-301 | the same for a list of children, with the room left by what is already written |
| StanzaPrinter.ToText | src/xmpp-stanza.c:314-353 | the complete text with its end mark, after at most one larger buffer |
| Stanza.EscapedIsClean | src/xmpp-stanza.c:134-184 | escaped text holds no `<`, `>` or quotation mark, and every `&` in it opens an entity |
| Stanza.LeftOutIffInherited | src/xmpp-stanza.c:246-279 | an attribute is left out exactly when it is the `xmlns` already in force, the parent's or `jabber:client` at the top, and any other is printed between apostrophes |
| StanzaReading.ReadRendered | src/xmpp-stanza.c:199-311 | reading printed text in the scope of its parent gives the events of the tree, and stops at its end |
| StanzaBuilder.Parser.StartElement | src/xmpp-parser-expat.c:87-137 | the callback changes depth, current stanza, tree and the reports of stream starts as the event function says, whose counts are those of `StanzaCallbacks.CallbacksAreThoseOfEvents`; its error branch is never reached |
| StanzaBuilder.Parser.EndElement | src/xmpp-parser-expat.c:140-162 | the same at the end of an element; at depth 1 the finished stanza is delivered once |
| StanzaBuilder.Parser.Characters | src/xmpp-parser-expat.c:165-183 | the same for character data, which becomes one text child for each piece |
| StanzaBuilder.Parser.Feed | src/xmpp-parser-expat.c:252-258 | any balanced sequence of events leaves the state of the event function |
| StanzaCallbacks.CallbacksAreThoseOfEvents | src/xmpp-parser-expat.c:87-183 | for every balanced sequence of events the start callback has been called with the local name of each start at depth 0, the end callback once for each end at depth 1, the stanza callback once for each end at depth 2, and data below depth 2 is reported, all counted on the events alone |
| StanzaElements.NewElementIs | src/xmpp-parser-expat.c:22-85 | a new element has the local name, under `xmlns` the namespace of the name, and under every other key the last value given for it |
| StanzaRoundTrip.TidyCommutes | src/xmpp-parser-expat.c:87-183 | joining adjacent texts before or after an event gives the same tree |
| StanzaRoundTrip.CutsDoNotMatter | src/xmpp-parser-expat.c:165-183 | however character data is cut into pieces, the tree is the same up to joining |
| StanzaRoundTrip.PrintedIsReadable | src/xmpp-stanza.c:199-311 | every tree with names, data and values of XML 1.0, seven-bit keys and no apostrophe in a value is printed and its text is read as exactly its events |
| StanzaRoundTrip.PrintThenParse | src/xmpp-parser-expat.c:87-183 | printing a tree and feeding what is read, in any pieces, delivers exactly one stanza more: same names, texts and attributes, every element with its resolved namespace |
| StanzaApostrophe.ReadsBackIffNoApostrophe | src/xmpp-stanza.c:134-184 | the text of a tree with names, data and values of XML 1.0 and seven-bit keys reads back as its events if and only if no attribute value holds an apostrophe |
| LoginSteps.NextKeepsInv | src/xmpp-conn.c:38-70 | every event keeps the invariant of the connection: tidy handler lists, the rules of each stage, the recorded milestones, safe writes |
| LoginSteps.RunKeepsInv | src/xmpp-auth.c:162-626 | the invariant holds in every state of every run of one connection |
| LoginSteps.FireKeepsInv | src/xmpp-handler.c:40-98 | dispatching one stanza keeps it, both the handlers by id and the listed ones |
| LoginSteps.VisitKeepsInv | src/xmpp-auth.c:162-535 | so does one call of any login handler followed by its removal when it asks for that |
| LoginSteps.CallGrows | src/xmpp-handler.c:274-332 | a call only appends to the lists |
| LoginResults.LoginInOrder | src/xmpp-auth.c:236-535 | safety of every run: authenticated exactly after SASL success, a new stream, bind offered, bind result and, if offered, session result, in this order; no handler of the application runs before. That each of these comes about is in the `LoginStages` and `LoginCompletes` rows, and the stanzas it takes in `LoginNeeds` |
| LoginResults.SaslDiscipline | src/xmpp-auth.c:539-617 | at most one SASL handler installed, at most two mechanisms tried, PLAIN only when DIGEST-MD5 was not offered or has failed, no SASL data while starttls is offered, enabled and not done |
| LoginResults.NoLoginAsWritten | src/hash.c:95-103 | with the table as written no login is completed, no handler of the application is called and the id table stays empty |
| LoginReading.OffersMechanismIff | src/xmpp-auth.c:184-198 | a mechanism is offered if and only if some `mechanism` element under the first child named `mechanisms`, which has the SASL namespace, starts with its name as text, in any case of letters |
| LoginReading.OffersIff | src/xmpp-auth.c:171-183 | a feature is offered if and only if the first child of its name has its namespace |
| LoginStages.TlsOffered | src/xmpp-auth.c:162-217 | with starttls offered and enabled on a link that is not secured, starttls is written and its handler waits |
| LoginStages.TlsProceeds | src/xmpp-auth.c:219-234 | `proceed` puts the TLS filter in, and everything else stays |
| LoginStages.TlsRefused | src/xmpp-auth.c:219-234 | any other answer changes nothing but takes the handler off |
| LoginStages.TlsFails | src/xmpp-conn.c:276-304 | without a filter the connection ends |
| LoginStages.SaslOffered | src/xmpp-auth.c:539-617 | features with a usable mechanism lead to DIGEST-MD5 if it is offered and otherwise to PLAIN, with the first message written and the handler of that mechanism waiting |
| LoginStages.NothingUsable | src/xmpp-auth.c:539-617 | without one, PLAIN for a JID with no user name among them, the connection is closed |
| LoginStages.ChallengeAnswered | src/xmpp-auth.c:265-316 | the first challenge is answered and the second awaited |
| LoginStages.RspauthAnswered | src/xmpp-auth.c:318-346 | the second one is answered and the outcome awaited |
| LoginStages.SaslAccepted | src/xmpp-auth.c:236-263 | whichever SASL handler waits, `success` restarts the stream |
| LoginStages.PlainTried | src/xmpp-auth.c:236-263 | after a failure of DIGEST-MD5, at either of its stages, PLAIN is tried if it was offered |
| LoginStages.SaslUnknown | src/xmpp-auth.c:236-263 | an answer SASL does not know closes the connection |
| LoginStages.BindOffered | src/xmpp-auth.c:355-439 | features that offer to bind a resource lead to the bind request and its handler by id |
| LoginStages.BindAnswered | src/xmpp-auth.c:441-510 | a bind result without a session completes the login whatever the application's handlers then do |
| LoginStages.SessionRequested | src/xmpp-auth.c:441-510 | with a session it leads to the session request |
| LoginStages.SessionAnswered | src/xmpp-auth.c:512-535 | a session result completes the login |
| LoginStages.RequestRefused | src/xmpp-auth.c:441-535 | any other answer to either request closes the connection |
| LoginCompletes.FullLoginCompletes | src/xmpp-auth.c:162-535 | with a table that stores new keys, starttls, DIGEST-MD5 with both challenges, bind and session, for any stanzas with the named contents: a run of seventeen events ends authenticated, and what was written on the way is listed |
| LoginCompletes.FallbackLoginCompletes | src/xmpp-auth.c:162-535 | the same with PLAIN after DIGEST-MD5 was refused |
| LoginCompletes.PlainLoginCompletes | src/xmpp-auth.c:162-510 | the same with PLAIN alone, without starttls and session |
| LoginNeeds.LoginNeedsAnswers | src/xmpp-auth.c:236-535 | in any run whose login is complete these came in, in this order: the `success` of SASL, the start of a new stream, features that offer bind, a result for the bind request and, exactly if those features offered a session, a result for the session request |
| LoginLink.NextLink | src/xmpp-conn.c:38-70 | what one event can do to the link: it is gone exactly after its end, a time-out or a refused stream, comes up exactly from connecting, is secured exactly by coming up with a TLS filter, and only a link that is or comes up is written to |
| LoginLink.NeverBack | src/xmpp-conn.c:276-496 | over every run the flags of security, identity and login are never taken back, and the records only grow |
| LoginLink.GoneForGood | src/xmpp-conn.c:311-355 | once a connection is gone it stays so: nothing more is written and no timer waits to close it |
| LoginLink.NothingAfterEnd | src/xmpp-conn.c:474-481 | after the end of its stream it receives no stanza |
| LoginDispatch.RunOutcome | src/xmpp-handler.c:70-97 | of the handlers listed at the start those whose call returned 0 are gone and the others keep their order; what callbacks added stands behind, not enabled; no function is listed twice |
| LoginCalls.CalledExactly | src/xmpp-handler.c:79-96 | the functions called are among those listed, in the order of the list, none twice; every internal handler that matches is called, every one of the application that matches if the login was complete, and nobody else |
| LoginCalls.ListedIsCalledIff | src/xmpp-handler.c:79-96 | on any connection that keeps the invariant a listed handler is called if and only if the stanza or a child of it has the handler's namespace, the stanza has its name and its type, each as far as the handler names one, and, when it is the application's, the login was complete at the start of the walk |
| LoginCalls.NoUserCalled | src/xmpp-handler.c:83-86 | if the login is not complete after a stanza, no handler of the application was called for it |
| LoginCalls.CalledByIdIff | src/xmpp-handler.c:46-63 | of the handlers of an id, in their order, one is passed over if and only if it is the application's and the login is not complete when its turn comes |
| LoginHandlers.IdsOutcome | src/xmpp-handler.c:46-63 | those that were called and asked to end are gone, the others keep their order, and an id with none left leaves the table |
| LoginHandlers.NewcomersSeeTheAnswer | src/xmpp-handler.c:46-96 | the handlers that the application brings when it is told that the login is complete are called for the very answer that completed it, if and only if they match |
| LoginHandlers.CallbackAdds | src/xmpp-handler.c:274-332 | what a callback of the application, or the word that the login is complete, puts on the list: the first handler of each function not listed yet, behind the others and not enabled |
| LoginHandlers.UserStaysIff | src/xmpp-handler.c:79-96 | over any run a handler of the application stays on the list, with its conditions, exactly until it is deleted or a call of it asks to end |
| LoginHandlers.AddThenDelete | src/xmpp-handler.c:274-348 | adding a handler twice is adding it once, and deleting a handler just added restores the connection |
| LoginHandlers.Deleted | src/xmpp-handler.c:334-364 | deleting takes exactly that function off the list |
| LoginHandlers.AddedById | src/xmpp-handler.c:183-230 | a handler added for an id is behind those of the id exactly if the table keeps the key, and other ids keep theirs |
| LoginDispatch.Connection.CheckHandlerExists | src/xmpp-handler.c:6-20 | the search loop answers whether the function is in the list |
| LoginDispatch.Connection.HandlerAdd | src/xmpp-handler.c:274-332 | a function already listed is not added; otherwise it is appended, not enabled |
| LoginDispatch.Connection.ScanMechanisms | src/xmpp-auth.c:184-198 | the loop over the children sets each bit exactly when some child names that mechanism |
| LoginDispatch.Connection.EnableHandlers | src/xmpp-handler.c:73-77 | every listed handler becomes enabled and nothing else changes |
| LoginDispatch.Connection.WalkHandlers | src/xmpp-handler.c:79-96 | the walk with its saved successor over a list that calls change equals one visit to each handler that was listed, and makes the calls of `LoginCalls.Called` |
| LoginDispatch.Connection.WalkIds | src/xmpp-handler.c:46-63 | the same for the list of an id, and makes the calls of `LoginCalls.CalledById` |
| LoginDispatch.Connection.FireStanza | src/xmpp-handler.c:40-98 | both phases together are the dispatch function, and make the calls described for each |
| MersenneTwister.Generator.Init | src/random.c:73-78 | the array becomes the words of the seed, and the generator starts at output 0 |
| MersenneTwister.Generator.InitByArray | src/random.c:83-114 | both loops with their wrapping indices, then the top bit |
| MersenneSeeding.KeyWordTells | src/random.c:93-103 | a round of the first loop makes different words of different key words |
| MersenneSeeding.IndexWordTells | src/random.c:104-112 | a round of the second loop makes different words of different words |
| MersenneSeeding.KeysAreToldApart | src/random.c:83-114 | two keys of one length, up to 309 words, leave the same words if and only if they are equal |
| MersenneLag.ArrayIsLagged | src/random.c:83-114 | for every key the words that `init_by_array64` leaves are, place by place, the last 311 of one sequence without indices, in which each word is made from the one before it and the one 311 back, over max(312, keys) words with the key and 311 more |
| MersenneTwister.MovingStep | src/random.c:130-143 | replacing word i in place turns place i of the block into word 312 + i of the sequence, in each of the three phases |
| MersenneTwister.Generator.Regenerate | src/random.c:130-143 | the three phases turn one window of the infinite sequence into the next |
| MersenneTwister.Generator.Next | src/random.c:117-152 | output n is the tempering of word 312 + n of the recurrence, for every seed and every n |
| MersenneTwister.Generator.Generate | src/random.c:117-152 | the same for a whole run of outputs, across any number of regenerations |
| MersenneTemper.UnshearOfShear | src/random.c:147-150 | each line of the tempering is undone by at most three rounds of the same line |
| MersenneTemper.ShearOfUnshear | src/random.c:147-150 | and the other way round |
| MersenneTemper.TemperBijection | src/random.c:147-150 | tempering is a bijection on 64-bit words |
| MersenneWords.UnturnOfTurn | src/random.c:130-143 | the shift and conditional exclusive or can be undone, because MATRIX_A has its top bit set |
| MersenneWords.TurnOfUnturn | src/random.c:130-143 | and reaches every word |
| MersenneBits.BackwardOfForward | src/random.c:130-143 | a step of the recurrence can be taken back on the 19937 bits that matter |
| MersenneBits.ForwardOfBackward | src/random.c:130-143 | and every state has a predecessor |
| MersenneBits.RunIsInvertible | src/random.c:117-152 | two states agree on their 19937 bits after n steps if and only if the states they started from do |
| MersenneBits.NeverZero | src/random.c:73-114 | from neither initialiser is the all-zero state reached, in any number of steps |
| MersenneExample.OutputsOf5489 | src/random.c:117-152 | for the seed 5489 the first output is 14514284786278117030 and the third 13109570281517897720, as in the reference implementation |
| Md5.Choose | src/md5.c:118-124 | bit by bit, the optimised F1 and F2 are F and G of section 3.4 of RFC 1321 |
| Md5.OneStep | src/md5.c:136-137 | one MD5STEP on renamed words is one indexed step of the standard |
| Md5.Round1 | src/md5.c:155-170 | sixteen unrolled steps are steps 0 to 15 of the indexed rounds, for every state and block |
| Md5.Round2 | src/md5.c:171-186 | steps 16 to 31 |
| Md5.Round3 | src/md5.c:187-202 | steps 32 to 47 |
| Md5.Round4 | src/md5.c:203-218 | steps 48 to 63 |
| Md5Digest.GetOfPut | src/md5.c:9-21 | loading a stored word gives it back |
| Md5Digest.PutOfGet | src/md5.c:9-21 | storing a loaded word gives the four bytes back |
| Md5Digest.CountOn | src/md5.c:48-52 | the two 32-bit halves with their carry count 8 times the length modulo 2^64 |
| Md5Padding.PaddedAs | src/md5.c:78-106 | the padded message is the message, 0x80, the fewest zeros that fill whole blocks, and its number of bits modulo 2^64 in eight bytes, lowest first |
| Md5Digest.Context.Init | src/md5.c:30-39 | the context of the empty message |
| Md5Digest.Context.Transform | src/md5.c:144-223 | the state becomes the compression of the old one with the block in the buffer |
| Md5Digest.Context.Update | src/md5.c:45-76 | in any state and for any bytes the context becomes that of the longer message: counter, chaining state and buffered tail |
| Md5Digest.Context.Complete | src/md5.c:53-66 | the bytes that fill an unfinished block |
| Md5Digest.Context.Absorb | src/md5.c:67-75 | the loop over whole blocks and the copy of the tail |
| Md5Digest.Context.PadBlock | src/md5.c:86-103 | one block of padding or two, as the tail demands |
| Md5Digest.Context.Final | src/md5.c:82-114 | the digest of the whole message, padded as `Md5Padding.PaddedAs` says, and the context wiped |
| Md5Digest.HashParts | src/md5.c:30-114 | every splitting of a message into updates gives the digest of the whole |
| Md5Example.DigestOfAbc | src/md5.c:23-223 | the digest of "abc" is 900150983cd24fb0d6963f7d28e17f72, the value of appendix A.5 of RFC 1321, through all 64 steps |
| DnsName.EndsIffWithinLength | src/srv.c:188-250 | the reading loops end inside the message if and only if they do so within as many moves as the message has bytes |
| DnsName.BackwardEnds | src/srv.c:188-250 | they do if every pointer leads below the start of its run of labels |
| DnsName.SelfPointerNeverEnds | src/srv.c:188-250 | a pointer to itself is not done in any number of moves |
| DnsName.TextFitsIff | src/srv.c:214-254 | text and end mark fit a field if and only if the labels and a byte for each do; the length test lets exactly the names between the two bounds through as well |
| DnsName.TextIsJoin | src/srv.c:232-234 | the copied text is the labels joined with dots, and has the calculated size, if and only if there is at most one label or the first byte is not 0 |
| DnsName.CalcDomainNameSize | src/srv.c:164-186 | the length of the labels joined with dots |
| DnsName.Measure | src/srv.c:199-213 | the length of the labels alone, whatever pointers are followed |
| DnsName.CopyName | src/srv.c:219-250 | the text of all labels, and the offset behind the encoding in place; the copy leaves the field exactly when the text is longer |
| DnsName.GetDomainName | src/srv.c:188-257 | a name longer than the limit is measured and not read; otherwise the copy stays inside the field if and only if text and end mark fit, and then they are copied and the offset moves past the encoding in place only |
| DnsEncode.AddDomainName | src/srv.c:126-162 | exactly the encoding of the name is written, and nothing else changes |
| DnsEncode.ProperReadsBack | src/srv.c:126-257 | a proper name written anywhere in a message is read back, and its encoding ends where it was written |
| DnsEncode.ImproperDiffers | src/srv.c:126-257 | any other name is read back as something else, if at all |
| DnsEncode.ReadsBackIffProper | src/srv.c:126-257 | a written name is read back if and only if its words have 1 to 63 bytes and no dot ends it |
| DnsMessage.Add16 | src/srv.c:99-110 | two bytes, most significant first |
| DnsMessage.Get16 | src/srv.c:112-124 | the number they stand for |
| DnsMessage.Get32 | src/srv.c:83-97 | the number of four bytes |
| DnsMessage.AddHeader | src/srv.c:259-281 | the twelve bytes of section 4.1.1 of RFC 1035 with every field cut to its bits |
| DnsMessage.GetHeader | src/srv.c:283-307 | the fields of twelve bytes |
| DnsMessage.HeaderReadsBackIffFits | src/srv.c:259-307 | a header is read back if and only if every field fits its bits |
| DnsMessage.HeaderOfRead | src/srv.c:259-307 | any twelve bytes are those of the header read from them |
| DnsMessage.AddQuestion | src/srv.c:309-315 | name, type and class one behind the other |
| DnsMessage.NameOverrunsIff | src/srv.c:188-257 | copying a name leaves its field of 1024 bytes if and only if the labels measure at most 1024 and with dots and end mark more |
| DnsMessage.SeventeenLabelsOverrun | src/srv.c:214-254 | a message with 17 labels of 60 bytes is one that does |
| DnsMessage.GetQuestion | src/srv.c:317-323 | name field, type and class, and the offset behind them, for every name that stays inside its field; the others are reported |
| DnsMessage.QuestionReadsBack | src/srv.c:309-323 | a question with a proper name is read back as it was |
| DnsMessage.GetSrvData | src/srv.c:325-332 | the three numbers and the target, or that the target leaves its field |
| DnsMessage.GetResourceRecord | src/srv.c:334-347 | every field, and the next record `rdlength` bytes behind the fixed part wherever the SRV data ends; a name or target that leaves its field is reported |
| DnsRecords.AnswerReadsBack | src/srv.c:188-347 | an answer laid out as in RFC 1035 and RFC 2782 is read as what it says: the name its pointer leads to, type, class, time to live and length, priority, weight and port each in its place, and the target |
| DnsRecords.PointerReadsOn | src/srv.c:194-250 | the pointer `192 + t / 256`, `t % 256` reads on at t for every t below 2^14, and the name ends behind it |
| DnsRecords.HeaderOnTheWire | src/srv.c:259-281 | the twelve bytes of a header with a different value in each field |
| DnsRecords.AnswerOnTheWire | src/srv.c:83-124 | the bytes of an answer, most significant first |
| HashKey.SignIsParity | src/hash.c:79-90 | the hash is negative if and only if an odd number of characters have their eighth bit set |
| HashKey.NamesIff | src/hash.c:79-90 | a key names a bucket if and only if that number is even or the hash is a multiple of the number of buckets |
| HashKey.OneLetterMisses | src/hash.c:79-90 | the key 0xE9 has index -3 in a table of 10 |
| HashKey.ComputeIndex | src/hash.c:79-90 | the loop with its turning shift computes the signed remainder, for every key |
| HashTable.Table.constructor | src/hash.c:31-48 | an empty table |
| HashTable.Table.Get | src/hash.c:123-140 | the value of the map, or NULL, for every key that names a bucket |
| HashTable.Table.Drop | src/hash.c:142-173 | the key leaves the map, its value is freed once, -1 for a missing key |
| HashTable.Table.Add | src/hash.c:92-120 | with a free function the map takes the new value and the old one is freed; without one, or for an empty key, nothing changes and -1 is returned |
| HashTable.Table.Unlink | src/hash.c:150-169 | taking an entry out of its chain leaves every chain linked as it should be |
| HashTable.Table.Insert | src/hash.c:106-119 | an entry at the head of its bucket's chain |
| HashTable.Table.NumKeys | src/hash.c:175-178 | the size of the map |
| HashTable.DropPlaced | src/hash.c:142-173 | the entries left are in their buckets and no key is there twice |
| HashTable.InsertPlaced | src/hash.c:106-119 | so it is after an insertion |
| HashIterator.Iterator.Next | src/hash.c:202-229 | call n gives key n of the chains in order, and NULL from the end on |
| HashIterator.EachKeyOnce | src/hash.c:202-229 | that order holds every key of the map exactly once |
| HashIterator.IterateAll | src/hash.c:202-229 | a whole iteration yields each key once, and then NULL again |
| LinkedList.Init | src/list.h:26-30 | the empty list |
| LinkedList.Add | src/list.h:38-59 | the node in front of the sequence |
| LinkedList.AddTail | src/list.h:69-73 | the node behind it |
| LinkedList.Del | src/list.h:82-104 | the sequence without the node, whose links are NULL |
| LinkedList.MoveTail | src/list.h:156-161 | an entry of the list goes to its end |
| LinkedList.MoveTailAcross | src/list.h:156-161 | an entry of another list goes to the end, and leaves that list |
| LinkedList.RotateLeft | src/list.h:206-214 | the first entry becomes the last |
| LinkedList.CutPosition | src/list.h:225-263 | the list is split behind the entry; an empty one is left alone |
| LinkedList.Splice | src/list.h:265-289 | concatenation in front, the emptied head still pointing at the entries |
| LinkedList.SpliceTail | src/list.h:296-301 | concatenation behind |
| LinkedList.SpliceInit | src/list.h:310-334 | the same with the emptied head made a list again |
| LinkedList.CutThenSplice | src/list.h:225-317 | cutting anywhere and splicing back restores the list |
| AllocationRing.Ring.Malloc | src/mm.c:33-51 | a tracked block in front of the ring, unless malloc failed |
| AllocationRing.Ring.Realloc | src/mm.c:53-78 | the four cases: as malloc, as free, unchanged on failure, the block renamed in place |
| AllocationRing.Ring.Free | src/mm.c:80-97 | the block with that pointer leaves the ring, an untracked pointer is let through |
| AllocationRing.Ring.CleanCheck | src/mm.c:99-111 | each block in the ring is reported once, in order, and the ring is empty afterwards |
| AllocationRing.RingIsLive | src/mm.c:33-97 | after any run of calls the ring holds exactly the blocks the client still owns, each once, with their latest data |
| Base64.MapsAreInverse | src/base64.c:7-38 | the two tables undo each other |
| Base64.EncodeBuffer | src/base64.c:45-94 | the coded text, signs spread as written, fills the buffer up to its terminal null |
| Base64.EncodedDecodes | src/base64.c:45-190 | the length counted for an encoded text is the number of bytes encoded, and they are decoded with their signs spread |
| Base64.DecodeBuffer | src/base64.c:117-190 | the decoder on every text: the bytes and their end mark in the block it allocates, refused, or astray in the table or the block |
| Base64.StaysInsideIffRoomy | src/base64.c:96-190 | on seven-bit text no access goes astray if and only if the length is no multiple of four, bytes are counted, or the first group is not plain |
| Base64.PaddedQuadStrays | src/base64.c:96-145 | `AAAA====` stores three bytes in a block of one |
| Base64.DecodeOfEncode | src/base64.c:45-190 | an encoded text is decoded inside the block, to as many bytes, and to the same ones if and only if in each whole group the bytes before one of 128 or more are 255 |
| Base64.AccentIsLost | src/base64.c:57-66 | the coding of 0x41 0xC3 0xA9, from which only the last byte comes back |
| Base64Example.Vectors | src/base64.c:45-94 | the test vectors of section 10 of RFC 4648, "f" to "foobar" |
| DigestText.Scan1 | src/xmpp-sasl.c:72-103 | every turn of the scanner leaves a shorter text |
| DigestText.ParseDigestChallenge | src/xmpp-sasl.c:56-111 | the loop over the places of the text is the scanner on what is left of it, up to an access outside the decoder's block or the table's buckets |
| DigestText.ScanEntry | src/xmpp-sasl.c:72-103 | one turn over the places gives key, value and the next place |
| DigestTurns.TurnReads | src/xmpp-sasl.c:70-107 | behind any commas and spaces an entry is read as its key, its value (within either kind of quotes up to the same quote or the end, or bare up to a comma) and the text behind it |
| DigestReply.AddKeysIsLine | src/xmpp-sasl.c:123-168 | the text grown key by key is the items with commas in between |
| DigestReply.ParseLine | src/xmpp-sasl.c:72-168 | a line of good fields is read back, a later key replacing an equal one |
| DigestReply.FieldReadsBackIffGood | src/xmpp-sasl.c:84-168 | a field is read back if and only if its value has no double quote, or outside quotes no comma and no quote at its start |
| DigestReply.CodedTextParses | src/xmpp-sasl.c:56-111 | of any coded text the scanner gets the text with its signs spread |
| DigestReply.ReplyReadsBack | src/xmpp-sasl.c:56-168 | assembled, coded and parsed, good fields give the same keys and values if no sign spreads in their text |
| DigestReply.AccentIsMisread | src/xmpp-sasl.c:56-168 | a good field with an accented letter is read with other bytes |
| DigestMd5.ComputeResponse | src/xmpp-sasl.c:221-274 | the response is that of section 2.1.2.1 of RFC 2831, hashed piece by piece |
| DigestExample.ResponseHashed | src/xmpp-sasl.c:221-274 | for one small challenge the text hashed at each stage, written out |
| DigestExample.ReplyWrittenOut | src/xmpp-sasl.c:276-292 | and the whole reply to it, item by item |
| DigestMd5.SaslDigestMd5 | src/xmpp-sasl.c:171-295 | no reply to an unreadable challenge, astray without a nonce, otherwise the coded line of the nine fields |
| DigestMd5.ReplyIsUnderstood | src/xmpp-sasl.c:276-292 | if no sign spreads in its text, the scanner reads exactly those nine fields, the response among them, from the reply |
| DigestMd5.SevenBitReply | src/xmpp-sasl.c:276-292 | none does when names, realm, nonce and charset are seven-bit |

## Left out

- The platform calls of `src/pthread-win32.c:16-380`, thread creation and join, and failures of `WaitForSingleObject` and `SetEvent`. Thread identifiers are the 2^30 values Windows can give.
- The login handlers of `src/xmpp-auth.c` and the stream events of `src/xmpp-conn.c` are functions on the value of a connection, so that runs can be quantified over; update in place is modelled for the dispatcher and its lists (`LoginDispatch.Connection`).
- Stanzas are values: parent and sibling links in place, reference counts and `xmpp_stanza_copy` are not modelled, nor aliasing of a child under two parents. The attribute table is a sequence in the order its iterator gives; the table itself is modelled in `HashTable`.
- `written` in the printer is unbounded: texts of 2^31 characters and more are not modelled.
- expat is replaced by a reader for the printed subset: start and end tags, attributes in apostrophes, character data and the four named entities that the printer writes. Line end and attribute value normalisation, comments, CDATA sections, declarations and prefixed names are not modelled.
- StanzaRoundTrip.PrintThenParse: asks for what a parser demands: names of XML 1.0 (fifth edition) without a colon, characters of XML 1.0 in UTF-8, attribute values that are not empty and hold no apostrophe and none of the characters a reader would change, and no reserved namespace as the default. A parser with the name tables of an older edition refuses some of those names.
- Attribute keys of stanzas are seven-bit, so that each names a bucket of its table.
- The login is one connection from `xmpp_connect_client` to its first disconnect; reconnection on the same object, where handlers and flags are kept, is not modelled.
- Callbacks of the application may add handlers in any number, but deleting other handlers or adding id handlers during a dispatch, and `handler_clear_all`, are not modelled. The timer that forces a disconnect is an event that may come at any time while the connection is closing; as `src/xmpp-handler.c:33` stands internal timed handlers are never called, so it never does. Other timed handlers are left out, as are stream compression and write failures.
- A missing argument of `strcmp` in the login handlers counts as no match.
- The first messages of SASL are marks with their mechanism; their text is modelled in `DigestMd5`. The text of PLAIN is left out.
- LoginCompletes.FullLoginCompletes: the three runs are three ways through the stages; that any other chain of the stages in `LoginStages` leads on as well follows from their rows, and is not stated as one theorem. Between the stages the server sends nothing else.
- The real-valued generators and the 63-bit one (`src/random.c:155-176`); arrays of 2^32 keys and more for `init_by_array64`, whose index is 32 bits wide.
- MD5 contexts share no memory with the data they are given.
- `im_srv_lookup` and everything it calls: sockets, time-outs, the system's resolvers.
- DnsName.GetDomainName: asks that the loops end inside the message, which `DnsName.EndsIffWithinLength` decides; what they do otherwise is not modelled.
- `netbuf_add_32bitnum`, which nothing calls.
- HashTable.Table.Get and the other operations of the table: for keys that name a bucket (`HashKey.NamesIff`); the source has no check. `hash_release` and the reference counts of tables and iterators are left out.
- HashIterator.Iterator.Next: for a table that does not change while it is iterated.
- A node of `LinkedList` carries the structure it is embedded in; `container_of` is that field. `list_replace`, the plain `list_move` and the iteration macros over entries add nothing to what is shown.
- AllocationRing.Ring.Malloc: what `malloc` and `realloc` return are parameters; a pointer they give is not one that is still live.
- The growing reply buffer of `_add_key` (`src/xmpp-sasl.c:123-168`) is a sequence that grows.
- Base64.EncodeBuffer: for two bytes and more, because of the unsigned `len - 2` at `src/base64.c:56`; Base64.DecodeBuffer for a text that is not empty.
- DigestReply.ReplyReadsBack: what else the scanner makes of a text in which a sign spreads follows from `DigestReply.CodedTextParses` and is not classified further.
- DigestMd5.SaslDigestMd5: the splitting of the JID and the fixed client nonce are as in the source. The digest's own table is a map; that `HashTable` behaves as one is proved there.
- Allocation failure everywhere, logging, the names of stream errors, JID helpers, and the unfinished message and out-of-band modules.
