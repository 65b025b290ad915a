# Verified model of the DAP hub and its adapters

DAP connects agents through a hub that stores and forwards end-to-end encrypted frames. This
project models the parts of the hub (Go) and of its two TypeScript adapters (the MCP bridge and the
dsh plugin) that keep state over time or rewrite text, and proves what they promise over every
input, every interleaving or every run. `dafny verify dfyconfig.toml` checks all of it.

How the model is built:

- One module per component. State that the program updates in place is a class whose methods are
  proved equal to a function of the old state; the theorems are lemmas about those functions and
  about whole runs.
- Concurrency is a step system. In the hub the steps are the critical sections of `h.mu`; inside
  one connection they are the single loads, adds and channel operations of `sendFrame` and the
  write pump. Map iteration order is left open everywhere.
- Clocks are parameters or an explicit field, fresh ids are numbers, connections, sockets, timers
  and peers are numbered.

## The components

- **Glossary** (`Text`, `GlossText`, `GlossConv`, `GlossScan`, `GlossAgent`, `GlossProtocol`, `GlossSessions`,
  `GlossTraces`, `GlossDrops`, `GlossClash`, `GlossCrossings`, `GlossSwallowed`). Two agents propose,
  acknowledge and drop abbreviations and rewrite chat bodies with them. A proposal clashes if it
  shares just a term or just an abbreviation with one on its way to the proposer. In every run
  without clashes a token never reads as another term, whatever is dropped and when. With nothing in
  flight the two glossaries agree, in runs without drops, exactly when nothing clashed; and in runs
  without clashes, exactly when no pair is split, which the drops of that pair alone decide. Without
  drops a message whose text holds no literal live token comes back as it was said exactly when no
  pass of its compaction swallows a token. Each failure is shown by a run from the start.
- **Canonical JSON** (`JsonText`, `CanonicalJson`). The signed text is unambiguous: a parser inverts
  it, it is equal for two values exactly when they agree after dropping what the printer drops, and
  it survives the trip over the wire.
- **Send queue** (`SendQueue`). The backpressure counter is exact in every interleaving and its
  overshoot is bounded; the bound is met for exactly the frame limits that the buffer admits. Which
  frames a closed connection can still accept is decided exactly.
- **Hub state** (`HubState`, `HubCore`, `Registry`, `Identities`, `Credentials`, `Mailbox`). Registry,
  credentials and mailboxes over every run of register, deregister, drop, evict, enroll, enqueue,
  drain and restart. Who a connection is, whom the registry knows and on which connection, and which
  tokens authenticate are read off the history of operations alone.
- **Delivery** (`Channels`, `Delivery`, `Routing`, `Stranded`). Direct messages, channel fan-outs
  and flushes as interleaved tasks; every hand-over is logged, and the log is proved to agree with
  the queues and the mailboxes. Which way each message goes is decided exactly by who is known,
  connected, a member and admitted at the step that looks. Mail for an identity that is not
  registered needs an eviction, and which deliveries in flight bring it about is decided exactly.
- **Replay and dedupe caches** (`NonceCache`, `SendIds`, `Sends`). The lazily pruned nonce cache
  agrees with a plain log, hellos are not replayed within an exact bound, and the send-id ring holds
  exactly the last accepted keys. A send from its check to its latch, with the delivery in between,
  is latched exactly when its message has been placed.
- **Presence** (`Presence`). Both adapters answer the same user queries with the same frames.
- **Connection lifecycle** (`Lifecycle`). The plugin's dialing, backoff, stop, retarget and refused
  upgrades: sockets left behind never influence it, and a refused dial is retried exactly when the
  answer was 401. The bridge's listeners do not look at which socket they serve; its runs keep the
  plugin's timer invariant up to, and lose it exactly at, the first close of a listening socket that
  was left behind.
- **Keepalive** (`KeepAlive`). The watchdog as a timed automaton with its detection bound.
- `Basics` holds the option type and a fact on sequences that several components use.

## Where the code differs from its own comments

- Compaction is called an exact inverse of expansion (`adapters/mcp-bridge/src/gloss.ts:132-133`). A
  text without literal live tokens comes back unchanged if and only if no pass swallows a token, that
  is, matches a term that begins with a live abbreviation directly behind a tilde
  (`GlossText.RoundTrip`); each swallowed token leaves one tilde too many (`GlossText.PassGains`).
  `GlossSwallowed.SwallowedInRun` gives runs in which such a text is said.
- The plugin's error handler says that a close always follows
  (`adapters/dsh-plugin/src/client.ts:441`). After a rejected upgrade with a status other than 401 the
  handler returns before it terminates the socket (`adapters/dsh-plugin/src/client.ts:444`): the
  client then neither retries nor dials until the user acts (`Lifecycle.RefusedDialRetries`,
  `Lifecycle.HangsForever`, `Lifecycle.HangingRun`).
- A closed connection is said to accept no frame (`hub/relay.go:319-322`). A sender that has passed
  the first select before the close can still queue one (`SendQueue.ClosedAcceptsExactly`,
  `SendQueue.ClosedBetweenSelects`).
- Ids are called the idempotency mechanism (`hub/channels.go:103-107`). The check and the latch are
  two steps: two sends of one agent with one key, both checked before either is latched, are both
  accepted (`Sends.TwinsRepeat`). Without such twins equal keys are accepted more than a ring apart
  (`Sends.TwinFreeKeepsApart`).
- The plugin calls itself connected while the welcome handshake is done on an open socket
  (`adapters/dsh-plugin/src/client.ts:194-197`). A stop does not clear its welcome flag, so after a
  stop, a start and the new socket's opening it reports so before the new welcome
  (`Lifecycle.WelcomedExactly`, `Lifecycle.ReportsTooEarly`).
- The backoff cap does not apply to the first wait (`Lifecycle.WaitsDouble`).

## Model

| member | source | states |
|---|---|---|
| GlossText.PassGains | adapters/mcp-bridge/src/gloss.ts:131-142 | one replacement pass leaves the expansion as it is if it swallows no token, and by terms without tildes adds exactly one tilde to it for every token it swallows, whatever else the text holds |
| GlossText.ExpandUndoesCompact | adapters/mcp-bridge/src/gloss.ts:126-143 | expansion undoes any sequence of passes with undoable pairs, in any order and with any overlaps |
| GlossText.RoundTrip | adapters/mcp-bridge/src/gloss.ts:126-143 | for pairs held by the listener: a text without literal live tokens comes back if and only if no pass swallows a token; and when none does, a text comes back if and only if it holds no literal live token |
| GlossText.UndoableRoundTrip | adapters/mcp-bridge/src/gloss.ts:126-143 | when no term begins with a live abbreviation, a text comes back if and only if it holds no literal live token |
| GlossText.ReplaceLeavesNone | adapters/mcp-bridge/src/gloss.ts:131-135 | a pass removes every bounded occurrence of its own term and creates none of any other term, for terms whose first word is not the inserted abbreviation |
| GlossText.CompactLeavesNone | adapters/mcp-bridge/src/gloss.ts:126-137 | after compaction no active term whose first word is no abbreviation in use is left standing as a word |
| GlossText.CompactNeverLonger | adapters/mcp-bridge/src/gloss.ts:126-137 | pairs shorter than their terms never lengthen a text |
| GlossText.ExpandTildes | adapters/mcp-bridge/src/gloss.ts:140-143 | expansion by terms without tildes removes exactly one tilde for each live token, and changes no text without live tokens |
| GlossScan.ReplaceExactly | adapters/mcp-bridge/src/gloss.ts:131-135 | by position: one pass puts the token for exactly the occurrences of the term with no character of [a-z0-9] on either side that a scan from the left takes, and copies the rest |
| GlossScan.ExpandExactly | adapters/mcp-bridge/src/gloss.ts:140-143 | by position: expansion replaces exactly the maximal tokens whose word is known, and copies the rest |
| GlossScan.CompactJoins | adapters/mcp-bridge/src/gloss.ts:126-137 | compaction is one pass per pair in the order of the list, each over what the last one left |
| GlossScan.WordsExactly | adapters/mcp-bridge/src/gloss.ts:69-71 | by position: the words of a text are its maximal runs of four or more letters, all of them, in order |
| GlossScan.GramsExactly | adapters/mcp-bridge/src/gloss.ts:69-76 | the n-grams are the one, two or three words in a row, joined by blanks |
| GlossConv.SplitPartitions | adapters/mcp-bridge/src/gloss.ts:57 | splitting cuts a text at its blanks, every one of them, and loses nothing |
| GlossConv.SplitJoin | adapters/mcp-bridge/src/gloss.ts:57-73 | joining words and splitting them again gives the words |
| GlossConv.GramsAreTerms | adapters/mcp-bridge/src/gloss.ts:69-76 | every n-gram has one to three words of at least four letters |
| GlossConv.TermsAreWordlike | adapters/mcp-bridge/src/gloss.ts:69-76 | a term begins and ends with a word character and holds no tilde |
| GlossConv.BaseAbbrev | adapters/mcp-bridge/src/gloss.ts:57-61 | the base abbreviation has at most four characters |
| GlossConv.BaseLetters | adapters/mcp-bridge/src/gloss.ts:57-61 | of several words the base is the initial of each, in order; of one word its first letter and then the consonants of the rest, all of them unless they do not fit |
| GlossSwallowed.BaseIs | adapters/mcp-bridge/src/gloss.ts:57-61 | a word whose first three consonants after its first letter are at given places is abbreviated to these four characters |
| GlossConv.BaseOfTerm | adapters/mcp-bridge/src/gloss.ts:57-61 | for an n-gram the base is a non-empty string of letters, so a token word |
| GlossConv.CandidatesDistinct | adapters/mcp-bridge/src/gloss.ts:62-63 | numbered candidates never repeat, which makes the search terminate |
| GlossConv.FirstFreeShape | adapters/mcp-bridge/src/gloss.ts:62-65 | the first free candidate carries at most the digits of the number of reserved names plus one |
| GlossConv.ShortAbbrev | adapters/mcp-bridge/src/gloss.ts:48-66 | with fewer than 999 names reserved an abbreviation is shorter than any proposed term |
| GlossConv.OfferedAllFields | adapters/mcp-bridge/src/gloss.ts:188 | storing proposals touches the entries and reserves their abbreviations, nothing else |
| GlossConv.AcksAreLive | adapters/mcp-bridge/src/gloss.ts:220-235 | a live pair survives every proposal; each entry is answered, and what is acknowledged is live here under the acknowledged name |
| GlossConv.StaleAckIgnored | adapters/mcp-bridge/src/gloss.ts:236-243 | an acknowledgement changes no term that is not pending |
| GlossConv.ConfirmedAreLive | adapters/mcp-bridge/src/gloss.ts:236-243 | an acknowledged pair that is pending goes live under the acknowledged name, with its token and the name reserved |
| GlossProtocol.ProposalsAreFresh | adapters/mcp-bridge/src/gloss.ts:185-188 | no known or dropped term is proposed, and no abbreviation ever reserved is proposed again |
| GlossConv.RestoredSpeaksTheSame | adapters/mcp-bridge/src/gloss.ts:146-167 | an instance loaded from a saved glossary is live for exactly the same pairs, reads the same tokens and saves the same again |
| GlossConv.BodyNeverLonger | adapters/mcp-bridge/src/gloss.ts:126-137 | while active abbreviations are short, the wire body is never longer than the text |
| GlossAgent.NGrams | adapters/mcp-bridge/src/gloss.ts:69-76 | the nested loops produce exactly the list of n-grams, n by n and left to right |
| GlossAgent.Glossary.constructor | adapters/mcp-bridge/src/gloss.ts:174 | a conversation starts empty |
| GlossAgent.Glossary.GenAbbrev | adapters/mcp-bridge/src/gloss.ts:56-66 | terminates, returns the first free candidate, never one reserved before, of bounded length, and reserves it |
| GlossAgent.Glossary.CountGrams | adapters/mcp-bridge/src/gloss.ts:184 | counts each distinct n-gram of a message once |
| GlossAgent.Glossary.Observe | adapters/mcp-bridge/src/gloss.ts:182-189 | proposes exactly the terms counted twice or more, of at least eight characters, neither held nor dropped, each under a fresh abbreviation |
| GlossAgent.Glossary.NameCandidates | adapters/mcp-bridge/src/gloss.ts:185-187 | names every candidate once and reserves all names |
| GlossAgent.Glossary.ProposeCandidates | adapters/mcp-bridge/src/gloss.ts:185-188 | stores the proposals as pending |
| GlossAgent.Glossary.ActivePairs | adapters/mcp-bridge/src/gloss.ts:128-129 | lists the active pairs, each once, longest term first |
| GlossAgent.Glossary.Compact | adapters/mcp-bridge/src/gloss.ts:126-137 | rewrites with the active pairs, longest first |
| GlossAgent.Glossary.HandlePropose | adapters/mcp-bridge/src/gloss.ts:220-235 | a live pair answers with its own abbreviation, anything else yields to the peer; everything is acknowledged |
| GlossAgent.Glossary.HandleAck | adapters/mcp-bridge/src/gloss.ts:236-243 | only pairs still pending go live |
| GlossAgent.Glossary.DeactivateAll | adapters/mcp-bridge/src/gloss.ts:249-257 | live abbreviations are removed and their terms never proposed again; others are skipped |
| GlossAgent.Glossary.Load | adapters/mcp-bridge/src/gloss.ts:157-167 | restores the saved pairs as active, in any order of the saved object |
| GlossProtocol.StepKeepsInv | adapters/mcp-bridge/src/gloss.ts:182-257 | every step of either agent without clashing crossing proposals keeps the agreement between the two glossaries and the frames in flight |
| GlossProtocol.RunKeepsInv | adapters/mcp-bridge/src/gloss.ts:182-257 | the agreement holds in every state of every run without clashing crossing proposals, whatever is dropped |
| GlossProtocol.SettledAgree | adapters/mcp-bridge/src/gloss.ts:219-257 | with nothing in flight and no drop of a pending pair, both glossaries are equal and nothing is pending |
| GlossSessions.TokenFate | adapters/mcp-bridge/src/gloss.ts:182-257 | in every run whose crossing proposals agree, a token a receiver gets expands to the sender's term, or stays verbatim because the receiver has dropped the pair; never another term, whatever is dropped and when |
| GlossSessions.MessageArrives | adapters/mcp-bridge/src/gloss.ts:182-217 | without drops a message without literal live tokens arrives as it was said if and only if no pass of its compaction swallows a token; and when none does, a message arrives if and only if its text holds no literal live token |
| GlossSessions.MessageNeverLonger | adapters/mcp-bridge/src/gloss.ts:126-190 | while at most 999 abbreviations are reserved, no message on the wire is longer than what was said |
| GlossSessions.LiveMeansBothHold | adapters/mcp-bridge/src/gloss.ts:219-257 | a pair live on one side is held, or has been dropped, on the other |
| GlossSessions.QuietAgreement | adapters/mcp-bridge/src/gloss.ts:219-257 | when nothing is dropped while it is pending, and nothing is in flight, both sides hold the same glossary; drops of unknown or already dropped abbreviations are harmless |
| GlossDrops.PendingDropSplits | adapters/mcp-bridge/src/gloss.ts:249-257 | after the first drop of a pair that is pending at the dropper, with any other drops before and after, the pair ends up gone at the peer; at the dropper it is gone as well if and only if it is dropped again by the peer, knowing it, or by the dropper, no longer pending |
| GlossDrops.PairFate | adapters/mcp-bridge/src/gloss.ts:219-257 | in every run without clashes, with drops of any pairs at any time and nothing in flight at the end, each pair ever proposed is live on both sides, live on one and dropped on the other, or dropped on both, as the drops of it and the dropper's stand at each of them say |
| GlossDrops.AgreeExactly | adapters/mcp-bridge/src/gloss.ts:219-257 | in every run without clashes, with nothing in flight, the two glossaries are equal if and only if no pair is split |
| GlossClash.ClashDecides | adapters/mcp-bridge/src/gloss.ts:182-243 | in every run without drops, with any proposals crossing in any way and nothing in flight at the end, the two glossaries are equal if and only if no proposal clashed |
| GlossClash.FinalGlossaries | adapters/mcp-bridge/src/gloss.ts:220-243 | in every such run each side ends with everything proposed live, under the peer's abbreviation wherever the peer proposed the term; a token reads as the own pair that was confirmed under it, and without one as the peer's |
| GlossClash.TermClashSplits | adapters/mcp-bridge/src/gloss.ts:229-232 | one term proposed under two abbreviations: each side ends with the other's, and they differ for good |
| GlossClash.AbbrevClashSplits | adapters/mcp-bridge/src/gloss.ts:229-242 | one abbreviation proposed for two terms that do not clash themselves: both sides hold both pairs, and each reads the token as its own term |
| GlossSessions.FlippedRun | adapters/mcp-bridge/src/gloss.ts:201-217 | a run seen from the other agent is a run, so each theorem holds for both receivers |
| GlossCrossings.CrossedTermBreaks | adapters/mcp-bridge/src/gloss.ts:182-242 | GlossClash.TermClashSplits is met: a run from the start in which both sides propose one term under two abbreviations, and in the end neither reads the other's token for it |
| GlossCrossings.CrossedAbbrevBreaks | adapters/mcp-bridge/src/gloss.ts:182-242 | GlossClash.AbbrevClashSplits is met: a run from the start in which two words with one base cross, and in the end each side reads its own word |
| GlossCrossings.EarlyDropSplits | adapters/mcp-bridge/src/gloss.ts:236-257 | a run from the start: a word is proposed and dropped before it is acknowledged, and ends up live at the proposer and dropped at the peer |
| GlossCrossings.PluralSharesBase | adapters/mcp-bridge/src/gloss.ts:57-61 | a word with at least three consonants after its first letter and its plural have the same base, so the crossing runs exist for all of them |
| GlossCrossings.StandardHasBase | adapters/mcp-bridge/src/gloss.ts:57-61 | "standard" is such a word |
| GlossSessions.FirstWordBreaks | adapters/mcp-bridge/src/gloss.ts:131-135 | a later term beginning with a live abbreviation swallows the inserted token, and a text without tokens comes back changed; GlossSwallowed.SwallowedInRun reaches it |
| GlossSwallowed.SwallowedInRun | adapters/mcp-bridge/src/gloss.ts:131-190 | a run from the start without clashes and drops: a word is abbreviated to four letters, these are used as a word of a second term, and the first word followed by the second term's other word arrives changed although it holds no token |
| GlossSwallowed.AuthenticationSwallows | adapters/mcp-bridge/src/gloss.ts:57-61 | "authentication" and "queue" are such words |
| JsonText.LessTotal | adapters/mcp-bridge/src/crypto.ts:27 | the key order is total and irreflexive |
| JsonText.LessExactly | adapters/mcp-bridge/src/crypto.ts:27 | one key comes before another if and only if it is a proper prefix or has the smaller code unit where they first differ |
| JsonText.EscapeForms | adapters/mcp-bridge/src/crypto.ts:24 | which units are written by two characters, by a lower-case hex escape, and as they are |
| JsonText.EscapeJoins | adapters/mcp-bridge/src/crypto.ts:24 | a text is written unit by unit, surrogate pairs as they are |
| JsonText.StringRoundTrip | adapters/mcp-bridge/src/crypto.ts:24-28 | reading a quoted string gives the string back (section 7 of RFC 8259), lone surrogates included |
| CanonicalJson.ReadPrinted | adapters/mcp-bridge/src/crypto.ts:23-29 | the parser reads back every clean value from its printed text and stops right after it |
| CanonicalJson.CanonPrintsStrip | adapters/mcp-bridge/src/crypto.ts:23-29 | the canonical text is the plain printing of the value stripped of undefined and sig members and sorted |
| CanonicalJson.SortIncreasing | adapters/mcp-bridge/src/crypto.ts:27 | members of distinct keys come out in strictly increasing key order |
| CanonicalJson.CanonOrders | adapters/mcp-bridge/src/crypto.ts:23-29 | an object prints exactly its members that count, each once, by increasing code units of their keys |
| CanonicalJson.CanonTwo | adapters/mcp-bridge/src/crypto.ts:23-29 | of two members, given in either order, the one with the smaller unit where the keys first differ is printed first |
| CanonicalJson.CanonOfHello | adapters/mcp-bridge/src/crypto.ts:23-29 | op is printed before ts, unit by unit |
| CanonicalJson.CanonOfList | adapters/mcp-bridge/src/crypto.ts:24-25 | a list keeps its order, and an undefined item prints as null, unit by unit |
| CanonicalJson.SameIffStrip | adapters/mcp-bridge/src/crypto.ts:23-29 | two values agree up to key order and dropped members if and only if their stripped sorted forms are equal |
| CanonicalJson.ParserInvertsCanon | adapters/mcp-bridge/src/crypto.ts:23-29 | parsing a canonical text gives the stripped sorted value |
| CanonicalJson.CanonUnambiguous | adapters/mcp-bridge/src/crypto.ts:23-29 | two values have the same canonical text if and only if they agree after dropping undefined and sig at all depths |
| CanonicalJson.CanonSurvivesWire | adapters/mcp-bridge/src/crypto.ts:19-22 | stringify and parse leave the canonical text unchanged |
| CanonicalJson.PayloadParts | adapters/mcp-bridge/src/crypto.ts:35-37 | the signed payload is dap1, the op member, the ts member and the digest of the canonical text, between bars |
| CanonicalJson.PayloadBindsFrame | adapters/mcp-bridge/src/crypto.ts:35-37 | frames with equal signed payloads agree in every member but sig, if their canonical texts do not collide under the hash |
| CanonicalJson.VerifierSeesSignerPayload | adapters/mcp-bridge/src/crypto.ts:35-46 | a frame signed, sent and parsed has the payload that was signed |
| CanonicalJson.NestedSigNotCovered | adapters/mcp-bridge/src/crypto.ts:27 | a sig member below the top level is not covered by the signature |
| SendQueue.StepKeepsAccounts | hub/relay.go:324-349 | every step of a sender or the pump keeps the byte accounts |
| SendQueue.QueuedIsExactAndBounded | hub/relay.go:269-349 | in every interleaving queued is the bytes buffered, claimed and held, never negative, at most the cap plus one frame for every other sender |
| SendQueue.BoundMetExactly | hub/relay.go:20-24 | with frames of at most a given limit some interleaving of n senders meets the bound if and only if a full buffer, the pump and one frame in hand can reach the cap (and the limit is within it, for more than one sender); the 1 MiB frame limit is such |
| SendQueue.ClosedAcceptsNothing | hub/relay.go:337-342 | once closed, a connection accepts no frame of a sender that does not stand between the two selects, or that finds the buffer full and the pump gone |
| SendQueue.ClosedAcceptsExactly | hub/relay.go:337-349 | a closed connection can still accept a frame of a sender if and only if that sender stands between the two selects and has, or can get, a slot |
| SendQueue.ClosedBetweenSelects | hub/relay.go:324-349 | such a state is reached by a close right after the first select |
| SendQueue.OverflowSheds | hub/relay.go:324-335 | a frame that would take the counter over 4 MiB closes the connection and changes nothing else, and that sender never queues a frame on it again |
| SendQueue.PumpExitCloses | hub/relay.go:269-300 | a pump that has stopped has closed the connection, and closed is for good |
| SendQueue.AcceptedAreDelivered | hub/relay.go:269-349 | accepted frames are written in order, none lost, repeated or invented, up to those still in hand |
| HubCore.HubCore.Register | hub/relay.go:360-371 | the connection is installed, the identity goes online, and an earlier connection is dropped |
| HubCore.HubCore.Welcome | hub/auth.go:259-273 | refuses exactly the hellos under a name other than the enrolled one, and drops the connection; otherwise the connection has that id and name, the identity is registered under it and online there, and an earlier connection is dropped |
| HubCore.HubCore.Deregister | hub/relay.go:375-389 | a dead connection is removed unless a newer one has its place |
| HubCore.HubCore.NameHeld | hub/admin.go:119-125 | whether another registry entry holds the name, whatever the order of the scan |
| HubCore.HubCore.Evict | hub/admin.go:100-135 | refuses unknown and online agents; otherwise removes identity and mailbox, and the secrets with the last holder of the name |
| HubCore.HubCore.Enroll | hub/enroll.go:116-132 | only the master may; rotates or adds the hash for the connection's name and persists |
| HubCore.HubCore.PersistSecrets | hub/enroll.go:149-159 | one record per hash, names in the order the map gave |
| HubCore.HubCore.LoadSecrets | hub/enroll.go:173-180 | groups the records by name, in order |
| HubCore.HubCore.AgentForSecret | hub/enroll.go:85-100 | a name under which the hash is stored, or none exists |
| HubCore.HubCore.MatchBearer | hub/enroll.go:68-81 | master, issued secret or denied, under whichever name the scan finds the hash; the empty token matches nothing |
| HubCore.HubCore.EnqueueMail | hub/mailbox.go:9-19 | appends and drops the oldest over the cap, latching the overflow |
| HubCore.HubCore.DrainMail | hub/mailbox.go:22-30 | returns all and the overflow flag, and clears both |
| HubCore.HubCore.HandleFlush | hub/mailbox.go:34-45 | hands over the queued frames in order, then at most one overflow report, then the count |
| Registry.StepKeepsRegistry | hub/relay.go:360-405 | every operation keeps the registry invariant |
| Registry.RegistryInvariant | hub/relay.go:360-405 | an agent is online exactly when a live authenticated connection with its id is installed, and every other connection ever registered has been dropped |
| Registry.DeregisterFindsRecord | hub/relay.go:382-384 | deregister never meets a missing identity record |
| Registry.LateDeregisterIsHarmless | hub/relay.go:375-381 | the late deregister of a replaced connection changes nothing in the registry |
| Identities.AuthIsKept | hub/relay.go:180-189 | a connection has exactly the credential of the upgrade it came with |
| Identities.HelloIsKept | hub/auth.go:259-273 | a connection is authenticated with an id and a name if and only if it said hello so under a credential that may use the name |
| Identities.EntryIsLatest | hub/relay.go:360-405 | the registry knows an identity under a name if and only if its last register was under that name and it was not removed since |
| Identities.ClientIsLatest | hub/relay.go:360-389 | an identity is online on a connection if and only if that was the last one registered for it and has not been deregistered since |
| Credentials.LoadRestores | hub/enroll.go:149-180 | loading records written in any name order restores the same map |
| Credentials.DiskInvariant | hub/enroll.go:116-180 | at any time the file holds exactly the secrets in memory |
| Credentials.SecretStands | hub/enroll.go:85-135 | a hash is stored for a name if and only if it was issued to a connection that said hello under that name and since then no such connection rotated the name and its last registry holder was not evicted |
| Credentials.OneName | hub/enroll.go:85-100 | with distinct hashes a secret resolves to one name, so the search order does not matter |
| Credentials.NameIsAuthorised | hub/auth.go:259-272 | a connection that came with an issued secret is only ever authenticated under the name its secret stood for when it was opened |
| Credentials.TokenAuthenticates | hub/enroll.go:66-100 | a token authenticates as a name if and only if it is not empty, not the master secret, and was issued to a connection that said hello under the name, with no later rotation and no eviction of the last holder |
| Credentials.TokenDenied | hub/enroll.go:66-100 | a token is denied if and only if it is empty, or is neither the master secret nor stands for any name |
| Mailbox.MailboxIsTail | hub/mailbox.go:9-30 | a mailbox is the last hundred frames since it was last emptied, in order, and the overflow flag is set exactly when there were more |
| Mailbox.MailboxHoldsNewest | hub/mailbox.go:9-19 | of n frames the mailbox holds the last min(n, 100) |
| Mailbox.OverflowMeansFull | hub/mailbox.go:13-16 | a set overflow flag means a full mailbox |
| Channels.ChannelRegistry.Join | hub/channels.go:47-78 | creation needs the master secret, the access list guards every join, and a refused join changes nothing |
| Channels.ChannelRegistry.SetAcl | hub/admin.go:68-78 | replaces the access list, keeps the members, creates a missing channel |
| Channels.ChannelRegistry.Targets | hub/channels.go:144-168 | the checks in their order, each verdict with its condition, then the members split into connections and offline ids, each member once |
| Channels.Allows | hub/channels.go:17-27 | an empty list admits everyone, otherwise membership in it |
| Delivery.StepKeepsInv | hub/channels.go:125-197 | every critical section of any task, and every registry change beside it, keeps the log consistent |
| Delivery.DirectMessageOnce | hub/channels.go:172-197 | under any interleaving an accepted message is placed exactly once, in the queue of a connection of the recipient or in its mailbox; a rejected one nowhere; which of them is said by Routing.DmFollows |
| Delivery.FanOutOnce | hub/channels.go:125-168 | a finished fan-out has made one hand-over per member of the snapshot, a push if connected, else a mailbox entry, and none to anybody else |
| Delivery.FlushInOrder | hub/mailbox.go:34-45 | a flush hands what it took to its own connection, each frame once, in order |
| Delivery.LogIsTruth | hub/mailbox.go:9-45 | queues and mailboxes hold exactly what the hand-overs put there |
| Routing.UnknownExactly | hub/channels.go:174-178 | over every run, a direct message is rejected if and only if its recipient was not registered at the lookup |
| Routing.DmFollows | hub/channels.go:179-196 | over every run, a message for a recipient with a connection is first pushed on that one and mailed only after that was refused; without a connection it is mailed and never pushed |
| Routing.CastFollows | hub/channels.go:125-168 | over every run, a channel message is rejected, and handed to nobody, if and only if at the resolution the sender is no member or not admitted; otherwise every member then is served once, on the connection it had then, or in its mailbox if it had none |
| Routing.FlushFollows | hub/mailbox.go:22-45 | over every run, a flush empties the mailbox and hands all of it to its connection, in order |
| Routing.MembersJoined | hub/channels.go:47-78 | the members of a channel are exactly the identities let in by a join, with the master secret for a new channel and by the access list for an old one |
| Routing.AclIsLast | hub/admin.go:68-78 | the access list of a channel is the last one set, and empty before |
| Routing.RefusedIsDropped | hub/relay.go:324-349 | a connection that refused a push of a direct message or a flush is dropped, for good |
| Stranded.StrandedNeedsEviction | hub/admin.go:108-111 | mail waits for an unregistered identity only if that identity has been evicted |
| Stranded.StrandsExactly | hub/channels.go:125-197 | an unregistered identity without mail can get some from the deliveries in flight if and only if one of them has looked it up, or is a fan-out with a storing turn for it to come |
| Stranded.MailOutlivesIdentity | hub/channels.go:172-185 | a run from the start: an eviction between the two lookups of a direct message leaves mail for an identity that no longer exists |
| Stranded.MembershipOutlivesIdentity | hub/channels.go:158-166 | a run from the start: an evicted member stays in its channel, and a fan-out that arrives afterwards stores mail for it |
| NonceCache.NonceCache.Check | hub/auth.go:119-140 | refuses a held unexpired nonce, otherwise records it, prunes, and sweeps when due |
| NonceCache.NonceCache.Sweep | hub/auth.go:143-155 | leaves exactly the unexpired nonces and no empty key |
| NonceCache.Prune | hub/auth.go:131-135 | deletes exactly the expired entries |
| NonceCache.CheckAgreesWithLog | hub/auth.go:118-155 | a call is accepted if and only if no earlier accepted call for the same key and nonce is younger than the retention, whatever was swept |
| NonceCache.NoStaleEntries | hub/auth.go:131-155 | after an accepted call nothing retained expired more than one sweep interval ago and no key is left empty |
| NonceCache.HelloNeverReplayed | hub/auth.go:241-255 | a welcomed hello with a timestamp less than 60 s ahead is never welcomed again; which hellos are welcomed is said by NonceCache.VerdictExactly |
| NonceCache.VerdictExactly | hub/auth.go:241-255 | over every history of attempts, the exact condition of each verdict: a nonce under 16 characters, else a bad signature, else a timestamp more than 300 s off, else a welcomed hello with the same key and nonce less than 360 s ago, else welcome; only a welcome changes the cache |
| NonceCache.NonceCache.CheckFrame | hub/auth.go:241-255 | the checks in their order, on the cache in place |
| NonceCache.ReplayBoundIsExact | hub/auth.go:19-24 | a hello can be accepted twice if and only if its timestamp is at least that far ahead |
| SendIds.RingHoldsNewest | hub/auth.go:177-186 | the ring contains a key if and only if it is among the newest accepted ones |
| SendIds.OverwriteOldest | hub/auth.go:196-198 | overwriting the next slot of a full ring replaces the oldest key |
| SendIds.StaysFarApart | hub/channels.go:103-121 | accepting only keys that are not in the ring keeps equal keys more than 4096 accepts apart |
| SendIds.SendIdCache.Seen | hub/auth.go:177-186 | answers whether the key is among the last 4096 accepted ones, and changes nothing |
| SendIds.SendIdCache.Add | hub/auth.go:189-199 | appends or overwrites the oldest, so that the ring holds the newest keys |
| SendIds.SendIdCache.HandleSend | hub/channels.go:90-121 | each verdict with its exact condition, the routing verdict given; latches the key on acceptance only, and a rejected send leaves no trace; Sends takes the verdict from the delivery |
| Sends.LatchedIffPlaced | hub/channels.go:90-121 | whatever runs beside it, a finished send is latched if and only if its message has been placed, once for a direct message and once for every member for a channel message; rejected, it is placed nowhere |
| Sends.TwinFreeKeepsApart | hub/channels.go:108-121 | unless a send passes its check while another of the same agent with the same key is in flight, equal keys are accepted more than 4096 accepts apart |
| Sends.TwinsRepeat | hub/channels.go:108-121 | a run from the start with two such sends in which the same key is accepted twice in a row |
| SendIds.KeyInjective | hub/channels.go:108 | without a bar in recipient and channel the key determines all three parts |
| SendIds.KeySharedExactly | hub/channels.go:108 | a send with other parts has the same key if and only if one of the three parts holds a bar |
| SendIds.ChannelCollides | hub/channels.go:108 | two sends to two different channels, one name being the other with a bar and a tail, share a key |
| Presence.CompletionProgress | adapters/mcp-bridge/src/client.ts:593-599 | completing a waiter lowers the measure although it may park a new one |
| Presence.BridgeFollows | adapters/mcp-bridge/src/client.ts:566-619 | each event changes the bridge's open user queries as the correlation rule says |
| Presence.PluginFollows | adapters/dsh-plugin/src/client.ts:287-317 | each event changes the plugin's open user queries as the same rule says |
| Presence.AdaptersAgree | adapters/dsh-plugin/src/client.ts:609-622 | over every sequence of events up to a stop or a retarget both adapters have answered the same user queries with the same frames |
| Presence.LatchIsHistory | adapters/mcp-bridge/src/client.ts:770-775 | the echo latch is set if and only if an echo was ever received, reconnects included |
| Presence.AnsweredExactly | adapters/mcp-bridge/src/client.ts:758-779 | a query is answered by a frame if and only if it is open and the frame is its echo, or an id-less frame before any echo; in both adapters |
| Presence.NoneAnsweredTwice | adapters/mcp-bridge/src/client.ts:566-583 | no user query is answered twice |
| Presence.OpenExactly | adapters/mcp-bridge/src/client.ts:566-583 | in both adapters a query is open if and only if it was asked while connected and since then neither timed out, nor was echoed, nor met an id-less frame before any echo |
| Presence.WelcomeWarms | adapters/mcp-bridge/src/client.ts:593-606 | a welcome parks one warm-up in each adapter if and only if no echo was received before |
| Presence.LegacyWarmsAll | adapters/mcp-bridge/src/client.ts:593-606 | while connected, one id-less answer makes the bridge send all the warm-ups it has left, three in all |
| Presence.ResumeLeft | adapters/dsh-plugin/src/client.ts:305-317 | a resumed loop of the plugin sends its next warm-up if and only if it was not the third, no echo was received and the link is up |
| Presence.BridgeWarmsBounded | adapters/mcp-bridge/src/client.ts:593-606 | the bridge sends at most three warm-ups a welcome |
| Presence.PluginWarmsBounded | adapters/dsh-plugin/src/client.ts:305-317 | so does the plugin, those still to come included |
| Presence.LegacyFrameClearsAll | adapters/mcp-bridge/src/client.ts:770-774 | on a hub that never echoes an id-less frame leaves no waiter behind in either adapter |
| Presence.BridgePresence.Presence | adapters/mcp-bridge/src/client.ts:566-583 | parks a query under a fresh id, or fails at once when not connected |
| Presence.BridgePresence.WarmUpPresence | adapters/mcp-bridge/src/client.ts:593-606 | parks a throwaway query unless the latch is set or the link is down |
| Presence.BridgePresence.Unpark | adapters/mcp-bridge/src/client.ts:615-619 | removes the waiter with that id and no other |
| Presence.BridgePresence.OnTimeout | adapters/mcp-bridge/src/client.ts:570-575 | a user query that times out is no longer parked, and no other waiter changes |
| Presence.BridgePresence.Complete | adapters/mcp-bridge/src/client.ts:596-599 | a waiter unparks itself; a warm-up without an echo parks its successor, twice at most |
| Presence.BridgePresence.OnPresence | adapters/mcp-bridge/src/client.ts:758-779 | the loop over a map that callbacks change terminates and leaves no waiter behind |
| Presence.PluginPresence.Presence | adapters/dsh-plugin/src/client.ts:270-296 | parks a resolver under a fresh id |
| Presence.PluginPresence.ResolvePresence | adapters/dsh-plugin/src/client.ts:609-622 | resolves the echoed query, or all of a copy and then clears the map |
| Presence.PluginPresence.ResumeWarmUp | adapters/dsh-plugin/src/client.ts:305-317 | one more attempt, three at most, while unlatched and connected |
| Lifecycle.DapClient.Start | adapters/dsh-plugin/src/client.ts:199-202 | clears stopped and dials |
| Lifecycle.DapClient.Stop | adapters/dsh-plugin/src/client.ts:204-211 | cancels the timer, closes the socket and leaves it behind |
| Lifecycle.DapClient.Retarget | adapters/dsh-plugin/src/client.ts:216-231 | cancels, resets the backoff and dials anew |
| Lifecycle.DapClient.DialAuth | adapters/dsh-plugin/src/client.ts:405-412 | the token is the environment's secret, else the cached one, else the master secret, else none; a dial enrolls if and only if it uses the master secret |
| Lifecycle.DapClient.Connect | adapters/dsh-plugin/src/client.ts:414-422 | nothing when stopped, otherwise a new current socket |
| Lifecycle.DapClient.OnTimer | adapters/dsh-plugin/src/client.ts:559 | a fired timer is gone and dials |
| Lifecycle.DapClient.OnDisconnect | adapters/dsh-plugin/src/client.ts:552-560 | unless stopped, arms a timer for the current wait and doubles it up to the cap |
| Lifecycle.DapClient.OnSocketOpen | adapters/dsh-plugin/src/client.ts:423-427 | the watchdog watches the current socket from its opening |
| Lifecycle.DapClient.OnUnexpectedResponse | adapters/dsh-plugin/src/client.ts:442-460 | ignores every status but 401; a 401 purges the cached secret on the first refusal of a cache-sourced dial with a master secret at hand, and terminates the socket |
| Lifecycle.DapClient.OnSocketClose | adapters/dsh-plugin/src/client.ts:431-433 | only the current socket's close disconnects |
| Lifecycle.DapClient.OnWelcomeFrame | adapters/dsh-plugin/src/client.ts:527-530 | resets the backoff |
| Lifecycle.DapClient.OnEnrolledFrame | adapters/dsh-plugin/src/client.ts:544-550 | caches a non-empty issued secret |
| Lifecycle.TimerOrSocket | adapters/dsh-plugin/src/client.ts:199-231 | an armed retry timer and an unclosed current socket never coexist; a running client always has a timer, a current socket that can still close, or one that hangs on a refused upgrade |
| Lifecycle.WatchesCurrent | adapters/dsh-plugin/src/client.ts:423-433 | at any time the watchdog watches the current socket if that is open, and nothing otherwise |
| Lifecycle.NoneLeftOpen | adapters/dsh-plugin/src/client.ts:204-231 | every socket but the current one has closed or been told to close |
| Lifecycle.WelcomedExactly | adapters/dsh-plugin/src/client.ts:527-530 | the welcome flag is set if and only if there was a welcome on the then current socket and since then no retarget and no close of the current socket |
| Lifecycle.ReportsTooEarly | adapters/dsh-plugin/src/client.ts:194-211 | a run in which the client reports itself connected before the welcome on its new socket |
| Lifecycle.RefusedDialRetries | adapters/dsh-plugin/src/client.ts:442-460 | after a refused current dial a close, and with it a retry, is still to come without the user if and only if the status is 401 |
| Lifecycle.HangsForever | adapters/dsh-plugin/src/client.ts:442-460 | a client on a hung socket stays there whatever the network, the runtime and its other sockets report, until the user stops, starts or retargets it |
| Lifecycle.HangingRun | adapters/dsh-plugin/src/client.ts:442-444 | a start and a 502 lead there |
| Lifecycle.RetiredSocketIsIgnored | adapters/dsh-plugin/src/client.ts:423-460 | over every run, a client that gets the events of sockets left behind, at whatever time, does what it would have done without them |
| Lifecycle.RetiredForGood | adapters/dsh-plugin/src/client.ts:414-422 | a socket left behind never becomes current again |
| Lifecycle.WaitsDouble | adapters/dsh-plugin/src/client.ts:552-560 | the k-th wait since the last welcome or retarget is the initial wait doubled k times and capped, the first one uncapped |
| Lifecycle.RetryWaits | adapters/dsh-plugin/src/client.ts:552-560 | over every run, a close of the current socket arms one timer, for the initial wait doubled as often as waits were armed since the last welcome or retarget, and capped from the second on |
| Lifecycle.EnvSecretIsKept | adapters/dsh-plugin/src/client.ts:405-460 | over every run, while each dial finds a secret in the environment the cached one survives whatever the hub answers |
| Lifecycle.DropLeadsToEnrollment | adapters/dsh-plugin/src/client.ts:405-460 | over every run, from a drop of the cached secret until the hub issues a new one, every dial with a master secret and no client secret in the environment enrolls |
| Lifecycle.IssuedSecretIsUsed | adapters/dsh-plugin/src/client.ts:405-422 | over every run, from an issued secret until it is dropped or another is issued, every dial without a client secret in the environment uses that very secret and does not enroll, whatever the master variable holds |
| Lifecycle.EnrollmentIsDue | adapters/dsh-plugin/src/client.ts:405-422 | over every run, the client is enrolling if and only if its last dial used the master secret and no secret was issued since |
| Lifecycle.SecretDroppedOnce | adapters/dsh-plugin/src/client.ts:442-460 | the cached secret is lost at most once in a client's life |
| Lifecycle.BridgeBreaksExactly | adapters/mcp-bridge/src/client.ts:643-681 | from a state with the invariant a step of the bridge keeps it if and only if it is not the close of a listening socket other than the current one while the client runs; such a close leaves a timer beside a live socket or a second timer |
| Lifecycle.BridgeHoldsUntilStrayClose | adapters/mcp-bridge/src/client.ts:643-681 | in every bridge run no timer stands beside a live socket, nor a second timer, before the first such close, and one does right after it |
| Lifecycle.BridgeLikePlugin | adapters/mcp-bridge/src/client.ts:643-681 | on its user's, its timer's and its current socket's events the bridge does what the plugin does, but for the three differences stated |
| Lifecycle.BridgeRefusedRetries | adapters/mcp-bridge/src/client.ts:652-669 | the bridge terminates a refused dial whatever the status, and the close that follows arms a retry |
| Lifecycle.RetargetSilences | adapters/mcp-bridge/src/client.ts:288-297 | over every bridge run, the events of a socket left behind by a retarget change nothing but that socket |
| Lifecycle.SecondTimerCoexists | adapters/mcp-bridge/src/client.ts:810-822 | a second timer turns into a timer beside a live socket when the other fires |
| Lifecycle.BridgeCoexists | adapters/mcp-bridge/src/client.ts:274-284 | start, stop, start and then the first socket's close is such a run; the plugin survives the same close |
| KeepAlive.KeepAliveWatchdog.Start | adapters/mcp-bridge/src/keepalive.ts:59-72 | stops, clears the verdict, arms one interval and ticks at once |
| KeepAlive.KeepAliveWatchdog.Stop | adapters/mcp-bridge/src/keepalive.ts:74-80 | cancels both timers and forgets the awaited pong |
| KeepAlive.KeepAliveWatchdog.OnPong | adapters/mcp-bridge/src/keepalive.ts:65-69 | cancels the deadline, whichever peer the pong came from |
| KeepAlive.KeepAliveWatchdog.OnTick | adapters/mcp-bridge/src/keepalive.ts:82-94 | arms the deadline before the ping, so that a pong inside ping clears it |
| KeepAlive.KeepAliveWatchdog.OnExpire | adapters/mcp-bridge/src/keepalive.ts:87-91 | records the verdict, stops and terminates the peer |
| KeepAlive.KeepAliveWatchdog.FireTimer | adapters/mcp-bridge/src/keepalive.ts:70-91 | a due interval is rescheduled and ticks, a due deadline is gone and expires |
| KeepAlive.StepKeepsOk | adapters/mcp-bridge/src/keepalive.ts:59-94 | every event keeps the timer, mode and timing invariants |
| KeepAlive.TimersAreFew | adapters/mcp-bridge/src/keepalive.ts:59-94 | at most one interval and one deadline are live, the deadline exactly while a pong is awaited, none when stopped |
| KeepAlive.PingsExactly | adapters/mcp-bridge/src/keepalive.ts:59-94 | over every run, a ping is sent at every start and at every tick while none is open, and at no other time |
| KeepAlive.SilentPeerIsTerminated | adapters/mcp-bridge/src/keepalive.ts:70-94 | after time p of the last pong from any peer ever started on, or of the start, the current peer is terminated by p + every + pongDeadline unless the watchdog is stopped |
| KeepAlive.PromptPeerLives | adapters/mcp-bridge/src/keepalive.ts:82-94 | a peer that answers every ping before its deadline is never terminated |

## Left out

- WebSocket and HTTP plumbing, JSON decoding of frames, logging, ping I/O, file reads and writes: only their effects appear as steps; a failed write of the secrets file is not modelled.
- Ed25519, X25519, HKDF, ChaCha20-Poly1305, SHA-256 and constant-time comparison: hashes and signature verdicts are parameters; collision freedom is a hypothesis where it is needed.
- The Go side's own canonical JSON (`hub/auth.go:43-67`): the TypeScript printer is modelled. Byte agreement between the two is not stated.
- Canonical JSON reads compact text only: the parser does not skip white space or merge duplicate keys, numbers stand for their printed text, and sparse arrays, toJSON and bigint do not occur.
- Compaction orders pairs of equal length, proposals and restored pairs in insertion order; the model leaves that order open and proves the results for every order.
- Abbreviations holding a dollar sign would be read as replacement patterns by the string library; own abbreviations never hold one, and received ones are modelled as plain text.
- Lower-casing in the n-gram method covers ASCII letters only.
- GlossAgent.Glossary.Load: covers one conversation; the outer object is a map of such conversations, independent of each other.
- More than two agents in one glossary conversation, and the order of messages between mailbox and live push: the code promises neither.
- The pieces of `sayTo` before and after its awaited send are two separate steps of a run, so anything may happen between them.
- SendQueue, Delivery: concurrent code is a step system on values, not a class; updates in place are shown for the critical sections in HubCore, ChannelRegistry and SendIdCache.
- Delivery models a call of `sendFrame` as the one step at which the frame enters the queue or is refused; SendQueue models its inside.
- SendIds.SendIdCache.HandleSend: is one atomic step per sender, although the source takes the lock twice; Sends has the check, the delivery and the latch as separate steps.
- Connections, sockets and peers are numbers in maps rather than references; last-seen stamps, public keys of identities and channel key registration are not kept.
- Of the watchdog Lifecycle keeps only the socket it watches; whois waiters, error ring and ready waiters are no part of it.
- Lifecycle takes from the WebSocket library that a dial ends by opening, failing or being answered with another status than 101, that an answered socket nobody terminates reports nothing more until it is closed by a stop or a retarget, and that every other socket closes at most once.
- Lifecycle: start is a step of a client that is not running, as in both programs, which start a client once; Lifecycle.SecondStartKeepsExactly says what another start would do.
- Presence.AdaptersAgree: stop and retarget are no events. At the close after a stop the bridge fails its parked queries (`adapters/mcp-bridge/src/client.ts:813-816`) and on a retarget it fails them at once (`adapters/mcp-bridge/src/client.ts:298`); the plugin keeps them until they time out.
- GlossClash.ClashDecides: is for runs without drops, GlossDrops.AgreeExactly for runs without clashes; runs with both are not decided.
- Lifecycle: at the opening of a bridge socket while none is current the source stops the watchdog and then throws on the null socket; the model has the first and not what the exception does to the process.
- Presence failures by time-out carry no frame and appear only as a query that is no longer open.
- Presence listing, whois, pending invites, inbox caps, identity files, channel files and configuration precedence: single-branch or plain overlays that would only add easy members.
