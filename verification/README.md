# php-fpm-ng: a verified model

php-fpm-ng is a PHP process manager whose pools can speak HTTP themselves.  A gateway process accepts
clients, queues their requests and hands them to FastCGI or HTTP targets; a direct worker accepts clients
without a gateway; a master respawns children, runs cron pools and renews ACME certificates.  This project
models the parts of it that are hardest to get right and proves what they promise, over every input, every
run and every interleaving.

| module | models |
|---|---|
| `UpstreamBudget` | the upstream limit shared by the gateway processes: compare-and-swap, per-process gauges, deaths, reconciliation |
| `ChallengeStore`, `ChallengeProtocol` | the two-slot ACME challenge store with lock-free readers |
| `BodyDecoder`, `ResponseHead`, `HeadScanner`, `HeadText`, `ResponseStream` | the HTTP/1.1 response parser, from the first byte to the last |
| `RecordParser` | the FastCGI record parser |
| `PumpState`, `DispatchPump` | the dispatch pump: queues, connections, full-pool policies, re-entrant failure, deferred free |
| `TrackerSpec`, `ConnTracker` | the connection tracker of a direct worker: list, hash index, rotating sweep, per-client cap |
| `ClientIndex` | the gateway's doubly linked client index |
| `CrashBackoff` | the crash backoff of a pool |
| `Calendar`, `CronText`, `CronSchedule` | crontab expressions and the search for the next run |
| `SeriesKey` | the canonical key of a metric series |
| `JsonLog` | a value of the JSON access log |
| `Backpressure` | pausing an upstream whose client reads slowly |
| `CertInstall` | certificate installation by concurrent renewers that may die anywhere |
| `Shared` | what several modules share |

Code that updates state in place is a class or works on arrays and linked nodes, and every such method is
proved against a function or a relation on values; the promises are lemmas about those.  Concurrent code is a
state machine whose steps are the single reads and writes of the source.  The operating system, libevent,
the siblings and the clock are parameters: arbitrary functions that answer the n-th question, or events.

## What the code does not promise

Where a property one would expect fails, the code is kept as it is, an input is given, and the property is
proved exactly where it holds.

- Crontab numbers are 32-bit ints.  "4294967297" and "1/2147483647" overflow (`CronText.WrappingNumber`,
  `CronText.OverlongStep`); parsing agrees with the meaning of the text exactly when no number it reads and no
  step past a marked value leaves an int (`CronText.ParseItem`, `CronSchedule.Parse`,
  `CronSchedule.ExprOverflowsIff`).
- The search for the next run gives up on "0 0 29 2 *" behind 2096-03-01 (`CronSchedule.LeapDayParsed`,
  `CronSchedule.LeapDayMissed`), where the header (sapi/fpmng/fpm/fpm_cron_schedule.h:42-46) speaks of
  schedules that can never match.  It fails exactly when `CronSchedule.ExpressionFailsIff` says: February 29th
  alone, around a skipped leap year.
- Before the epoch and inside a minute the search skips one (`CronSchedule.EpochSkipped`,
  `CronSchedule.StartIff`).
- The limits on chunk-size lines and heads are checked only at the end of a read, so a longer one passes in
  one cut and fails in another (`BodyDecoder.SplitIndependentIff`, `ResponseStream.AnyCuttingIff`).
- A target may end the name of its first Content-Length with a NUL.  It is then not framed by, but forwarded:
  the client is told another length than it gets (`ResponseHead.MisledByTwo`, `ResponseHead.MisledAlone`).
  `ResponseHead.ForwardedLengthFrames` says exactly when the two agree.
- 64 KiB of output without a blank line are taken for a header block, then shipped at once.  So the limit on
  unwritten body holds in every run exactly when it is at least that (`Backpressure.FloodShips`,
  `Backpressure.LimitHoldsIff`), and `Backpressure.BodyBound` holds always.
- Label values are cut at a NUL, so different series may share a key (`SeriesKey.SharedKey`); they do exactly
  when they differ only behind one (`SeriesKey.KeysEqualIff`).
- An order that is valid already is not finalized, and its chain is installed whatever key it certifies
  (`CertInstall.ForeignChain`); key and chain match exactly when `CertInstall.MatchingIff` says.
- In the JSON log the byte E9 and the bytes C3 A9 mean the same code point (`JsonLog.OneByteTwoBytes`);
  `JsonLog.MeaningIff` says exactly which values mean the same.
- A JSON log value leaves a buffer of one or two bytes (`JsonLog.TinyBuffer`, `JsonLog.InBoundsIff`).  All
  callers have larger ones.
- A death between the two updates of the upstream budget leaks one slot (`UpstreamBudget.DeathInWindowLeaks`),
  and nothing else does (`UpstreamBudget.BudgetConserved`).
- A connection that evhttp let go of before its pickup is freed by the sweep of its own judgement
  (`TrackerSpec.SweptByItsPickup`); it survives exactly when it is not released (`TrackerSpec.SurvivesIff`).

## Model

| member | source | states |
|---|---|---|
| `UpstreamBudget.InitInv` | sapi/fpmng/fpm/fpm_http.c:245-262 | the accounting invariant holds for any number of fresh processes and any limit |
| `UpstreamBudget.StepInv` | sapi/fpmng/fpm/fpm_http.c:245-278 | every single read, compare-and-swap, gauge write, death and reconciliation step keeps the accounting |
| `UpstreamBudget.RunInv` | sapi/fpmng/fpm/fpm_http.c:245-278 | ... and so does every finite run of such steps |
| `UpstreamBudget.ReachableInv` | sapi/fpmng/fpm/fpm_http.c:245-278 | ... so it holds in every reachable state |
| `UpstreamBudget.BudgetConserved` | sapi/fpmng/fpm/fpm_http.c:245-278 | the shared counter is the gauges still charged, plus the processes between their two updates, plus leaked slots; at most one slot leaks per death |
| `UpstreamBudget.ConnectionsWithinLimit` | sapi/fpmng/fpm/fpm_http.c:245-262 | open connections of all processes together never exceed the counter, and the counter never exceeds max_upstreams |
| `UpstreamBudget.GuardsNeverClip` | sapi/fpmng/fpm/fpm_http.c:339-353 | no saturating guard ever clips: gauges and counter are positive when lowered, and the master returns the whole gauge of a dead process |
| `UpstreamBudget.QuietBudgetIsLeak` | sapi/fpmng/fpm/fpm_http.c:515-535 | when nobody holds a connection, what is missing from the budget is exactly what leaked |
| `UpstreamBudget.TakeAlone` | sapi/fpmng/fpm/fpm_http.c:245-262 | left alone, a process has a slot exactly when the counter is below the limit: counter, gauge and its slots go up by one, or nothing changes |
| `UpstreamBudget.GiveAlone` | sapi/fpmng/fpm/fpm_http.c:264-278 | ... and a slot it gives back is free again |
| `UpstreamBudget.ReapAlone` | sapi/fpmng/fpm/fpm_http.c:515-535 | the master returns everything a dead process held; a take or give-back it was in the middle of leaks |
| `UpstreamBudget.DeathInWindowLeaks` | sapi/fpmng/fpm/fpm_http.c:245-262 | the bound is attained: a run with one death that leaks one slot |
| `ChallengeStore.SetMeans` | sapi/fpmng/fpm/fpm_acme_challenge.c:169-230 | a set adds or replaces one token of the map the entries mean |
| `ChallengeStore.ClearMeans` | sapi/fpmng/fpm/fpm_acme_challenge.c:232-265 | a clear, with its move of the last entry into the hole, removes one token of that map |
| `ChallengeStore.HistoryMeans` | sapi/fpmng/fpm/fpm_acme_challenge.c:169-265 | after any history of sets and clears the entries mean the map those operations produce |
| `ChallengeStore.SameFromIsEquality` | sapi/fpmng/fpm/fpm_acme_challenge.c:107 | the byte loop over padded buffers says equal exactly for equal tokens |
| `ChallengeStore.FoundIsIndex` | sapi/fpmng/fpm/fpm_acme_challenge.c:208-212 | the search over encoded entries finds the entry of the token, or the end |
| `ChallengeStore.EntryReplaced` | sapi/fpmng/fpm/fpm_acme_challenge.c:222-225 | zeroing an entry and writing token, key and length leaves exactly the encoded pair, whatever was there |
| `ChallengeStore.SetProgram` | sapi/fpmng/fpm/fpm_acme_challenge.c:169-230 | the cell-by-cell writes of a set turn the encoded entries into the encoding of the edited ones |
| `ChallengeStore.EntryMoved` | sapi/fpmng/fpm/fpm_acme_challenge.c:257-259 | the move into the hole and the zeroed tail, cell by cell |
| `ChallengeStore.ClearProgram` | sapi/fpmng/fpm/fpm_acme_challenge.c:232-265 | the cell-by-cell writes of a clear likewise |
| `ChallengeStore.ProgramEdits` | sapi/fpmng/fpm/fpm_acme_challenge.c:169-265 | both: the program of an operation refines the edit of the entries |
| `ChallengeStore.NotRefusedFits` | sapi/fpmng/fpm/fpm_acme_challenge.c:180-221 | an operation that is not refused fits the eight entries and their buffers |
| `ChallengeProtocol.StepKeeps` | sapi/fpmng/fpm/fpm_acme_challenge.c:73-298 | every field-level step of any reader or writer, and any death of a writer, keeps the protocol invariant |
| `ChallengeProtocol.RunKeeps` | sapi/fpmng/fpm/fpm_acme_challenge.c:73-298 | ... over every finite run |
| `ChallengeProtocol.ReachableInv` | sapi/fpmng/fpm/fpm_acme_challenge.c:73-298 | ... so in every reachable state |
| `ChallengeProtocol.ReaderSurvivesPublish` | sapi/fpmng/fpm/fpm_acme_challenge.c:139-152 | a publication leaves the promise of every reader in flight standing |
| `ChallengeProtocol.PublishKeeps` | sapi/fpmng/fpm/fpm_acme_challenge.c:139-152 | the swap of the generation under the lock succeeds and keeps the invariant |
| `ChallengeProtocol.RepliesAreSnapshots` | sapi/fpmng/fpm/fpm_acme_challenge.c:73-122 | every reply, under any interleaving, is what the committed operations up to one generation inside the call had produced; none only for a malformed call or after four publications |
| `ChallengeProtocol.GivesUpOnlyOvertaken` | sapi/fpmng/fpm/fpm_acme_challenge.c:87-121 | a reader gives up only on an empty token, one with a NUL, or no room, and otherwise only when each of its four attempts was overtaken by another publication |
| `ChallengeProtocol.UndisturbedLookup` | sapi/fpmng/fpm/fpm_acme_challenge.c:73-122 | a lookup that no publication disturbs is a hit exactly when the token is in the current map and its key fits, with that key |
| `ChallengeProtocol.UndisturbedTokens` | sapi/fpmng/fpm/fpm_acme_challenge.c:267-298 | an undisturbed list is the current one, as far as there is room |
| `ChallengeProtocol.ReaderAdvances` | sapi/fpmng/fpm/fpm_acme_challenge.c:87-121 | whatever it reads, a reader is nearer to its reply with every step |
| `ChallengeProtocol.LookupServed` | sapi/fpmng/fpm/fpm_acme_challenge.c:73-122 | from every reachable state, a lookup that is called and left alone replies with what the store holds |
| `ChallengeProtocol.TokensServed` | sapi/fpmng/fpm/fpm_acme_challenge.c:267-298 | ... and so does a list |
| `ChallengeProtocol.WriteServed` | sapi/fpmng/fpm/fpm_acme_challenge.c:169-265 | a set or clear that is called while nobody holds the lock and left alone is published exactly when it is acceptable and, for a new token, fewer than eight are active; the lock is free again |
| `ChallengeProtocol.SetIsServed` | sapi/fpmng/fpm/fpm_acme_challenge.c:73-230 | a challenge that was set is served with its key |
| `ChallengeProtocol.PublishedIsMap` | sapi/fpmng/fpm/fpm_acme_challenge.c:128-152 | the published slot always encodes the map of the committed operations, with at most eight distinct tokens |
| `ChallengeProtocol.ReadersStayInBounds` | sapi/fpmng/fpm/fpm_acme_challenge.c:73-122 | however the slot is torn under it, a reader stays inside the slot and its buffer |
| `ChallengeProtocol.PublishSucceeds` | sapi/fpmng/fpm/fpm_acme_challenge.c:139-152 | a finished draft is always published and committed |
| `ChallengeProtocol.StepsAlwaysPossible` | sapi/fpmng/fpm/fpm_acme_challenge.c:73-298 | the guards of the step relation hide no behaviour: a reader or lock holder can always go on |
| `BodyDecoder.FeedConcat` | sapi/fpmng/fpm/fpm_http_client.c:642-805 | feeding two pieces is feeding their concatenation |
| `BodyDecoder.SplitIndependent` | sapi/fpmng/fpm/fpm_http_client.c:642-805 | a stream with short size lines has one outcome, however it is cut into reads |
| `BodyDecoder.SplitIndependentIff` | sapi/fpmng/fpm/fpm_http_client.c:669-678 | for a stream that one read accepts, all cuts agree with it if and only if no chunk-size line is longer than 16384 bytes |
| `BodyDecoder.RoundTrip` | sapi/fpmng/fpm/fpm_http_client.c:642-805 | decoding a chunked encoding with any size spellings, extensions and trailers gives exactly the payload, completes at the blank line and leaves the rest (section 7.1 of RFC 9112) |
| `BodyDecoder.RoundTripAnySplit` | sapi/fpmng/fpm/fpm_http_client.c:642-805 | ... for every way of cutting it into reads |
| `BodyDecoder.SizeOfIff` | sapi/fpmng/fpm/fpm_http_client.c:689-712 | a size line announces k exactly when it is hexadecimal digits of that value and then nothing, an extension, a blank or the CR |
| `BodyDecoder.TrailersIff` | sapi/fpmng/fpm/fpm_http_client.c:766-795 | trailers are accepted exactly as lines up to a blank one |
| `BodyDecoder.AcceptsIff` | sapi/fpmng/fpm/fpm_http_client.c:664-795 | the decoder completes on exactly the chunked bodies, read line by line, with exactly their payload and exactly what follows |
| `BodyDecoder.LengthAnySplit` | sapi/fpmng/fpm/fpm_http_client.c:651-662 | a counted body is exactly the next n bytes, for every cut |
| `BodyDecoder.HexOf` | sapi/fpmng/fpm/fpm_http_client.c:691-707 | every size has digits, so every chunk can be encoded |
| `BodyDecoder.ParseSize` | sapi/fpmng/fpm/fpm_http_client.c:689-712 | the size read is the one the line announces, and a value that would wrap is refused |
| `BodyDecoder.FindNewline` | sapi/fpmng/fpm/fpm_http_client.c:665 | the first line feed at or behind a position |
| `BodyDecoder.Decoder.constructor` | sapi/fpmng/fpm/fpm_http_client.c:571-586 | a decoder in its first state |
| `BodyDecoder.Decoder.TurnLength` | sapi/fpmng/fpm/fpm_http_client.c:651-662 | one turn on a counted body does what feeding those bytes means |
| `BodyDecoder.Decoder.TurnSize` | sapi/fpmng/fpm/fpm_http_client.c:664-678 | one turn on a size line likewise, and an over-long pending line fails |
| `BodyDecoder.Decoder.EndSizeLine` | sapi/fpmng/fpm/fpm_http_client.c:679-718 | the line feed of a size line: refused, or on to the chunk or the trailers |
| `BodyDecoder.Decoder.TurnData` | sapi/fpmng/fpm/fpm_http_client.c:720-732 | one turn inside a chunk |
| `BodyDecoder.Decoder.TurnCrlf` | sapi/fpmng/fpm/fpm_http_client.c:734-764 | the CRLF behind a chunk, whole or split over two reads |
| `BodyDecoder.Decoder.TurnTrailers` | sapi/fpmng/fpm/fpm_http_client.c:766-795 | one turn on a trailer line |
| `BodyDecoder.Decoder.EndTrailer` | sapi/fpmng/fpm/fpm_http_client.c:779-795 | the line feed of a trailer: the empty line completes the response |
| `BodyDecoder.Decoder.TurnClose` | sapi/fpmng/fpm/fpm_http_client.c:797-805 | a body that ends with its connection |
| `BodyDecoder.Decoder.Turn` | sapi/fpmng/fpm/fpm_http_client.c:642-805 | any turn, by mode |
| `BodyDecoder.Decoder.Receive` | sapi/fpmng/fpm/fpm_http_client.c:642-805 | a whole read: what is delivered, what is left over and the return code are those of the byte-wise meaning with its line limit |
| `ResponseHead.ForwardedLengths` | sapi/fpmng/fpm/fpm_http_client.c:551-557 | at most one Content-Length is forwarded, none beside chunked framing |
| `ResponseHead.ForwardedNotHopByHop` | sapi/fpmng/fpm/fpm_http_client.c:65-73 | no hop-by-hop header is forwarded |
| `ResponseHead.ForwardingIsSafe` | sapi/fpmng/fpm/fpm_http_client.c:415-591 | for every accepted head: never Content-Length beside chunked, never two, never a hop-by-hop header (section 6.3 of RFC 9112) |
| `ResponseHead.FramingAccepts` | sapi/fpmng/fpm/fpm_http_client.c:451-467 | pass one accepts exactly the heads whose Content-Length values are well formed and equal, and takes that value |
| `ResponseHead.InvalidIff` | sapi/fpmng/fpm/fpm_http_client.c:451-467 | a head is refused if and only if its Content-Length values are malformed or disagree |
| `ResponseHead.ForwardedLengthValue` | sapi/fpmng/fpm/fpm_http_client.c:549-563 | the forwarded length is that of the first line whose name is Content-Length up to a NUL, whatever pass one framed |
| `ResponseHead.ForwardedLengthFrames` | sapi/fpmng/fpm/fpm_http_client.c:451-586 | the Content-Length the client sees is the number of body bytes the decoder delivers if and only if that first line carries the length the lines of the full name agree on |
| `ResponseHead.PlainLengthFrames` | sapi/fpmng/fpm/fpm_http_client.c:451-586 | ... which it does unless there is a NUL in that one name |
| `ResponseHead.Misled` | sapi/fpmng/fpm/fpm_http_client.c:551-557 | such heads: a NUL in front of the colon of one line, any two lengths; the decoder takes one, the client is told the other |
| `ResponseHead.MisledAlone` | sapi/fpmng/fpm/fpm_http_client.c:551-557 | ... or the body runs until the target closes and the client is told a length |
| `ResponseHead.MisledByTwo` | sapi/fpmng/fpm/fpm_http_client.c:551-557 | the input "Content-Length\0: 5", "Content-Length: 7" |
| `HeadScanner.Find` | sapi/fpmng/fpm/fpm_http_client.c:381-404 | the scan for a byte finds the first one |
| `HeadScanner.TokenIn` | sapi/fpmng/fpm/fpm_http_client.c:102-116 | the in-place scan answers whether the list header has the token, whatever separators surround it |
| `HeadScanner.ValueAt` | sapi/fpmng/fpm/fpm_http_client.c:102-116 | one value of the list, compared without case |
| `HeadScanner.ParseLength` | sapi/fpmng/fpm/fpm_http_client.c:355-376 | Content-Length is the value of all its digits, refused before it can wrap |
| `HeadScanner.SplitHeader` | sapi/fpmng/fpm/fpm_http_client.c:381-404 | name and value of a line, or none |
| `HeadScanner.NextLine` | sapi/fpmng/fpm/fpm_http_client.c:430-435 | the line at a position and the next start agree with the lines of the head |
| `HeadScanner.ReadCode` | sapi/fpmng/fpm/fpm_http_client.c:436-446 | the status code as C computes it, with its truncation to int |
| `HeadScanner.FrameLine` | sapi/fpmng/fpm/fpm_http_client.c:447-474 | one line of pass one |
| `HeadScanner.ForwardLine` | sapi/fpmng/fpm/fpm_http_client.c:524-565 | one line of pass two |
| `HeadScanner.PassOne` | sapi/fpmng/fpm/fpm_http_client.c:428-476 | the loop over the lines computes the framing of the head |
| `HeadScanner.PassTwo` | sapi/fpmng/fpm/fpm_http_client.c:516-567 | the loop computes the headers that are forwarded |
| `HeadScanner.HeadDone` | sapi/fpmng/fpm/fpm_http_client.c:415-591 | both passes over a head give its verdict |
| `HeadText.SplitText` | sapi/fpmng/fpm/fpm_http_client.c:381-404 | a name, a colon and a value with blanks around it are read as that name and that value |
| `HeadText.NoColonNoHeader` | sapi/fpmng/fpm/fpm_http_client.c:385-389 | only a line without a colon is no header |
| `HeadText.HasIff` | sapi/fpmng/fpm/fpm_http_client.c:102-116 | a token is found exactly when one of the values between commas and blanks is that token, in any case |
| `HeadText.FlagsIff` | sapi/fpmng/fpm/fpm_http_client.c:468-472 | an accepted head is chunked if and only if it has a Transfer-Encoding line and the last one lists "chunked", and ends its connection if and only if the last Connection line lists "close" |
| `HeadText.CodeText` | sapi/fpmng/fpm/fpm_http_client.c:436-446 | the code of a status line is the number between its first two blanks |
| `HeadText.NotFound` | sapi/fpmng/fpm/fpm_http_client.c:436-446 | 404 for "HTTP/1.1 404" and any reason |
| `HeadText.LinesText` | sapi/fpmng/fpm/fpm_http_client.c:428-435 | lines that are sent with CRLF are the lines that are read |
| `HeadText.HopByHopIff` | sapi/fpmng/fpm/fpm_http_client.c:65-73 | the headers that are the gateway's own business, by name in any case |
| `HeadText.OrdinaryForwarded` | sapi/fpmng/fpm/fpm_http_client.c:522-565 | exactly the ordinary headers are forwarded, in their order, beside at most one length |
| `HeadText.OneLength` | sapi/fpmng/fpm/fpm_http_client.c:451-467 | the one Content-Length line announces the number it spells |
| `HeadText.ChunkedLine` | sapi/fpmng/fpm/fpm_http_client.c:468-469 | a last Transfer-Encoding line with "chunked" among its values makes the head chunked |
| `HeadText.JudgeText` | sapi/fpmng/fpm/fpm_http_client.c:415-591 | the verdict on a status line and lines, from their text: refused exactly when the lengths disagree, interim exactly for 1xx, otherwise none, chunked, counted or until-close body, the ordinary headers, and whether the connection ends |
| `ResponseStream.ParseConcat` | sapi/fpmng/fpm/fpm_http_client.c:811-1000 | parsing resumes anywhere in the stream |
| `ResponseStream.SplitIndependent` | sapi/fpmng/fpm/fpm_http_client.c:811-1000 | reads that stay within the limits give the meaning of the whole stream |
| `ResponseStream.ModestIff` | sapi/fpmng/fpm/fpm_http_client.c:841-866 | the limits hold at every point of a stream exactly when its heads are complete within 256 KiB and the byte that completes them, and its size lines are short |
| `ResponseStream.ModestAnyCutting` | sapi/fpmng/fpm/fpm_http_client.c:811-1000 | such a stream means the same however it is cut into reads |
| `ResponseStream.AnyCuttingIff` | sapi/fpmng/fpm/fpm_http_client.c:811-1000 | for a stream that one read accepts, every cut agrees with it if and only if its heads and lines are that short |
| `ResponseStream.CutFails` | sapi/fpmng/fpm/fpm_http_client.c:859-866 | past a limit, the cut right there fails |
| `ResponseStream.HeadThen` | sapi/fpmng/fpm/fpm_http_client.c:841-970 | a complete head is judged as a whole, and what follows it is parsed on |
| `ResponseStream.InterimsDiscarded` | sapi/fpmng/fpm/fpm_http_client.c:899-916 | any number of 1xx heads in front changes nothing (section 15.2 of RFC 9110) |
| `ResponseStream.ResponseWithin` | sapi/fpmng/fpm/fpm_http_client.c:841-970 | heads of at most 256 KiB with any interim ones keep within the limits |
| `ResponseStream.ResponseAnyCutting` | sapi/fpmng/fpm/fpm_http_client.c:811-1000 | from the first byte, for every cut: any number of interim heads, a final head and what follows deliver what the final head means |
| `ResponseStream.ChunkedAnyCutting` | sapi/fpmng/fpm/fpm_http_client.c:811-1000 | ... a chunked response: exactly its payload, the rest untouched |
| `ResponseStream.CountedAnyCutting` | sapi/fpmng/fpm/fpm_http_client.c:811-1000 | ... a counted response: exactly the bytes its head counts |
| `ResponseStream.HeadEnds` | sapi/fpmng/fpm/fpm_http_client.c:841-858 | the head of any lines that are not empty ends at its blank line and not before |
| `ResponseStream.VerdictText` | sapi/fpmng/fpm/fpm_http_client.c:415-591 | such a head is judged by its text |
| `ResponseStream.ChunkedText` | sapi/fpmng/fpm/fpm_http_client.c:811-1000 | a response written with a last Transfer-Encoding line that lists "chunked" delivers exactly its payload, for every cut, with its code and its ordinary headers |
| `ResponseStream.CountedText` | sapi/fpmng/fpm/fpm_http_client.c:811-1000 | a response whose lines agree on a length delivers exactly so many bytes, likewise |
| `ResponseStream.Response.constructor` | sapi/fpmng/fpm/fpm_http_client.c:118-124 | a response of which nothing has arrived |
| `ResponseStream.Response.Scan` | sapi/fpmng/fpm/fpm_http_client.c:841-858 | the scan resumed three bytes back finds the first CRLFCRLF |
| `ResponseStream.Response.BodyData` | sapi/fpmng/fpm/fpm_http_client.c:971-991 | body bytes, as the decoder means them |
| `ResponseStream.Response.Begin` | sapi/fpmng/fpm/fpm_http_client.c:917-968 | the final head chooses the framing and hands over what rode in behind it |
| `ResponseStream.Response.NextHead` | sapi/fpmng/fpm/fpm_http_client.c:841-892 | the next complete head and its verdict |
| `ResponseStream.Response.SkipInterims` | sapi/fpmng/fpm/fpm_http_client.c:899-916 | the loop over interim heads keeps the meaning of the buffer |
| `ResponseStream.Response.Settle` | sapi/fpmng/fpm/fpm_http_client.c:859-970 | the verdict on a final, invalid or pending head |
| `ResponseStream.Response.HeadData` | sapi/fpmng/fpm/fpm_http_client.c:832-970 | bytes while the head is pending |
| `ResponseStream.Response.Data` | sapi/fpmng/fpm/fpm_http_client.c:811-1000 | one read takes the response to the meaning of all bytes so far, under the limits; its connection is spent exactly after "close", an until-close body, or bytes behind the end |
| `RecordParser.FeedConcat` | sapi/fpmng/fpm/fpm_http.c:870-932 | feeding two pieces is feeding their concatenation |
| `RecordParser.SplitIndependent` | sapi/fpmng/fpm/fpm_http.c:870-932 | the events do not depend on the cuts |
| `RecordParser.RecordFed` | sapi/fpmng/fpm/fpm_http.c:870-932 | one record: its STDOUT payload, then an end for END_REQUEST, padding skipped (section 3.3 of the FastCGI Specification) |
| `RecordParser.RecordsFed` | sapi/fpmng/fpm/fpm_http.c:870-932 | any sequence of records |
| `RecordParser.RecordsAnySplit` | sapi/fpmng/fpm/fpm_http.c:870-932 | any sequence of records under any cut: exactly the STDOUT payload in order and one end per END_REQUEST |
| `RecordParser.PartialRecord` | sapi/fpmng/fpm/fpm_http.c:870-932 | no end before a record is complete, padding included |
| `RecordParser.EndsExactlyOnTime` | sapi/fpmng/fpm/fpm_http.c:870-932 | after every prefix, the ends reported are exactly those of the complete END_REQUEST records |
| `RecordParser.Parser.constructor` | sapi/fpmng/fpm/fpm_http.c:855-858 | a parser between records |
| `RecordParser.Parser.RequestDone` | sapi/fpmng/fpm/fpm_http.c:849-867 | the end of a request is reported once and may drop the connection |
| `RecordParser.Parser.Store` | sapi/fpmng/fpm/fpm_http.c:884-892 | header bytes are collected in order |
| `RecordParser.Parser.HeaderTurn` | sapi/fpmng/fpm/fpm_http.c:883-903 | a run of header bytes means what feeding them means |
| `RecordParser.Parser.BodyTurn` | sapi/fpmng/fpm/fpm_http.c:904-923 | a run of content or padding likewise |
| `RecordParser.Parser.Turn` | sapi/fpmng/fpm/fpm_http.c:870-932 | either |
| `RecordParser.Parser.Data` | sapi/fpmng/fpm/fpm_http.c:870-932 | a whole read, or up to the end that dropped the connection, leads to the byte-wise meaning |
| `PumpState.OnePlace` | sapi/fpmng/fpm/fpm_http.c:699-867 | between events a request that ever arrived is in exactly one of: its target's queue, one busy linked connection, the ended requests |
| `PumpState.OldestAtHead` | sapi/fpmng/fpm/fpm_http.c:1480-1482 | the head of a queue is the oldest request of its target |
| `PumpState.QuietElsewhere` | sapi/fpmng/fpm/fpm_http.c:1538-1548 | a round for one target leaves a quiet target quiet |
| `PumpState.RejectedKeeps` | sapi/fpmng/fpm/fpm_http.c:1153-1190 | answering a queued request: the pump invariant holds again |
| `PumpState.ConcludedKeeps` | sapi/fpmng/fpm/fpm_http.c:782-846 | ending the request of a connection: the pump invariant holds again |
| `PumpState.HandedOverKeeps` | sapi/fpmng/fpm/fpm_http.c:1480-1506 | handing the oldest request to an idle connection: the pump invariant holds again |
| `PumpState.DroppedKeeps` | sapi/fpmng/fpm/fpm_http.c:766-779 | dropping a connection, its free deferred while a caller holds it: the pump invariant holds again |
| `PumpState.SeveredKeeps` | sapi/fpmng/fpm/fpm_http.c:782-846 | losing a connection with its request, which leaves the live requests: the pump invariant holds again |
| `PumpState.ReturnedKeeps` | sapi/fpmng/fpm/fpm_http.c:925-931 | the last holder frees a dropped connection: the pump invariant holds again |
| `PumpState.OpenedKeeps` | sapi/fpmng/fpm/fpm_http.c:1078-1137 | opening a connection takes a slot: the pump invariant holds again |
| `PumpState.ArrivedKeeps` | sapi/fpmng/fpm/fpm_http.c:2763-2782 | queueing a new request within the cap: the pump invariant holds again |
| `DispatchPump.RestMeans` | sapi/fpmng/fpm/fpm_http.c:1355-1529 | what "at rest" means: sound, every connection linked, no idle connection beside a queue, the queue within its policy's bound, timers set |
| `DispatchPump.AccountMeans` | sapi/fpmng/fpm/fpm_http.c:1370-1478 | in every run: a request ended "unreachable" only after an attempt that could not reach its target, "unavailable" under the default policy only after one that was denied, and a queue is left only behind a failed attempt |
| `DispatchPump.AlwaysServed` | sapi/fpmng/fpm/fpm_http.c:1355-1529 | when every connection that is asked for opens: no queue is left, no request ends for want of a connection, and every one was handed over unless refused, turned away at a cap, or left by its client |
| `DispatchPump.ArrivalServed` | sapi/fpmng/fpm/fpm_http.c:2733-2783 | ... and the request that has just arrived is on its way when the call returns |
| `DispatchPump.Gateway.constructor` | sapi/fpmng/fpm/fpm_http.c:1355-1359 | an empty gateway is at rest |
| `DispatchPump.Gateway.Reject` | sapi/fpmng/fpm/fpm_http.c:1153-1190 | exactly the queued request leaves, with its answer |
| `DispatchPump.Gateway.Conclude` | sapi/fpmng/fpm/fpm_http.c:782-846 | exactly the request of the connection ends |
| `DispatchPump.Gateway.Drop` | sapi/fpmng/fpm/fpm_http.c:766-779 | the connection leaves its list and gives its slot back; its struct is freed or kept for its holder |
| `DispatchPump.Gateway.Connect` | sapi/fpmng/fpm/fpm_http.c:1078-1137 | a new connection with a slot exactly when the attempt opens one, nothing changed otherwise |
| `DispatchPump.Gateway.FindIdle` | sapi/fpmng/fpm/fpm_http.c:1364-1369 | the first idle connection, or all are busy |
| `DispatchPump.Gateway.Drain` | sapi/fpmng/fpm/fpm_http.c:1471-1477 | exactly the queued requests are answered, in that way, and the queue is empty |
| `DispatchPump.Gateway.SetTimers` | sapi/fpmng/fpm/fpm_http.c:1444-1457 | timers on the head of the queue, one per worker or as far as timers can be made |
| `DispatchPump.Gateway.CutTail` | sapi/fpmng/fpm/fpm_http.c:1458-1465 | exactly the tail behind them is answered |
| `DispatchPump.Gateway.Grace` | sapi/fpmng/fpm/fpm_http.c:1436-1466 | the short wait for a sibling's connection: who stays and who is answered |
| `DispatchPump.Gateway.Saturated` | sapi/fpmng/fpm/fpm_http.c:1374-1478 | without a connection: all "unreachable" when the target cannot be reached and nothing is in flight to wait for, all wait under the wait policy, otherwise the head waits for a sibling's connection and exactly the rest is "unavailable" |
| `DispatchPump.Gateway.Sever` | sapi/fpmng/fpm/fpm_http.c:782-846 | request ended, connection dropped |
| `DispatchPump.Gateway.Fail` | sapi/fpmng/fpm/fpm_http.c:782-846 | the request of the lost connection has ended as said and the connection is freed; a live request less when re-entered, at rest again otherwise |
| `DispatchPump.Gateway.Write` | sapi/fpmng/fpm/fpm_http.c:991-1052 | a hard error ends the request and frees the connection, nothing changes otherwise; another round is asked for only if a request was consumed |
| `DispatchPump.Gateway.Acquire` | sapi/fpmng/fpm/fpm_http.c:1364-1373 | an idle connection if there is one, otherwise a new one; none exactly when the attempt to open it failed |
| `DispatchPump.Gateway.Attach` | sapi/fpmng/fpm/fpm_http.c:1480-1506 | the head of the queue is on the connection |
| `DispatchPump.Gateway.HandOver` | sapi/fpmng/fpm/fpm_http.c:1480-1527 | the head of the queue is handed over and written |
| `DispatchPump.Gateway.Turn` | sapi/fpmng/fpm/fpm_http.c:1359-1528 | the head of the queue is handed over, or the target is quiet and the attempt that failed is the reason |
| `DispatchPump.Gateway.PumpTarget` | sapi/fpmng/fpm/fpm_http.c:1355-1529 | a round ends with a quiet target; every request it ended, and a queue it left, has its reason among the attempts of the round |
| `DispatchPump.Gateway.PumpOnce` | sapi/fpmng/fpm/fpm_http.c:1538-1548 | a round over all targets; another is asked for only after a request was consumed |
| `DispatchPump.Gateway.Pump` | sapi/fpmng/fpm/fpm_http.c:1553-1565 | terminates; re-entered it only asks for a round, outermost it leaves every target quiet, with the reasons; no connection is abandoned or left spare by it |
| `DispatchPump.Gateway.Dispatch` | sapi/fpmng/fpm/fpm_http.c:2733-2783 | a new request is refused, turned away from a full queue, or on its way when the call returns, unless an attempt to connect to its target has just failed |
| `DispatchPump.Gateway.Admit` | sapi/fpmng/fpm/fpm_http.c:2763-2783 | ... the last case |
| `DispatchPump.Gateway.Enqueue` | sapi/fpmng/fpm/fpm_http.c:2767-2768 | the request is last in its queue |
| `DispatchPump.Gateway.RequestDone` | sapi/fpmng/fpm/fpm_http.c:849-867 | the request of the connection has ended finished, the connection is free for the next, and the queues have been tried |
| `DispatchPump.Gateway.Records` | sapi/fpmng/fpm/fpm_http.c:880-924 | the request of the first END_REQUEST has ended finished |
| `DispatchPump.Gateway.Receive` | sapi/fpmng/fpm/fpm_http.c:870-932 | ... and at rest, with the deferred free done |
| `DispatchPump.Gateway.Release` | sapi/fpmng/fpm/fpm_http.c:925-931 | the last holder frees a dropped struct |
| `DispatchPump.Gateway.IdleExpired` | sapi/fpmng/fpm/fpm_http.c:940-946 | an idle connection is freed, a busy one untouched |
| `DispatchPump.Gateway.WaitExpired` | sapi/fpmng/fpm/fpm_http.c:1212-1233 | the request is answered unavailable |
| `DispatchPump.Gateway.ClientClosed` | sapi/fpmng/fpm/fpm_http.c:1731-1795 | the request has ended; no connection is dropped for it |
| `DispatchPump.Gateway.Failure` | sapi/fpmng/fpm/fpm_http.c:782-846 | the connection is freed and its request has ended as said |
| `DispatchPump.Gateway.Writable` | sapi/fpmng/fpm/fpm_http.c:1023-1044 | a failed connect or write frees the connection, otherwise it is only no longer connecting |
| `DispatchPump.Gateway.Flush` | sapi/fpmng/fpm/fpm_http.c:991-1052 | a hard error while pending bytes are written fails the connection |
| `DispatchPump.Gateway.GiveBack` | sapi/fpmng/fpm/fpm_http.c:1311-1325 | one idle connection is dropped for a sibling |
| `DispatchPump.Gateway.TickTarget` | sapi/fpmng/fpm/fpm_http.c:1311-1325 | asked by a sibling, no idle connection is left; otherwise nothing changes |
| `DispatchPump.Gateway.OnTick` | sapi/fpmng/fpm/fpm_http.c:1327-1347 | every target a sibling asked for has no spare connection left, and the queues have been tried |
| `DispatchPump.Gateway.Handle` | sapi/fpmng/fpm/fpm_http.c:934-962 | every event does what it is for, accounts for every request it ends, and leaves the gateway at rest |
| `DispatchPump.Gateway.Run` | sapi/fpmng/fpm/fpm_http.c:1553-1565 | any sequence of events against any environment leaves the gateway at rest; what ended, was freed or handed over stays so |
| `TrackerSpec.RotationReaches` | sapi/fpmng/fpm/fpm_http_direct_conn.c:819-851 | a released node with k behind it is gone after k + 1 examinations and moves on with each before that |
| `TrackerSpec.AfterWithin` | sapi/fpmng/fpm/fpm_http_direct_conn.c:536-617 | no accept, request, pickup or close lets the nodes behind it grow, and a sweep takes 32 off |
| `TrackerSpec.RunWithin` | sapi/fpmng/fpm/fpm_http_direct_conn.c:819-851 | ... over every sequence of calls |
| `TrackerSpec.CollectedInTime` | sapi/fpmng/fpm/fpm_http_direct_conn.c:819-851 | whatever calls come between, a let-go connection with k nodes behind it is collected once 32 times the sweeps exceed k |
| `TrackerSpec.SeenAdmitted` | sapi/fpmng/fpm/fpm_http_direct_conn.c:457-460 | admitting a connection that was counted below the cap keeps every address within it |
| `TrackerSpec.JudgedFair` | sapi/fpmng/fpm/fpm_http_direct_conn.c:435-475 | a judgement keeps every address within its cap and marks the connection |
| `TrackerSpec.PickedUpFair` | sapi/fpmng/fpm/fpm_http_direct_conn.c:479-502 | ... from the pickup |
| `TrackerSpec.RequestedFair` | sapi/fpmng/fpm/fpm_http_direct_conn.c:619-687 | ... from the request |
| `TrackerSpec.FairAfter` | sapi/fpmng/fpm/fpm_http_direct_conn.c:377-502 | no call takes an address over its cap, whichever judges first |
| `TrackerSpec.RunFair` | sapi/fpmng/fpm/fpm_http_direct_conn.c:377-502 | ... over every sequence of calls |
| `TrackerSpec.CapHolds` | sapi/fpmng/fpm/fpm_http_direct_conn.c:377-502 | in every run at most max_per_client connections of an address are admitted, and a tracked one that is marked over the cap has not been served and its request is refused |
| `TrackerSpec.RefusalMarks` | sapi/fpmng/fpm/fpm_http_direct_conn.c:435-475 | a refusal at the pickup marks the connection and keeps it tracked |
| `TrackerSpec.KeptRun` | sapi/fpmng/fpm/fpm_http_direct_conn.c:377-502 | what was noted of a connection outlives every sequence of calls about other connections, as long as evhttp owns this one |
| `TrackerSpec.RefusedStaysRefused` | sapi/fpmng/fpm/fpm_http_direct_conn.c:377-687 | so, whatever happens to other connections in between, the request of a refused connection is refused |
| `TrackerSpec.ForgottenIsAnswered` | sapi/fpmng/fpm/fpm_http_direct_conn.c:619-634 | why it has to stay tracked: behind a close of its node the request would be answered |
| `TrackerSpec.LeftAloneStays` | sapi/fpmng/fpm/fpm_http_direct_conn.c:377-687 | whatever happens to other connections, one that evhttp owns stays tracked, with its fields |
| `TrackerSpec.CountIsSize` | sapi/fpmng/fpm/fpm_http_direct_conn.c:377-417 | the count is the number of nodes with the property |
| `TrackerSpec.RivalsCount` | sapi/fpmng/fpm/fpm_http_direct_conn.c:377-417 | sweeping and looking up peers first, then counting, finds exactly the other connections of the address that evhttp owns and that were not refused |
| `TrackerSpec.JudgedIff` | sapi/fpmng/fpm/fpm_http_direct_conn.c:435-475 | the verdict of a judgement, from the list as it was |
| `TrackerSpec.AnsweredIff` | sapi/fpmng/fpm/fpm_http_direct_conn.c:619-687 | a request is answered if and only if its connection is untracked, or not refused and: judged before, without a cap, without a peer, or below the cap |
| `TrackerSpec.AnsweredFirst` | sapi/fpmng/fpm/fpm_http_direct_conn.c:675-684 | under a limit an answered connection is first on the list, served, with one request more |
| `TrackerSpec.AnsweredForgotten` | sapi/fpmng/fpm/fpm_http_direct_conn.c:657-671 | without any limit it is forgotten |
| `TrackerSpec.PickupIff` | sapi/fpmng/fpm/fpm_http_direct_conn.c:479-502 | the pickup forgets a connection without descriptor, marks one over the cap, and keeps another exactly if it can be watched |
| `TrackerSpec.SurvivesIff` | sapi/fpmng/fpm/fpm_http_direct_conn.c:793-817 | a node is tracked behind the exhaustive sweep exactly when it was not released |
| `TrackerSpec.SweptByItsPickup` | sapi/fpmng/fpm/fpm_http_direct_conn.c:457-460 | a connection evhttp let go of before its pickup is swept by its own judgement |
| `ConnTracker.Tracker.constructor` | sapi/fpmng/fpm/fpm_http_direct_conn.c:504-515 | an empty tracker |
| `ConnTracker.Tracker.Unlink` | sapi/fpmng/fpm/fpm_http_direct_conn.c:97-113 | the list without that node, pointers intact |
| `ConnTracker.Tracker.LinkFront` | sapi/fpmng/fpm/fpm_http_direct_conn.c:115-125 | the node in front of the list |
| `ConnTracker.Tracker.Find` | sapi/fpmng/fpm/fpm_http_direct_conn.c:142-158 | the node with the key, or no indexed node has it |
| `ConnTracker.Tracker.Hang` | sapi/fpmng/fpm/fpm_http_direct_conn.c:196-211 | a node at the head of its chain |
| `ConnTracker.Tracker.Locate` | sapi/fpmng/fpm/fpm_http_direct_conn.c:213-219 | its predecessor on the chain |
| `ConnTracker.Tracker.Splice` | sapi/fpmng/fpm/fpm_http_direct_conn.c:217-223 | the chain without it |
| `ConnTracker.Tracker.Remove` | sapi/fpmng/fpm/fpm_http_direct_conn.c:213-224 | the index without that node |
| `ConnTracker.Tracker.Rehash` | sapi/fpmng/fpm/fpm_http_direct_conn.c:160-194 | a chain moved node by node, none lost or doubled |
| `ConnTracker.Tracker.RehashAll` | sapi/fpmng/fpm/fpm_http_direct_conn.c:160-194 | every chain moved |
| `ConnTracker.Tracker.Grow` | sapi/fpmng/fpm/fpm_http_direct_conn.c:160-194 | a larger table with the same nodes, or nothing changed without memory |
| `ConnTracker.Tracker.Detach` | sapi/fpmng/fpm/fpm_http_direct_conn.c:233-237 | off the list |
| `ConnTracker.Tracker.Forget` | sapi/fpmng/fpm/fpm_http_direct_conn.c:233-250 | list, index and live without that node |
| `ConnTracker.Tracker.ToFront` | sapi/fpmng/fpm/fpm_http_direct_conn.c:682-683 | the node in front, the others in order |
| `ConnTracker.Tracker.Examine` | sapi/fpmng/fpm/fpm_http_direct_conn.c:819-851 | the tail goes if released, otherwise to the front |
| `ConnTracker.Tracker.SweepTurn` | sapi/fpmng/fpm/fpm_http_direct_conn.c:819-851 | one step nearer to what the sweep leaves |
| `ConnTracker.Tracker.Sweep` | sapi/fpmng/fpm/fpm_http_direct_conn.c:819-851 | the bounded rotating sweep |
| `ConnTracker.Tracker.SweepEvery` | sapi/fpmng/fpm/fpm_http_direct_conn.c:793-817 | the exhaustive sweep drops exactly the released nodes |
| `ConnTracker.Tracker.SetStatus` | sapi/fpmng/fpm/fpm_http_direct_conn.c:440 | one node's fields |
| `ConnTracker.Tracker.PeerCount` | sapi/fpmng/fpm/fpm_http_direct_conn.c:377-417 | the others are resolved and those of the same address, not refused, are counted |
| `ConnTracker.Tracker.JudgeNow` | sapi/fpmng/fpm/fpm_http_direct_conn.c:457-475 | sweep, count, verdict |
| `ConnTracker.Tracker.CheckPeer` | sapi/fpmng/fpm/fpm_http_direct_conn.c:435-475 | judged once, admitted exactly below the cap; what was judged before is not judged again |
| `ConnTracker.Tracker.PickUp` | sapi/fpmng/fpm/fpm_http_direct_conn.c:479-502 | the pickup pass |
| `ConnTracker.Tracker.Answer` | sapi/fpmng/fpm/fpm_http_direct_conn.c:619-687 | a request is answered or refused |
| `ConnTracker.Tracker.Serve` | sapi/fpmng/fpm/fpm_http_direct_conn.c:627-685 | ... of a tracked connection |
| `ConnTracker.Tracker.MoveServed` | sapi/fpmng/fpm/fpm_http_direct_conn.c:675-684 | a served connection moves to the front |
| `ConnTracker.Tracker.AcceptConn` | sapi/fpmng/fpm/fpm_http_direct_conn.c:536-617 | sweep, then the node indexed and linked; untracked exactly without its memory, its timers or any table |
| `ConnTracker.Tracker.Track` | sapi/fpmng/fpm/fpm_http_direct_conn.c:558-617 | the latter |
| `ConnTracker.Tracker.Enlist` | sapi/fpmng/fpm/fpm_http_direct_conn.c:588-598 | index, list and live with the node |
| `ConnTracker.Tracker.MayAccept` | sapi/fpmng/fpm/fpm_http_direct_conn.c:771-791 | at the cap the released nodes go first; yes exactly below it |
| `ConnTracker.FoundIsWalk` | sapi/fpmng/fpm/fpm_http_direct_conn.c:142-158 | what the index finds is what a walk of the list would find |
| `ClientIndex.Index.constructor` | sapi/fpmng/fpm/fpm_http.c:1586-1602 | an empty index |
| `ClientIndex.Index.Find` | sapi/fpmng/fpm/fpm_http.c:1586-1602 | the client of the connection, or none has it |
| `ClientIndex.Index.Front` | sapi/fpmng/fpm/fpm_http.c:1641-1665 | a node in front of a doubly linked chain |
| `ClientIndex.Index.Hang` | sapi/fpmng/fpm/fpm_http.c:1641-1665 | ... of its bucket |
| `ClientIndex.Index.Rehash` | sapi/fpmng/fpm/fpm_http.c:1604-1639 | a chain moved node by node |
| `ClientIndex.Index.RehashOne` | sapi/fpmng/fpm/fpm_http.c:1604-1639 | one bucket |
| `ClientIndex.Index.RehashAll` | sapi/fpmng/fpm/fpm_http.c:1604-1639 | all buckets, no node lost |
| `ClientIndex.Index.Grow` | sapi/fpmng/fpm/fpm_http.c:1604-1639 | a larger table with the same clients, or nothing changed |
| `ClientIndex.Index.Insert` | sapi/fpmng/fpm/fpm_http.c:1641-1665 | one client more, or none when even the first table cannot be had |
| `ClientIndex.Index.Add` | sapi/fpmng/fpm/fpm_http.c:1641-1665 | one client more |
| `ClientIndex.Index.Unhook` | sapi/fpmng/fpm/fpm_http.c:1667-1683 | a chain without the node, through its own back pointer |
| `ClientIndex.Index.TakeOut` | sapi/fpmng/fpm/fpm_http.c:1667-1683 | the table without it |
| `ClientIndex.Index.Remove` | sapi/fpmng/fpm/fpm_http.c:1667-1683 | one client less |
| `CrashBackoff.WindowDoubles` | sapi/fpmng/fpm/fpm_crash_backoff.c:109-131 | the windows start at one second, double, and stop at 60 s |
| `CrashBackoff.WindowIs` | sapi/fpmng/fpm/fpm_crash_backoff.c:109-131 | no wait behind the first failure, then 1, 2, 4, 8, 16, 32 seconds, then a minute; a minute for a pool that gave up |
| `CrashBackoff.GaveUpWaits` | sapi/fpmng/fpm/fpm_crash_backoff.c:114-117 | such a pool retries at most twice a minute |
| `CrashBackoff.DelayMs` | sapi/fpmng/fpm/fpm_crash_backoff.c:109-131 | the delay is in the upper half of the window |
| `CrashBackoff.StreakTakes` | sapi/fpmng/fpm/fpm_crash_backoff.c:109-131 | k failures in a row take at least the sum of the half windows |
| `CrashBackoff.Pool.constructor` | sapi/fpmng/fpm/fpm_crash_backoff.c:187-215 | a pool without failures |
| `CrashBackoff.Pool.Clear` | sapi/fpmng/fpm/fpm_crash_backoff.c:133-143 | the streak is over |
| `CrashBackoff.Pool.MaySpawn` | sapi/fpmng/fpm/fpm_crash_backoff.c:275-304 | yes exactly when no wait is left; a no leaves the gate armed and due no later than next_spawn |
| `CrashBackoff.Pool.ChildSpawned` | sapi/fpmng/fpm/fpm_crash_backoff.c:307-328 | one child more |
| `CrashBackoff.Pool.FastFailure` | sapi/fpmng/fpm/fpm_crash_backoff.c:252-272 | the streak is one longer and its wait is set |
| `CrashBackoff.Pool.ChildExited` | sapi/fpmng/fpm/fpm_crash_backoff.c:218-272 | a served or long-lived child ends the streak, another lengthens it |
| `CrashBackoff.Pool.Make` | sapi/fpmng/fpm/fpm_children.c:585-693 | forks until the pool is whole, the backoff says no or a fork fails; no refusal is lost |
| `CrashBackoff.Pool.OnExit` | sapi/fpmng/fpm/fpm_children.c:428-470 | an exit and its replacement |
| `CrashBackoff.Pool.OnGate` | sapi/fpmng/fpm/fpm_crash_backoff.c:145-158 | the gate that ran for the current wait makes the pool whole |
| `CrashBackoff.Pool.OnSurvive` | sapi/fpmng/fpm/fpm_crash_backoff.c:160-185 | a child that lived a window ends the streak |
| `CrashBackoff.Pool.Handle` | sapi/fpmng/fpm/fpm_crash_backoff.c:109-329 | any event keeps the backoff invariant and loses no refusal |
| `CrashBackoff.Pool.Run` | sapi/fpmng/fpm/fpm_crash_backoff.c:109-329 | any run: gave_up exactly at a positive limit, the gate never early, a one-child streak spaced by the half windows, no refused respawn lost |
| `Calendar.HasDate` | sapi/fpmng/fpm/fpm_cron_schedule.c:336-346 | every day is the day of a Gregorian date |
| `Calendar.OneDate` | sapi/fpmng/fpm/fpm_cron_schedule.c:336-346 | ... of exactly one |
| `Calendar.MonthTable` | sapi/fpmng/fpm/fpm_cron_schedule.c:336-346 | the days before each month |
| `Calendar.TomorrowCounts` | sapi/fpmng/fpm/fpm_cron_schedule.c:336-346 | the day behind a date has the next number |
| `Calendar.Epoch` | sapi/fpmng/fpm/fpm_cron_schedule.c:336-346 | the first is Thursday, January 1st 1970 |
| `Calendar.NextWeekday` | sapi/fpmng/fpm/fpm_cron_schedule.c:336-346 | and weekdays follow each other |
| `Calendar.DateInYear` | sapi/fpmng/fpm/fpm_cron_schedule.c:336-346 | a date lies in its year |
| `Calendar.SkippedBetween` | sapi/fpmng/fpm/fpm_cron_schedule.c:322-328 | around a skipped leap year there is none for eight years |
| `CronText.ReadIff` | sapi/fpmng/fpm/fpm_cron_schedule.c:50-99 | the left-to-right reading of an item finds exactly the reading its text has |
| `CronText.OneReading` | sapi/fpmng/fpm/fpm_cron_schedule.c:50-115 | so an item denotes one thing |
| `CronText.WordsIff` | sapi/fpmng/fpm/fpm_cron_schedule.c:144-154 | strtok_r hands out exactly the longest runs without delimiters |
| `CronText.SpacedWords` | sapi/fpmng/fpm/fpm_cron_schedule.c:193-200 | words put together with blanks come back from it |
| `CronText.ParseUint` | sapi/fpmng/fpm/fpm_cron_schedule.c:28-43 | the value of the digits, an overflow exactly when it does not fit an int |
| `CronText.ScanBase` | sapi/fpmng/fpm/fpm_cron_schedule.c:57-78 | the bounds of an item, refused and overflowing exactly when its text is |
| `CronText.ScanItem` | sapi/fpmng/fpm/fpm_cron_schedule.c:57-99 | bounds and step likewise |
| `CronText.MarkSteps` | sapi/fpmng/fpm/fpm_cron_schedule.c:110-112 | marks every step-th value of the range, and says whether the sum leaves an int on the way |
| `CronText.ParseItem` | sapi/fpmng/fpm/fpm_cron_schedule.c:50-115 | accepted exactly when the text is an item of the domain and nothing overflows, and then marks exactly what it names |
| `CronText.NextWord` | sapi/fpmng/fpm/fpm_cron_schedule.c:144-154 | the next word |
| `CronText.ParseField` | sapi/fpmng/fpm/fpm_cron_schedule.c:122-157 | a field is accepted exactly when all its items denote something and none overflows; the bitmap is their union |
| `CronText.MarkItem` | sapi/fpmng/fpm/fpm_cron_schedule.c:149-154 | one more item |
| `CronText.MarkItems` | sapi/fpmng/fpm/fpm_cron_schedule.c:144-156 | all items, up to the first that is not accepted |
| `CronText.AcceptedOverflows` | sapi/fpmng/fpm/fpm_cron_schedule.c:110-112 | an item that denotes something overflows exactly when one step past a value it names does not fit an int |
| `CronText.SmallSteps` | sapi/fpmng/fpm/fpm_cron_schedule.c:110-112 | which no step up to INT_MAX less the domain does |
| `CronText.LongNumberOverflows` | sapi/fpmng/fpm/fpm_cron_schedule.c:36-39 | every number past INT_MAX denotes nothing and is not refused |
| `CronText.WrappingNumber` | sapi/fpmng/fpm/fpm_cron_schedule.c:36-39 | the input "4294967297" |
| `CronText.OverlongStep` | sapi/fpmng/fpm/fpm_cron_schedule.c:110-112 | the input "1/2147483647": denotes 1 alone, and overflows |
| `CronText.NumberField` | sapi/fpmng/fpm/fpm_cron_schedule.c:122-157 | a field that is one number names it alone |
| `CronText.StarField` | sapi/fpmng/fpm/fpm_cron_schedule.c:122-157 | a star names the whole domain |
| `CronText.FieldOverflowsIff` | sapi/fpmng/fpm/fpm_cron_schedule.c:149-154 | a field of such items overflows exactly when one of them does |
| `CronSchedule.Bitmap` | sapi/fpmng/fpm/fpm_cron_schedule.c:122-157 | the bitmap of one field |
| `CronSchedule.SplitFields` | sapi/fpmng/fpm/fpm_cron_schedule.c:193-200 | the fields of the expression, all counted |
| `CronSchedule.FieldBits` | sapi/fpmng/fpm/fpm_cron_schedule.c:208-227 | the first field that is not accepted decides |
| `CronSchedule.ParseFive` | sapi/fpmng/fpm/fpm_cron_schedule.c:160-236 | verdict and bitmaps are those of the meaning, unless the parser overflows |
| `CronSchedule.Parse` | sapi/fpmng/fpm/fpm_cron_schedule.c:160-236 | ... with the shorthands; unknown ones are refused |
| `CronSchedule.ExprOverflowsIff` | sapi/fpmng/fpm/fpm_cron_schedule.c:110-112 | a well-formed expression overflows exactly when stepping past a value one of its items names does: then, and only then, parsing and meaning part |
| `CronSchedule.DueIff` | sapi/fpmng/fpm/fpm_cron_schedule.c:239-271 | due exactly when the fields name the time: both day fields where one is a star, either where neither is |
| `CronSchedule.PlainParsed` | sapi/fpmng/fpm/fpm_cron_schedule.c:160-271 | five stars or numbers are accepted, and due exactly at those numbers; two day fields are either of them |
| `CronSchedule.HourlyDue` | sapi/fpmng/fpm/fpm_cron_schedule.c:21 | "@hourly" is due on the hour |
| `CronSchedule.DailyDue` | sapi/fpmng/fpm/fpm_cron_schedule.c:22 | "@daily" at midnight |
| `CronSchedule.WeeklyDue` | sapi/fpmng/fpm/fpm_cron_schedule.c:23 | "@weekly" at midnight to Sunday |
| `CronSchedule.MonthlyDue` | sapi/fpmng/fpm/fpm_cron_schedule.c:24 | "@monthly" at midnight to the first |
| `CronSchedule.YearlyDue` | sapi/fpmng/fpm/fpm_cron_schedule.c:25 | "@yearly" at midnight to January 1st |
| `CronSchedule.Next` | sapi/fpmng/fpm/fpm_cron_schedule.c:310-356 | the first due minute of the search, or -1 when there is none |
| `CronSchedule.StartIff` | sapi/fpmng/fpm/fpm_cron_schedule.c:321 | the search starts at the first whole minute behind `after` if and only if `after` is not inside a minute before the epoch |
| `CronSchedule.EpochSkipped` | sapi/fpmng/fpm/fpm_cron_schedule.c:321 | such an input: half a minute before the epoch a minute is skipped |
| `CronSchedule.NextIsLeast` | sapi/fpmng/fpm/fpm_cron_schedule.c:310-356 | a run that is found is the least matching minute behind `after` |
| `CronSchedule.NextStays` | sapi/fpmng/fpm/fpm_cron_schedule.c:310-356 | asking again before the run gives the same run |
| `CronSchedule.UtcFinds` | sapi/fpmng/fpm/fpm_cron_schedule.c:322-349 | in UTC a run is found unless only days of the month restrict the days, to none that every year has |
| `CronSchedule.OnlyLeapDay` | sapi/fpmng/fpm/fpm_cron_schedule.c:239-271 | then only February 29th can be due |
| `CronSchedule.GapIff` | sapi/fpmng/fpm/fpm_cron_schedule.c:322-349 | no February 29th is inside the search if and only if the search lies between the two around a skipped leap year |
| `CronSchedule.FailsIff` | sapi/fpmng/fpm/fpm_cron_schedule.c:322-349 | exactly when the search fails, in year arithmetic on `after` |
| `CronSchedule.ExpressionFailsIff` | sapi/fpmng/fpm/fpm_cron_schedule.c:322-349 | ... for every accepted expression |
| `CronSchedule.NumbersParsed` | sapi/fpmng/fpm/fpm_cron_schedule.c:160-236 | four numbers and a star are accepted, as the schedule of that one minute of the year |
| `CronSchedule.LeapDayParsed` | sapi/fpmng/fpm/fpm_cron_schedule.c:160-236 | the parser accepts "0 0 29 2 *", as midnight of February 29th |
| `CronSchedule.LeapDayMissed` | sapi/fpmng/fpm/fpm_cron_schedule.c:322-349 | "0 0 29 2 *" behind 2096-03-01 is given up, although it is due on 2104-02-29 |
| `CronSchedule.ParsedIsFilled` | sapi/fpmng/fpm/fpm_cron_schedule.c:160-236 | every accepted expression names something in every field |
| `SeriesKey.OneListing` | ext/fpmng_metrics/fpmng_metrics.c:248-256 | labels with distinct names have one sorted listing |
| `SeriesKey.Unescaped` | ext/fpmng_metrics/fpmng_metrics.c:296-317 | an escaped value stands for the value in the text format of Prometheus, and has no line end |
| `SeriesKey.PlainValue` | ext/fpmng_metrics/fpmng_metrics.c:296-317 | a value without backslash, quote and line end is written as it is |
| `SeriesKey.KeyIs` | ext/fpmng_metrics/fpmng_metrics.c:232-331 | the key is the name and, in braces, the pool and the labels with commas between them |
| `SeriesKey.EscapeTells` | ext/fpmng_metrics/fpmng_metrics.c:296-321 | an escaped value ends at its quote and tells the value |
| `SeriesKey.LabelTells` | ext/fpmng_metrics/fpmng_metrics.c:289-321 | a label tells its name and value |
| `SeriesKey.LabelsTell` | ext/fpmng_metrics/fpmng_metrics.c:275-322 | a list of labels tells its labels |
| `SeriesKey.KeysDiffer` | ext/fpmng_metrics/fpmng_metrics.c:235-331 | two series with one key have the same name and sorted labels |
| `SeriesKey.ListingSorts` | ext/fpmng_metrics/fpmng_metrics.c:248-256 | the listing is sorted and has the same labels |
| `SeriesKey.AnyOrder` | ext/fpmng_metrics/fpmng_metrics.c:235-331 | the order the labels were given in does not matter |
| `SeriesKey.SeriesDiffer` | ext/fpmng_metrics/fpmng_metrics.c:235-331 | different names or label sets, as the key sees them, have different keys |
| `SeriesKey.KeysEqualIff` | ext/fpmng_metrics/fpmng_metrics.c:235-331 | for one pool two series share a key if and only if they have one name and, each value up to its NUL, the same labels |
| `SeriesKey.PlainKeysDiffer` | ext/fpmng_metrics/fpmng_metrics.c:235-331 | ... so without a NUL in a value, exactly when they are the same series |
| `SeriesKey.SharedKey` | ext/fpmng_metrics/fpmng_metrics.c:296-321 | the input: two values that differ behind a NUL |
| `SeriesKey.AcceptedFit` | ext/fpmng_metrics/fpmng_metrics.c:939-978 | labels the extension accepts never fail for their number or their values |
| `SeriesKey.LettersAccepted` | ext/fpmng_metrics/fpmng_metrics.c:939-978 | lower-case names other than the reserved one, with any short values, are accepted |
| `SeriesKey.ArrangedIsListing` | ext/fpmng_metrics/fpmng_metrics.c:248-256 | the labels in the order of the sorted index array are the listing |
| `SeriesKey.ParseLabels` | ext/fpmng_metrics/fpmng_metrics.c:939-978 | accepts exactly valid names of labels and values within their sizes, NUL or not |
| `SeriesKey.Print` | ext/fpmng_metrics/fpmng_metrics.c:269-273 | a text fits with its NUL or the call fails |
| `SeriesKey.Put` | ext/fpmng_metrics/fpmng_metrics.c:318-321 | one byte with room for the NUL |
| `SeriesKey.PutUnit` | ext/fpmng_metrics/fpmng_metrics.c:305-316 | one or two |
| `SeriesKey.PutEscaped` | ext/fpmng_metrics/fpmng_metrics.c:296-317 | the escaped value, whole or not at all |
| `SeriesKey.Sort` | ext/fpmng_metrics/fpmng_metrics.c:248-256 | the index array is a permutation in name order |
| `SeriesKey.SinkIn` | ext/fpmng_metrics/fpmng_metrics.c:250-255 | one turn of the in-place insertion |
| `SeriesKey.PutLabel` | ext/fpmng_metrics/fpmng_metrics.c:276-321 | one label |
| `SeriesKey.PutLabels` | ext/fpmng_metrics/fpmng_metrics.c:275-322 | the labels |
| `SeriesKey.InOrder` | ext/fpmng_metrics/fpmng_metrics.c:248-256 | the sorted labels |
| `SeriesKey.PutPool` | ext/fpmng_metrics/fpmng_metrics.c:264-274 | brace and pool label |
| `SeriesKey.PutBraces` | ext/fpmng_metrics/fpmng_metrics.c:264-328 | what is between the braces |
| `SeriesKey.BuildKey` | ext/fpmng_metrics/fpmng_metrics.c:235-331 | succeeds exactly when labels, values up to their NUL and the whole key fit, and then writes the whole key |
| `JsonLog.DecodedIff` | sapi/fpmng/fpm/fpm_http_access_log.c:166-195 | what is found at a position is exactly the code point spelled there: no overlong form, surrogate or number past the last one |
| `JsonLog.Utf8Len` | sapi/fpmng/fpm/fpm_http_access_log.c:166-195 | the length of the sequence, 0 exactly when no code point of two bytes or more is spelled |
| `JsonLog.UnitSpells` | sapi/fpmng/fpm/fpm_http_access_log.c:200-245 | the escape of a byte is a JSON character of the code point with its number |
| `JsonLog.CellsCut` | sapi/fpmng/fpm/fpm_http_access_log.c:266-291 | the units are the text, cut up |
| `JsonLog.FittingIs` | sapi/fpmng/fpm/fpm_http_access_log.c:282-284 | the units written are the first ones, as many as fit and no fewer |
| `JsonLog.TextsAreJson` | sapi/fpmng/fpm/fpm_http_access_log.c:247-296 | units make up a JSON text (section 7 of RFC 8259) |
| `JsonLog.OneMeaning` | sapi/fpmng/fpm/fpm_http_access_log.c:247-296 | a JSON text means one thing |
| `JsonLog.RestoredWhole` | sapi/fpmng/fpm/fpm_http_access_log.c:247-296 | the client's bytes come back from the uncut text |
| `JsonLog.SpelledMeans` | sapi/fpmng/fpm/fpm_http_access_log.c:166-195 | a text in UTF-8 means the code points it spells |
| `JsonLog.MeaningIff` | sapi/fpmng/fpm/fpm_http_access_log.c:256-296 | two texts mean the same if and only if they are the same once every stray byte is written in UTF-8 |
| `JsonLog.Utf8Stays` | sapi/fpmng/fpm/fpm_http_access_log.c:256-296 | texts in valid UTF-8, and no others, are left alone by that; so those mean the same only when they are equal |
| `JsonLog.OneByteTwoBytes` | sapi/fpmng/fpm/fpm_http_access_log.c:200-245 | the input: a stray byte, and the two bytes that spell its number |
| `JsonLog.InBoundsIff` | sapi/fpmng/fpm/fpm_http_access_log.c:254-295 | the value stays in its buffer if and only if the buffer is not one or two bytes for a text |
| `JsonLog.TinyBuffer` | sapi/fpmng/fpm/fpm_http_access_log.c:293-294 | such an input |
| `JsonLog.ValueMeans` | sapi/fpmng/fpm/fpm_http_access_log.c:256-296 | the value is a JSON string of the first code points of the text, and of all exactly when the uncut text fits |
| `JsonLog.ValuesTell` | sapi/fpmng/fpm/fpm_http_access_log.c:256-296 | uncut values tell their texts apart |
| `JsonLog.Copy` | sapi/fpmng/fpm/fpm_http_access_log.c:287-288 | bytes copied, the rest untouched |
| `JsonLog.NextUnit` | sapi/fpmng/fpm/fpm_http_access_log.c:268-281 | the unit at a position |
| `JsonLog.WriteUnit` | sapi/fpmng/fpm/fpm_http_access_log.c:282-290 | one unit, or full |
| `JsonLog.WriteUnits` | sapi/fpmng/fpm/fpm_http_access_log.c:266-291 | the units that fit |
| `JsonLog.WriteValue` | sapi/fpmng/fpm/fpm_http_access_log.c:256-296 | the whole value, and nothing behind it |
| `Backpressure.PausedCount` | sapi/fpmng/fpm/fpm_http_backpressure.c:129-139 | one response changes the number of pauses by its own flag |
| `Backpressure.ResumedScan` | sapi/fpmng/fpm/fpm_http_fcgi.c:817-847 | the scan for the blank line, resumed three bytes before the new bytes, finds the first one |
| `Backpressure.PutAllSteady` | sapi/fpmng/fpm/fpm_http_fcgi.c:669-847 | the pieces of one read, in any number, add at most their bytes to what is held as header block or body |
| `Backpressure.ReadFine` | sapi/fpmng/fpm/fpm_http_backpressure.c:170-248 | one read of an upstream that is not paused keeps its response within the bound |
| `Backpressure.AfterFine` | sapi/fpmng/fpm/fpm_http_backpressure.c:129-248 | every event does |
| `Backpressure.RunFine` | sapi/fpmng/fpm/fpm_http_backpressure.c:129-248 | ... and every run |
| `Backpressure.EmptyIsRead` | sapi/fpmng/fpm/fpm_http_backpressure.c:63-71 | in every run a response with nothing left to write is not paused, and its upstream is read and timed |
| `Backpressure.PauseBegins` | sapi/fpmng/fpm/fpm_http_backpressure.c:217-247 | a pause begins only with a read that takes the output of a tracked client over the limit |
| `Backpressure.PauseEndsIff` | sapi/fpmng/fpm/fpm_http_backpressure.c:63-168 | the pause of a response that goes on ends if and only if its client takes all that is left |
| `Backpressure.BodyExact` | sapi/fpmng/fpm/fpm_http_backpressure.c:170-215 | behind the head every byte of the target is body |
| `Backpressure.SplitExact` | sapi/fpmng/fpm/fpm_http_fcgi.c:817-847 | however a target's output is cut, it is collected until its first blank line and is body from there on |
| `Backpressure.BodyBound` | sapi/fpmng/fpm/fpm_http_backpressure.c:170-248 | in every run the unwritten body is at most one 16 KiB read over the limit, or over the 64 KiB of a header block that never ended, whichever is more |
| `Backpressure.FloodShips` | sapi/fpmng/fpm/fpm_http_fcgi.c:817-847 | a run that attains it: 80 KiB without a blank line are shipped as body, whatever the limit |
| `Backpressure.LimitHoldsIff` | sapi/fpmng/fpm/fpm_http_backpressure.c:170-248 | the body stays within the limit and one read in every run if and only if the limit is at least 64 KiB |
| `Backpressure.Gateway.constructor` | sapi/fpmng/fpm/fpm_http_backpressure.c:129-139 | no responses |
| `Backpressure.Gateway.Start` | sapi/fpmng/fpm/fpm_http.c:1501-1512 | a request on an upstream |
| `Backpressure.Gateway.Head` | sapi/fpmng/fpm/fpm_http_fcgi.c:669-815 | an HTTP target's head starts the reply |
| `Backpressure.Gateway.Chunk` | sapi/fpmng/fpm/fpm_http_backpressure.c:187-247 | one piece; the one that takes the output over the limit pauses the upstream |
| `Backpressure.Gateway.StartReply` | sapi/fpmng/fpm/fpm_http_fcgi.c:669-815 | the head goes out and what was collected behind it is body; a refused head is a 502 and the rest is discarded |
| `Backpressure.Gateway.Scan` | sapi/fpmng/fpm/fpm_http_fcgi.c:824-840 | the end of the header block, wherever the reads cut it |
| `Backpressure.Gateway.Stdout` | sapi/fpmng/fpm/fpm_http_fcgi.c:817-847 | collected until the block ends or is too long to be one, then shipped |
| `Backpressure.Gateway.Read` | sapi/fpmng/fpm/fpm_http.c:934-962 | a whole read |
| `Backpressure.Gateway.Resume` | sapi/fpmng/fpm/fpm_http_backpressure.c:141-168 | gauge, read event and deadline come back |
| `Backpressure.Gateway.Drain` | sapi/fpmng/fpm/fpm_http_backpressure.c:63-71 | an empty output, and nothing else, ends the pause |
| `Backpressure.Gateway.End` | sapi/fpmng/fpm/fpm_http_backpressure.c:141-168 | the pause ends with the request; a live upstream is read again |
| `Backpressure.Gateway.Cut` | sapi/fpmng/fpm/fpm_http_fcgi.c:864-905 | ... without a read event |
| `Backpressure.Gateway.Handle` | sapi/fpmng/fpm/fpm_http_backpressure.c:129-248 | any event |
| `Backpressure.Gateway.Run` | sapi/fpmng/fpm/fpm_http_backpressure.c:129-248 | any run: the responses are what the events make of them, the body is bounded, a paused upstream is neither read nor timed and has output left, an empty output is read, the gauge is the number of pauses |
| `CertInstall.JoinedLabels` | sapi/fpmng/acme/state.php:133-147 | implode undoes explode |
| `CertInstall.LabelsJoined` | sapi/fpmng/acme/state.php:133-147 | ... and explode undoes implode |
| `CertInstall.TrimmedIs` | sapi/fpmng/acme/state.php:130-148 | only trailing dots are cut off, and all of them |
| `CertInstall.CanonicalOf` | sapi/fpmng/acme/state.php:130-148 | a name with any number of dots behind it is filed under itself in lower case |
| `CertInstall.UsableIff` | sapi/fpmng/acme/state.php:133-147 | a name is usable if and only if its labels are; the first of several may be a star |
| `CertInstall.PlainLabel` | sapi/fpmng/acme/state.php:133-147 | letters, digits and inner hyphens, at most 63, make a label |
| `CertInstall.CanonicalIs` | sapi/fpmng/acme/state.php:130-148 | the canonical name is the lower-cased name without trailing dots, when it is usable |
| `CertInstall.CanonicalTwice` | sapi/fpmng/acme/state.php:130-148 | and is its own canonical name |
| `CertInstall.OneNameIff` | sapi/fpmng/acme/state.php:130-148 | two usable spellings share a name exactly when they differ in case and trailing dots only |
| `CertInstall.OneComponent` | sapi/fpmng/acme/state.php:130-148 | a canonical name is one path component |
| `CertInstall.StepSane` | sapi/fpmng/acme/client.php:87-147 | every step of a renewer, and its death anywhere, keeps directory, locks and renewers consistent |
| `CertInstall.RunSane` | sapi/fpmng/acme/client.php:87-147 | ... over every interleaving |
| `CertInstall.MatchingIff` | sapi/fpmng/acme/client.php:113-138 | in every run, key and chain of a name match if and only if the chain last installed was given for the key of the renewer that installed it |
| `CertInstall.ChainHasItsKey` | sapi/fpmng/acme/state.php:253-263 | as long as no order found valid serves a chain for another key, an installed chain always has its key beside it, and an installed key is never replaced |
| `CertInstall.ForeignChain` | sapi/fpmng/acme/client.php:122-127 | such an order: a first renewal whose order is valid at once installs a new key beside a chain for another |
| `CertInstall.RenewalInstalls` | sapi/fpmng/acme/client.php:87-147 | left alone, a renewal ends with a chain for the installed key, the old one if there was one, and the lock free |
| `CertInstall.RenewalWaits` | sapi/fpmng/acme/lock.php:83-129 | while another process has the lock, a tick changes nothing |
| `CertInstall.KeyStays` | sapi/fpmng/acme/state.php:195-215 | an installed key is never replaced, whatever chains arrive |
| `CertInstall.OneRenewer` | sapi/fpmng/acme/lock.php:83-129 | at most one process renews a name, under whatever spellings |

## Left out

- ConnTracker.Tracker.CheckPeer: a connection that is judged now is still evhttp's; the source uses a freed node otherwise, as `TrackerSpec.SurvivesIff` says. The same holds for `JudgeNow`, `PickUp`, `Answer` and `Serve`; one that was judged before may be released.
- TrackerSpec.CapHolds: assumes as much of every pickup and request, and that a request's descriptor is known.
- TrackerSpec.RefusedStaysRefused: while evhttp owns the connection and nothing closes its node.
- ChallengeProtocol.LookupServed: a reader or writer that is left alone; no bound on others that keep publishing.
- ChallengeProtocol.RepliesAreSnapshots: assumes sequentially consistent memory and a generation counter that does not wrap within a run.
- RecordParser.Parser.Data: payload of a request whose client has left is reported like any other; the source drops it.
- DispatchPump.Gateway.Records: the requests that END_REQUEST records end arrive as a count; `RecordParser.Parser.Data` is what finds them in the bytes.
- DispatchPump.Gateway.Failure: every lost connection ends its request as lost and every deadline as timed out; the replies sent for them are not modelled.
- DispatchPump.Gateway.OnTick: which idle connections a sibling asks for is an answer of the environment.
- CrashBackoff.Pool.Make: a pool of fixed size, no process_max, and a timer armed at the clock reading that decided it.
- CrashBackoff.Pool.Run: no bound from above on when the event loop runs a timer beyond the millisecond it rounds to.
- SeriesKey.BuildKey: labels with distinct names, as the keys of a PHP array are; the swap of two array entries is a swap, not three exclusive-ors.
- CertInstall.ChainHasItsKey: the CA certifies the key of the CSR it was sent, a rename is atomic and a lock is released on death; a chain is the key it certifies.
- CronSchedule.Next: local time is an arbitrary function from instants to calendar fields; UTC is the Gregorian calendar.
- Backpressure.Gateway.Run: no minimum-rate timer; what a CGI header block says is an answer of the environment.
- JsonLog.WriteValue: a buffer of one or two bytes is excluded for a text; `JsonLog.InBoundsIff` says what is written there.
- Upgraded (WebSocket) connections and the release of their slots.
- Requests on their way to a target, and the text of replies the gateway makes itself.
- The Combined access log, log files, histograms and the rendering of metrics.
- Configuration, its dump and its comparison; TLS, signing, ACME account registration and orders; signals, fork and allocation beyond success or failure.
- Static files, readiness and status pages, access lists, the ReactPHP and Revolt drivers and the example applications.
