# tlsproxy, verified

A model in Dafny of the serving path of a TLS/SNI proxy written in Go, with proofs of the properties it
relies on. `dafny verify dfyconfig.toml` checks all of it; there is nothing to run.

Code that several goroutines race through is a transition system: a state, a set of actions (one per
atomic load, store, compare-and-swap, critical section or channel meeting), and a function that says what
each action does. A run is any sequence of actions, so a statement about every run covers every
interleaving of any number of goroutines. Each such module has an invariant, a lemma that every action
keeps it, `EveryRun` (in ClockRuns the contract of `Execute`), and after that the results a caller cares
about. Fields called history in the comments only record what happened; nothing in the model decides
anything by them. Lemmas named ...ByItself say what one operation does from its first action to its last,
from any state of the others, so that no action of it is left to the invariant alone.

Code that changes things step by step by itself is methods over classes, arrays and loops, each proved
against a specification function, whose properties are then lemmas. What comes from outside (reads, writes,
clocks, what another goroutine will have done) is a parameter or a script, and every statement holds for
all of them.

| module | what it covers |
|---|---|
| Ring, Bits | the bounded lock-free ring |
| ProbeTable | the insert-only probing tables of hosts and of certificates |
| StopRule | stopping a rule while connections register, route and leave; the connection table |
| Publication | route caches, stopped sets and reloads seen together |
| ClientHello, Hello, HelloCodec | parsing a ClientHello, and reading one that arrives in pieces |
| Limiter | speed limits |
| NonceCache | the replay cache |
| Pattern, Classify, Template, Decimal | host patterns, the expressions they compile to, target templates |
| Routing | choosing a rule |
| Clock, ClockRuns, RouteCache | the CLOCK cache, by itself and under racing calls, and the pair of them that caches routing decisions |
| Relay | one copy direction: pump, mover, batching |
| Closing | how a relayed connection closes |
| CertJobs | the scheduler of automatic certificates |
| Rotation, RotationRuns | the rotating log file, and its compressor beside it |
| DialRace | connecting to a target of two address families |
| ProxyProtocol, ProxyHeaders | PROXY protocol headers, both ways, and which streams carry one |
| SanKeys | names of a local CA's certificates and their folders |
| Wrappers | option and result |

Two findings where the code does less than it says:

- A target template with a reference of 2^62 or more is caught by none of `expand`'s checks: `2*n+1` wraps to a
  negative number, so the bounds check lets it through and the index after it panics, at load time already.
  `Template.WhenPanic` says exactly which templates panic, `Template.NumberedReference` gives the outcome
  for every number, and `Template.ProbeDecides` shows that the probe at load time always meets it first.
- The comment at localca.go:32-33 (a host name has no underscore, so nothing else in a CA's directory can
  clash with a host name's folder) does not hold for three names the code uses there: `config.yaml`,
  `config.yaml.tmp`, which it writes before renaming it, and `config.toml`, which it looks for. All three are
  host names (`SanKeys.ConfigIsAHostName`). `SanKeys.FileClashes` is the condition for any file name that does
  not start with ip_: it is the folder of a name exactly if it is a host name, and then of that name.
  `SanKeys.OwnNamesClash` applies it to every name the code uses there.

## Model

| member | source | states |
|---|---|---|
| Ring.EveryRun | lockfree.go:35-85 | in every interleaving the tail is 0 to capacity ahead of the head, and what was pushed, published or handed out stays so: positions are claimed in order and never twice |
| Ring.TrueMeansPushed | lockfree.go:48-65 | in every state TryPush reports true exactly in the step that publishes a position, one nobody published before, which holds the value it was asked to push |
| Ring.FalseMeansFull | lockfree.go:59-61 | TryPush reports false only at a moment when the position one lap back from the tail has not been released |
| Ring.ValueMeansPopped | lockfree.go:67-85 | TryPop reports a value exactly in the step that hands out a position, published and never handed out before, with the value pushed there |
| Ring.NoneMeansEmpty | lockfree.go:80-82 | TryPop reports none only at a moment when the position at the head is not published |
| Ring.CallGoesOn | lockfree.go:48-85 | a call goes on until it answers, with the value it was asked to push: losing a compare-and-swap ends none |
| Ring.ReturnedIsPushed | lockfree.go:67-85 | the value a TryPop returns for a position is the one pushed at that position, in every state of every run |
| Ring.HandedOutOnce | lockfree.go:67-85 | a consumer hands out a position that was published and that nobody handed out before |
| Ring.PushFullMeans | lockfree.go:48-65 | TryPush gives up exactly when, as it reads the cell, its position is still the next to claim and the position one lap back has not been released |
| Ring.PopEmptyMeans | lockfree.go:67-85 | TryPop gives up exactly when, as it reads the cell, its position is still the head and its producer has not published it |
| Ring.NoDataRace | lockfree.go:48-85 | two goroutines never touch the value of one cell at the same time, though that access is not atomic |
| Ring.PushWhenQuiet | lockfree.go:48-65 | with nothing in flight TryPush appends, or reports false when as many values as the capacity are queued |
| Ring.PopWhenQuiet | lockfree.go:67-85 | with nothing in flight TryPop takes the oldest value, or reports false when there is none |
| Ring.NewRing | lockfree.go:35-46 | the size is the least power of two that is at least 2 and at least the capacity, and the new ring satisfies the invariant of all runs |
| Bits.MaskIsRem | lockfree.go:35-85 | masking a position with the size less one is its remainder |
| ProbeTable.EveryRun | lockfree.go:288-323 | racing lookups and insertions keep the table's invariant: before an entry every slot of its probe sequence is taken, and entries stay |
| ProbeTable.OneEntryPerName | lockfree.go:302-323 | a name has at most one entry |
| ProbeTable.SameEntryForever | lockfree.go:288-323 | whoever finds a name, now or in any later state of any run, gets the same entry |
| ProbeTable.MissingMeansAbsent | lockfree.go:302-323 | a search that ends without an entry ends at a moment when the name is not in the table |
| ProbeTable.KnownNamesAreFound | localca.go:448-481 | once a name has its entry no search for it, inserting or only reading, ends without it |
| ProbeTable.CapPreventsFull | lockfree.go:288-323 | fewer than the cap plus the number of racing callers names are ever entered, so a probe never runs out of slots |
| ProbeTable.FoundByItself | lockfree.go:302-323 | a name that is in the table is found, in the slot that has it |
| ProbeTable.AbsentByItself | lockfree.go:302-323 | a name that is not is added in the first empty slot of its sequence and counted, or not, as the search is meant to |
| ProbeTable.LostClaim | lockfree.go:314-319 | who finds the slot taken meanwhile takes the entry if it is its name, and looks on otherwise |
| ProbeTable.SearchBegins | lockfree.go:288-300 | which search a call begins with: below the maximum one that adds, else one that does not, before the shared entry |
| ProbeTable.MissingGoesOn | lockfree.go:288-300 | a search for a name that ends with nothing goes on to the shared entry |
| StopRule.StoppedMeansClosed | proxy.go:152-188 | once a request that stopped a rule is done and no start of the rule was published after it, every connection of that rule past its own re-check is closed, in every interleaving with registration, routing, table growth and other requests, those that overlap it included |
| StopRule.StopIsNotLost | stats.go:64-86 | once stop has returned, a connection past its own check is closed, whether its kill function was there before or after |
| StopRule.OneSlotEach | lockfree.go:179-224 | two registered connections never share a slot, whatever races to claim it or to grow the table |
| StopRule.NobodyAsked | proxy.go:173-187 | in every run in which nobody asks to stop a connection or its rule, it is not closed from outside and no stop is pending for it, whatever else is stopped |
| StopRule.LastRequestDecides | proxy.go:152-164 | in every run a rule is in the stopped set exactly if the last request for it to publish was a stop |
| StopRule.CheckObeys | proxy.go:748 | the own check of a connection finds its rule stopped exactly if the last request to publish stopped it |
| StopRule.CheckCloses | proxy.go:748 | after its check a connection relays, closed exactly if it was closed before or the check found its rule stopped |
| StopRule.RequestEnds | proxy.go:152-188 | every request comes to its end by itself, from any state |
| StopRule.PublishByItself | proxy.go:152-164 | what a request publishes |
| StopRule.ConnByItself | stats.go:77-86 | a connected connection goes on to relaying, closed exactly if a stop was pending or its rule is stopped |
| StopRule.ComesIn | proxy.go:152-188 | a new connection or request begins as it should |
| StopRule.LeaveByItself | lockfree.go:220-223 | routing gives a connection its key; leaving clears its slot and counts it off |
| StopRule.AddByItself | lockfree.go:199-217 | a connection is registered, in a slot that was free, whenever there is a free one and the table is not more than half full |
| StopRule.GrowByItself | lockfree.go:181-204 | a table that would be more than half full grows by one segment of free slots |
| StopRule.GrowLost | lockfree.go:180-196 | a registration whose segment another one has added first looks again at how large the table is now |
| StopRule.ClaimLost | lockfree.go:207-215 | and one whose slot another connection has taken first goes on to the next |
| StopRule.TableHoldsRegistered | lockfree.go:199-223 | in every run a slot holds a connection exactly while that is registered, and the counter is their number |
| Publication.RoutedUnderACurrentSet | proxy.go:748 | cached or not, a connection is routed as RouteExcept would under a stopped set that was current at or after the publication of its runtime, for its own listener and name; a lookup may answer any decision ever put under its key, evicted or replaced meanwhile, or none |
| Publication.StoppedRuleIsNotUsed | proxy.go:152-172 | a connection that starts routing after a rule was stopped is never routed by it, from whatever cache and under any reloads, while the rule is not started again |
| Publication.NoStopBefore | proxy.go:152-172 | whoever loads the runtime after a request is done uses that request's stopped set or a newer one |
| Publication.HandlerByItself | proxy.go:748 | a connection that finds nothing cached is routed by the live rules under the current stopped set, and its decision is cached on its side under its key |
| Publication.HitByItself | cache.go:113-127 | a hit serves the decision answered, allowed names before denied ones |
| Publication.RequestByItself | proxy.go:152-172 | a request publishes the stopped set with its rule in or out and then the same rules with empty caches |
| Publication.ReloadByItself | proxy.go:165-172 | a reload publishes its rules with empty caches, and a request it overtakes begins its second half again |
| Publication.ComesIn | proxy.go:748 | a new connection or request begins as it should; a name with a NUL never gets this far |
| Publication.CacheKeyParts | proxy.go:747-748 | the cache key of a listener and a name gives both back, as names hold no NUL |
| ClientHello.ParseExtensions | sni.go:149-228 | the cursor loops, in place, give what the recursive definition of the extensions gives, for every body |
| ClientHello.NamesAreClean | sni.go:184-206 | whatever bytes are read, a name that results has only small letters, digits, dots, hyphens and underscores, 253 at most, and there is none beside an address |
| HelloCodec.ReadsHello | sni.go:149-228 | every ClientHello body that fits its length fields is answered by what it says: the first host name of the first server_name extension, byte for byte with capital letters replaced by small ones, or the address that it is, or a refusal of exactly that name; and all protocols in order (RFC 6066 section 3, RFC 7301 section 3.1) |
| HelloCodec.RecordsSay | sni.go:58-112 | the same from the records on: however a hello is cut into records within the limits, the parser answers what it says, and the hash is that of the message (RFC 8446 section 4) |
| Hello.ParseHello | sni.go:58-112 | the loop over records equals the record-by-record definition of the outcome |
| Hello.ParseIsFinal | sni.go:58-112 | once decided, the outcome is the same however many bytes follow |
| Hello.ReadHello | proxy.go:567-645 | the incremental reader, with its scan state kept across reads, gives the parser's outcome on all the bytes read and returns those bytes, and what had arrived when its last read began decided nothing |
| Hello.ShortestPrefixDecides | proxy.go:567-645 | there is one shortest decisive prefix, and every longer one decides the same, so the split of a stream into reads does not matter |
| Hello.SplitDoesNotMatter | sni.go:58-112 | two ways to cut one handshake message into records within the limits give the same outcome, that of the message (RFC 8446 section 5.1) |
| Hello.BeyondTheLimits | sni.go:58-112 | the record that exceeds 32 records or 64 KiB is refused for exactly that |
| Hello.FirstRecord | sni.go:76-103 | what is refused at the first record, as soon as the byte that shows it has arrived, and what is waited for |
| Limiter.EveryRun | limit.go:48-86 | every interleaving of clock readings, loads, compare-and-swaps and timers, with a wall clock that may be set forward or back at any moment, keeps the account of what was charged |
| Limiter.WindowBound | limit.go:48-86 | whatever the wall clock reads: what calls charged at or after s and may go on by t (their reading plus the wait they were told) costs on a limiter is at most (t-s) plus the burst, for each limiter of waitAll at once |
| Limiter.WindowBoundInEveryRun | limit.go:48-86 | the same for the end of any run, from limiters charged in any way before |
| Limiter.NeverEarly | limit.go:71-86 | no call is let go before the wait it was told has passed since each of its charges |
| Limiter.SteadyWindowBound | limit.go:48-86 | in a run in which nobody sets the wall clock the bound holds for the calls charged at or after s and let go by t |
| Limiter.BytesBound | limit.go:48-66 | in bytes, in every run: at most the window and the burst at the rate, plus less than a nanosecond for each charge that was rounded down |
| Limiter.WaitsForTheWorst | limit.go:71-86 | in every run a call charges each of its limiters once, in order, and is told to wait for the greatest excess over the burst among those charges, no longer |
| Limiter.WithinTheBurst | limit.go:43-66 | in every run a call is let through at once exactly if what each of its limiters was charged, since any earlier charge and since it was new, is within the time passed and the burst |
| Limiter.TatIsLatestStart | limit.go:53-58 | the number of a limiter is the costs charged since some start, a reading of the clock or the beginning, and no start gives more |
| Limiter.ReleasedOnTime | limit.go:78-86 | a call is let go exactly when the wait it was told has passed |
| Limiter.ChargeByItself | limit.go:48-66 | one charge: from where the limiter is, or from now if later, by the cost of the bytes |
| Limiter.WaitAllByItself | limit.go:71-86 | waitAll for one limiter, from the call to the wait |
| Limiter.ClockShows | limit.go:53 | the wall clock shows the time that passes and what it has been set by |
| Limiter.CallGoesOn | limit.go:48-86 | no call is stuck, and one that lost its compare-and-swap reads the clock again |
| Limiter.CancelEnds | limit.go:81-86 | only a call that waits can be cancelled, and is then not released |
| Limiter.NewLimiter | limit.go:30-41 | the burst is the time of one chunk, a twentieth of a second within the buffer and 256 bytes; no limit is no limiter |
| NonceCache.Cache.Remember | nonce.go:57-61 | overwrites the hash's slot; the log of writes is what the table means |
| NonceCache.Cache.Seen | nonce.go:63-70 | true exactly when the last write to the slot was this very hash and its cyclic age is below 160 ticks |
| NonceCache.SeenInCycles | nonce.go:33-70 | not overwritten, a hash is seen exactly when the ticks passed leave a remainder below 160 modulo the stamp cycle |
| NonceCache.SeenFor160Ticks | nonce.go:33-70 | it is seen up to 159 ticks, and not from 160 ticks until the cycle ends |
| NonceCache.OthersDoNotEvict | nonce.go:57-61 | only a write to the same slot makes the table forget |
| Pattern.FindIsExact | config.go:366-413 | the backtracking search over the emitted expressions finds a match exactly when there is one, and what it finds is one |
| Pattern.CompiledMeaning | config.go:366-413 | the expression a pattern compiles to accepts exactly the names with as many labels, each matching its label's glob |
| Pattern.FindMeaning | config.go:366-413 | the match found for a compiled pattern exists exactly for the names meant, with one capture without a dot for each * |
| Pattern.CapturesMeaning | config.go:366-413 | captures hold no dot, and the capture of a whole-label * is not empty |
| Pattern.CapturesAreStars | config.go:366-413 | a pattern has as many captures as stars |
| Pattern.CapturesRebuildTheName | config.go:366-413 | putting what a pattern captured of a name back for its stars, left to right, gives the name |
| Pattern.FindsTheLongest | config.go:366-413 | of all ways to put text for the stars that give the name, the search finds the one with the longest captures, those further left first; it finds none only if there is none |
| Pattern.FindIsGreediest | config.go:391-413 | the same over the expression: no match of the compiled expression has longer captures, those further left first |
| Pattern.GreediestIsUnique | config.go:391-413 | there is one such match only |
| Pattern.PatternsNeedAName | config.go:366-413 | no name pattern matches a client without a name |
| Pattern.SpellingsAgree | config.go:429-434 | every spelling of a name, with letters in either case, dots with a backslash or not, and ^ and $ around it or not, stands for that name |
| Pattern.LowerLetters | config.go:429-434 | lowering replaces each capital letter by the small one of its place in the alphabet and nothing else |
| Pattern.HostLetters | config.go:285-288 | names are made of the letters of both cases, the digits, the dot, the hyphen and the underscore |
| Classify.ClassifyDomain | config.go:366-413 | exactly the acceptable patterns are accepted, each with its kind, the expression of its labels and its literal characters; the quoted form of a literal is that expression too |
| Classify.OrdinaryNames | config.go:366-413 | an ordinary lower-case name stands for itself, and is accepted unless it is none or any or has a pair of stars |
| Template.Expand | config.go:510-553 | the loop gives the value of the parsed template, or its first error in order |
| Template.WhenText | config.go:510-553 | a template expands exactly when it is well formed and every reference exists, to its segments with the groups put in |
| Template.WhenPanic | config.go:510-553 | it panics exactly when it meets a reference of 2^62 or more, all before it being in order |
| Template.NumberedReference | config.go:510-553 | the outcome of ${n} for every number n |
| Template.ProbeDecides | config.go:1009-1013 | a template the probe at load time accepts expands for every match at run time; one it refuses would fail for every connection in the same way |
| Template.WrittenReadsBack | config.go:510-553 | a template written out of plain text and references reads back as those, and one that goes on with something unreadable has the error of that |
| Template.UnreadableTails | config.go:520-548 | which error goes with what follows a $ |
| Template.ReferenceMeaning | config.go:537-545 | the references are host and the numbers as they are normally written, no others |
| Decimal.AtoiOfItoa | config.go:540-546 | reading back a written number gives it, up to the largest 64-bit integer |
| Decimal.AtoiOfSigned | config.go:540-543 | a number with a sign is read in the range of 64 bits |
| Routing.Load | config.go:943-1013 | a rule loads exactly if its pattern is acceptable and, where it needs one, the probe of its target expands; then it is what every routing result below asks of a rule; otherwise the error says which |
| Routing.LoadAll | config.go:881-887 | all rules load, in file order, exactly if each does |
| Routing.Prioritise | config.go:447-484 | succeeds exactly when no two rules of the listener could only match the same names, and then the literal map and the sorted list hold exactly the listener's rules |
| Routing.SortStable | config.go:475-484 | the result is ordered by rank, file order among equals, with the same elements |
| Routing.BestBeatsAll | config.go:298-322 | the winner of the plain scan beats every other running rule that matches: kind, then literal characters, then file order; no winner means no match |
| Routing.BestIsUnique | config.go:298-322 | only one rule can beat all others |
| Routing.StoppedActsAbsent | config.go:294-297 | a stopped rule acts as if it were not configured, for every name |
| Routing.LiteralWins | config.go:303-305 | the running rule found by the name itself is the winner, with no captures |
| Routing.RouteExcept | config.go:298-322 | the literal lookup and the priority scan give the decision of the winner of the plain scan, for every lowercase name and stopped set |
| Routing.Decide | config.go:324-355 | a loaded rule that matched allows exactly if it says allow and serves the name itself or its expanded target is a valid host, which is then the host; otherwise it says why |
| Routing.MatchGroups | config.go:1009-1013 | every match of a loaded rule has as many groups as its target was probed with |
| Routing.CapturesGiveBackTheName | config.go:298-322 | what a loaded wildcard rule captures of a name rebuilds the name when put for the stars of its pattern |
| Routing.MatchMeaning | config.go:298-322 | which names a loaded rule of each kind matches, and that a wildcard captures the longest text, further left first |
| Routing.HostOfTheLongest | config.go:324-355 | the host of a decision by a wildcard rule is its target with exactly those captures put in |
| Routing.HostsAllowed | config.go:340-355 | a target is an address if it has a colon, else a name of host characters, and not empty |
| Routing.ConsoleAgrees | console_rules.go:400-413 | the first match in the console's order is the winner routing chooses, for every name and stopped set |
| Routing.EvaluationOrder | console_rules.go:400-413 | the console's list holds every rule once, in its own order, stable |
| Clock.Cache.constructor | cache.go:34-38 | a new cache is empty and valid: index and slots in bijection, keys distinct, size within the cap |
| Clock.Cache.Get | cache.go:40-50 | answers the value of the key and marks only its entry as used |
| Clock.Cache.Put | cache.go:54-90 | replaces, appends, gives up or evicts exactly as its specification says, and keeps index and slots in bijection |
| Clock.Cache.SecondChance | cache.go:76-88 | the sweep ends, at the slot the specification names, with the entries it passed cleared |
| Clock.SweepMeaning | cache.go:76-88 | the hand passes and clears used entries only, and stops at the first unused one, after at most one full turn |
| Clock.VictimIsUnused | cache.go:76-88 | at most cap + 1 entries are looked at, and the victim was not used since the hand last passed, unless every entry was |
| Clock.StoredMeaning | cache.go:54-90 | Put makes its key answer its value, drops the victim if there was no room, and changes no other key's answer |
| Clock.StoredFits | cache.go:54-90 | Put keeps the keys distinct and the size within the cap |
| Clock.UsedSurvives | cache.go:11-16 | a used entry outlives an insertion as long as some entry is unused |
| Clock.HitSurvives | cache.go:40-50 | a key that was looked up outlives the next insertion as long as some other entry is unused |
| Clock.NewIsUnused | cache.go:54-90 | an entry begins unused, so a key that is only stored has no such protection |
| ClockRuns.Execute | cache.go:40-90 | racing lookups and insertions keep index and slots the same entries, but for the one an insertion has not published yet, and a sweep looks at most cap + 1 times and once more for each flag that hits set meanwhile |
| ClockRuns.LooksAndMarksAreCounted | cache.go:77-82 | what the bound on a sweep counts: every look at the entry under the hand, and every flag newly set by a hit, from the moment the sweep begins |
| ClockRuns.AnswersWereStored | cache.go:40-50 | in every run what Get answers was stored by a Put of that very key |
| ClockRuns.OneSlotPerKey | cache.go:54-90 | in every run no key is in two slots, also while an insertion is under way |
| ClockRuns.InsertedIsThere | cache.go:54-90 | in every run an insertion that got the lock has its key in the index when it releases it |
| ClockRuns.NobodyWaits | cache.go:15-17 | in every run, whoever holds the insert lock, every call that is not over moves on with its next step |
| ClockRuns.GetByItself | cache.go:40-50 | run by itself while no entry is pending, Get is the Lookup and the Hit of Clock |
| ClockRuns.PutByItself | cache.go:54-90 | run by itself while no entry is pending, Put is the Stored of Clock, with the lock free or held |
| RouteCache.RouteCache.GetOrRoute | cache.go:113-127 | the cached decision if there is one, allowed names first, else the one route gives, kept on its own side; a denial leaves every allowed name where it is, and allowed and denied decisions never mix |
| Relay.Sink.Write | proxy.go:1272 | the only way to deliver bytes: they continue what was delivered and stay a prefix of what was read |
| Relay.Mover.Read | splice_linux.go:90-112 | the mover holds exactly the bytes read; refusing to splice is reported only before anything was moved |
| Relay.Mover.TopUp | proxy.go:1251-1269 | what was held is kept and followed by exactly the bytes that arrived, within the chunk |
| Relay.Mover.Write | splice_linux.go:153-175 | the bytes held are delivered in order, fewer only with an error |
| Relay.Batcher.Batch | linger.go:63-96 | no byte is lost by batching, a read that lingers always has room, and the state afterwards is what the rules of lingering say |
| Relay.LingerRules | linger.go:17-37 | a top-up that fills the chunk or empties the pipe makes reads of that size move at once, one that finds nothing turns lingering off until the next check, and a read after a pause moves at once |
| Relay.Pump | proxy.go:1278-1385 | for every script of reads and writes and every clock: delivered bytes are a prefix of those read, equal to them unless the receiver refused or a limit's wait was cut short, the whole stream when the source ends; every byte read is charged to the limits once, and before it is written; the five counters say how many were delivered; the end it reports is the one its last read or write, or the limits, gave; and a willing receiver gets the whole stream, also when the kernel refuses to splice |
| Relay.Chunk | proxy.go:1285-1293 | the chunk is the least of the buffer size and each limit's chunk, never zero |
| Closing.EveryRun | proxy.go:1387-1470 | every interleaving of two pumps, the half-close timer and kills keeps the closing state consistent |
| Closing.ReasonIsFinal | proxy.go:1424-1462 | the close reason is recorded once and never changes, nor does which end closed first |
| Closing.ReasonSaysWhatHappened | proxy.go:1430-1440 | a mutual close names the end that was first; with none on record, both had ended |
| Closing.ReturnedMeansReason | proxy.go:1463-1470 | when both pumps have returned the connection is closed and has a reason, before finish |
| Closing.CloseAllCloses | proxy.go:1451-1461 | a call of closeAll that has returned, from outside or by a pump, has closed the connection, both sockets included, whoever was first |
| Closing.HalfCloseOnce | proxy.go:1412-1425 | a direction's half-close is forwarded at most once, and only when its end is on record |
| Closing.EndByItself | proxy.go:1412-1449 | endDirection marks its direction, forwards its half-close if it is to, and is the first on record and sets the timer, or closes the connection naming both ends |
| Closing.KillByItself | proxy.go:1451-1461 | closeAll closes with its reason unless there is one, and leaves the ends on record alone |
| Closing.TimerByItself | proxy.go:1437-1446 | the timer closes once, with its reason |
| Closing.BreakByItself | proxy.go:1451-1461 | a pump whose copy breaks has closed the connection when it returns |
| Closing.OnlyCopyingIsWoken | proxy.go:1412-1461 | a pump that is ending or in closeAll is not ended, broken or woken once more |
| Closing.KillWakesBoth | proxy.go:1451-1461 | closeAll leaves both pumps able to return |
| Closing.FinishByItself | proxy.go:1463-1470 | finish comes after both pumps, stops the timer and changes nothing on record |
| CertJobs.AtMostFour | certs.go:932-955 | in every run at most four names are in flight |
| CertJobs.OneJobPerName | certs.go:932-955 | two jobs that are not over are for different names, both in flight |
| CertJobs.ChallengesAreInFlight | certs.go:1337-1348 | a challenge is pending only for a name in flight |
| CertJobs.InstallsAreCurrent | certs.go:1390-1422 | a job puts a certificate on disk or into use only while its own configuration is current and not cancelled |
| CertJobs.OnlyCurrentCertificates | certs.go:1390-1422 | every certificate in use or on disk was written under the configuration it was got for |
| CertJobs.ViewIsCurrent | certs.go:179-190 | whenever nobody holds the mutex the published view is what all the maps are |
| CertJobs.EveryRun | certs.go:199-250 | reloads, job starts, failures, retries and completions in any order keep all of this |
| CertJobs.AtMostThreeAttempts | certs.go:988-1020 | in every run a job makes at most three attempts |
| CertJobs.StartByItself | certs.go:932-955 | a job is started exactly for a name not in flight, under the current configuration, while fewer than four are |
| CertJobs.BeginByItself | certs.go:965-970 | it begins only under its own configuration |
| CertJobs.ChallengeByItself | certs.go:1337-1343 | a challenge is put up exactly while the configuration is current and in time |
| CertJobs.OrderByItself | certs.go:988-1020 | an order ends in a commit or a failure |
| CertJobs.CheckByItself | certs.go:1390-1400 | a commit goes on exactly if the configuration is current and it is in time |
| CertJobs.InstallByItself | certs.go:1406-1420 | a commit that goes on writes the certificate for its name and puts it into use |
| CertJobs.GivesBack | certs.go:1393-1394 | a job gives applyMu back, whether it stored anything or not |
| CertJobs.CleanupByItself | certs.go:1344-1348 | a job takes its challenge down after the attempt |
| CertJobs.AttemptByItself | certs.go:988-1020 | the job tries again unless it succeeded, was cancelled or has tried three times |
| CertJobs.LeaveByItself | certs.go:942-950 | a finished job leaves, and its name may be started again |
| CertJobs.RefuseByItself | certs.go:1102-1110 | a refusal takes the certificate out of use |
| CertJobs.ApplyByItself | certs.go:203-250 | an accepted configuration is current afterwards and the jobs before it are cancelled; one that is not changes nothing |
| CertJobs.LoadByItself | certs.go:587-594 | a certificate on disk is put into use for a name of the configuration |
| CertJobs.AdoptByItself | certs.go:798-815 | a certificate on disk is put into use for a name that became a candidate |
| CertJobs.RemoveByItself | certs.go:1596-1623 | removing takes a certificate out of use and off the disk, not while a job is at work on it |
| Rotation.FileLogger.WriteLines | rotate.go:76-95 | a batch leaves exactly the files, and consults the guard exactly as, one WriteLine for each of its lines would |
| Rotation.FileLogger.WriteLine | rotate.go:97-108 | rotates first if the file is full and the guard is free, and then appends |
| Rotation.FileLogger.Rotate | rotate.go:115-156 | the descending renames leave each kept generation one number higher and the live file as generation 1, drop the oldest, overwrite nothing, and leave generations above the number to keep alone |
| Rotation.ChunkIsItsLines | rotate.go:76-95 | a chunk of whole lines that only its last one may fill is written as its lines one by one |
| RotationRuns.FilesAreTheLastLines | rotate.go:76-180 | from whatever files the logger is opened on, and in every interleaving with the compressor, the generations, oldest first, and then the live file read as the last of what was found and the lines logged since, from some line on |
| RotationRuns.GenerationsHoldWholeLines | rotate.go:76-180 | each generation holds whole lines, and the next newer one goes on where it ends |
| RotationRuns.NothingMovesWhileCompressing | rotate.go:156-180 | while the compressor runs no step overwrites or renumbers a generation |
| RotationRuns.OldGenerationsAreCompressed | rotate.go:156-180 | whenever nobody compresses, every generation above CompressAfter is compressed: from the first rotation on, or from the start if those found were |
| RotationRuns.WriteByItself | rotate.go:97-108 | writing a line does what WriteLine does, and starts the compressor exactly if it rotated and there is anything to compress |
| RotationRuns.CompressorByItself | rotate.go:160-178 | the compressor compresses every plain generation above CompressAfter, leaves all else alone, and releases the guard |
| DialRace.OneConnectionEach | dial.go:72-147 | every connection is with exactly one family, or closed, or the one Dial returned, of which there is at most one |
| DialRace.NoConnectionLeaks | dial.go:101-109 | when no family has a result to report, every connection but the returned one is closed |
| DialRace.NoSenderStaysBlocked | dial.go:101-109 | once Dial has returned, a family with a result can close it and leave |
| DialRace.FallbackStartsOnce | dial.go:110-146 | the other family is started at most once, after the lag or after the preferred family failed (RFC 8305 section 5) |
| DialRace.SomebodyIsAtWork | dial.go:115-147 | until its time is up Dial never waits with no family at work |
| DialRace.PreferredErrorIsReported | dial.go:133-139 | when both families fail Dial returns no connection and the preferred one's error |
| DialRace.WhyDialFails | dial.go:115-147 | in every run Dial fails only because both families did or its time is up, with the error that goes with what has failed |
| DialRace.FamilyByItself | dial.go:151-178 | a family dials its addresses in order and offers the first that connects, or its failure after the last or once the race is over |
| DialRace.SuccessIsReturned | dial.go:129-132 | the first connection that reaches Dial is returned |
| DialRace.FailureIsCounted | dial.go:133-145 | a first failure starts the other family at its first address, a second ends the race |
| DialRace.LagStartsFallback | dial.go:124-128 | the lag starts the other family unless it has been started |
| DialRace.TimeIsUp | dial.go:116-123 | Dial returns when its time is up, and not by the clock before |
| DialRace.NothingAfterReturn | dial.go:90-147 | once it has returned its result stays and it starts nobody |
| DialRace.LoserLeaves | dial.go:101-109 | and the other family can leave, closing what it has |
| DialRace.DialSerial | dial.go:151-178 | the first address that connects is returned and nothing is dialled after it or after time is up; else the first error |
| ProxyProtocol.HeaderReadsBack | proxy_protocol.go:52-98 | reading back a header written for any two TCP endpoints gives them, up to IPv4-mapping, its version, and exactly the bytes that follow |
| ProxyProtocol.V1RoundTrip | proxy_protocol.go:195-231 | the text form, within its 108 bytes |
| ProxyProtocol.V2RoundTrip | proxy_protocol.go:241-301 | the binary form |
| ProxyProtocol.OtherStreamsAreReplayed | proxy_protocol.go:145-175 | a non-empty stream that does not start with a complete signature is passed on byte for byte, an early end included, unless an I/O error cuts it off within the signature its first byte begins; then, and only then, it fails |
| ProxyProtocol.DetectProxyProtocol | proxy_protocol.go:145-193 | the reads, one byte or one block at a time, do what the definition on the whole stream says and leave the rest on the connection |
| ProxyProtocol.ProxyConn.Read | proxy_protocol.go:111-118 | the replay first and then the socket: nothing lost, repeated or reordered |
| ProxyHeaders.Version1Exactly | proxy_protocol.go:195-239 | a stream is read as a version 1 header exactly when its first line, of at most 108 bytes, is PROXY UNKNOWN with or without more words, or six words: PROXY, TCP4 or TCP6, two addresses of that family and two ports from 0 to 65535; those are the endpoints stated, and the bytes after the line are what is left |
| ProxyHeaders.Version2Exactly | proxy_protocol.go:241-301 | a stream is read as a version 2 header exactly when two code bytes, a length and a block of that length follow the signature, and the codes are LOCAL, unspecified, UNIX with 216 bytes, or TCP over IPv4 or IPv6 with a block that begins with the endpoints stated |
| ProxyHeaders.OneSignature | proxy_protocol.go:151-193 | each signature leads to its own version, whose reading is the outcome, and no other stream is read as a header |
| ProxyHeaders.DottedMeans | proxy_protocol.go:210-217 | an IPv4 address is read from exactly the dotted decimal form of its four bytes, without leading zeros |
| ProxyHeaders.HeaderExactly | proxy_protocol.go:52-62 | a header is written exactly for two TCP addresses of 4 or 16 bytes with ports from 0 to 65535, in version 1 or 2 |
| ProxyHeaders.SentIsRead | proxy_protocol.go:63-97 | what is read back is exact: both endpoints as IPv4 where both are IPv4 or IPv4-mapped, and else both as IPv6, the IPv4 one mapped |
| SanKeys.SplitOfKey | localca.go:721-751 | sanSplit gives back the addresses and host names a name was made of, in order |
| SanKeys.EveryKeyIsAName | localca.go:724-739 | any addresses and host names that a certificate may be for make a name: one that holds exactly their unmapped addresses and their host names, each sorted and once |
| SanKeys.KeyDependsOnSets | localca.go:724-739 | equal sets of unmapped addresses and of host names give equal names, whatever their order and repetitions |
| SanKeys.AddrsInOrder | localca.go:732 | addresses are sorted with IPv4 before IPv6, and by their bytes within a family |
| SanKeys.DomainMeans | config.go:1436-1446 | a domain has less than 254 characters, in two or more labels of letters, digits and hyphens, none of them empty |
| SanKeys.LeafKeyOfIssued | localca.go:754-762 | leafKey of the certificate issued for a name is that name |
| SanKeys.FolderReadsBack | localca.go:764-803 | localCAName undoes localCAFolder, for every single host name and every set with an address |
| SanKeys.OnlyFoldersAreRead | localca.go:776-803 | localCAName gives a name only for the folder of that name: a host name, or addresses with or without host names that are valid |
| SanKeys.FoldersAreDistinct | localca.go:764-773 | different names have different folders |
| SanKeys.FileClashes | localca.go:764-773 | a file whose name does not start with ip_ has the name of a certificate's folder exactly if it is a host name, and then of the certificate for that name only |
| SanKeys.OwnNamesClash | localca.go:764-773 | of the names the code uses in the directory of a CA (certificate and its temporary file, key, archive, settings, their temporary file and their old file) exactly config.yaml, config.yaml.tmp and config.toml can be the folder of a name, each of the host name of that spelling |
| SanKeys.ConfigIsAHostName | localca.go:32-33 | the comment fails for config.yaml, config.yaml.tmp and config.toml: each is a host name, kept in a folder of that name |
| SanKeys.SanSplit | localca.go:742-751 | the loop gives the addresses and host names of the definition |
| SanKeys.LocalCAName | localca.go:776-803 | the loop gives the name of the definition, or none |
| SanKeys.StandardIsGood | localca.go:764-766 | dotted IPv4 text, exactly, and hexadecimal IPv6 text have what folder names need |

## Left out

- 64-bit wrap of counters and int64 overflow of nanoseconds: counters and times are unbounded.
- Floating point: rates and the cost of a byte are reals, rounded down where the source converts to an integer.
- Letters outside ASCII: lower-casing and case-insensitive matching cover A to Z; regular expressions also fold a few letters such as the Kelvin sign.
- The regular expression engine: only the small language the patterns compile to is modelled, with its leftmost greedy search.
- Hash functions: a digest, a table hash and a probe order are any function; the ClientHello bytes that are hashed are kept as they are.
- Sockets, splice(2), files, directory syncs and timers: scripts, maps and actions stand for them. splice_linux.go is modelled by what its mover promises.
- I/O failures during a log rotation, the retry flag they set, and a crash in the middle of one; two loggers on the same path across a reload.
- IPv6 text: any codec that reads back what it writes, in at most 39 characters without spaces or line ends (and, for folder names, of hexadecimal digits and colons).
- Cryptography, X.509, ACME messages, OCSP, tickets: a certificate is what it covers and under which configuration it was got.
- The YAML reader, the console's pages and sessions, HTTP serving, statistics display, log wording: no property of the serving path depends on them.
- setListenerStopped: a connection accepted but not yet registered can escape its scan, so it gives no guarantee like that for rules.
- The warning that rules are not evaluated in file order (config.go:485-502), and the choice of text in error messages.
- syncMap, sourceCounts and the statistics counters other than those of a pump: plain wrappers.
- localCA.certificate's renewal in place: only the entry and find of its table are modelled.
- pendingJobs' order (urgent first, then by date) and the console's removal and retry beyond what they do to certificates in use.
- The parts of Publication's runtime other than rules and caches.
- Clock.Cache.Put: is one step of the class; the steps of several calls at once are in ClockRuns, which has no counterpart of the entry count n.
- RouteCache.RouteCache.GetOrRoute: is one step here; the steps of several at once are in Publication, where a lookup may answer any decision put under its key or none.
- Hello.ReadHello: the branch that refuses a full buffer is proved dead, since the parser refuses first.
- CertJobs.InstallsAreCurrent: the two files of a certificate are one write; a crash between them is not modelled.
- RotationRuns.FilesAreTheLastLines: the generations found must have no gap, and none may be there both plain and compressed, as a crash or a hand could leave them; those above the number to keep may hold anything.
- Routing.Load: the other settings of a rule (listener, port, certificate, speed) are taken as read.
- DialRace.DialSerial: the share of the time each address gets is not modelled, only that an attempt may fail and that time may be up.
- Limiter.WindowBound: calls are counted from when they were charged; one charged before s may be released after it.
