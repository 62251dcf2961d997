# Verification of the VPN jumphost

`vpn-jumphost` keeps an openconnect tunnel alive behind a browser login and puts a small routing proxy
in front of it. This project models its two cores in Dafny and proves what they promise.

**The routing proxy as a byte-stream protocol.** Client, proxy and destination (or upstream SOCKS5
proxy) are joined by FIFO byte streams. `Socks` and `Http` hold the readers and writers on real bytes,
`Opening` the reader of a client's whole opening, `ProxySystem` the connection as a state machine whose
reachable states are `Run(cfg, moves)` for any list of moves of anybody, in any chunks and order.
`ProbeSystem` puts the program's own probe on the client side. `Routing` and `ProbeClient` are the
handlers themselves, read by read and write by write on a `Stream` object, proved against the same
readers. `Domains` and `Pac` are the two implementations of domain routing, `ProbeTargets` the text form
of probe targets, `Json` the string encoder used for page scripts. `HandlerRun` shows that the handler
and the machine are the same proxy: what the one leaves on its streams, the other can reach.

**The supervisor and its push budget.** `World` is everything the supervisor does not control: two
clocks, the stop token, the wake permit, the cookie file, the endpoint, the browser, the children. Its
methods leave what the environment decides undetermined (`:= *`), so the contracts hold for every probe
verdict, page, click, crash, delay and clock. `Vpn`, `Cookie` and `Supervision` are the source's objects
and loops over that world; `Mfa` is the budget and one browser session; `Timing` is what a run of the
monitor loop looks like in time.

Two ghost lists say what a run did. Each method of the world enters into `World.diary` (`Diary`) what it
was asked and what it answered: probes, sleeps with the time asked for, looks into the cookie jar and at
the page, spawn attempts. The loops are proved against grammars of that list: `Polls.PollRun` for a
browser session, `Backoff.RetryRun` for a forced check, `Timing.TimedBy` for the waits of the monitor, so
a loop cannot skip, add or stretch a step. And every step appends to a list of events (`World.trace`).
`Life` gives that list as a function of a script of what the environment did, and each method is proved to
emit exactly the events of the script it returns, up to the whole of `run`. `Trace.Replay` folds a list
into a ledger that says after each event whether it was allowed and what it asks for next;
`Life.EveryLifeIsSafe` proves that every script's events are allowed and that nothing asked for is left
undone, and the lemmas of `Trace` say what that means event by event. In the same way `MonitorLoop` keeps
`GoodLog`, and the lemmas of `Timing` are about every good log; so both families hold of every run.

Text is a Rust `String` as its UTF-8 bytes. Durations are exact reals.

## Where the code and its documentation differ

The model follows the code.

- `README.md:84` promises at most three pushes in one process. The code counts at most three between two
  resets of its budget, and clicks for no more, but the promise fails in two ways. Every valid cookie
  resets the budget, so with logins in between there is no limit at all (`Life.LoginsLiftTheLimit`). And
  a push the page shows by itself is out before the budget is asked: with three counted, a fourth can
  still be shown, is refused and ends the session (`Life.FourthNumber`), also in the visible browser that
  takes over from a headless one and whose start does not look at the budget (`Life.FourthAfterRelaunch`).
  As long as nothing has been reset there are four at most, and three at most exactly when none is shown
  after three have been counted: `Life.PushesOfALife`, for one session `Mfa.PastTheLimitIff`.
- `docs/architecture.md:101` calls a 2xx answer valid, 3xx and 404 invalid, and is silent on the rest. The
  code takes all the rest for valid, 401 and 500 included (`Diary.UndocumentedIsValid`).
- `src/config.rs:55-59` and `docs/architecture.md:14-15` call the domain lists a single source of truth.
  The lists are shared but read differently: wildcard entries work only in the PAC script, upper-case
  entries only in the proxy, and the script also sends a url DIRECT when a direct entry occurs anywhere in
  its text. `Pac.CompilationPreservesRouting` gives the exact condition for plain entries,
  `Pac.EntriesAgreeIff` says on which entries and names the two agree at all.
- `relay` ends with the first of its two copies (`src/routing.rs:530-533`). A client that closes its sending
  side after its request, which TCP allows, can therefore lose the answer: the direction of the side that
  closed is complete, the other is cut off where it stands (`ProxySystem.EndedRelay`,
  `ProxySystem.HalfClosedClient`, `ProxySystem.AnswerIsLost`).
- A resume is forgotten if the wall clock is set back far enough while the forced check retries.
  `Timing.ForgetsIff` gives the exact amount for every interval: a retry window and a poll, less the
  suspend threshold.
- "Network unreachable" reaches a SOCKS5 client only from a direct connect (`ProxySystem.NetUnreachableIff`).
  On the way upstream it never does (`ProxySystem.UpstreamHidesUnreachable`): a failed connect is wrapped in
  a message and loses its OS code, and a reply in which the upstream gives that reason, or any other, is
  told as a general failure.
- The version byte of a SOCKS5 reply is never looked at, nor the reserved one (`Socks.ReplyVersionIsIgnored`).

## Model

| member | source | states |
|---|---|---|
| ProxySystem.DestinationTransparency | src/routing.rs:463-534 | in every reachable state the destination has received a prefix of the proxy's own handshake followed by exactly the client's bytes behind its opening, and nothing before the opening is complete |
| ProxySystem.ClientTransparency | src/routing.rs:471-534 | while relaying, the client has received a prefix of the proxy's own answers followed by exactly the destination's bytes behind its handshake |
| ProxySystem.ClientSeesUpstream | src/routing.rs:278-332 | a SOCKS5 client routed upstream receives a prefix of exactly what the upstream wrote, handshake and reply of any address type included |
| ProxySystem.UpstreamSeesClient | src/routing.rs:247-289 | the upstream receives a prefix of the greeting, the client's own request with RSV zeroed, and everything behind it |
| ProxySystem.ForwardedRequest | src/routing.rs:278-289 | the request written upstream is byte for byte the client's with RSV set to 0 |
| ProxySystem.PromiseIffRelaying | src/routing.rs:435-460 | the client is told of success (REP 0 or a 2xx status) exactly when the proxy relays for it |
| ProxySystem.RefusedOpening | src/routing.rs:416-429 | a malformed opening is answered with a failure of its own protocol, never with a success |
| ProxySystem.RelayDrains | src/routing.rs:523-534 | as long as neither side has hung up, copying what is pending hands each side all the other has sent, and the relay goes on |
| ProxySystem.HandedOnIff | src/routing.rs:523-528 | a relay holds nothing back: a direction is complete iff nothing of it is left unread |
| ProxySystem.EndedRelay | src/routing.rs:530-533 | a relay that ended without an error has carried the direction of the side that closed completely, and the other one iff nothing of it was pending |
| ProxySystem.EndIsFinal | src/routing.rs:530-533 | whatever happens after a relay has ended, nothing more is handed to either side |
| ProxySystem.HalfClosedClient | src/routing.rs:530-533 | a client that has closed its sending side can lose every answer written from then on, in every reachable relay and whatever follows |
| ProxySystem.AnswerIsLost | src/routing.rs:530-533 | a concrete run in which an answer that is already there is lost |
| ProxySystem.HandshakeIsDecided | src/routing.rs:471-521 | a handshake waits for bytes only: once both peers have hung up, at most six steps decide it |
| ProxySystem.Reachable | src/routing.rs:471-534 | the connection invariant holds after every list of moves |
| ProxySystem.NextKeeps | src/routing.rs:471-534 | every single move of anybody keeps that invariant |
| ProxySystem.Proxy | src/routing.rs:471-521 | a step of the proxy leaves its peers' bytes alone, and changes nothing or comes nearer to a decision |
| ProxySystem.NetUnreachableIff | src/routing.rs:152-166 | a connect step tells a SOCKS5 client "network unreachable" iff the route is direct and the OS gives code 101 or 51 under a kind without a code of its own |
| ProxySystem.UpstreamHidesUnreachable | src/routing.rs:247-251 | no SOCKS5 client whose target goes upstream is ever told so, in any reachable state |
| ProbeSystem.TargetIsDecoded | src/probe.rs:109-123 | whatever target the proxy has decoded is the probe's host and port, and its name has 1 to 255 bytes |
| ProbeSystem.VerdictIsTheReply | src/probe.rs:91-168 | a finished probe has read exactly one method choice and one reply of any address type, and reports success iff REP is 0, which is iff the proxy relays |
| ProbeSystem.EmptyNameIsRefused | src/routing.rs:209-213 | an empty host is refused by the proxy and reported as refused |
| ProbeSystem.LocalMovesTerminate | src/probe.rs:79-169 | every effective move of probe or proxy uses up a budget that nothing gives back, so there are finitely many |
| ProbeSystem.NeverStuck | src/probe.rs:79-169 | until the probe has finished, it or the proxy can move, or the proxy waits for bytes only the upstream can send |
| ProbeSystem.PReachable | src/probe.rs:79-169 | the joint invariant of probe and proxy holds after every list of moves |
| ProbeClient.Socks5ConnectViaRouting | src/probe.rs:79-169 | the probe's verdict and what it writes, to the byte, are functions of what the proxy writes to it |
| ProbeClient.RunConcludes | src/probe.rs:79-169 | the stepping probe and the straight-line probe reach the same verdict in every run |
| ProbeClient.AnswerDecides | src/probe.rs:97-168 | against any server the REP of its reply decides, whatever address it carries and whatever follows |
| HandlerRun.HandlerIsARun | src/routing.rs:471-534 | whatever the handler has written, relayed or refused when it returns is a reachable state of the connection machine, so the transparency theorems hold of the handler |
| ProbeTargets.DisplayRoundTripIff | src/probe.rs:31-76 | a displayed target parses back to itself iff its host is non-empty and starts neither with white space nor with a bracket |
| ProbeTargets.UnbracketedIsPlain | src/probe.rs:62-75 | an unbracketed text never names any other kind of host |
| ProbeTargets.DisplayIsStable | src/probe.rs:31-76 | what an unbracketed text names, its display names again under any default port |
| ProbeTargets.ParseIff | src/probe.rs:45-76 | for every text, target and default port: the parser returns the target iff the trimmed text names it, bracketed, with a port or under the default |
| Routing.ClientGreeting | src/routing.rs:170-186 | consumes and answers exactly what `Socks.ParseGreeting` says of the stream, error replies included |
| Routing.ClientRequest | src/routing.rs:188-233 | returns, consumes and answers exactly what `Socks.ParseRequest` says |
| Routing.ReadDomain | src/routing.rs:209-220 | the same for the domain branch: empty names, invalid UTF-8 and early ends included |
| Routing.ConnectUpstreamStream | src/routing.rs:247-333 | succeeds iff the upstream accepts a name it can be asked for, returns its reply verbatim and leaves the stream just behind it |
| Routing.ReadReplyBytes | src/routing.rs:291-322 | reads exactly one reply, whatever its address type |
| Routing.ReadHttpHead | src/routing.rs:408-420 | returns the shortest head, answers 431 after 8192 bytes, and consumes nothing beyond |
| Routing.Relay | src/routing.rs:523-534 | under every schedule each side gets the next bytes of the other, in order, none lost or repeated, as many as the polls made have room for; it ends at the first poll that reads an end of stream, and unless a copy failed one direction is carried completely |
| Routing.CarriesUniquely | src/routing.rs:523-534 | the schedule alone decides how much a relay carries each way and how it ends |
| Routing.RoomForAll | src/routing.rs:527-528 | a poll each way with room for everything hands each side everything the other has, in either order |
| Routing.CopyChunk | src/routing.rs:527-528 | one poll of one copy moves as many bytes as it has room for, or all there are |
| Routing.Socks5ReplyWithBind | src/routing.rs:130-145 | pushes byte by byte the reply that `Socks.BoundReplyIsReply` reads back |
| Routing.Establish | src/routing.rs:486-511 | success iff the connection comes about, what was written to the destination, and what the client is to hear in either protocol |
| Routing.Serve | src/routing.rs:482-511 | payload passes both ways behind the right announcement, or the client hears the failure with its code and keeps its bytes |
| Routing.HandleClient | src/routing.rs:471-521 | the verdict of `Opening.Open` on the client's stream decides everything all parties see, to the byte |
| Routing.HandleSocks | src/routing.rs:478-512 | greeting, request and connection of the SOCKS5 path, as `Opening.ReadSocks` says of the stream |
| Routing.HandleHttpConnect | src/routing.rs:407-461 | the same for the HTTP entrance, with its 400, 431 and 502 answers |
| Opening.OpenSettled | src/routing.rs:471-521 | once an opening is decided, nothing sent later changes its verdict or where it ends |
| Socks.RequestRoundTrip | src/routing.rs:188-233 | the request of section 4 of RFC 1928 for any IPv4, IPv6 or domain target is read back as that target, its end included, whatever follows |
| Socks.RequestReencodes | src/routing.rs:188-233 | and nothing else is accepted: every accepted request of any address type is, with RSV 0, the request for the target read from it |
| Socks.HeaderVerdict | src/routing.rs:189-231 | which REP refuses a request with another command, an unknown address type or an empty name, and that everything else is refused only without an answer |
| Socks.BadNameIsRefused | src/routing.rs:215-218 | a name that is not UTF-8 is refused without an answer, before its port is read |
| Socks.OtherVersionIsRefused | src/routing.rs:171-177 | a greeting or request of another version is refused with REP 1 at its first byte |
| Socks.GreetingAccepted | src/routing.rs:170-186 | the greeting the program's own clients send is accepted by its server, whatever follows |
| Socks.GreetingVerdict | src/routing.rs:170-186 | for every list of methods and everything behind it the server takes exactly the greeting, and accepts it iff it offers "no authentication" |
| Socks.RequestSettled | src/routing.rs:188-233 | a verdict on a request stands whatever arrives later |
| Socks.GreetingSettled | src/routing.rs:170-186 | a verdict on a greeting stands whatever arrives later |
| Socks.ReplySettled | src/probe.rs:125-161 | a verdict on a reply stands whatever arrives later |
| Socks.ReplyRoundTrip | src/routing.rs:291-322 | a reply of any address type, names included, is read back whole, whatever follows |
| Socks.SimpleReplyIsReply | src/routing.rs:115-128 | the fixed reply is such a reply, with the unspecified address and its REP |
| Socks.BoundReplyIsReply | src/routing.rs:130-145 | so is a reply with an IPv4 or IPv6 bind address |
| Socks.ReplyIsSelfDelimiting | src/routing.rs:291-322 | a reply followed by payload is split exactly between the two |
| Socks.ReplyVersionIsIgnored | src/routing.rs:291-322 | a reply with any other version or reserved byte reads the same, carries the same REP and ends at the same byte |
| Socks.RepForIoError | src/routing.rs:152-166 | no connection error is reported as a success |
| Socks.RepMeans | src/routing.rs:152-166 | for each REP the exact connect errors it stands for |
| Http.HeadIsShortest | src/routing.rs:409-420 | the head loop stops with the shortest prefix ending in CRLFCRLF of at most 8192 bytes, or fails after exactly 8192 |
| Http.ScanHeadSettled | src/routing.rs:409-420 | later bytes never change where a head ended |
| Http.RequestLine | src/routing.rs:344-367 | in a request line under either line ending and before any headers, the method decides in any letter case, and then the authority; any other method is refused by name |
| Http.AuthorityIff | src/routing.rs:373-403 | for every authority and target: the parser returns the target iff the authority is that IPv6 address in brackets, that IPv4 address, or that name, with a colon and a decimal port |
| Http.ParseIpv4Iff | src/routing.rs:393 | a text is read as an IPv4 address iff it is that address printed; longer names and leading zeros are not |
| Http.ParseU16Iff | src/routing.rs:383-391 | a port is read exactly from an optional plus sign and a decimal numeral below 65536 |
| Http.Ipv4RoundTrip | src/routing.rs:344-404 | every IPv4 target survives printing and parsing as a CONNECT line, for all ports and header tails |
| Http.DomainRoundTripIff | src/routing.rs:344-404 | a domain target survives exactly when its name has no white space and no leading bracket and no IPv4 address prints as it |
| Http.ParsedDomainIsPrintable | src/routing.rs:388-397 | every domain the parser returns has such a name |
| Http.ParsePrintedHead | src/routing.rs:344-404 | a printed host reads back, behind any headers, as the address it is the text of, and as a name if it is none's |
| Http.TrimMeaning | src/probe.rs:46 | trimming takes all white space off both ends and nothing else |
| Http.SpaceIff | src/routing.rs:354 | white space is exactly the encodings of the White_Space characters |
| Bytes.ValidUtf8Iff | src/routing.rs:345 | a text passes as UTF-8 iff it is the encoding of some Unicode scalar values (section 3 of RFC 3629) |
| Domains.MatchesIffLabelSuffix | src/routing.rs:78-85 | a pattern matches iff its labels are a suffix of the name's, ignoring ASCII case, for all strings |
| Domains.LowerIff | src/routing.rs:79-80 | lower-casing forgets exactly the case of ASCII letters |
| Domains.MatchesReflexive | src/config.rs:330-337 | every name matches itself |
| Domains.MatchesTransitive | src/routing.rs:78-85 | matching is transitive |
| Domains.AnyMatchesIffMember | src/routing.rs:95-106 | the early-returning loop finds a match iff some entry matches |
| Domains.RouteDependsOnCoverOnly | src/routing.rs:88-111 | two configurations whose lists cover each other route everything alike: order, repetition and covered entries do not matter |
| Domains.DroppingCoveredEntry | src/routing.rs:88-111 | dropping an entry another one in its list covers leaves the cover as it was |
| Domains.UpstreamIff | src/routing.rs:88-111 | a target goes upstream iff it is a name, some proxy entry spells its trailing labels and no direct entry does |
| Domains.LabelAgreesWithRoute | src/config.rs:316-328 | the probe's label says "tunnel" iff the proxy routes the name upstream |
| Pac.BuildDirectRules | src/pac.rs:43-53 | the loop pushes two rules per direct entry, in list order |
| Pac.BlockHoldsIff | src/pac.rs:36-41 | the condition block holds iff one of its conditions does; an empty one never does |
| Pac.ChainIff | src/pac.rs:60-86 | for all lists the script returns the chain iff some proxy condition holds, no direct one does and no direct entry occurs in the url |
| Pac.PlainConditionMatches | src/pac.rs:28-34 | the condition of a plain entry holds iff the entry matches |
| Pac.CompilationPreservesRouting | src/pac.rs:60-86 | for plain entries and lower-case names the browser gets the chain iff `route_for` is upstream and no direct entry occurs in the url |
| Pac.WildcardEntriesDiffer | src/pac.rs:29-30 | a wildcard entry covers the names below its base in the script and no name in the proxy |
| Pac.UrlTextOverridesRoute | src/pac.rs:46-50 | a direct entry in the url's text alone makes the script answer DIRECT for a name that goes upstream |
| Pac.UpperCaseEntriesDiffer | src/pac.rs:32 | every non-wildcard entry with an upper-case letter is dead in the script; the two disagree on exactly the lower-case names it matches in the proxy |
| Pac.EntriesAgreeIff | src/pac.rs:28-34 | for every entry and every lower-case name without a star, when script and proxy agree on it |
| Json.SerdeJsonEncode | src/cookie.rs:1064-1083 | the loop builds the encoding the next three lemmas are about |
| Json.EncodingIsInvertible | src/cookie.rs:1064-1083 | a JSON string reader gets every string back and stops right behind the closing quote, whatever follows |
| Json.EncodingIsPrefixFree | src/cookie.rs:1064-1083 | no encoding is a prefix of another string's |
| Json.NoRawControl | src/cookie.rs:1074-1077 | no raw control character is written |
| Life.EveryLifeIsSafe | src/jumphost.rs:100-133 | every possible script's events are safe, begin with the verdict on the cookie file and leave nothing to be done |
| Life.EveryVerdictIsActedOn | src/jumphost.rs:265-386 | in every life whatever asks for something is followed at once by it: a valid cookie by the reset, an invalid one by a refresh, a usable one at a dead tunnel, a fresh one or a stopped child by a spawn attempt |
| Life.PushesOfALife | src/cookie.rs:450-525 | over a whole process: at most three clicks and four pushes, and as many again for every reset; without a reset three at most iff none is shown after three have been counted |
| Life.FourthNumber | src/cookie.rs:473-481 | a process without any reset in which one session is shown a fourth push |
| Life.FourthAfterRelaunch | src/cookie.rs:258-270 | a process without any reset in which the visible browser is shown a fourth push, having started with the budget used up |
| Life.LoginsLiftTheLimit | src/jumphost.rs:361-365 | for every number there is a process with that many pushes, none of them refused, because each login resets the budget |
| Life.SessionBooks | src/cookie.rs:405-525 | one session keeps the ledger: its attempts are those of `Mfa.Run`, and a push it refuses halts it |
| Life.RefreshBooks | src/jumphost.rs:392-438 | a refresh leaves the books closed, with the permit and the attempts its outcome says |
| Life.IterationBooks | src/jumphost.rs:265-344 | so does every iteration of the monitor, in each of its branches |
| Trace.FourPushes | src/cookie.rs:450-525 | between any two resets at most three clicks, three counted attempts, one refusal and four pushes |
| Trace.PushesPerReset | src/cookie.rs:135-168 | the same over a whole safe run, per reset |
| Trace.PushesAreSettled | src/cookie.rs:156-163 | every push is counted or refused, but for one about to be; one at most is refused, and only with three counted |
| Trace.ThreePushesIff | src/cookie.rs:156-163 | without a reset the limit of three is kept iff no push is shown after three have been counted |
| Trace.FourthPush | src/cookie.rs:450-525 | the fourth push of a process finds the budget reset before it, or three attempts counted |
| Trace.ResetNeedsValid | src/jumphost.rs:361-365 | every reset rests on a Valid verdict obtained since the reset before it |
| Trace.AskedIsMet | src/jumphost.rs:299-386 | the same over every safe list of events: what an event asks for is the very next one |
| Trace.ValidReopens | src/jumphost.rs:299-316 | each valid verdict is followed by the reset, and then, at a dead tunnel or with pushes counted, by the start or replacement of the tunnel |
| Trace.InvalidIsRefreshed | src/jumphost.rs:392-400 | each invalid verdict is followed by the launch of a browser, or with three counted by a refusal |
| Trace.ExhaustedMeansPaused | src/jumphost.rs:392-400 | once the budget is spent no refresh starts, nothing is clicked and nothing is counted until a reset, and at most one more push is noticed |
| Trace.SpawnIsPermitted | src/jumphost.rs:265-281 | every spawn attempt follows a latest cookie outcome that permits it and that no other attempt has used, and none fails for want of a cookie file |
| Trace.StopNeedsGoodCookie | src/jumphost.rs:299-342 | outside shutdown a child is only stopped on a valid or freshly fetched cookie, never on a network error or a failed refresh |
| Trace.SafePrefix | src/jumphost.rs:213-347 | safety of a run is safety of all its prefixes, each next event being allowed |
| Mfa.MfaAttemptBudget.TryRecordAttempt | src/cookie.rs:156-163 | counts up to three and refuses from then on |
| Mfa.MfaAttemptBudget.Reset | src/cookie.rs:165-167 | starts the count again |
| Mfa.PushesAreCounted | src/cookie.rs:450-525 | all pushes a session notices are counted, but for the one that is refused and ends it |
| Mfa.PastTheLimitIff | src/cookie.rs:473-508 | a session goes past the limit, and by one, iff a screen shows it a new push with the budget used up |
| Mfa.EndingIff | src/cookie.rs:410-525 | for every ending of a session, exactly which screens end it so; an interactive prompt ends a headless one whatever its state |
| Mfa.ClosedForm | src/cookie.rs:450-525 | attempts of any session that has not run into the limit: its clicks, one if it found a push under way before any click, and the changes of number no click explains |
| Mfa.HeadedClosedForm | src/cookie.rs:475-513 | a headed session counts one if any push screen was seen, plus the changes of the displayed number |
| Mfa.ClicksAreApart | src/cookie.rs:452-467 | between two clicks of one session a number was displayed |
| Mfa.LastPushCompletes | src/cookie.rs:452-508 | with the budget spent, a session whose push is out stays open or captures its cookie iff the screens are quiet, and counts nothing more |
| Cookie.ValidateCookie | src/cookie.rs:76-118 | the endpoint is asked about this cookie once, and the verdict is its answer's |
| Cookie.ValidateFile | src/cookie.rs:52-70 | a missing, unreadable or blank file is invalid unasked; any other is asked about without the white space around it, and the answer decides |
| Cookie.IsProbedIff | src/cookie.rs:52-69 | a file is asked about iff it is the encoding of some text that is not all white space |
| Diary.UndocumentedIsValid | src/cookie.rs:101-118 | the verdict is the documented one wherever there is one; exactly the undocumented answers are taken for valid against the documentation's 2xx |
| Cookie.FetchInner | src/cookie.rs:356-555 | for all pages, cookies and clocks the poll loop ends, its deeds are those of `Polls.PollRun` up to its deadline, it emits and counts exactly what `Life.SessionEvents` and `Mfa.Run` say of what it saw, and captures only the jar's value that the endpoint has just accepted |
| Cookie.Poll | src/cookie.rs:405-525 | one poll reads the jar, then looks at the page or loads a stuck one again |
| Cookie.Pause | src/cookie.rs:547-553 | a second between two polls before the deadline, unless stop cuts it short |
| Polls.NeverBlind | src/cookie.rs:391-555 | at every point of every session the page was looked at within the last seven deeds and six seconds of sleep asked for |
| Polls.JarComesFirst | src/cookie.rs:405-424 | no look at the page without a look into the jar right before it, and a cookie found there was asked about and not accepted |
| Cookie.CheckJar | src/cookie.rs:405-424 | a jar value is only taken if non-empty and accepted, and each probe is one more screen of the session |
| Cookie.OnScreen | src/cookie.rs:450-525 | one screen changes state, budget and events as `Mfa.Observe` and `Life.ScreenEvents` say |
| Cookie.PollPage | src/cookie.rs:450-525 | a session's state, budget and events stay those of the screens it has seen |
| Cookie.Fetch | src/cookie.rs:243-286 | success means an accepted value is in the file; the events and deeds are those of its one or two sessions, each within its own time; with the budget spent nothing happens at all; one that began fails for stop, the limit, the time, or the browser or file system only |
| Cookie.Relaunch | src/cookie.rs:259-270 | the visible browser comes up and goes on with what is left of the budget, unless stop came first or it did not come up |
| Cookie.RefreshCookie | src/jumphost.rs:392-438 | refused with the budget spent; otherwise a browser is launched, success resets the budget, and a failure has a cause |
| Cookie.EnsureValidCookie | src/jumphost.rs:355-386 | a valid cookie is usable and leaves no attempts counted, an unreachable endpoint changes nothing, an invalid one is refreshed unless the budget is spent; usable means a non-empty cookie file is there |
| World.WaitForStopOrWake | src/jumphost.rs:489-495 | a stop or a stored permit ends the wait at once; a wake needs a permit and uses it up, nothing else does; a timeout only after the whole wait |
| Vpn.VpnProcess.IsAlive | src/vpn.rs:51-57 | while wait calls work, alive iff the child runs |
| Vpn.VpnProcess.Stop | src/vpn.rs:73-100 | while wait calls work, the child is gone on return, killed if need be and not before the patience asked for |
| Vpn.Start | src/vpn.rs:107-163 | refuses exactly the missing and the empty file for want of a cookie; otherwise succeeds iff the system gives it a child |
| Supervision.ValidateCookieWithRetry | src/jumphost.rs:440-479 | for all durations its deeds are those of `Backoff.RetryRun`, it returns its last verdict, or NetworkError if stop kept it from probing, and unless stop came it has run its course |
| Supervision.RetryProbe | src/jumphost.rs:445-453 | each round probes once, if there is anything to ask about, and the answer decides |
| Backoff.NotTooEarly | src/jumphost.rs:460-476 | the (k+1)-st probe starts once k whole delays have passed, or at the deadline |
| Backoff.NotTooLate | src/jumphost.rs:460-476 | if probes take at most d and no sleep oversleeps, it starts at most k delays and k probes after the start, and by the deadline |
| Backoff.NetworkIsNoticed | src/jumphost.rs:440-479 | a network that comes back a probe's length before the deadline gives the check an answer, within ten seconds and two probes of coming back |
| Supervision.SleepUnlessStopped | src/jumphost.rs:471-474 | asks the timer for exactly this time, and sleeps it unless stop was requested |
| Supervision.Supervisor.constructor | src/jumphost.rs:71-83 | starts with an empty slot and a fresh budget |
| Supervision.Supervisor.StartVpn | src/jumphost.rs:164-175 | a live child is left alone, otherwise exactly one spawn attempt, which fails for want of a cookie iff there is none; success means a child runs |
| Supervision.Supervisor.StopVpn | src/jumphost.rs:177-184 | the slot is empty and, while wait calls work, no child runs; it was killed only after ten seconds of patience |
| Supervision.Supervisor.RestartVpn | src/jumphost.rs:186-191 | no child of before runs, and the last thing done is one spawn attempt |
| Supervision.Supervisor.VpnAlive | src/jumphost.rs:193-196 | while wait calls work, true iff any child runs |
| Supervision.Supervisor.ReviveVpn | src/jumphost.rs:265-286 | with the tunnel down, a usable cookie brings a spawn attempt and a valid one opens the budget; with the budget spent an invalid one changes nothing |
| Supervision.Supervisor.JudgeCookie | src/jumphost.rs:293-297 | one probe, or for a forced check a retry run of a minute, at most eleven probes of which all but the last failed on the network |
| Supervision.Supervisor.ProbeOnce | src/jumphost.rs:296 | one probe, if there is anything to ask about |
| Supervision.Supervisor.OnValid | src/jumphost.rs:300-316 | clears the budget; the tunnel is replaced iff the check was forced or pushes had been spent |
| Supervision.Supervisor.OnInvalid | src/jumphost.rs:322-342 | the tunnel is replaced iff a refresh succeeded, and left alone otherwise |
| Supervision.Supervisor.CheckCookie | src/jumphost.rs:293-343 | what each verdict does to tunnel, budget and events; a network error touches neither tunnel nor budget |
| Supervision.Supervisor.Inspect | src/jumphost.rs:265-344 | which branch an iteration takes, its events and attempts, and what becomes of `last_check` in each |
| Supervision.Supervisor.NextTick | src/jumphost.rs:228 | the wait before an iteration is one timer of exactly a poll, unless stop or a wake ends it |
| Supervision.Supervisor.Turn | src/jumphost.rs:228-344 | one turn of the loop is an iteration in the sense of `Timing.Follows` and of `Life.Iterated` at once |
| Supervision.Supervisor.MonitorLoop | src/jumphost.rs:213-347 | for every environment and number of iterations the loop's times form a good log, its waits are the diary's, its events are those of its iterations, and at most the slot's child runs |
| Supervision.Supervisor.Shutdown | src/jumphost.rs:198-209 | while wait calls work, no child is left |
| Supervision.Supervisor.Begin | src/jumphost.rs:91-117 | a usable first cookie brings a spawn attempt; only its failure fails the start |
| Supervision.Supervisor.Run | src/jumphost.rs:92-133 | the events of every run are those of a possible life and safe; it fails iff the first spawn does, and no child outlives a failure or a shutdown |
| Timing.PollBounds | src/jumphost.rs:214-237 | for every configured interval the poll lies between 1 and 15 seconds, within the interval and below the suspend threshold, which is at most 60 |
| Timing.FourPolls | src/jumphost.rs:214-237 | every interval from 4 to 60 seconds is exactly four polls, shorter ones are fewer and longer ones more, and the suspend threshold is the interval kept between 30 and 60 seconds |
| Backoff.ElevenProbes | src/jumphost.rs:440-479 | a retry run of a minute probes at most eleven times |
| Backoff.TenDelaysFillTheWindow | src/jumphost.rs:476 | nine delays fit into the window and ten do not |
| Timing.ForcedAgain | src/jumphost.rs:235-247 | a forced check that gives up on the network makes the next iteration forced, unless the wall clock has lost the slack meanwhile |
| Timing.ResumeIsNotForgotten | src/jumphost.rs:235-320 | after a resume every iteration is forced up to the first that settles the question, or stop, as long as the wall clock keeps within the slack |
| Timing.ForgetsIff | src/jumphost.rs:232-247 | for every interval and lag of the wall clock, a resume can be forgotten iff the lag is at least the slack, which is at least a poll |
| Timing.ResumeIsNoticed | src/jumphost.rs:232-247 | a wake, or a wall-clock jump beyond the interval kept between 30 and 60 seconds, is looked into in the iteration that notices it |
| Timing.OnlyAResumeForces | src/jumphost.rs:232-247 | and nothing else forces a check |
| Timing.ChecksAreSpaced | src/jumphost.rs:291-322 | successive checks start at most one interval, one poll and one loop body apart |
| Timing.PromptTimers | src/jumphost.rs:227-232 | the promptness it assumes follows from timers that fire on time, since every wait of a run is a timer for exactly a poll |
| Timing.ChecksAreNotTooSoon | src/jumphost.rs:284-342 | after a decisive iteration no unforced check comes before a whole interval has passed |
| Timing.LastCheckLags | src/jumphost.rs:287-322 | `last_check` is never later than the latest iteration that checked |
| Timing.NoStaleTick | src/jumphost.rs:291-292 | an iteration without a check is less than one interval after `last_check` |
| Timing.NetworkErrorRetriesSoon | src/jumphost.rs:317-320 | after a periodic network error the next iteration checks again |

## Left out

- The Chromium session (src/cookie.rs:290-354, src/cookie.rs:597-853, src/cookie.rs:928-1060): launching, page scripts, form filling and notifications; the model takes any screens, clicks, jar values and launch results, and does not follow which number was already logged or notified. Whether a real page ever shows a given run of screens is the browser's part.
- The HTTP probe itself: any answer or none, at any time.
- Sockets: streams are reliable; a failed write, a reset or a timeout in mid-handshake is not modelled, nor are the listener, the PAC server, the tokio tasks and their liveness warnings.
- Scheduling inside one connection: the two copies of a relay interleave in any chunks, but `tokio::io::copy` has no buffer limit here. A relay ends when a copy has read an end of stream; between a peer's close and that moment the other copy may still move bytes, since `select!` polls the two in random order.
- `::1` and its like as text: parsing IPv6 addresses is a parameter of the model (any function), printing them is absent, so the printing round trip is for IPv4 and domain targets.
- HandlerRun.HandlerIsARun: compares the unread bytes of relayed connections only; a refused connection is closed with whatever is left in it.
- Pac.CompilationPreservesRouting: is about the script's decisions, not its text; an entry containing a quote or a backslash would need the script's lexical syntax. Wildcard and upper-case entries are outside it because the two implementations disagree on them; `Pac.EntriesAgreeIff` says where.
- Trace.SpawnIsPermitted: that the cookie file is still there at the spawn relies on nobody deleting it between verdict and spawn; in the model others touch the file only while the loop waits or a retry sleeps, or a refresh fails to write it.
- Timing.PromptTimers: how long a loop body takes is an assumption; the diary pins the timers a body asks for in its parts, not its length as a whole.
- Supervision.Supervisor.Shutdown: says nothing about children whose wait call failed (`World.waitFailed`), which the code gives up on too.
- Supervision.Supervisor.MonitorLoop: runs a given number of iterations, since the loop has no end of its own; every finite part of a run is covered. The proxy and PAC tasks it warns about are absent.
- Timing.ChecksAreSpaced: assumes a bound on the loop body and a prompt timer, as the property needs; a browser refresh can take minutes.
- Durations are exact reals, without the rounding of `f64` and `Duration`.
- `run_probes` and its retries, the timeouts of the probe, the doctor, log, config-file, keyring and packaging code, and the operating system's sleep watchers beyond the single stored wake permit.
