# A verified model of the balancer's protocol core

The proxy accepts SOCKS5, SOCKS4/4a and HTTP clients, picks an upstream SOCKS5 server, repeats the
client's request there and relays. This project models the parts that hold its protocol state and its
arithmetic, and proves what they promise over every input, every interleaving of asynchronous completions
and every history of events. `dafny verify dfyconfig.toml` checks all of it.

## What is modelled

- **SOCKS handshake** (`HandshakeSpec`, `HandshakeControl`, `HandshakeData`, `HandshakeTheorems`,
  `HandshakeSteps`, `HandshakeRuns`, `Handshake`). A session is a state with the six join flags, the two callbacks, the
  negotiated data and the asynchronous operations in flight. A step completes any one of them: failed,
  written with some count, or with octets received. A `Run` is a list of completions with the states between
  them; the theorems are about all runs. `HandshakeSteps` says for every operation what its completion
  does, in octets, in any reachable state, and `HandshakeRuns` builds runs that show when sessions complete.
  The class `ProxyHandshakeAuth` runs the handlers as the source does (setting fields, building messages,
  starting writes), and every method is proved to take exactly the step of the specification, so every
  theorem about runs is a theorem about the class.
- **Wire formats** (`Socks5Wire`, `Socks4Wire`, `Ipv4Text`, `Bytes`). The readers and printers of both
  sides, the dotted-quad conversion (printer and scanner, written out), the NUL-index loop, and the
  translations SOCKS5 to SOCKS5, SOCKS4/4a to SOCKS5, and upstream reply to client reply. Frames are also
  defined on their own, by RFC 1928 sections 4 and 6 and RFC 1929 section 2, and the readers are compared
  with those definitions.
- **Credentials** (`Base64`, `AuthClients`). Base64 as bit repacking, and the multi-index container with
  its unique indexes, the loading loop and the lookups of the three kinds of client.
- **Upstream scheduler** (`Selection`, `Health`, `UpstreamPool`). The circular scans with their cursor
  passed by reference (a class `Cursor`, so cursors may be shared), the five rules, the shared rotation
  clock, and the health flags against the history of test results.
- **Delay history** (`TimeHistory`) and **first-packet analyzer** (`FirstPack`).

## Assumptions

- The IPv6 text conversion of the socket library is a pair of functions; theorems that need it assume
  `Ipv6Text.Faithful`: parsing inverts printing, texts are NUL-free, at most 45 octets and hold a colon
  (`FaithfulIsPossible` builds such a pair).
- Which of several records with one user name the non-unique user index yields is left to the container
  (`Env.byUser`, `CheckAuthUserOnly`).
- Memory just past the octets received is arbitrary (`tail`, `past`). Read buffers of 8196 octets are
  zero-filled. The read of the upstream answer completes with at least 8 octets or fails.
- Random numbers and clock reads are parameters. Handlers of one session do not overlap (the strand);
  callbacks do not call back into the session.
- `BOOST_ASSERT` is not modelled as a step: entering a "never go there" guard, or using the session pointer
  after it was reset to set the user, is counted in `misuse`, and proved not to happen outside BIND.

## Where the code does something else than it says

The model follows the code. What follows is stated and, where marked, proved.

- BIND is answered with an error reply but the handler does not return, and goes on like CONNECT
  (`Socks5ServerImpl.cpp:532-538`, `Socks4ServerImpl.cpp:169-179`). `SecondReplyIffBind` gives the exact
  condition for a second final reply; `Socks5BindSendsTwoReplies` and `Socks4BindSendsTwoReplies` build such
  a run for every BIND request that gets past authentication and whose destination can be relayed. The
  single-reply theorems are therefore for runs that are not in BIND mode; that a callback fires at most once
  needs no such exception.
- The terminator test for SOCKS4 packets reads the octet after the packet instead of its last one. So a
  packet with NUL-free octets after its terminator is accepted and those are dropped (`UnterminatedAccepted`);
  `PacketsAreWellFormed` says exactly what is accepted.
- A greeting with three or more methods, or whose first method is neither 0 nor 2, is not recognised and the
  connection fails without an answer, and a client that offers only method 2 is answered with method 0 when
  no authentication is configured. Where clients must authenticate, one that offers method 0 alone gets no
  answer. `GreetingConformsIff` says exactly when the answer is one RFC 1928 section 3 allows.
- An upstream that answers the hello with method 0 is taken at its word even when the hello offered only
  method 2, and then gets the request without authentication (`HelloAnswer`).
- The length guard of the reply printer tests the host the client asked for, not the bound name. It can
  never fail for a SOCKS5 client (`HostIsShort`), and a bound name of 4 or 16 octets is sent as an address
  (`ReplyRelay`).
- A user name that holds a colon is let through by the configuration loader. Its joined string can equal
  that of another login, which the container then refuses (`ColonDropsALogin`), and the HTTP lookup
  disagrees with the plain one (`LookupsAgreeIffColonFree`: exactly then).
- A new size limit at least two below the number of values held re-creates the ring and copies through the
  begin iterator of an empty buffer. `RingIsNewestOfLog` holds whether that keeps the elements or loses them;
  `TrimKeepsNewestIff` says when the newest values stay.
- A scan of a pool without usable servers from a cursor past its end does not terminate (`NextEndsIff`,
  `LastEndsIff`: exactly then). A cursor the pool writes is in range of the pool of that time; a smaller
  configuration set later can leave it past the end.
- `force_only_one` indexes the pool with the cursor unchecked, also when the pool is empty. That is outside
  what the standard containers define, so `CanPick` asks for a server there.
- The parameter `dontFallbackToGlobal` of `getServerByHint`, when true, makes it fall back to the global rule.
- The comment over the no-authentication reply shows method 2; the octet sent is 0.
- The Base64 decoder reads past its input when that has 4k+1 characters; `Decode` requires another length.

## Model

| member | source | states |
|---|---|---|
| HandshakeControl.CallbackAtMostOnce | src/ProxyHandshakeAuth.h:177-203 | over every run the success and the error callback together are called at most once, and a callback was called exactly when session pointer and callbacks are cleared; BIND included |
| HandshakeControl.CompletionIsEarned | src/ProxyHandshakeAuth.cpp:318-368 | the step that calls the success callback is the full write of a success reply, with both sides complete, upstream ready and no error flag set |
| HandshakeControl.CompletedIffDelivered | src/ProxyHandshakeAuth.cpp:318-368 | outside BIND the success callback was called if and only if a success reply was written to the client in full |
| HandshakeControl.SingleReply | src/ProxyHandshakeAuth.cpp:227-352 | outside BIND no "never go there" guard is entered and at most one final reply is started; in every run the up-side client is created at most once |
| HandshakeControl.StepMoves | src/ProxyHandshakeAuth.cpp:227-368 | every step keeps the control invariant and lowers the rank; only a reply's completion delivers one, and replies in flight stay accounted for |
| HandshakeControl.RunKeepsCtl | src/ProxyHandshakeAuth.cpp:227-368 | every reachable state satisfies the control invariant |
| HandshakeControl.RunDelivers | src/ProxyHandshakeUtils/Socks5ServerImpl.cpp:676-694 | replies delivered and in flight never outnumber those started |
| HandshakeControl.NoDeadlock | src/ProxyHandshakeAuth.cpp:212-368 | no reachable SOCKS state is without an operation in flight before a callback; a run that can go no further has called exactly one |
| HandshakeControl.RankDecreases | src/ProxyHandshakeAuth.cpp:227-368 | each completion of a run strictly lowers a natural-number rank of the session |
| HandshakeControl.RunIsBounded | src/ProxyHandshakeAuth.cpp:212-368 | no run is longer than 14 completions |
| HandshakeControl.JoinAfterAnswer | src/ProxyHandshakeAuth.cpp:330-340 | what the upstream answer does to the join: it stays open unless the answer or the down side was an error, and then an error callback at most |
| HandshakeControl.JoinAfterReply | src/ProxyHandshakeAuth.cpp:342-368 | after a written final reply a callback has been called: success exactly when nothing went wrong before and it was open |
| HandshakeControl.JoinOfBothSides | src/ProxyHandshakeAuth.cpp:318-368 | in whichever order the two sides end, neither alone completes the session, both together call the success callback exactly once, and an error on either side makes it the error callback |
| HandshakeData.StepKeepsData | src/ProxyHandshakeUtils/Socks5ClientImpl.cpp:38-508 | every step keeps the data invariant: credentials, target, octets sent each way, and answer belong together |
| HandshakeData.RunKeepsData | src/ProxyHandshakeUtils/Socks5ClientImpl.cpp:38-508 | the data invariant and the control invariant hold in every reachable state |
| HandshakeData.HostIsShort | src/ProxyHandshakeUtils/Socks5ServerImpl.cpp:755-760 | the host of a SOCKS5 session never trips the length guard of the reply printer |
| HandshakeData.UdpServed | src/ProxyHandshakeUtils/Socks5ServerImpl.cpp:769-782 | once the request went upstream, a client that asked for UDP always finds the up side in UDP mode |
| HandshakeTheorems.AuthBeforeUpstream | src/ProxyHandshakeUtils/Socks5ServerImpl.cpp:56-319 | when clients must authenticate, no octet goes upstream before the session's user is a stored record that matches the received credentials (pair for SOCKS5, user id for SOCKS4) |
| HandshakeTheorems.OnlyConfiguredLogins | src/AuthClientManager.cpp:21-57 | with the store filled from a configuration, authentication is demanded iff it has an entry; a session that reached upstream then sent the login of an entry (SOCKS5) or the user of one (SOCKS4) |
| HandshakeTheorems.RequestBeforeUpstream | src/ProxyHandshakeAuth.cpp:294-316 | nothing goes upstream unless the client's request was read and set host, port and mode, and its input was consumed |
| HandshakeTheorems.CompletedSocks5 | src/ProxyHandshakeUtils/Socks5ServerImpl.cpp:443-803 | end to end for a completed SOCKS5 session outside BIND: the exact octets upstream got, the success frame it answered with, and the exact octets the client got |
| HandshakeTheorems.CompletedSocks4 | src/ProxyHandshakeUtils/Socks4ServerImpl.cpp:33-317 | end to end for a completed SOCKS4/4a session outside BIND: the client's octets are a well-formed CONNECT packet and perhaps NUL-free octets after it; upstream got exactly the SOCKS5 CONNECT for the packet's host and port and nothing of the rest; the client got exactly the granted reply |
| HandshakeTheorems.SuccessOnlyIfAccepted | src/ProxyHandshakeAuth.cpp:227-258 | a success reply is started only after upstream answered REP 0 with a non-empty bound host, and outside BIND it is the only final reply |
| HandshakeTheorems.CompletedOnlyIfAccepted | src/ProxyHandshakeAuth.cpp:318-368 | in every run, BIND included, a called success callback means that upstream answered with a REP 0 frame with a non-empty bound host |
| HandshakeTheorems.ErrorReplyHasCause | src/ProxyHandshakeUtils/Socks5ServerImpl.cpp:118-140 | outside BIND an error reply tells its cause, octet for octet: no common method, unknown login, unknown or empty SOCKS4 user, or refusal by upstream; before upstream is started nothing was sent there |
| HandshakeTheorems.GreetingAnswer | src/ProxyHandshakeAuth.cpp:41-65 | for every well-formed greeting: whether it is taken as SOCKS5, the exact octets answered, and whether the session has failed |
| HandshakeTheorems.GreetingConformsIff | src/ProxyHandshakeUtils/Socks5ServerImpl.cpp:56-140 | the answer is one of the offered methods or 255, as RFC 1928 section 3 has it, if and only if the greeting is taken and offers method 0 (no authentication demanded) or more than method 0 alone (demanded) |
| HandshakeTheorems.SecondReplyIffBind | src/ProxyHandshakeUtils/Socks5ServerImpl.cpp:526-568 | a further final reply is started if and only if a BIND session gets an accepted or refused upstream answer |
| HandshakeRuns.Socks5BindSendsTwoReplies | src/ProxyHandshakeUtils/Socks5ServerImpl.cpp:532-538 | for every SOCKS5 BIND request whose destination can be relayed, every client that can log in (or need not) and every accepting upstream there is a run that delivers an error reply and then a success reply and enters a "never go there" guard |
| HandshakeRuns.Socks4BindSendsTwoReplies | src/ProxyHandshakeUtils/Socks4ServerImpl.cpp:169-179 | the same for every SOCKS4/4a BIND packet that is let in |
| HandshakeRuns.Socks5Completes | src/ProxyHandshakeUtils/Socks5ServerImpl.cpp:526-568 | for every CONNECT or UDP request whose destination can be relayed, every client that can log in (or need not) and every accepting upstream there is a run that calls the success callback |
| HandshakeRuns.Socks5CompletesIff | src/ProxyHandshakeUtils/Socks5ClientImpl.cpp:241-243 | a CONNECT or UDP request can complete if and only if its destination is no name over 253 octets and, when clients must authenticate, some stored login fits into an RFC 1929 frame |
| HandshakeRuns.Socks4Completes | src/ProxyHandshakeUtils/Socks4ServerImpl.cpp:130-192 | for every SOCKS4/4a CONNECT packet that is let in and whose destination can be relayed, and every accepting upstream, there is a run that calls the success callback |
| HandshakeRuns.Socks4CompletesIff | src/ProxyHandshakeUtils/Socks4ServerImpl.cpp:33-192 | first octets can lead to a completed SOCKS4 session outside BIND if and only if SOCKS4 is enabled, they are an accepted CONNECT packet, its user is a stored one where that is demanded, and its host is no name over 253 octets |
| HandshakeRuns.EnvironmentOf | src/AuthClientManager.h:99-132 | every credential store has an environment that meets the hypotheses of the theorems |
| HandshakeSteps.FirstOctets | src/ProxyHandshakeAuth.cpp:38-205 | for all first octets: exactly which are taken for SOCKS5, SOCKS4, HTTP CONNECT (in any case) and other HTTP; all others are closed without an answer |
| HandshakeSteps.DownFails | src/ProxyHandshakeUtils/Socks5ServerImpl.cpp:173-181 | a failed or short completion of a down-side operation sends and starts nothing and ends in the error callback |
| HandshakeSteps.DownWritten | src/ProxyHandshakeUtils/Socks5ServerImpl.cpp:169-183 | a full one starts exactly the next read |
| HandshakeSteps.LoginAnswer | src/ProxyHandshakeUtils/Socks5ServerImpl.cpp:230-365 | a stored login adds exactly 01 00 and sets that user; one that is not stored starts exactly the reply 01 FF; octets that are no RFC 1929 frame close the session without an answer |
| HandshakeSteps.PacketAnswer | src/ProxyHandshakeUtils/Socks4ServerImpl.cpp:33-197 | an accepted packet whose user is empty or unknown where users are demanded gets exactly the reply with code 92; one let in sets the user and starts the up side for its host and port, BIND with the reply of code 91 |
| HandshakeSteps.CommandAnswer | src/ProxyHandshakeUtils/Socks5ServerImpl.cpp:437-568 | a request starts the up side with the mode of its command, its host text and its port, BIND with exactly the ten octets of code 7; anything else closes the session |
| HandshakeSteps.UpFails | src/ProxyHandshakeUtils/Socks5ClientImpl.cpp:64-72 | a failed or short completion of an up-side operation sends and starts nothing and ends in the error callback |
| HandshakeSteps.UpWritten | src/ProxyHandshakeUtils/Socks5ClientImpl.cpp:58-77 | a full one starts exactly the read of its answer |
| HandshakeSteps.HelloAnswer | src/ProxyHandshakeUtils/Socks5ClientImpl.cpp:94-128 | method 0 hands out the request, method 2 exactly the authentication frame if there is a user, and every other answer closes the session |
| HandshakeSteps.StatusAnswer | src/ProxyHandshakeUtils/Socks5ClientImpl.cpp:192-213 | status 01 00 hands out the request, every other closes the session |
| HandshakeSteps.ConnectRequests | src/ProxyHandshakeUtils/Socks5ClientImpl.cpp:219-309 | what is handed out is the frame of the mode's command, the resolved host and the port, or nothing for a name over 253 octets |
| HandshakeSteps.UpstreamInOrder | src/ProxyHandshakeUtils/Socks5ClientImpl.cpp:38-309 | in every reachable state upstream got nothing, the hello, the hello and the frame it asked for, or these and one request frame, after asking for no authentication or accepting it |
| HandshakeSteps.AnswerAnswer | src/ProxyHandshakeUtils/Socks5ClientImpl.cpp:330-503 | in octets: a refusing answer starts exactly the general failure of the client's protocol and calls the error callback, one of a wrong length closes the session without a reply, and an accepting one starts exactly the success reply |
| HandshakeSteps.UdpNotServed | src/ProxyHandshakeUtils/Socks5ServerImpl.cpp:769-778 | a client that asked for UDP would get exactly error 7 if the up side were not in UDP mode |
| HandshakeSteps.ReplyWritten | src/ProxyHandshakeUtils/Socks5ServerImpl.cpp:676-803 | outside BIND a final reply written in full is delivered and calls the callback it stands for; any other completion calls the error callback |
| Handshake.ProxyHandshakeAuth.constructor | src/ProxyHandshakeAuth.h:89-111 | a new session is in the initial state of the step machine |
| Handshake.ProxyHandshakeAuth.Complete | src/ProxyHandshakeAuth.cpp:23-225 | the dispatch of any enabled completion takes exactly the step of the machine, so all theorems about runs hold of the class |
| Handshake.ProxyHandshakeAuth.CompleteDown | src/ProxyHandshakeUtils/Socks5ServerImpl.cpp:166-570 | a down-side completion runs the handler of the operation it ends; failures and short writes end the session |
| Handshake.ProxyHandshakeAuth.CompleteUp | src/ProxyHandshakeUtils/Socks5ClientImpl.cpp:58-503 | the same on the up side |
| Handshake.ProxyHandshakeAuth.CompleteReply | src/ProxyHandshakeUtils/Socks5ServerImpl.cpp:784-803 | a final reply written in full ends the down side with its error mark; any other outcome ends the session |
| Handshake.ProxyHandshakeAuth.DoWhenComplete | src/ProxyHandshakeAuth.h:177-189 | the success callback if still set; session pointer and both callbacks are cleared, nothing else changes |
| Handshake.ProxyHandshakeAuth.DoWhenError | src/ProxyHandshakeAuth.h:191-203 | the error callback if still set; session pointer and both callbacks are cleared, nothing else changes |
| Handshake.ProxyHandshakeAuth.Release | src/ProxyHandshakeAuth.h:186-188 | session pointer and both callbacks are cleared, nothing else changes |
| Handshake.ProxyHandshakeAuth.CheckWhenComplete | src/ProxyHandshakeAuth.cpp:354-368 | error if an error flag is set, else success if both sides are complete and the session is attached, else nothing |
| Handshake.ProxyHandshakeAuth.DoWhenUpEnd | src/ProxyHandshakeAuth.cpp:318-340 | the up side completes once; a second time enters the guard |
| Handshake.ProxyHandshakeAuth.DoWhenDownEnd | src/ProxyHandshakeAuth.cpp:322-328 | the down side's error mark is set, and it is completed |
| Handshake.ProxyHandshakeAuth.DoWhenCompleteDown | src/ProxyHandshakeAuth.cpp:342-352 | the down side completes once; a second time enters the guard |
| Handshake.ProxyHandshakeAuth.DoWhenUpReady | src/ProxyHandshakeAuth.cpp:227-258 | the success reply of the client's protocol is started, once |
| Handshake.ProxyHandshakeAuth.DoWhenUpReadyError | src/ProxyHandshakeAuth.cpp:260-292 | the up-side error flag is set and the error reply of the client's protocol is started, once |
| Handshake.ProxyHandshakeAuth.DoWhenDownReady | src/ProxyHandshakeAuth.cpp:294-316 | the up-side client is created and its hello started, once, and not after the up side completed |
| Handshake.ProxyHandshakeAuth.OnFirst | src/ProxyHandshakeAuth.cpp:23-210 | dispatch on the first octets, whatever memory holds after them |
| Handshake.ProxyHandshakeAuth.OnGreeting | src/ProxyHandshakeUtils/Socks5ServerImpl.cpp:31-145 | method decision from offered methods and configured authentication |
| Handshake.ProxyHandshakeAuth.OnLogin | src/ProxyHandshakeUtils/Socks5ServerImpl.cpp:204-275 | checks and lookup of a received login, every index inside the buffer |
| Handshake.ProxyHandshakeAuth.ReadTarget | src/ProxyHandshakeUtils/Socks5ServerImpl.cpp:443-522 | host and port are set exactly when the request reader accepts the octets, and left alone otherwise |
| Handshake.ProxyHandshakeAuth.OnCommand | src/ProxyHandshakeUtils/Socks5ServerImpl.cpp:437-568 | mode decision after the target, with BIND going on |
| Handshake.ProxyHandshakeAuth.OnSocks4Header | src/ProxyHandshakeUtils/Socks4ServerImpl.cpp:33-160 | packet analysis and user check |
| Handshake.ProxyHandshakeAuth.OnSocks4Command | src/ProxyHandshakeUtils/Socks4ServerImpl.cpp:163-192 | mode decision, with BIND going on |
| Handshake.ProxyHandshakeAuth.Socks4End | src/ProxyHandshakeUtils/Socks4ServerImpl.cpp:206-311 | the 8-octet reply with the given code, an error unless 90 |
| Handshake.ProxyHandshakeAuth.Socks5EndError | src/ProxyHandshakeUtils/Socks5ServerImpl.cpp:629-694 | the 10-octet error reply with the given code |
| Handshake.ProxyHandshakeAuth.Socks5End | src/ProxyHandshakeUtils/Socks5ServerImpl.cpp:701-803 | the success reply from what upstream bound, or error 7 when UDP was asked for and is not served |
| Handshake.AppendAddress | src/ProxyHandshakeUtils/Socks5ClientImpl.cpp:227-254 | ATYP and address of the resolved host, none for a name over 253 octets |
| Handshake.BuildRequest | src/ProxyHandshakeUtils/Socks5ClientImpl.cpp:227-281 | the message put together step by step is the request of the wire specification |
| Handshake.ProxyHandshakeAuth.ConnectWrite | src/ProxyHandshakeUtils/Socks5ClientImpl.cpp:219-309 | the request is started, UDP mode entered if asked for; the session fails when there is none |
| Handshake.ProxyHandshakeAuth.OnHello | src/ProxyHandshakeUtils/Socks5ClientImpl.cpp:94-128 | next message after upstream's method choice |
| Handshake.ProxyHandshakeAuth.OnAuthStatus | src/ProxyHandshakeUtils/Socks5ClientImpl.cpp:192-213 | request after a good authentication status, failure otherwise |
| Handshake.ProxyHandshakeAuth.OnAnswer | src/ProxyHandshakeUtils/Socks5ClientImpl.cpp:330-503 | bound host and port from an accepted answer; refusal and bad length take their different ways |
| Handshake.ProxyHandshakeAuth.ReadBound | src/ProxyHandshakeUtils/Socks5ClientImpl.cpp:414-489 | bound host and port of an accepted answer, nothing else changes |
| Socks5Wire.RequestsAreFrames | src/ProxyHandshakeUtils/Socks5ServerImpl.cpp:443-522 | the request reader accepts exactly the frames of RFC 1928 section 4 with command 1 to 3 |
| Socks5Wire.ReadRequestByLayout | src/ProxyHandshakeUtils/Socks5ServerImpl.cpp:443-522 | the reader on a zero-filled buffer equals a description that looks at received octets only |
| Socks5Wire.ReadRequestOfFrame | src/ProxyHandshakeUtils/Socks5ServerImpl.cpp:443-522 | reading a printed frame gives back command, host text and port |
| Socks5Wire.EmittedIsFrame | src/ProxyHandshakeUtils/Socks5ClientImpl.cpp:227-281 | the request sent upstream is the frame for the resolved host, refused exactly for names over 253 octets |
| Socks5Wire.RequestTranslation | src/ProxyHandshakeUtils/Socks5ClientImpl.cpp:227-281 | every accepted request is re-emitted octet for octet, except that an address literal in a name becomes the address and a remaining name over 253 octets is refused |
| Socks5Wire.RequestUnchanged | src/ProxyHandshakeUtils/Socks5ClientImpl.cpp:227-281 | exactly when the upstream request repeats the client's octets |
| Socks5Wire.ResolveV4 | src/ProxyHandshakeUtils/Socks5ClientImpl.cpp:227-249 | a host resolves to an IPv4 address iff its C string is that address printed |
| Socks5Wire.ResolveHostText | src/ProxyHandshakeUtils/Socks5ClientImpl.cpp:227-254 | resolving the host text of a destination gives the destination back, up to literals in names |
| Socks5Wire.FaithfulIsPossible | src/ProxyHandshakeUtils/Socks5ClientImpl.cpp:227-228 | the hypothesis on the IPv6 text conversion can be met |
| Socks5Wire.LayoutIsFrame | src/ProxyHandshakeUtils/Socks5ServerImpl.cpp:443-522 | octets with the layout are the frame of the destination read off them |
| Socks5Wire.FrameHasLayout | src/ProxyHandshakeUtils/Socks5ServerImpl.cpp:443-522 | a frame has the layout, and code, destination and port read off it are its own |
| Socks5Wire.FrameInjective | src/ProxyHandshakeUtils/Socks5ServerImpl.cpp:443-522 | different destinations have different frames |
| Socks5Wire.RepliesAreFrames | src/ProxyHandshakeUtils/Socks5ClientImpl.cpp:337-412 | the client side accepts exactly the frames of RFC 1928 section 6 with REP 0 |
| Socks5Wire.ReadReplyByLayout | src/ProxyHandshakeUtils/Socks5ClientImpl.cpp:343-497 | acceptance, bound host and bound port in terms of the received octets only |
| Socks5Wire.ReplyOutcomes | src/ProxyHandshakeUtils/Socks5ClientImpl.cpp:343-412 | which received octets count as too short, as a refusal and as an answer of a wrong length |
| Socks5Wire.ReadReplyOfFrame | src/ProxyHandshakeUtils/Socks5ClientImpl.cpp:414-440 | reading a reply frame gives back its address octets and port |
| Socks5Wire.PrintedFrame | src/ProxyHandshakeUtils/Socks5ServerImpl.cpp:723-767 | the success reply is a frame with REP 0, for the destination upstream bound |
| Socks5Wire.ReplyRelay | src/ProxyHandshakeUtils/Socks5ServerImpl.cpp:723-767 | an accepted upstream reply reaches a SOCKS5 client octet for octet, except exactly names of 4 or 16 octets; the empty bound host cannot occur |
| Socks5Wire.AuthCodec | src/ProxyHandshakeUtils/Socks5ServerImpl.cpp:230-264 | the login reader accepts exactly the RFC 1929 section 2 frames of lengths 1 to 255, and inverts the client side's printer |
| Socks4Wire.FindNuls | src/ProxyHandshakeUtils/Socks4ServerImpl.cpp:69-74 | the index loop collects the positions of the NUL octets from 8 on |
| Socks4Wire.NulsFirst | src/ProxyHandshakeUtils/Socks4ServerImpl.cpp:69-74 | the head of that list is the first NUL, its tail the list after it, and it is empty iff there is none |
| Socks4Wire.Analyse | src/ProxyHandshakeUtils/Socks4ServerImpl.cpp:33-129 | the handler's index arithmetic yields the packet of the specification, for all inputs |
| Socks4Wire.ParsePlain | src/ProxyHandshakeUtils/Socks4ServerImpl.cpp:103-129 | a well-formed SOCKS4 packet gives back command, user, printed address and port |
| Socks4Wire.ParseNamed | src/ProxyHandshakeUtils/Socks4ServerImpl.cpp:75-102 | a well-formed SOCKS4a packet gives back command, user, host and port |
| Socks4Wire.PacketsAreWellFormed | src/ProxyHandshakeUtils/Socks4ServerImpl.cpp:33-129 | of the packets of version 4 the analysis accepts exactly those that are a well-formed packet with any NUL-free octets after it, given a NUL in memory after them all; of those that end with a NUL, exactly the well-formed ones |
| Socks4Wire.TrailingDropped | src/ProxyHandshakeUtils/Socks4ServerImpl.cpp:69-129 | NUL-free octets after a packet do not change what is read from it |
| Socks4Wire.UnterminatedAccepted | src/ProxyHandshakeUtils/Socks4ServerImpl.cpp:42 | a packet whose last octet is no NUL is accepted without that octet |
| Socks4Wire.PlainTranslation | src/ProxyHandshakeUtils/Socks4ServerImpl.cpp:103-168 | a SOCKS4 packet becomes the SOCKS5 request for the same command, address and port |
| Socks4Wire.NamedTranslation | src/ProxyHandshakeUtils/Socks4ServerImpl.cpp:75-168 | a SOCKS4a packet becomes the SOCKS5 request for the same command, host (literals as addresses) and port; names over 253 octets are refused |
| Ipv4Text.ParseInvertsPrint | src/ProxyHandshakeUtils/Socks5ClientImpl.cpp:227-249 | a text scans to an address if and only if it is that address printed |
| Ipv4Text.PrintOfExample | src/ProxyHandshakeUtils/Socks5ServerImpl.cpp:463-473 | the octets of an address are printed in order |
| Bytes.PortOfHttps | src/ProxyHandshakeUtils/Socks5ServerImpl.cpp:474-478 | ports are read and written high octet first |
| Bytes.CStringOfNulFree | src/ProxyHandshakeUtils/Socks5ClientImpl.cpp:228 | only a NUL cuts a host short on its way into the address parser |
| Base64.DecodeEncode | src/base64.h:35-69 | decoding inverts encoding on every byte string |
| Base64.UnpaddedDecodes | src/base64.h:56-69 | so it does when the padding is left out |
| Base64.RejectedIff | src/base64.h:56-60 | the decoder fails exactly on strings with a character that is neither in the alphabet nor padding |
| Base64.CharsAreTheAlphabet | src/base64.h:35-42 | the 64 characters are those of the table of RFC 4648 section 4 |
| Base64.EncodeInjective | src/base64.h:35-42 | different inputs have different encodings |
| Base64.EncodedShape | src/base64.h:35-42 | four characters for every three octets begun, of which exactly the last few are padding (RFC 4648 section 4) |
| Base64.SixesSpellInput | src/base64.h:35-42 | the 6-bit groups spell the input's bits followed by zeros |
| Base64.OctetsOfPadded | src/base64.h:56-60 | the padded groups regroup to the input followed by one zero octet per padding character |
| Base64.EncodeOfF | src/base64.h:35-42 | a test vector of RFC 4648 section 10 |
| AuthClients.AuthClientManager.constructor | src/AuthClientManager.h:142-144 | a new manager holds what loading the configuration gives |
| AuthClients.AuthClientManager.InitUserInfo | src/AuthClientManager.cpp:21-26 | the loop offers every entry in order, each with a fresh id, refused or not |
| AuthClients.AuthClientManager.HaveAuthUser | src/AuthClientManager.cpp:32-35 | true iff some record has the user |
| AuthClients.AuthClientManager.CheckAuthUserOnly | src/AuthClientManager.cpp:37-46 | some record with the user, none iff there is none |
| AuthClients.FindPair | src/AuthClientManager.cpp:48-57 | a stored record with that user and password, none iff there is none |
| AuthClients.FindBase64 | src/AuthClientManager.cpp:59-68 | a stored record with that string, none iff there is none |
| AuthClients.FindId | src/AuthClientManager.cpp:70-78 | a stored record with that id, none iff there is none |
| AuthClients.AuthClientManager.CheckAuth | src/AuthClientManager.cpp:48-57 | a stored record with that user and password, none iff there is none |
| AuthClients.AuthClientManager.CheckAuthBase64AuthString | src/AuthClientManager.cpp:59-68 | a stored record with that string, none iff there is none |
| AuthClients.AuthClientManager.GetById | src/AuthClientManager.cpp:70-78 | a stored record with that id, none iff there is none |
| AuthClients.RefusedIff | src/AuthClientManager.h:99-132 | the unique indexes refuse an entry iff an earlier one joins to the same "user:password" string |
| AuthClients.LoadHoldsFirsts | src/AuthClientManager.cpp:21-26 | the store is exactly the entries that join to a new string, under their position as id, in configuration order |
| AuthClients.ColonFreeStore | src/AuthClientManager.cpp:21-57 | with colon-free names the store holds the distinct pairs in first-occurrence order and nothing else, and a login succeeds iff it is configured |
| AuthClients.PairFoundIff | src/AuthClientManager.cpp:48-57 | a pair is found iff it is configured and no earlier entry joins to its string |
| AuthClients.Base64FoundIff | src/AuthClientManager.cpp:59-68 | the HTTP lookup of a pair's string finds exactly the record that joins to the same text |
| AuthClients.OneRecordPerString | src/AuthClientManager.h:126-129 | no two stored records join to the same string |
| AuthClients.AgreeIff | src/AuthClientManager.cpp:48-68 | for one query the two lookups agree iff no other stored pair joins to its string |
| AuthClients.LookupsAgreeIffColonFree | src/AuthClientManager.cpp:48-68 | they agree on all colon-free queries (RFC 7617 section 2) iff the stored user names are colon-free |
| AuthClients.JoinedColonFree | src/ConfigLoader.cpp:276 | joining is injective on colon-free user names |
| AuthClients.ColonDropsALogin | src/ConfigLoader.cpp:276-280 | a family of two-entry configurations of which the second login is always refused |
| AuthClients.IdInverse | src/AuthClientManager.cpp:70-78 | the id lookup inverts the id of every stored record |
| AuthClients.DemandedIffConfigured | src/AuthClientManager.cpp:28-30 | authentication is demanded iff an entry is configured |
| AuthClients.StoredIsConfigured | src/AuthClientManager.cpp:21-26 | every stored record is that of a configured login |
| Selection.ScanIsNearest | src/UpstreamPool.cpp:124-137 | a scan of k steps finds the usable index nearest after the cursor, none iff none is that near |
| Selection.NextIsNearest | src/UpstreamPool.cpp:120-138 | with the cursor in range: the usable server nearest after it, its own last; none iff none is usable |
| Selection.LastIsNearest | src/UpstreamPool.cpp:140-161 | its own server if usable, else the nearest after it; none iff none is usable |
| Selection.PastTheEnd | src/UpstreamPool.cpp:126-149 | what a cursor past the end is equivalent to in each scan |
| Selection.PastTheEndNeverReturns | src/UpstreamPool.cpp:124-137 | a cursor that starts past the end never meets its start again |
| Selection.NextEndsIff | src/UpstreamPool.cpp:120-138 | the loop that starts after the cursor is left in some round if and only if the cursor is in range or some server is usable |
| Selection.LastEndsIff | src/UpstreamPool.cpp:140-161 | the same for the loop that starts at the cursor |
| Selection.InRangeReturns | src/UpstreamPool.cpp:124-137 | a cursor that starts in range is back after exactly one round |
| Selection.PicksAreCyclic | src/UpstreamPool.cpp:197-200 | consecutive selections by `loop` enumerate the usable servers in cyclic order |
| Selection.RoundRobin | src/UpstreamPool.cpp:120-200 | as many consecutive selections by `loop` as there are usable servers return each exactly once, in cyclic order, from any cursor in range and whatever the clock says |
| Selection.ChoiceIsUsable | src/UpstreamPool.cpp:191-232 | every rule but force_only_one returns only usable servers, none iff none is usable; the cursor rests, in range, on the result, and is restored when there is none |
| Selection.ChoiceByRule | src/UpstreamPool.cpp:191-232 | what each rule does: `loop` goes to the usable server nearest after the cursor, `one_by_one` stays while its server is usable, `change_by_time` goes on exactly when more than the period has passed and else stays, `force_only_one` takes the cursor's server |
| Selection.DrawsAreUsable | src/UpstreamPool.cpp:219-222 | `random` has as many draws as there are usable servers |
| Selection.RandomReachesEach | src/UpstreamPool.cpp:219-225 | each usable server is returned for exactly one of them |
| Selection.RunIsSpaced | src/UpstreamPool.cpp:205-216 | over any chronological picks on any cursors, successive rotations are more than a period apart |
| Selection.RotationRate | src/UpstreamPool.cpp:205-216 | any k >= 2 consecutive rotations, over all cursors that share the clock, span more than k - 1 periods |
| Selection.Sticky | src/UpstreamPool.cpp:205-216 | between rotations a cursor keeps returning the same server while that is usable, whatever other cursors do |
| Selection.UsableUpTo | src/UpstreamPool.cpp:163-171 | exactly the usable indexes |
| Health.UsableIffHistory | src/UpstreamPool.cpp:107-118 | the flags say "usable" iff the history does: since the last clean both tests succeeded, the latest TCP result is good, the latest connect failure was followed by a success or a recovery, and the server is not switched off |
| Health.ReplayTells | src/UpstreamPool.cpp:353-371 | what each flag says about the positions of the latest events, after any history |
| Health.ReplayTimesTell | src/UpstreamPool.cpp:353-371 | the two times are those of the latest good results, or zero after a clean |
| Health.ApplyTells | src/UpstreamPool.cpp:498-518 | one callback keeps that reading |
| Health.MarksStep | src/UpstreamPool.cpp:353-371 | which latest positions one event moves |
| Health.LatestIsLatest | src/UpstreamPool.cpp:107-118 | the positions the history predicate speaks of are those of the latest events of their sort |
| UpstreamPool.UpstreamServer.constructor | src/UpstreamPool.h:63-102 | a new server is offline, untested and switched off iff configured so |
| UpstreamPool.UpstreamServer.OnTcpTest | src/UpstreamPool.cpp:353-371 | the two callbacks of the TCP test change the flags as their events do |
| UpstreamPool.UpstreamServer.OnConnectTest | src/UpstreamPool.cpp:498-518 | the two callbacks of the connect test |
| UpstreamPool.UpstreamServer.UpdateOnlineTime | src/UpstreamPool.cpp:60-63 | a relay session that reached the server |
| UpstreamPool.UpstreamServer.CleanCheckState | src/StateMonitorServer.cpp:478-488 | the clean command |
| UpstreamPool.Pool.OkIffHistory | src/UpstreamPool.cpp:107-118 | a server of the pool counts as usable in selection iff the history of its events says so |
| UpstreamPool.Pool.SetConfig | src/UpstreamPool.cpp:79-94 | one fresh server per entry, its index its position |
| UpstreamPool.Pool.ForceSetLastUseUpstreamIndex | src/UpstreamPool.cpp:96-101 | the cursor is written only with an index in range |
| UpstreamPool.Pool.UsableIsFound | src/UpstreamPool.cpp:120-161 | from past the end both scans find a server if one is usable |
| UpstreamPool.Pool.GetNextServer | src/UpstreamPool.cpp:120-138 | the loop ends with the specified server and cursor, or with none and the cursor restored |
| UpstreamPool.Pool.TryGetLastServer | src/UpstreamPool.cpp:140-161 | the same for the scan that starts at the cursor |
| UpstreamPool.Pool.FilterValidServer | src/UpstreamPool.cpp:163-171 | the usable servers in pool order |
| UpstreamPool.Pool.PickByRule | src/UpstreamPool.cpp:191-232 | each rule returns the specified server and leaves the specified cursor and rotation time, for every cursor from which it ends |
| UpstreamPool.Pool.GetServerByHint | src/UpstreamPool.cpp:173-233 | resolution of `inherit`, the specified choice, pool indexes stay valid, and the cursor is in range afterwards if it was before or a server was found |
| UpstreamPool.Pool.GetServerGlobal | src/UpstreamPool.cpp:235-240 | the same on the pool's own cursor and the global rule |
| TimeHistory.RingIsNewestOfLog | src/DelayCollection.h:86-167 | after any operations the history is a contiguous newest part of the values added since the last clean, in order, within size limit and capacity |
| TimeHistory.AddKeepsNewest | src/DelayCollection.h:129-133 | an added value is last, and the oldest goes iff the smaller bound was reached |
| TimeHistory.AddsOnly | src/DelayCollection.h:95-133 | with additions only, nothing but what exceeds the limit is lost |
| TimeHistory.DropIsSuffix | src/DelayCollection.h:153-162 | removal by time drops exactly the leading older values |
| TimeHistory.TrimIsSuffix | src/DelayCollection.h:95-117 | trimming leaves a newest part within both bounds |
| TimeHistory.TrimKeepsNewestIff | src/DelayCollection.h:95-117 | trimming keeps exactly the newest values up to the limit if and only if the copy is kept or at most one value is too many; otherwise nothing stays |
| TimeHistory.ApplyDoes | src/DelayCollection.h:129-167 | what each operation does to limit, capacity and contents; the limit set is the larger of the argument and 1 |
| TimeHistory.RemovesExactlyOlder | src/DelayCollection.h:153-162 | with values in the order of their times, exactly the older ones go and the rest stays in place |
| TimeHistory.PushIsSuffix | src/DelayCollection.h:129-131 | pushing keeps within the capacity and loses at most old values |
| TimeHistory.History.constructor | src/DelayCollection.h:121-127 | empty, with the capacity of the limit |
| TimeHistory.History.TrimRing | src/DelayCollection.h:95-117 | the in-place trim takes the specified state change |
| TimeHistory.History.AddDelayInfo | src/DelayCollection.h:129-133 | the specified state change, within both bounds |
| TimeHistory.History.SetMaxSize | src/DelayCollection.h:141-147 | the same, with a limit of at least one |
| TimeHistory.History.RemoveBefore | src/DelayCollection.h:153-162 | the loop drops exactly the leading older values |
| TimeHistory.History.CleanAll | src/DelayCollection.h:164-167 | empty, limit and capacity unchanged |
| FirstPack.FindIsStable | src/FirstPackAnalyzer.cpp:276-277 | octets received later do not move the first delimiter |
| FirstPack.DecideIsStable | src/FirstPackAnalyzer.cpp:154-335 | nor do they change the verdict on a complete header |
| FirstPack.DecideJudges | src/FirstPackAnalyzer.cpp:154-335 | a stream is relayed as it is iff it starts 5, 1, 0; it is accepted iff its first header parses; then host and port are the header's, and kind and stripping follow from it |
| FirstPack.StripsExactlyTheHeader | src/FirstPackAnalyzer.cpp:303-320 | an accepted CONNECT strips exactly the octets through the first CR LF CR LF, other accepted traffic nothing |
| FirstPack.FlushJoin | src/FirstPackAnalyzer.cpp:87-152 | in either order of the two writes, success iff both succeed, else exactly one error |
| FirstPack.FirstPackAnalyzer.ReadSome | src/FirstPackAnalyzer.cpp:158-165 | a read moves octets from socket to buffer and loses none |
| FirstPack.FirstPackAnalyzer.ReadAtLeast3 | src/FirstPackAnalyzer.cpp:158-165 | at least three octets, or the whole stream was shorter |
| FirstPack.FirstPackAnalyzer.ReadUntilHeader | src/FirstPackAnalyzer.cpp:244-266 | a delimiter in the buffer, or none in the whole stream |
| FirstPack.FirstPackAnalyzer.Analyse | src/FirstPackAnalyzer.cpp:154-335 | for every split into reads: when the stream is accepted, with which kind, host, port and stripped length, and that buffer plus unread rest is exactly the stream without the stripped octets |
| FirstPack.FirstPackAnalyzer.AnalyseHeader | src/FirstPackAnalyzer.cpp:268-320 | the same from a buffer that holds the delimiter |
| FirstPack.FirstPackAnalyzer.OnFlushWritten | src/FirstPackAnalyzer.cpp:87-108 | the end of one flush write changes the join as specified |

## Left out

- HTTP proxy clients: a session recognised as HTTP leaves the step machine; the server side for it, in src/ProxyHandshakeUtils/HttpServerImpl.cpp, is not modelled.
- IPv6 text conversion: a pair of functions with a hypothesis, since it belongs to the socket library.
- Socks5Wire.Resolve: a scope id after an IPv6 literal is left to the assumed parser.
- TcpRelaySession: retry, relaying, statistics and when live sessions report to the health flags; only the reports themselves are events.
- Sockets, resolvers, timers, TLS and strands: only as completions of operations in any order.
- Handshake.ProxyHandshakeAuth.Complete: the source's one parent and four helper objects with weak pointers are one class here; lifetimes, and the "bad parent" branches, are not modelled.
- TimeHistory.Ring: the circular buffer is a value with a sequence and a capacity, not an array with wrapping indexes, which belong to the library.
- UpstreamPool.Pool.GetNextServer: requires a cursor in range or a usable server; for the other inputs the loop has no exit, which Selection.NextEndsIff states.
- UpstreamPool.Pool.GetServerByHint: for force_only_one requires a server at the cursor, since the code otherwise indexes past the end of the pool.
- Base64.Decode: inputs of 4k+1 characters are excluded, since the code then reads past its input.
- FirstPack.Decide: header parser and `parseURI` are one function from header octets to a host and port or a failure; the octets after the header that the code also shows to the parser are taken not to matter.
- FirstPack.FirstPackAnalyzer.Analyse: the analyzer's own upstream handshake between analysis and flush is not modelled.
- Connect and TCP test sessions: only their outcomes, as events.
- The web server, state monitor, statistics and configuration loader: routing, JSON, counters and field copying; the enable, disable and clean commands appear as events.
- Mutexes and atomics: methods run one at a time.
