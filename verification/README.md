# A verified model of chat_geloutingyu

chat_geloutingyu is a chat system in three tiers. A client asks the route server for a work server, then
registers, logs in, looks users up and logs out over one connection to that work server. Route server and work
servers are pre-forked process pools. Work servers report their connection count to the route server and keep
accounts in one MySQL table. This project models the logic of these programs in Dafny and proves what they
promise each other. `dafny verify dfyconfig.toml` checks everything.

## How it is organised

| files | what they hold |
|---|---|
| `CText.dfy`, `Frames.dfy`, `Requests.dfy` | C text routines, message frames and receive buffers, request and address texts |
| `UserTables.dfy`, `UserLists.dfy` | the user table and its statements, pages, the rendered user list and its splitter |
| `WorkServers.dfy`, `ChatClients.dfy` | one connection of a work server, one client with its menu |
| `ChatSystem.dfy` | any number of clients that follow the menu, with their sessions, over one table |
| `Credentials.dfy`, `OnlineTruth.dfy` | the same for clients that send any well-formed messages; when the table tells the truth about who is online |
| `MenuRuns.dfy`, `MenuExamples.dfy` | the menu clients as a special case of those, and a run of two of them |
| `Answers.dfy`, `MenuAnswers.dfy` | what is answered to every request, well formed or not; menu requests and group creation end to end |
| `GroupSteps.dfy`, `Groups.dfy` | the statements of `create_group`, and their interleavings |
| `Pool.dfy`, `PoolRuns.dfy`, `PoolFairness.dfy` | the parent loop, its runs with children and signals, fairness of the round robin |
| `Counter.dfy` | the shared connection counter under P, load, store and V |
| `RouteTable.dfy`, `Routing.dfy` | the descriptor-indexed table of work servers, the scan, and routing a client |
| `Scans.dfy` | the scan while other processes write the table, one read per mention of a slot |

Code that updates objects, arrays and buffers in place is a class or a method with loops, proved against a function
on values (`WorkServer.Process` against `Handle`, `ParentLoop.OnConnection` against `Dispatch`,
`Table.GetMinConnectionsServer` against `MinAddress`, `RenderInto` against `RenderList`). What several connections
or processes do together is a step system built from the same functions: a state, enabled events, a next-state
function and runs, with an invariant proved for every reachable state.

Modelling decisions:

- One message arrives per `recv`, and a receive goes over a buffer with arbitrary old contents. Frame headers are in
  the byte order of the machine, taken to be little endian and the same on both ends.
- Every SQL statement is one atomic step. An update succeeds when it changed at least one row, so writing back what
  is already there fails; the `time` column is an arbitrary input. SQL compares passwords by an arbitrary equivalence
  relation (`Collation`).
- User ids are allocated from 1 upwards and never reused. Listings are in primary-key order.
- In `ChatSystem` a request and its reply are separate steps, other clients act in between, and a client may go away at
  any point, also with a call under way.
- In `Counter` loads and stores of the shared integer are atomic, and processes may exit anywhere; SEM_UNDO is modelled.
- A route server handles a message in one step, and a report writes its slot in that step. The scan is such a step in
  `RoutedToLiveServer`, which is how it is with one process. In `Scans` it is not: every mention of a slot in the loop
  body is a read of its own, and other processes write in between.
- In `PoolRuns` the signal pipe is never full and children are alive when the signal handlers are installed.

Where the code does not do what its comments suggest, the model follows the code:

- A logout that changes nothing fails, and a client whose account was deleted elsewhere can no longer log out
  (`LogoutSucceedsExactly`); a login can fail in the same way (`LoginSucceedsExactly`).
- Overlapping `create_group` calls of one user lose groups (`OverlapLosesGroup`, reached by the run of `LossReachable`).
  `UpdateKeepsGroupsExactly` gives the exact condition for one update, `NonOverlappingCallsLoseNothing` the converse.
  A failed insert is listed as group 0.
- The table can show a user online whom no connection has, or hide one that is logged in. It does the first exactly
  when a connection leaves its own user behind, by a login as somebody else or a logout of somebody else
  (`Credentials.AgreementKeptExactly`, `OnlineBackedExactly`, `LeavingReachable`); the menu prevents that
  (`MenuNeverLeaves`). It does the second exactly when a logout of a user, or the end of a connection of that user,
  leaves another connection logged in as the same user (`ShownKeptExactly`, `HidingReachable`), which menu clients can
  bring about too (`MenuHidingReachable`). "Online iff logged in" holds throughout a run exactly when neither happens
  (`OnlineIffLoggedInExactly`, for menu clients `MenuOnlineExactly`).
- Statements are pasted together without escaping. A message whose field holds a double quote or a backslash is not the
  statement it looks like: the login body `5:" or "1"="1` has a condition that every row meets, so `login` succeeds for
  uid 5 with a password nobody registered. `CredentialsSound` therefore holds for well-formed messages
  (`Credentials.WellFormed`: no such character, columns not truncated, ids that are ints), of which this one is none
  (`QuotedLoginNotWellFormed`) and every message of the menu is one (`MenuRequestsWellFormed`).
- The route table is shared by processes that number descriptors independently. It stays true exactly as long as no
  process spoils the slot of another one: no accept or close on a number that another process has open while its slot
  is registered, and no report on such a number that changes the count (`Routing.AgreementKeptExactly`,
  `TruthfulExactly`).
  Clients may share numbers with each other; it is enough that work servers do not share theirs
  (`PrivateReportsSuffice`), and one process cannot (`OneProcessRefines`). `SpoiltReachable` is a run that goes wrong.
- The scan marks "nothing found yet" by -1 and reads a slot up to five times. When a work server leaves between the test
  of its count and the assignment, the scan forgets what it has found (`LeavingServerMisleadsScan`); when no slot
  changes while it is visited, it does not (`StillScan`, `RoutedWhileTableChanges`).
- A receive takes a frame whole only up to a body of 1018 characters (`FrameLimit`).
- A process that exits leaves its connections counted for good (`CounterDrift`).

## Model

| member | source | states |
|---|---|---|
| CText.AtoiDecimal | work_server/work_server.cpp:552 | what %d prints is what atoi reads, for every int, as long as no digit follows |
| CText.AtoiOtherForms | work_server/work_server.cpp:552 | atoi skips leading white space and takes one sign |
| CText.NamesAccepted | client/main.cpp:28-42 | a name passes the check iff it has 1 to 16 characters, all of them ASCII letters or digits |
| CText.DigitsFit | work_server/work_processpool.h:454-458 | a count prints in at most k characters exactly when it is below 10^k |
| CText.StrtokOf | client/main.cpp:309-331 | strtok returns the token before the first delimiter and goes on right behind it |
| Frames.SendMsg | internal/message.cpp:5-18 | the struct filled field by field, cut at its length field, is the frame of type and body |
| Frames.ServerRecv | work_server/work_server.cpp:79-118 | a receive overwrites a prefix of the buffer, adds a NUL and leaves the rest |
| Frames.FrameRoundTrip | internal/message.cpp:5-18 | a NUL-free body of at most 1018 characters arrives with its type, over any stale buffer, with or without the receiver's NUL |
| Frames.LengthField | internal/message.cpp:5-18 | the length field of a frame is its length |
| Frames.NullBodyReadsEmpty | route_server/route_server.cpp:96-102 | a frame without body reads as the empty text on a server |
| Frames.NullBodyShowsStale | client/client.cpp:236-241 | a client, which adds no NUL, reads from such a frame what its buffer held before |
| Frames.FrameLimit | work_server/work_server.cpp:79-116 | one receive takes the whole frame iff the body has at most 1018 characters; a server reads the body right iff at most 1019 |
| Requests.UidRequestRoundTrip | client/client.cpp:766-769 | two-field requests are parsed back to the same uid and password, for all of them |
| Requests.MemberRequestRoundTrip | work_server/work_server.cpp:439-462 | three-field requests are parsed back to the same three fields when the password has no colon |
| Requests.MemberRequestNeedsColonFreePassword | work_server/work_server.cpp:288-312 | they are parsed back right iff the password has no colon |
| Requests.SplitPairExactly | work_server/work_server.cpp:568-578 | a two-field body is cut at its first colon with nothing lost, and refused iff it has none |
| Requests.SplitTripleExactly | work_server/work_server.cpp:439-462 | a three-field body is cut at its first two colons with nothing lost, and refused iff it has fewer |
| Requests.AddressRoundTrip | client/client.cpp:320-328 | the client parses ip and port of every real address back, and its text fits the 25-character buffer |
| UserTables.OperationsKeepTableOk | mysql/user_table.h:59-171 | every statement keeps: ids allocated, online is a flag, online = 1 iff an address is stored |
| UserTables.ListingComplete | mysql/user_table.h:95-110 | a listing shows every row exactly once, by increasing user id |
| UserTables.UserTable.ExecuteUpdate | mysql/user_table.h:116-131 | updates the row whose uid and password match and reports whether it changed |
| UserTables.UserTable.ExecuteGroupUpdate | mysql/user_table.h:136-151 | the same for the two group columns |
| UserTables.UserTable.ExecuteDelete | mysql/user_table.h:59-69 | deletes the row whose uid and password match and reports whether there was one |
| UserTables.UserTable.ExecuteInsert | mysql/user_table.h:156-171 | adds an offline row under the next id, or returns 0 and changes nothing |
| UserLists.CopyString | work_server/work_server.cpp:514-516 | memcpy puts a text and its NUL at an index and leaves every other character |
| UserLists.RenderInto | work_server/work_server.cpp:505-529 | the render loop leaves in the buffer exactly the concatenation of the rendered rows, and nothing behind its NUL changes |
| UserLists.SplitTuple | client/main.cpp:320-329 | the inner loop yields the fields of a tuple, of the last one its first character |
| UserLists.SplitUserList | client/main.cpp:307-332 | the display loop yields the cells of every comma-separated tuple in order |
| UserLists.UserListRoundTrip | client/main.cpp:307-332 | the client recovers the (uid, uname, online) sequence the server rendered |
| UserLists.LineOfThreeFields | client/main.cpp:320-329 | of any line of three fields the client shows the first two and the first character of the last |
| UserLists.PagesConcatenate | mysql/user_table.h:95-110 | pages 1 to k are the first k * cap rows, for every cap >= 1 |
| UserLists.EachRowOnOnePage | mysql/user_table.h:95-110 | row i is on page p iff p = i / cap + 1, and search_limit returns it there at position i % cap; entry j of a page is row (p - 1) * cap + j |
| UserLists.RowFits | work_server/work_server.cpp:511-514 | a row with uid below 10^9 and a name of at most 16 characters fits the 30-character buffer |
| UserLists.ListFits | work_server/work_server.cpp:509-519 | n such rows take at most 29 n characters |
| UserLists.PageShownIsPageOfTable | client/client.cpp:716-732 | through request, rendering, frame and splitter the client shows exactly the requested page of the table |
| UserLists.NoSuchPage | work_server/work_server.cpp:490-535 | for a page below 1, a page size below 1, a page past the last row and a body without a colon the answer is the empty text |
| UserLists.EveryPageShown | client/main.cpp:295-332 | whatever page is asked for, the client shows that page, and no line below page 1 |
| WorkServers.MemberRequestsServed | work_server/work_server.cpp:386-485 | the session's own user gets the true online flag and the stored address |
| Answers.OwnExactly | work_server/work_server.cpp:610-617 | is_login takes a formatted request iff it carries the uid and password of the session and uid is not 0 |
| Answers.StrangersRefused | work_server/work_server.cpp:386-485 | without a login, with other credentials or with an unreadable body a find is answered "0", an address request "", create_group 0, and nothing changes |
| Answers.OwnLookups | work_server/work_server.cpp:386-485 | the own requests are answered by flag and address of the row, "0" and "" without one |
| Answers.OnlyRegisteredAreServed | work_server/work_server.cpp:610-617 | in every run of arbitrary clients a reply that reveals a flag or an address, and every effect of create_group, goes to a session with registered credentials that the request carries |
| Answers.GroupAnswered | work_server/work_server.cpp:315-360 | with room, a successful insert and a password that opens the row the answer is the next group id, stored with name and creator and appended to the list; after a failed insert 0 is listed and answered; when the update changes nothing 0 is answered |
| Answers.NoRoomForGroup | work_server/work_server.cpp:331-356 | at the limit nothing happens and the answer is 0 |
| Answers.UnreadableRefused | work_server/work_server.cpp:541-605 | a body without a colon is refused by every request and changes nothing |
| Answers.AnsweredInKind | work_server/work_server.cpp:120-277 | every answer has the type of its request, and unknown types are ignored |
| Answers.RegistrationAnswered | work_server/work_server.cpp:120-140 | a readable registration adds one row with the fields as sent and the defaults and answers its id, or changes nothing and answers 0 |
| Answers.LoginAndLogoutEffect | work_server/work_server.cpp:541-589 | only the online flag, address and time of the one row change, and session and answer say whether they did |
| Answers.DeleteEffect | work_server/work_server.cpp:368-381 | exactly the row the password opens goes |
| WorkServers.WorkServer.LoginUser | work_server/work_server.cpp:567-589 | row and session change together, exactly on success |
| WorkServers.WorkServer.LogoutUser | work_server/work_server.cpp:541-562 | row goes offline, session is cleared exactly on success |
| WorkServers.WorkServer.CloseConnection | work_server/work_server.cpp:83-111 | a lost connection is a logout with the session's own credentials |
| WorkServers.WorkServer.CreateGroupForUser | work_server/work_server.cpp:288-363 | select, group insert and update of one call without interference |
| WorkServers.WorkServer.ListUsers | work_server/work_server.cpp:490-535 | the answer is the rendered page, or empty for a bad request and an empty page |
| WorkServers.WorkServer.Process | work_server/work_server.cpp:114-277 | one frame of any type is received, dispatched and answered as the specification of its type says |
| ChatClients.RequestShort | client/main.cpp:28-42 | with names and passwords of 1 to 16 letters and digits every request has at most 45 characters and no NUL |
| ChatClients.RequestDelivered | client/client.cpp:693-699 | every request the menu can send reaches the server unchanged, over any stale buffer |
| MenuAnswers.RequestMeansChoice | client/client.cpp:693-845 | every menu request, decoded over any stale buffer, has the type and the parsed fields of the choice, with the client's own credentials where they belong |
| ChatClients.ChatClient.Send | client/client.cpp:735-745 | the sent frame is the frame of the chosen request |
| ChatClients.ChatClient.Receive | client/client.cpp:766-799 | a successful login sets uid, password and login state, a successful logout clears the login state only, and nothing else changes the client |
| ChatSystem.ServeDoesTheChoice | work_server/work_server.cpp:114-277 | through formatting, frame, stale buffer and parsing the server does to session and table what the client chose |
| ChatSystem.StepKeepsInv | work_server/work_server.cpp:70-281 | every event keeps the table, session, in-step and online invariants |
| ChatSystem.OnlineAgreement | work_server/work_server.cpp:541-589 | in every reachable state an online row has a live session with that uid whose peer address is the row's, and it is the last login's |
| ChatSystem.ClientAndServerInStep | client/main.cpp:218-246 | between calls the client is logged in iff the session is, with the same uid and password |
| ChatSystem.LogoutSucceedsExactly | work_server/work_server.cpp:553-561 | a logout succeeds iff the row exists and the update changes it; the row is offline afterwards either way |
| ChatSystem.LoginSucceedsExactly | work_server/work_server.cpp:580-588 | a login succeeds iff the password opens the row and the update changes it |
| ChatSystem.DeleteSucceedsExactly | work_server/work_server.cpp:368-381 | a deletion succeeds iff the password opens the row, and removes that row only |
| ChatSystem.RegisterThenLogin | work_server/work_server.cpp:594-605 | below 10^9 accounts a registration shows the client a fresh uid, with which an immediate login succeeds and records its address |
| MenuAnswers.GroupCreated | client/client.cpp:802-830 | from the menu choice to the number shown: with room and a successful insert the client is told the next group id, and the store has the group under it with the chosen name and the client's uid; otherwise it is told 0 |
| ChatSystem.FindThenObtain | client/client.cpp:292-328 | after a find that says online, the address parsed is that of the last login and of a live connection; otherwise there is none |
| ChatSystem.ListShown | client/main.cpp:295-335 | in every reachable state with fewer than 10^9 accounts page p of the list is page p of the table, and empty for p below 1, while its first row number fits an int |
| Credentials.CredentialsSound | work_server/work_server.cpp:610-617 | whatever well-formed messages arrive, is_login accepts only registered uids with a password SQL takes for the registered one |
| Credentials.LeavingStrandsRow | work_server/work_server.cpp:541-589 | a row left behind stays online, unchanged and without a connection, also after the connection that left it ends |
| Credentials.AgreementKeptExactly | work_server/work_server.cpp:541-589 | from a state where every online row has its connection, a step leads to such a state iff it is no successful login or logout of somebody else on the only connection of an online user |
| Credentials.OnlineBackedExactly | work_server/work_server.cpp:83-111 | in a whole run every online row has its connection iff no connection ever leaves its own user behind |
| Credentials.QuotedLoginNotWellFormed | mysql/user_table.h:116-122 | the login body with a quote that ends the SQL literal is not well formed |
| OnlineTruth.ShownKeptExactly | work_server/work_server.cpp:83-111 | from a state where every logged-in user is shown online, a step leads to such a state iff it takes no user offline who is logged in on another connection |
| OnlineTruth.TruthKeptExactly | work_server/work_server.cpp:541-589 | a step keeps "online iff logged in" iff it neither leaves a user behind nor hides one |
| OnlineTruth.OnlineIffLoggedInExactly | work_server/work_server.cpp:541-589 | in a whole run the users shown online are exactly the ones logged in iff no step does either |
| OnlineTruth.HidingReachable | work_server/work_server.cpp:83-111 | two logins of one user and the end of the first connection hide that user |
| Credentials.LeavingReachable | work_server/work_server.cpp:567-589 | a run of one connection and four messages in which this happens, by a login and by a logout |
| MenuRuns.MenuRequestsWellFormed | client/main.cpp:28-42 | every request the menu can send is well formed |
| MenuRuns.MenuNeverLeaves | client/main.cpp:218-246 | the menu never makes a connection leave its own user behind |
| MenuRuns.MenuRunIsRun | work_server/work_server.cpp:70-281 | every run of menu clients is a run of the work servers over the same table and sessions in which nobody is left behind |
| MenuRuns.MenuRunsAreSound | work_server/work_server.cpp:610-617 | so online rows have their connections and credentials are sound with menu clients too |
| MenuRuns.MenuOnlineExactly | client/main.cpp:420-439 | with menu clients the users shown online are exactly the ones logged in, over a whole run, iff no client logs out or goes away while another is logged in as the same user |
| MenuExamples.MenuHidingReachable | client/main.cpp:218-246 | a run of two menu clients in which that happens and a logged-in user is shown offline |
| GroupSteps.AppendAddsOneField | work_server/work_server.cpp:338-344 | writing one more id adds exactly one colon-separated field |
| GroupSteps.ParseJoined | work_server/work_server.cpp:334-344 | the column text determines the list of ids |
| Groups.UninterruptedCallIsCreateGroup | work_server/work_server.cpp:315-360 | the interleaved steps taken in a row are the sequential create_group |
| Groups.StepKeepsInv | work_server/work_server.cpp:315-360 | every step of any call and every other statement keeps rows and snapshots consistent |
| Groups.GroupBookkeeping | work_server/work_server.cpp:315-360 | under every interleaving c_group_num is the number of ids in c_group, at most c_group_num_max, and every id is 0 or a group of that user |
| Groups.GroupColumnFits | make.txt:24-26 | the list stays within varchar(30) for ids below 10^9 |
| Groups.AnswerNamesOwnGroup | work_server/work_server.cpp:315-360 | under every interleaving a call that answers an id other than 0 has created that group, with its name, for its user |
| Groups.UpdateAnswersExactly | work_server/work_server.cpp:346-356 | in every reachable state the last step answers the inserted id iff its credentials open the row, which then ends in that id; otherwise 0, and nothing changes |
| Groups.StepKeepsLists | work_server/work_server.cpp:315-360 | every step keeps: a new group is in no list yet, a list a call has not read ends in something it has not seen, and a group stands behind the same ids wherever it is listed |
| Groups.UpdateKeepsGroupsExactly | work_server/work_server.cpp:338-346 | in every reachable state an update keeps all listed groups iff its call has read the last of them; without failed inserts, iff the list is still the one it has read |
| Groups.OverlapLosesGroup | work_server/work_server.cpp:315-360 | in any run, if a call has read before another call of the same user writes, the list it writes later lacks the group the other one created, whatever happens in between |
| Groups.LossReachable | work_server/work_server.cpp:315-360 | a run after which a created group is not listed |
| Groups.NonOverlappingCallsLoseNothing | work_server/work_server.cpp:315-360 | without overlap the listed ids are exactly the groups the user created |
| Pool.ScanFinds | work_server/work_processpool.h:516-524 | the scan stops at the first live slot from the counter on |
| Pool.ParentLoop.FindChild | work_server/work_processpool.h:516-524 | the do-while loop ends at that slot, and at a dead one only when all are dead |
| Pool.ParentLoop.OnConnection | work_server/work_processpool.h:514-536 | that slot is notified and the counter moves behind it, or m_stop is set when every slot is dead |
| Pool.ParentLoop.OnWaited | work_server/work_processpool.h:554-567 | a reaped pid closes the pipe and clears the slot that held it, and no other |
| Pool.ParentLoop.DecideStop | work_server/work_processpool.h:569-576 | m_stop is set iff every slot is dead |
| Pool.ParentLoop.OnTerminate | work_server/work_processpool.h:580-592 | exactly the processes of live slots are killed |
| PoolRuns.StepKeepsInv | work_server/work_processpool.h:503-606 | every step of parent, children and signals keeps slots, wake-up and stop invariants |
| PoolRuns.PoolSafety | work_server/work_processpool.h:516-578 | m_stop only with every slot dead and for good, counter in range, pipes closed exactly once per dead slot, unreaped children always noticed |
| PoolRuns.NotifiedSlotIsLive | work_server/work_processpool.h:526-534 | a connection notifies one live slot with an open pipe, or stops the loop |
| PoolRuns.RemainingFalls | work_server/work_processpool.h:550-578 | children left to exit and to be reaped fall by one with each exit and reap and never rise |
| PoolRuns.ShutdownProgress | work_server/work_processpool.h:580-593 | once a termination signal has arrived some step of parent or a signalled child is possible until the loop stops |
| PoolRuns.ShutdownTerminates | work_server/work_processpool.h:550-593 | from the arrival of SIGTERM or SIGINT every such continuation is bounded by a measure and can only end with every slot dead and m_stop set, the signal having been read if a child was still running |
| PoolFairness.OneTurnEach | work_server/work_processpool.h:516-534 | between two consecutive connections for one child every other child alive throughout gets exactly one |
| PoolFairness.ShareAccount | work_server/work_processpool.h:516-534 | with a fixed live set, shares times set size equals connections corrected by the child's rank before and after |
| PoolFairness.EqualShares | work_server/work_processpool.h:516-534 | of k connections each of L live children gets floor(k/L) or ceil(k/L) |
| Counter.SharedCounter.Call | work_server/work_server.cpp:621-655 | an undisturbed call changes the count by one and gives the semaphore back |
| Counter.UninterruptedCall | work_server/work_server.cpp:621-655 | the five steps of the machine in a row are such a call |
| Counter.StepKeepsInv | work_server/work_server.cpp:621-655 | every step of every process keeps semaphore, register and count invariants |
| Counter.MutualExclusion | work_server/work_server.cpp:621-630 | at most one process is between P and V, and semaphore + holders = 1, also after exits |
| Counter.CounterExact | work_server/work_server.cpp:633-655 | without exits the count is increases minus reduces whenever nobody holds the semaphore, and the open connections always |
| Counter.CounterDrift | work_server/work_server.cpp:633-655 | with exits the count exceeds the open connections by exactly what exited processes left counted |
| Counter.HeartbeatDelivered | work_server/work_processpool.h:454-460 | an unlocked read is never negative, fits six characters iff at most 99999, and then arrives as the same number |
| RouteTable.Table.constructor | route_server/route_processpool.h:206-211 | every slot starts unregistered |
| RouteTable.Table.SetServerConnections | route_server/route_server.cpp:211-229 | the first report stores the peer address, every report the count |
| RouteTable.Table.RemoveServerAddr | route_server/route_server.cpp:191-206 | the slot becomes unregistered, no other changes |
| RouteTable.Best | route_server/route_server.cpp:168-186 | the lowest slot with the fewest connections among the first k, or -1 if none is registered |
| RouteTable.Table.GetMinConnectionsServer | route_server/route_server.cpp:168-186 | the scan with its -1 sentinel returns the address of that slot for every table, and port -1 iff there is none |
| Routing.RouteServer.Process | route_server/route_server.cpp:96-147 | a report updates the connection's slot, a request is answered from the table |
| Routing.RouteServer.CloseConnection | route_server/route_server.cpp:72-93 | a lost connection unregisters its slot |
| Routing.TableRefinesConnections | route_server/route_server.cpp:191-238 | in every run without a spoilt slot a slot shows peer and last report of the open connection with its number, and -1 iff none of them has reported |
| Routing.ReusedDescriptorStartsUnregistered | route_server/route_processpool.h:327-338 | in such a run a descriptor that is used again starts unregistered |
| Routing.OneProcessRefines | route_server/route_processpool.h:327-338 | in every run of one process a slot is registered iff the connection with its number is open and has reported, and then holds that peer and count |
| Routing.AgreementKeptExactly | route_server/route_server.cpp:191-238 | from a truthful table a step leads to a truthful table iff it does not spoil the slot of another process |
| Routing.TruthfulExactly | route_server/route_server.cpp:191-238 | the table is truthful throughout a run of any number of processes iff no step spoils a slot |
| Routing.PrivateReportsSuffice | route_server/route_server.cpp:193-213 | nothing is spoilt as long as no number with a report on it is open in two processes at once |
| Routing.CollisionMisleads | route_server/route_server.cpp:211-229 | one report on either side of a shared number makes the slot wrong about the other side |
| Routing.FirstReporterNamesSlot | route_server/route_server.cpp:211-229 | in every step a slot that stays registered keeps its address, whoever reports on it, and takes the reported count |
| Routing.SpoiltReachable | route_server/route_processpool.h:327-338 | two processes come to share a number while the table is still truthful, and the first report spoils it |
| Routing.TypeThenText | client/client.cpp:249-258 | the client takes the error branch iff the type is ERROR, parses every address under any other type, and is undefined on a text without a colon |
| Routing.RoutedToLeastLoaded | client/client.cpp:227-262 | the client is sent a message of type ERROR iff no slot is registered, and otherwise one of the type of the request, from which it parses the address of the one lowest slot with the fewest connections; never a text it cannot parse |
| Routing.RoutedSlotBySlot | route_server/route_server.cpp:168-186 | writes that fall between two slots: the address is of a connection that was open, with the smallest last report, when the slots were read; it gets one iff some slot was registered then |
| Scans.StillScan | route_server/route_server.cpp:168-186 | with one read per mention, the scan finds the least loaded of the slots as it met them when none changes while it is visited |
| Scans.SteadyScan | route_server/route_server.cpp:168-186 | when counts change but no slot comes or goes while it is visited, the scan finds a registered server iff there is one |
| Scans.RoutedWhileTableChanges | route_server/route_server.cpp:104-131 | when no slot changes between its test and its assignment the client still gets an open connection with the smallest last report, and gets one iff some had reported |
| Scans.ComingAndGoing | route_server/route_server.cpp:175-182 | in every scan a slot that goes right after its first mention is taken with count -1, whatever it had, and one that comes then is missed while nothing is found |
| Scans.LeavingServerMisleadsScan | route_server/route_server.cpp:175-182 | a run in which a server leaves between test and assignment and the scan answers with 100 connections although a server with 5 was there all the time |
| Routing.RoutedToLiveServer | route_server/route_server.cpp:104-131 | for a scan without interference, in every run without a spoilt slot, that is the peer of an open connection with the smallest last report |
| Routing.HeartbeatRegisters | route_server/route_server.cpp:134-142 | a heartbeat registers its connection with the true count, never with the -1 of a free slot, and is not answered |

## Left out

- Socket, epoll, fork, shared memory and signal system calls; they appear as events whose order is arbitrary.
- Partial or coalesced TCP reads: the code handles one message per receive and ignores the length field.
- Whether a pending connection is eventually accepted: the listening descriptor is edge-triggered with one notification an event.
- An interrupted `semop`, whose result the code ignores: P is taken to wait until it succeeds.
- Work server processes that exit, in `ChatSystem` only: their sessions would vanish without a logout and leave rows online.
- Children that exit before the parent installs its signal handlers, and a full signal pipe.
- The child side of the pools, beyond accepting, closing and exiting.
- Scans.RoutedWhileTableChanges: promises the least loaded server only when no slot changes while it is visited; `LeavingServerMisleadsScan` shows why.
- ChatSystem.ListShown: excludes the pages for which (page - 1) * 20 overflows the server's int, which is undefined in C++.
- The number in a create_group reply is left open in `ChatSystem`, because the three statements interleave; `Answers`, `MenuAnswers` and `Groups` say which number it is.
- Torn reads of one slot's address or count, and the order of the two writes of a report.
- Failing SQL statements other than inserts, and SQL text: messages with quotes or backslashes, or with fields too long for their columns, are excluded by `Credentials.WellFormed`.
- `select ... limit` without `order by`: rows are taken to come in primary-key order.
- Overflow of C ints and of the fixed arrays for printed ids, names and addresses; integers are unbounded, and the sizes that hold are stated where they matter.
- The empty result in `create_group`, where the source indexes a missing row: the interleaved call ends as undefined.
- WorkServers.WorkServer.Process: requires a rendered page to fit the buffers and, for `create_group`, the caller's row to exist, because the source is undefined otherwise.
- Credentials.CredentialsSound: does not cover ids of ten digits, which overrun the array the registration reply is printed into.
- MenuRuns.MenuRunIsRun: stops at 10^9 accounts for the same reason.
- WorkServers.WorkServer.ListUsers: requires the rendered page to fit the buffers, because the source writes past them otherwise.
- The client's conversations with other clients: their descriptor tables are cleared by the last uid seen and keep no invariant.
- Menu texts, console output, time stamps beyond an arbitrary number, configuration, and unimplemented message types.
