# mxax, modelled and proved

mxax routes mail: an account registers a domain, writes alias rules for it, and points the aliases at destination
addresses. This project models the parts of the service that decide where mail goes and who may decide it, and proves
what they keep over every run.

- `Schema`, `Store`, `Integrity`, `Panel`: the soft-delete tables, each account operation as a step on them, the
  invariant of every reachable store, and the control-panel requests with their plan limits. `Frames` says row by row what
  each request does and leaves alone, and `Isolation` that accounts do not reach into each other.
- `Database`, `Handlers`: the same operations as imperative code over mutable tables, proved equal to the steps.
- `Cache`: the one string-keyed cache of the SMTP server, as a refinement of separate typed maps.
- `Router`, `Sessions`: look-ups, return paths and the calls of a relay session as functions of the cache, the database
  and the clock. `Server` and `Buffers` are the mutable server, sessions, readers and pooled buffers, proved equal to them.
- `Runs`: a transition system that interleaves control-panel requests, SMTP calls, the clock and cache eviction in any
  order. `Agreement`, `Staleness`, `Bounces` and `Messages` prove what holds along every run of it, and `Witness` builds two.
- `Rule`: alias rules from text to match; `Syntax`: what expressions mean, and that they are read as they are written. `Dkim`: the printed TXT key and the check of a DNS answer. `Uuid`, `Text`: the
  library functions they rest on.
- `Client`, `Delivery`, `Worker`: the outbound client against an arbitrary server, the choice of a mail exchanger, and the
  sender's loop over pooled emails.

How the outside enters: a query fault, the order of rows, the text of a header, a signature, a publish that fails, a spam
verdict, a DNS answer, a server's replies and the result of a dial are inputs, and every statement is about all of them.
Time is an integer number of nanoseconds. A call of the SMTP server and a control-panel request are atomic steps. A
session of row-level security sees and changes only rows of its account, and a conflict with another account's row is an error.

## What was found

Where the code does something other than its own comments or names suggest, the model follows the code.

- `detectAlias` and `detectReturnPath` look up the namespaces `alias:nxmatch`, `aliases` and `nxreturnpath`, which nothing
  writes (internal/smtp/alias.go:18, internal/smtp/alias.go:43, internal/smtp/returnpath.go:14). In every reachable state those
  look-ups miss (`Runs.RunConsistent`); negative answers and row lists are therefore asked of the database each time.
- `Reset` keeps the session id (internal/smtp/relay_session.go:222-230), and the id is the key of `return_paths`. A session that
  has stored one return path, or accepted one bounce, relays nothing more (`Bounces.SpentRelaysNothing`). With
  everything else in order a message is relayed if and only if its session's id has no return path yet
  (`Bounces.RelaysUnlessSpent`); `Witness.SecondMessageLost` is a run in which one is not, for no other reason.
- What was read of a message stays in the session when DATA fails. The message of a later DATA is all that was said since the
  last reset (`Messages.RunHeard`).
- The `returnPath` flag survives every later RCPT of a transaction, while recipient and id are the last accepted one's. A
  bounce therefore reaches its sender if and only if no later RCPT was accepted, or the last one left the same recipient and
  id (`Bounces.BounceReturnsWhen`). `Witness.SecondRecipientTakesBounce` is a run in which it does not. An id is accepted at
  any served domain, and the bounce carries the account of the domain it was addressed to; for the path that was printed
  that is the path's own account (`Bounces.BounceRoundTrip`).
- The anchors put around an alias rule bind only to its outermost alternatives; trimming '^' from a rule that begins with "^*" or
  "^?" leaves an operator that then makes the new '^' optional; and trimming the '$' of a rule that ends in an escaped '$' leaves a
  backslash that then escapes the new one. In the syntax modelled, `Rule.CheckExact` says exactly what every rule matches, and a
  rule that compiles as written is a full match if it has no alternation outside a group, begins with neither "^*" nor "^?" and
  does not end in an escaped '$' (`Rule.CheckIsFullMatch`). `Rule.LooseRule`, `Rule.StarredRule`, `Rule.OptionalRule` and
  `Rule.EscapedRule` are cases of the exceptions. Outside that syntax there are others, such as "^{0}a", a counted repetition of the
  anchor, and lowering gives some escaped letters another meaning.
- `CreateDomain` guards with a count of deleted namesakes that can never exceed one (`Integrity.CountGuardNeverFires`). What
  stops a live domain from being created again is the index on live DKIM keys (`Integrity.RecreateRefused`).
- When every dial fails, `sendEmail` returns an empty reply and no error (internal/sender/send.go:102-104), so the email is logged
  as sent; a QUIT that fails after the message was accepted is reported as an error (`Delivery.MailSender.SendEmail`).
- `Record.IsComplete` asks whether the last check is more than a day old, on the row as read before the new check
  (internal/account/record.go:29-32, internal/controlpanel/domains.go:122-143): a record checked for the first time leaves the page
  incomplete until the next visit (`Database.Tables.CheckRecords`).
- An answer of another type to a record query is cast without looking (internal/account/record.go:78, internal/account/record.go:85):
  the model has a panic there (`Dkim.Check`).
- An email that does not decode is never given back to the pool (internal/sender/run.go:42-47, `Worker.Sender.Handle`).

## Model

| member | source | states |
|---|---|---|
| Runs.QueuedIdsAgree | internal/smtp/relay.go:146-157 | In every reachable state, whatever is stale by however much, each relayed email in the queue carries the account of its domain row, of its alias row and of its destination row; the alias is on that domain, the destination is linked to that alias and has the address in To, and the id is a stored return path of that alias |
| Runs.RunConsistent | internal/smtp/relay_session.go:105-166 | Every reachable state is sound: tables, cache entries, sessions and queued emails agree on names, owners and ids, every cast of a cached value succeeds, and the namespaces that are only read stay empty |
| Runs.StepConsistent | internal/smtp/relay_session.go:105-230 | Every step of every kind keeps that invariant and only grows the tables |
| Runs.RunGrows | internal/smtp/returnpath.go:79-86 | Along a run no row of any table disappears, and names, owners, rules, addresses, public keys, record contents and return addresses never change |
| Agreement.SameDomain | internal/smtp/relay_session.go:151-152 | An alias and a domain found for one address, each possibly stale, are on the same domain row and in one account |
| Agreement.DetectDomainAgrees | internal/smtp/domain.go:15-58 | A detected domain, cached or not, is a row of that name and owner |
| Agreement.DetectAliasAgrees | internal/smtp/alias.go:15-87 | A detected alias, cached or not, is a row on the domain named in the address |
| Agreement.GetDestinationsAgrees | internal/smtp/relay.go:199-226 | Destinations, cached or not, are rows linked to the alias asked for |
| Agreement.RcptAgrees | internal/smtp/relay_session.go:105-166 | RCPT leaves the session with a domain and an alias that belong together, on every branch |
| Agreement.RelayAgrees | internal/smtp/relay.go:31-165 | Relaying, also when it fails half-way, queues only emails whose ids agree |
| Agreement.DataAgrees | internal/smtp/relay_session.go:169-220 | DATA keeps the agreement of world and session, for bounces and relays alike |
| Staleness.RcptStale | internal/smtp/relay_session.go:105-166 | The alias that RCPT accepts is, whatever queries failed, an answer of the search without a cache on the database at some instant at most one TTL ago: the longest live, compilable, matching rule of a served domain. A refusal is one too, that there is none, unless its alias query or a query of the last TTL for its own domain failed |
| Staleness.AcceptedInFull | internal/account/alias.go:49-63 | The alias so accepted has a rule that the whole local part matches, unless the rule has alternation outside a group, begins with "^*" or "^?", or ends in an escaped '$' |
| Staleness.DetectAliasStale | internal/smtp/alias.go:15-87 | The same for detectAlias alone, at any point of a call |
| Staleness.DomainStale | internal/smtp/domain.go:15-58 | A domain answered for was live and verified under that name at some instant at most one TTL ago |
| Staleness.DomainRefusedStale | internal/smtp/domain.go:30-52 | A refusal for want of a domain was right at some instant at most one TTL ago, unless a query for that domain failed in that time |
| Staleness.HitHistory | internal/cache/cache.go:35-42 | A cache hit was written by a step at most one TTL ago, and its value was true of the database in that step |
| Staleness.DeliveredStale | internal/smtp/relay.go:60-163 | A message goes to exactly the destinations live and linked to its alias at one instant at most one TTL ago: never to another, and on success once to each |
| Staleness.RdnsStale | internal/smtp/relay.go:167-197 | The reverse name a relay uses, cached or not, was looked up for that very address at most one TTL ago |
| Staleness.RefusedAfterDelete | internal/account/domain.go:167-238 | After a domain was deleted, and while nobody verifies it again, every RCPT under it is refused from one TTL on, as alias and as return path |
| Staleness.RefusedAfterTtl | internal/smtp/relay_session.go:105-111 | The same from any moment at which the name is not served, and the refused call changes neither tables nor sessions |
| Staleness.RelaysNothingAfterDelete | internal/smtp/relay.go:60-163 | From one TTL after a domain was deleted, and while nobody verifies it again, DATA relays nothing to an alias under it, even for a session whose recipient was accepted before |
| Staleness.RelaysNothingAfterTtl | internal/smtp/relay.go:60-163 | The same from any moment at which the name is not served |
| Staleness.HandleServes | internal/controlpanel/domains.go:90-105 | A name becomes served by no other request than a visit to its own page that finds the verify code |
| Bounces.BounceRoundTrip | internal/smtp/returnpath.go:12-92 | A return path stored for sender f, accepted as a recipient of any later transaction while its domain has been served for a TTL, makes DATA queue one email to f by way of that path, under the relayed message's id, domain and account, unless a later RCPT of the transaction was accepted |
| Bounces.BounceReturnsWhen | internal/smtp/relay_session.go:119-152 | Exactly when that bounce reaches its sender: if and only if no later RCPT of the transaction was accepted, or the last one accepted left the same recipient and id |
| Bounces.BounceGoesToLast | internal/smtp/relay_session.go:119-206 | A transaction that has accepted a return path ends in one bounce, to the recipient and under the id that its last accepted RCPT left |
| Bounces.AcceptedLeaves | internal/smtp/relay_session.go:105-166 | A refused RCPT leaves the session as it was; an accepted one leaves the sender and id of a return path, the path itself and the flag, or leaves its own recipient and keeps id, path and flag; sender and message stay |
| Witness.SecondRecipientTakesBounce | internal/smtp/relay_session.go:119-152 | A run from empty tables, with the rule ".*" matched as the source does, in which a bounce goes to an alias given as second recipient and not to its sender |
| Witness.SecondMessageLost | internal/smtp/relay_session.go:222-230 | A run in which a session resets and sends a second message that nothing stands in the way of, and it is not relayed |
| Bounces.BounceAccepted | internal/smtp/returnpath.go:12-66 | While the domain has been served for a TTL and no query for it failed in that time, RCPT accepts each address that carries a stored id with a sender, takes over id and sender, and marks the path returned |
| Bounces.IssuedReadsBack | internal/smtp/returnpath.go:68-92 | The path printed for a session is parsed as that session's id at that session's domain, for every recipient, also one with '=' |
| Bounces.IdsUsedOnce | internal/smtp/returnpath.go:79-86 | No two relays of a run store a return path under one id, and what is stored for an id stays |
| Bounces.SpentRelaysNothing | internal/smtp/relay_session.go:222-230 | A session whose id has a return path, its own or one taken over from a bounce, relays nothing for the rest of the run, through any number of resets |
| Bounces.IssuesUnlessSpent | internal/smtp/returnpath.go:68-92 | With an alias recipient accepted and nothing failing before it, DATA stores a return path if and only if the session's id has none |
| Bounces.RelaysUnlessSpent | internal/smtp/relay.go:31-165 | With everything else in order, a message is relayed if and only if its session is not spent |
| Bounces.IssuingSpends | internal/smtp/relay.go:60-63 | Storing a return path spends the session even when the relay then fails |
| Bounces.RelayNeedsPath | internal/smtp/relay.go:60-157 | Without a return path nothing is queued or stored; with one, every email queued carries it and the session's id |
| Messages.RelayedText | internal/smtp/relay.go:60-157 | Every email that a relay of any run queues is signed over a text that is "Return-Path: <" and the stored path, then one Received header naming host, reverse name, address, server, id and recipient, then exactly what the client has said since the last reset; the reverse name was looked up for that address at most one TTL ago; the email is from the address in the message's From header, by way of the recipient |
| Messages.BouncedText | internal/smtp/relay_session.go:193-206 | Every bounce of any run carries what the client has said since the last reset, is to the session's recipient by way of the return path it came to, and from the sender that MAIL named |
| Messages.RunHeard | internal/smtp/relay_session.go:169-230 | Along every run the message a session holds is the bodies of its DATA commands since its last reset, in order, and its sender until the first DATA is that of the last accepted MAIL |
| Messages.SaidAfresh | internal/smtp/relay_session.go:222-230 | A DATA with no other since the reset says its own body alone |
| Messages.QueuedSays | internal/smtp/relay.go:98-162 | Each copy of a fan-out is so signed, for its own destination, with the ids of session, domain and alias |
| Messages.FinalTraced | internal/smtp/relay.go:63-136 | The text signed for one destination is those two headers and the whole message |
| Messages.StoredSender | internal/smtp/returnpath.go:79-86 | The first DATA of a transaction stores the sender that its MAIL named as the address to return to |
| Messages.RecipientOfTransaction | internal/smtp/relay_session.go:105-166 | The recipient, alias, domain and id of a session with a recipient are those that the last accepted RCPT left, and that RCPT was in the same transaction |
| Messages.FlagWhen | internal/smtp/relay_session.go:119-137 | A transaction is one for a bounce exactly when one of its RCPTs accepted a return path |
| Messages.SpamStays | internal/smtp/relay_session.go:171-191 | Spam, and what could not be read or judged, changes neither tables nor queue, for bounces and relays alike |
| Messages.MailAccepts | internal/smtp/relay_session.go:59-103 | MAIL is accepted exactly from a peer with an address whose SPF check does not fail |
| Router.ReturnPathRoundTrip | internal/smtp/returnpath.go:68-92 | Printing a return path and parsing it give the id back, and its domain part is the domain |
| Router.SearchAnswers | internal/smtp/alias.go:46-86 | Longest rule first and first match find the longest live matching rule, or that there is none |
| Router.AnswersMean | internal/smtp/alias.go:46-86 | Field by field: the answer is a live alias on a live and verified domain of the address's name whose rule matches its local part, and no such alias has a longer rule |
| Router.DomainRepeats | internal/smtp/domain.go:21-55 | A domain asked for, found or not, is answered alike for a TTL, whatever becomes of the tables |
| Router.AliasRepeats | internal/smtp/alias.go:22-28 | The same for an alias that was found |
| Router.DestinationsRepeat | internal/smtp/relay.go:199-226 | The same for destinations |
| Router.RdnsRepeats | internal/smtp/relay.go:167-197 | The same for a reverse name |
| Router.FirstMatchIsFirst | internal/smtp/alias.go:70-79 | The loop over rows stops at the first row that matches, passing over rules that do not compile |
| Sessions.FanOutConserves | internal/smtp/relay.go:98-162 | One email a destination, in order, each signed over its own text; a failure at destination k leaves exactly the k before it |
| Server.MailServer.DetectDomain | internal/smtp/domain.go:15-58 | The cached look-up does to the cache, and answers, what the specification says, on all branches |
| Server.MailServer.DetectAlias | internal/smtp/alias.go:15-87 | The same for aliases |
| Server.MailServer.Match | internal/smtp/alias.go:70-86 | The loop over the rows is the first match, and caches it or its absence |
| Server.MailServer.DetectReturnPath | internal/smtp/returnpath.go:12-66 | The same for return paths, with the update of the row |
| Server.MailServer.MakeReturnPath | internal/smtp/returnpath.go:68-92 | Stores the path once, or fails and stores nothing |
| Server.MailServer.GetDestinations | internal/smtp/relay.go:199-226 | The cached look-up of destinations is its specification |
| Server.MailServer.GetRdns | internal/smtp/relay.go:167-197 | The cached look-up of a reverse name is its specification |
| Server.MailServer.QueueEmail | internal/smtp/queue.go:40-69 | Queues the email or nothing, and gives its buffer back either way |
| Server.MailServer.Build | internal/smtp/relay.go:111-136 | The rewound message is written complete behind its two headers, whatever was read of it before |
| Server.MailServer.Deliver | internal/smtp/relay.go:98-162 | One turn of the loop queues one email or none, with two buffers more on the deferred list |
| Server.MailServer.FanOut | internal/smtp/relay.go:98-162 | The loop appends exactly the specified emails, and what it borrowed is exactly the deferred buffers, on early exits too |
| Server.MailServer.Relay | internal/smtp/relay.go:31-165 | Cache, tables, queue and session change as specified, and every pooled buffer taken is given back once on every exit |
| Server.MailServer.RelayOn | internal/smtp/relay.go:70-165 | The same from the stored return path on |
| Server.RelaySession.Mail | internal/smtp/relay_session.go:59-103 | Sets the sender, or nothing |
| Server.RelaySession.Rcpt | internal/smtp/relay_session.go:105-166 | The session's fields and the server's state change as specified on every branch |
| Server.RelaySession.Data | internal/smtp/relay_session.go:169-220 | Queues a bounce, relays or refuses as specified, and leaves the pool whole |
| Server.RelaySession.Reset | internal/smtp/relay_session.go:222-230 | Clears sender, recipient, message, alias, domain and flag, and keeps id and via |
| Server.RelaySession.Logout | internal/smtp/relay_session.go:232-238 | Resets only when a sender is set |
| Buffers.Pool.Get | internal/smtp/relay.go:115-117 | Hands out an item that was not lent, and records it as lent |
| Buffers.Pool.PutAll | internal/smtp/relay.go:117-117 | Deferred returns give back each lent item once |
| Buffers.Buffer.ReadFrom | internal/smtp/relay.go:130-132 | Appends what the reader has left and leaves it at its end |
| Cache.KeysApart | internal/cache/cache.go:35-42 | Two namespace and key pairs share a cache string only if they are equal |
| Cache.TtlCache.Get | internal/cache/cache.go:35-38 | The string-keyed look-up is the look-up in the typed map of its namespace, and a hit has the type its reader casts to |
| Cache.TtlCache.Set | internal/cache/cache.go:40-42 | Writing one string changes one slot of one namespace, for a TTL |
| Cache.TtlCache.Evict | internal/cache/cache.go:23-27 | Forgetting any entries keeps the rest |
| Panel.RunKeeps | internal/controlpanel/domains.go:72-193 | Over every sequence of requests by any accounts: references, single ownership, live links between live rows, one live key and five live records for each live domain, and identities written once |
| Panel.HandleKeeps | internal/controlpanel/dashboard.go:80-154 | Every request keeps that |
| Panel.HandleVerified | internal/controlpanel/domains.go:107-193 | A live alias is always on a verified domain |
| Panel.AliasGate | internal/controlpanel/domains.go:107-193 | An alias comes to life only on the page of a live, verified domain of the account, within its plan, after each of the five records was seen published |
| Panel.RunQuota | internal/controlpanel/acl.go:18-96 | While an account acts as Free its live domains, destinations and aliases never rise above 1, 3 and 2, nor above what they were; a revival counts as an insertion |
| Panel.HandleQuota | internal/controlpanel/acl.go:18-96 | The same for one request by any account |
| Panel.LimitsAre | internal/controlpanel/acl.go:18-96 | The Free plan has room below one live domain, three live destinations and two live aliases of the account, deleted rows not counting |
| Handlers.AllowsDomain | internal/controlpanel/acl.go:18-42 | The check of the domain limit counts the account's live domains |
| Handlers.AllowsDestination | internal/controlpanel/acl.go:44-69 | The same for destinations |
| Handlers.AllowsAlias | internal/controlpanel/acl.go:71-96 | The same for aliases |
| Handlers.PostDashboard | internal/controlpanel/dashboard.go:80-154 | The two dashboard forms change the tables as specified, or leave them as they were |
| Handlers.RemoveDomain | internal/controlpanel/domains.go:424-451 | Deletes the account's live domain of that name, or fails and changes nothing |
| Handlers.Serve | internal/controlpanel/aliases.go:83-115 | Every handler is the request step that the run theorems speak of |
| Integrity.CreateDomainKeeps | internal/account/domain.go:285-405 | Creating or reviving a domain keeps the invariant |
| Integrity.CreateDomainWhen | internal/account/domain.go:240-405 | A domain can be created exactly when its name is new or was deleted by this account, and no other domain has the code |
| Integrity.RecreateRefused | schema/account.sql:125-126 | Creating a live domain again is rolled back by the index on live keys |
| Integrity.CountGuardNeverFires | internal/account/domain.go:241-253 | The count of deleted namesakes never exceeds one |
| Integrity.CreateDomainOpens | internal/account/domain.go:293-398 | A created domain has one new live key and the five new records for it |
| Integrity.DeleteDomainKeeps | internal/account/domain.go:167-238 | The cascade of a deletion keeps the invariant, which leaves no live key, record, alias or link under the domain |
| Integrity.CreateAliasKeeps | internal/account/alias.go:81-116 | Creating or reviving an alias keeps the invariant and never fails on a constraint |
| Integrity.AttachKeeps | internal/controlpanel/aliases.go:72-126 | Attaching succeeds exactly when the account sees alias and destination, and keeps the invariant |
| Integrity.DeleteLinkKeeps | internal/controlpanel/aliases.go:383-417 | Detaching kills the link and keeps the invariant |
| Integrity.DeleteAliasKeeps | internal/controlpanel/aliases.go:450-492 | Deleting an alias succeeds exactly when the account sees it, kills its links, and keeps the invariant |
| Integrity.CreateDestinationKeeps | internal/controlpanel/dashboard.go:138-152 | Creating or reviving a destination keeps the invariant |
| Integrity.DeleteDestinationKeeps | internal/controlpanel/destinations.go:27-57 | Deleting a destination kills its links and keeps the invariant |
| Integrity.FiveRecordsSeen | internal/controlpanel/domains.go:109-120 | The page of a live domain always sees five records |
| Integrity.DomainPageKeeps | internal/controlpanel/domains.go:72-193 | Verification, record checks and alias creation keep the invariant and never fail on a constraint |
| Frames.HandleDoes | internal/controlpanel/dashboard.go:80-154 | Every request of any account, on every sound store, does what its form says to the rows it names, under limits of 1, 3 and 2, and leaves every other row as it was; what it may not do changes nothing |
| Frames.DeleteDomainDoes | internal/account/domain.go:167-238 | The domain and every key, record, alias and link under it is dead and otherwise unchanged; all of another domain's keys, records, aliases and links, every other domain and every destination are as they were |
| Frames.DeletionElsewhere | internal/account/domain.go:201-209 | For mail to any other domain a deletion changes neither which alias answers nor where it delivers |
| Frames.DeleteAliasDoes | internal/controlpanel/aliases.go:450-492 | The alias and its links are dead, nothing is linked to it, and every other row is as it was |
| Frames.DeleteLinkDoes | internal/controlpanel/aliases.go:383-417 | The one link is dead and every other row is as it was |
| Frames.DeleteDestinationDoes | internal/controlpanel/destinations.go:27-57 | The destination and the links to it are dead, every other link delivers as before, and every other row is as it was |
| Frames.AttachDoes | internal/controlpanel/aliases.go:72-126 | The destination is linked to the alias from then on, and every other row is as it was |
| Frames.CreateAliasDoes | internal/account/alias.go:81-134 | The alias is live under its rule on its domain and linked to its destination, in the row that had the rule or a new one, and every other row is as it was |
| Frames.CreateDestinationDoes | internal/controlpanel/dashboard.go:138-152 | The destination is live under its address, in the row that had it or a new one, and every other row is as it was |
| Frames.CreateDomainDoes | internal/account/domain.go:285-405 | The domain is live and unverified under its name and code, in the row that had the name or a new one, with one live key and the five contents wanted for it, and every other row is as it was |
| Frames.WantedPublishes | internal/account/domain.go:336-398 | Those five contents are the DKIM record, whose strings fit a TXT record and join to the tag list and that key, two exchangers and two policies |
| Frames.PageVerifies | internal/controlpanel/domains.go:90-105 | The visit to an unverified domain's page makes it served exactly when the code is found, and touches no other row |
| Frames.PageRechecks | internal/controlpanel/domains.go:107-193 | The visit to a verified one dates exactly the records that were stale and are published, and adds the form's alias exactly when each record was seen before and is not stale or published now, the plan allows it, the rule is good and the destination is seen |
| Isolation.OthersChangeNothing | schema/account.sql:37-130 | Over any stretch of a run in which an account makes no request, its rows stay as they are, and so do the answers for its domains and the destinations of its aliases, whatever the other accounts do |
| Isolation.HandleApart | schema/account.sql:37-130 | A request of one account changes no row of another and adds none |
| Database.Tables.UpsertDomain | internal/account/domain.go:293-316 | The upsert revives or inserts, or fails on another account's name or a used code |
| Database.Tables.CreateDomain | internal/account/domain.go:240-405 | The statements in order, with rollback, are the specified step |
| Database.Tables.InsertWanted | internal/account/domain.go:336-398 | The five inserts are the five records wanted for the key |
| Database.Tables.DeleteDomain | internal/account/domain.go:167-238 | The five updates are the specified cascade |
| Database.Tables.CreateLink | internal/account/alias.go:118-134 | Inserts or revives a link, or fails |
| Database.Tables.CreateAlias | internal/account/alias.go:81-116 | Inserts or revives an alias and its link, or leaves the tables as they were |
| Database.Tables.AttachDestination | internal/controlpanel/aliases.go:72-126 | The steps of attaching, with rollback |
| Database.Tables.DeleteLink | internal/controlpanel/aliases.go:383-417 | The steps of detaching |
| Database.Tables.DeleteAlias | internal/controlpanel/aliases.go:450-492 | The steps of deleting an alias |
| Database.Tables.CreateDestination | internal/controlpanel/dashboard.go:138-152 | Inserts or revives a destination |
| Database.Tables.DeleteDestination | internal/controlpanel/destinations.go:27-57 | The steps of deleting a destination |
| Database.Tables.CheckRecords | internal/controlpanel/domains.go:119-144 | The loop updates exactly the due records found published and says complete exactly when each has an earlier check and is not due or was found again |
| Database.Tables.SubmitAlias | internal/controlpanel/domains.go:149-193 | The alias form creates an alias, or nothing |
| Database.Tables.ViewDomain | internal/controlpanel/domains.go:72-193 | The page verifies, rechecks or creates as specified |
| Dkim.ChunkString | internal/account/dkim.go:73-89 | Cuts a text into parts of the size asked, the empty text into itself |
| Dkim.ChunksRejoin | internal/account/dkim.go:73-89 | The parts rejoin to the text |
| Dkim.OnlyLastShort | internal/account/dkim.go:73-89 | Every part but the last is full and none is longer |
| Dkim.KeyString | internal/account/dkim.go:91-105 | Prints that text for every quote-free key |
| Dkim.KeyPublishes | internal/account/dkim.go:91-105 | The printed text is quoted strings with one space between them, none of more than 118 characters, within the 255 octets of section 3.3.14 of RFC 1035, that join to the tag list and the whole key |
| Dkim.Check | internal/account/record.go:43-101 | Each verdict exactly characterised: unknown type, failed exchange, no record, match, no match, and a panic otherwise |
| Dkim.KeyCheckExact | internal/account/record.go:84-97 | For a quote-free key and answer, however split into strings, the check agrees exactly when the joined answer is the tag list followed by the key (section 3.6.2.2 of RFC 6376) |
| Dkim.KeyRoundTrip | internal/account/record.go:84-97 | What is published for one key is accepted for that key and no other |
| Dkim.QuotedCheckExact | internal/account/record.go:84-97 | The fixed TXT records agree with exactly their own text |
| Dkim.MxCheckExact | internal/account/record.go:77-82 | An MX answer agrees exactly when preference and host are the ones wanted |
| Dkim.ExchangersChecked | internal/account/record.go:77-82 | The two exchangers that every domain publishes are accepted with preferences 10 and 20 and their hosts alone |
| Rule.AliasRule.Check | internal/account/alias.go:49-63 | On every sequence of calls the memoised rule gives the verdict of a fresh compilation |
| Rule.CheckExact | internal/account/alias.go:49-63 | The verdict on every rule of the modelled syntax and every local part: none if the rule's body does not compile; otherwise accepted exactly when the first alternative matches a beginning, the last an end, or another any part, where the first is tied to no beginning if "*" or "?" is left in front, and the last to no end if a backslash is left behind |
| Rule.CheckIsFullMatch | internal/account/alias.go:49-63 | A rule that compiles as written, with no alternation outside a group, neither "^*" nor "^?" in front and no escaped '$' at the end, accepts a local part exactly when the whole of it matches the lowered rule |
| Rule.CheckOneAlternative | internal/account/alias.go:49-63 | A rule that compiles as written with no such alternation accepts a local part exactly when its body matches a part of it: from the beginning unless "^*" or "^?" stands in front, up to the end unless an escaped '$' ends the rule |
| Rule.CheckByParts | internal/account/alias.go:49-63 | Without anchors inside, what is accepted depends only on which parts the alternatives match as texts of their own |
| Rule.CoreCompiles | internal/account/alias.go:51-53 | A rule that compiles as written differs from its body by its own anchors alone, and compiles without them unless an operator is then left in front or a backslash behind |
| Rule.AnchoredCompiles | internal/account/alias.go:54-58 | The anchored rule compiles exactly when the rule's body does, and is that body tied at its outer ends, as far as operators left in front and a backslash left behind allow |
| Rule.FullMatchAccepted | internal/account/alias.go:49-63 | A local part that the rule as written matches in full is accepted, whatever the rule |
| Rule.LooseRule | internal/account/alias.go:51-54 | A rule of two letters with a bar between them accepts a longer local part that it does not match in full |
| Rule.StarredRule | internal/account/alias.go:52-54 | The rule "^*" compiles as written and accepts a local part that it does not match in full |
| Rule.OptionalRule | internal/account/alias.go:52-54 | So does "^?a", which accepts "xa" |
| Rule.EscapedRule | internal/account/alias.go:53-54 | So does an 'a' with an escaped '$' behind it, which accepts "a$x" |
| Rule.OwnAnchors | internal/account/alias.go:51-54 | A whole local part matches a rule as written exactly when it matches one of the alternatives of its body |
| Rule.FrontCompiles | internal/account/alias.go:54-55 | '^' and the operators that follow it, in front of any text, compile exactly when the text does, and tie only the first alternative to the beginning; with "*" or "?" among them they tie nothing |
| Rule.SuffixCompiles | internal/account/alias.go:54-55 | '$' behind a text that does not end in an unpaired backslash compiles exactly when the text does, and ties only the last alternative to the end |
| Rule.MatchMoves | internal/account/alias.go:62-62 | A match of an expression without anchors depends on the matched characters alone |
| Syntax.WrittenMeans | internal/account/alias.go:55-62 | Every expression of the syntax, written out with escapes and groups, compiles and matches exactly the parts of a text that it describes |
| Syntax.WrittenRule | internal/account/alias.go:49-63 | As a rule it accepts exactly the local parts that it describes as a whole, unless it ends in an escaped '$' |
| Syntax.RepeatMatches | internal/account/alias.go:55-62 | '*', '+' and '?' match any number of, at least one, and at most one consecutive part that the repeated item matches |
| Syntax.Unbalanced | internal/account/alias.go:55-58 | A parenthesis too many or too few does not compile |
| Syntax.Doubled | internal/account/alias.go:55-58 | An operator behind an operator, at the beginning or behind a bar does not compile, the '?' that makes one lazy excepted |
| Syntax.LeftOut | internal/account/alias.go:55-58 | Exactly where the modelled syntax ends: classes, counted repetition, escaped letters and digits, and an open backslash do not compile |
| Uuid.RoundTrip | internal/smtp/returnpath.go:75-75 | A printed id is parsed back |
| Uuid.PrintedCharacters | internal/smtp/returnpath.go:19-29 | A printed id holds neither '@' nor '=' |
| Uuid.PrintedForm | internal/smtp/returnpath.go:75-75 | A printed id is its digits in groups of 8, 4, 4, 4 and 12 |
| Uuid.OtherForms | internal/smtp/returnpath.go:31-40 | Ids in braces, behind a URN prefix and without dashes are read too, and no text of another length is |
| Client.Orderly | internal/smtp/client/client.go:80-298 | In every trace that keeps the order: EHLO first or after STARTTLS, HELO only after a failed EHLO, STARTTLS once and only when offered, BODY=8BITMIME exactly when the latest greeting offers it, RCPT only after an accepted MAIL or RCPT, DATA only after an accepted RCPT, the message only after 354 (section 4.1.4 of RFC 5321) |
| Client.PrefixOrderly | internal/smtp/client/client.go:80-298 | Every beginning of an orderly trace is orderly |
| Client.OfferedWhen | internal/smtp/client/client.go:133-156 | A keyword is offered exactly when a line of the reply behind the first is that word, or that word and a space and a parameter; the last such line gives its parameter (section 4.1.1.1 of RFC 5321) |
| Client.Codes | internal/smtp/client/client.go:80-89 | The codes waited for are exactly 250, 250 to 259, 220, 354 and 221 |
| Client.SmtpClient.SendEhlo | internal/smtp/client/client.go:133-156 | The loop over the reply's lines collects the extensions offered and the mechanisms of AUTH; a failed EHLO leaves them as they were |
| Client.SmtpClient.SendHelo | internal/smtp/client/client.go:125-129 | Forgets the extensions |
| Client.SmtpClient.Greet | internal/smtp/client/client.go:80-89 | Greets once, with HELO exactly when EHLO failed, and remembers a failure for good |
| Client.SmtpClient.Hello | internal/smtp/client/client.go:96-105 | Refuses a name with a line break and a second greeting, sending nothing |
| Client.SmtpClient.Extension | internal/smtp/client/client.go:383-393 | Says what the latest greeting offers |
| Client.SmtpClient.UpgradeTls | internal/smtp/client/client.go:160-172 | After the greeting STARTTLS and, if it is accepted, a new EHLO, whose offers replace the old ones; the order is kept exactly when the greeting offers STARTTLS and it is not yet in use |
| Client.SmtpClient.Mail | internal/smtp/client/client.go:250-265 | One MAIL, with BODY=8BITMIME exactly when the current greeting offers it; nothing for a path with a line break |
| Client.SmtpClient.Rcpt | internal/smtp/client/client.go:270-276 | One RCPT, accepted with any code 25x |
| Client.SmtpClient.Data | internal/smtp/client/client.go:292-298 | One DATA, accepted with 354 only; out of order when no recipient went before |
| Client.SmtpClient.CloseData | internal/smtp/client/client.go:283-286 | The message is accepted with 250 only, and the text is the server's |
| Client.SmtpClient.EndSession | internal/smtp/client/client.go:416-425 | QUIT, which succeeds with 221 and a clean close |
| Client.SmtpClient.Authenticate | internal/smtp/client/client.go:203-244 | Against every script: no error exactly when the last reply is 235; any other end is a refusal before AUTH, a failed read or write, or the cancel line and QUIT. PLAIN sends identity, name and password only to its own host and only over TLS or on the same machine, and is refused exactly elsewhere; CRAM-MD5 answers each challenge with the name and the keyed hash of that challenge (section 4 of RFC 4954) |
| Client.SmtpClient.AuthLoop | internal/smtp/client/client.go:208-243 | The same from a greeted session |
| Client.SmtpClient.Challenges | internal/smtp/client/client.go:211-243 | The loop over challenges ends on every script, and so |
| Client.SmtpClient.Abort | internal/smtp/client/client.go:229-234 | The cancel line and QUIT, whatever is replied to them |
| Client.SmtpClient.SendMail | internal/smtp/client/client.go:322-377 | Sends nothing if an address has a line break; success is a complete transaction for every recipient in order, behind a greeting, STARTTLS if the server offers it and, if asked for and the server speaks ESMTP, a successful AUTH; the order breaks only for an empty list of recipients |
| Client.SmtpClient.Envelope | internal/smtp/client/client.go:352-359 | Success is an accepted MAIL and an accepted RCPT for each recipient in order |
| Client.SmtpClient.HandOver | internal/smtp/client/client.go:360-376 | DATA, the message and QUIT in order; success exactly when all were accepted |
| Delivery.SortByPref | internal/sender/send.go:123-125 | A permutation in ascending preference |
| Delivery.Open | internal/sender/send.go:59-71 | The greeting is EHLO, EHLO HELO, or EHLO STARTTLS EHLO, or a beginning of one, and goes on with STARTTLS whenever the reply offers it |
| Delivery.Hand | internal/sender/send.go:73-100 | The commands that follow are a beginning of MAIL RCPT DATA message QUIT for this email |
| Delivery.Converse | internal/sender/send.go:50-100 | On every server script one session keeps the order, records that script's answers and carries this email alone; nothing is sent before a 220; success means accepted with 250 and closed with 221 |
| Delivery.SessionInOrder | internal/smtp/client/client.go:250-298 | In such a session DATA follows an accepted MAIL for this path and an accepted RCPT for this recipient; STARTTLS is sent only if a line of the first reply offers it, and if one does MAIL comes after an accepted STARTTLS; BODY=8BITMIME is sent exactly if a line of the reply just before offers it |
| Delivery.MailSender.DestinationMxs | internal/sender/send.go:109-130 | Cached or looked up, the exchangers are non-empty and in ascending preference |
| Delivery.MailSender.TryInOrder | internal/sender/send.go:34-107 | The hosts dialled are the first of the list, a later one only if all before it failed; at most one connection carries commands; no error after a connection means accepted with 250 and closed, and the reply is the server's; all dials failing is no error |
| Delivery.MailSender.SendEmail | internal/sender/send.go:17-107 | The list so tried is the cached one, or else a permutation of the DNS answer in ascending preference, which is then cached; it is empty, and the result an error, for a bad address or an empty answer (section 5.1 of RFC 5321) |
| Worker.Sender.Run | internal/sender/run.go:36-106 | Over every sequence of deliveries the effects are those of a run that allocates a new email each time; the pool is whole at the end exactly when every delivery decoded, and short of one email for each that did not |
| Worker.Sender.Handle | internal/sender/run.go:36-98 | The same for one delivery: its email goes back to the pool if it decoded and stays out if it did not |
| Worker.Sender.Process | internal/sender/run.go:58-96 | Bounce, log entry and acknowledgement of a decoded email |
| Worker.EveryDeliveryAcked | internal/sender/run.go:45-96 | Every delivery is acknowledged once, in order, decodable or not |
| Worker.EveryEmailLogged | internal/sender/run.go:77-94 | Every decodable delivery is handed to the log publisher once, in order |
| Worker.EveryFailureBounced | internal/sender/run.go:58-64 | The emails handed to the bounce publisher are exactly those whose sending returned an error |
| Worker.AckComesLast | internal/sender/run.go:58-96 | When a delivery is acknowledged, it and all before it have been handed to the bounce publisher, if sending failed, and to the log publisher |
| Worker.SentAsRead | internal/sender/run.go:42-64 | What is sent is what its body says, as in a new email where it says nothing, and the email bounced or logged is that one with the reply, or with the error and the type of a bounce |
| Worker.LoggedIds | internal/sender/run.go:77-93 | A log entry names the ids, addresses and queue of its own delivery, the result of its sending, and the message unless it was sent |
| Worker.PooledEmail.Reset | internal/smtp/email.go:31-47 | All fields are those of a new email |

## Left out

- HTTP routing, templates, forms, badger sessions, cookies, charts, statistics queries, the dashboard's status column and `expires_at`: presentation.
- Stripe, reCAPTCHA, WHOIS, SPF, spamd, DNS exchange, TLS, RSA, PEM, DKIM signing and MIME parsing: foreign code whose verdicts and bytes are inputs.
- The DKIM private key look-up of `dkimSignHandler` and its cache namespace (internal/smtp/dkim.go:36-80): the signer is an input; only the type of its cache slot is modelled.
- Login and its password cache (internal/smtp/auth.go), submission sessions, log-level filtering and the reject entries published to the log.
- The retry loop for a verify code in `CreateDomain` (internal/account/domain.go:258-283): its counter is never advanced; the code it ends with is an input.
- Concurrent transactions, concurrent sessions sharing one cache slot, and concurrency inside the cache: calls are atomic steps of a run.
- RabbitMQ and JSON: publishing appends or fails, encoding is a faithful copy, and a decoded email is the set of keys present in its JSON object.
- textproto: dot-stuffing, multi-line replies and the reading of digits; a reply is a code and a text, or a failure.
- The reverse-DNS name itself (internal/smtp/relay.go:172-192): a look-up gives a name or fails.
- Case folding beyond ASCII, and byte strings that are not text: `strings.ToLower` is modelled on the letters A to Z.
- `account_id` of `alias_destinations`: CreateAliasDestination inserts it (internal/account/alias.go:118-125) while schema/account.sql:99-105 does not declare it; the model keeps it, as the policy on that table needs it.
- Error texts, log lines and timings everywhere, the queue level of an email (always the first on the relay path) and the text of the TLS clause in a Received header, which is an input.
- Rule.AliasRule.Check: rules with classes, counted repetition, flags, or a backslash before a letter, a digit or a character beyond ASCII are taken as not compiling, and the library's limits on size and nesting are left out, because the engine for them is the regexp library's; the router itself is proved for any matcher.
- Rule.CheckExact: about the same syntax; so are the lines that follow.
- Rule.CheckIsFullMatch: rules outside that syntax, which the source compiles, are not spoken of.
- Rule.CheckOneAlternative: rules outside that syntax, which the source compiles, are not spoken of.
- Rule.CheckByParts: rules outside that syntax, which the source compiles, are not spoken of.
- Rule.FullMatchAccepted: rules outside that syntax, which the source compiles, are not spoken of.
- Rule.OwnAnchors: rules outside that syntax, which the source compiles, are not spoken of.
- Rule.CoreCompiles: rules outside that syntax, which the source compiles, are not spoken of.
- Rule.AnchoredCompiles: rules outside that syntax, which the source compiles, are not spoken of.
- Rule.FrontCompiles: rules outside that syntax, which the source compiles, are not spoken of.
- Rule.SuffixCompiles: rules outside that syntax, which the source compiles, are not spoken of.
- Syntax.LeftOut: classes, counted repetition and escaped letters compile in the source.
- Staleness.AcceptedInFull: silent on an alias whose rule is outside that syntax, among them rules such as "^{0}a" that match less than a whole local part.
- Delivery.SortByPref: the library's sort is unstable and unspecified among equals; the method picks one order, and what is proved of it is that it is a permutation in ascending preference.
- Dkim.KeyPublishes: counts characters, which are octets for the ASCII text of a real key only.
- Worker.EveryEmailLogged: an entry counts when it is handed to the publisher; that the broker then takes it is not modelled, and the code goes on either way (internal/sender/logger.go:13-40).
- Worker.EveryFailureBounced: the same for the bounce (internal/sender/bounce.go:13-41).
- Worker.Sender.Run: the pause of a minute between deliveries and cancellation are not modelled; a cancelled run is a shorter list of deliveries.
- Client.SmtpClient.SendMail: dialling; the method starts from a new connection.
