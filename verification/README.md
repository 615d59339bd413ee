# Yabber: a verified model of its core

Yabber is an HTTP gateway that is reconfigured while it runs. This project models the code that
keeps state across reloads - the listener transaction, the rate limiter, the ACME issuing loop,
policies and their slots, the management API - and the dense pieces of table and string logic that
the rest relies on: host tables, certificate tables, path prefixes, JSON with extension keys, and
the event ring. Code that updates state in place is modelled by classes and loops with the same
branches; each is proved against a specification function or predicate, and the promises of the
design are proved about that specification.

| file | models |
|---|---|
| `Gateway.dfy`, `Binding.dfy`, `Network.dfy` | server.go: Apply, rollback, Start, Shutdown, certificate refresh, the ACME task, and the sockets they hold |
| `Refreshing.dfy` | server.go, compile.go: when refreshing certificates leaves a host unserved, or ACME without a plain listener |
| `Compile.dfy`, `Sites.dfy`, `Routes.dfy`, `Snapshots.dfy` | compile.go: from a configuration to a snapshot, coverage and dispatch |
| `Accepted.dfy`, `Serving.dfy` | compile.go: what an accepted configuration means in terms of its own fields, and which site, certificate and policies a request meets |
| `Hosts.dfy`, `Certificates.dfy` | hosts.go, tls.go: host tables, certificate tables, certificate selection |
| `RateLimiter.dfy`, `RateLimiterRefinement.dfy`, `TokenBucket.dfy` | policy.go: the bounded, forgetful client table against one everlasting bucket per client, and the bucket shared by all |
| `Policies.dfy`, `Handlers.dfy`, `Slots.dfy` | policy.go, middleware.go: compiling and reusing policies, which of them run, concurrency slots |
| `Acme.dfy`, `AcmePasses.dfy`, `AcmeSpacing.dfy`, `AcmeLimit.dfy` | acme.go: hosts, wake-ups, passes, renewal times, backoff, failures per hour |
| `Api.dfy`, `ApiSites.dfy` | api/: writes, ETags, saves, sites by ID |
| `Encoding.dfy`, `ConfigTypes.dfy` | encoding.go: JSON of sites and routes with extensions and shorthands |
| `Paths.dfy` | proxy.go: prefixes cut from a path in two encodings |
| `Events.dfy` | events.go: the ring of recent events |

Interleavings are modelled as steps. A method that stands for code under a lock is one step; where
the source lets go of a lock, or other goroutines may run, the model has a separate step and the
invariant is proved for every sequence of steps (`Gateway.Run`, `Acme.Manager.Run`, `Slots.Server.Run`,
`Api.Service.Run`). The operating system is `Network.Listen`: an arbitrary environment decides what
others hold, which port the kernel picks, and when a bind fails for no visible reason. The management
API runs on the modelled server: what it commits is what that server compiled and bound.

## Where the code and its documentation differ

The model follows the code; each difference is stated as a lemma.

- proxy.go:144-146 says that escaped characters such as %2F survive. They do exactly when the escaped
  path itself starts with the prefix (`Paths.EscapesSurviveIff`, `Paths.EscapedSlashCanBeLost`).
- acme.go:36-38 says that retries after reloads keep well under five failures an hour. Over all runs of the
  loop, successes included, no hour has more than five exactly if no reload comes between and every certificate
  obtained between is due for renewal 12.5 minutes after it came, or later; no hour has more than four exactly
  if it is half an hour. With a single reload a run has seven (`AcmeLimit.HourlyLimitIff`).
- Forgetting an idle client goes unnoticed exactly when rate times idle timeout reaches the burst, which
  nothing enforces (`RateLimiterRefinement.ForgettingInvisibleIff`).
- compile.go:190-192 compares listener addresses as text, so ":80" and "0.0.0.0:80" both compile, and then
  nothing can bind both (`Gateway.CompileAdmitsOverlap`). Unless something outside is in the way, Apply and
  Start succeed if and only if no two addresses asked for exclude each other (`Binding.SwitchDecidedBy`).
- compile.go:131 wants a plain listener for managed hosts; refreshing does not check. Every refresh keeps the
  condition if and only if there is a plain listener, ACME is off, or no TLS host is eligible
  (`Refreshing.RefreshKeepsPlainIff`); `Refreshing.RefreshLosesPlain` is a run that loses it. Nor is the
  coverage of compile.go:295-306 checked again: every refresh keeps all hosts served exactly if ACME can issue
  for each TLS pattern but "*" (`Refreshing.RefreshKeepsServedIff`).
- api/api.go:70-72 says that the saved file always matches the applied configuration. The file holds what the
  last change made active exactly if that change was to be saved and its Save succeeded
  (`Api.Service.SavedIsActiveIff`, `Api.FileBehind`); after a failure the change stays applied.
- api/api.go:246-250 reads the configuration again after letting go of the lock, so the body of a PUT can
  be newer than its ETag (`Api.NewerBody`; `Api.Service.Reread` says when it is).
- The ACME renewal time is two thirds into the lifetime only for lifetimes below 2^62 ns
  (`Acme.RenewAtTwoThirdsIff`), and after a success there is no backoff (`Acme.NextAttemptAfterSuccess`).

## Model

| member | source | states |
|---|---|---|
| Paths.Url.StripPathPrefix | proxy.go:147-161 | The two path fields change as specified, and an encoded path that agreed with the decoded one still does. |
| Paths.StripMeans | proxy.go:147-172 | For every URL, with RawPath or without: if the segments of the prefix are the first segments of the path, they go and the rest stays below the root; the escaped path loses them too, or is dropped if it does not begin with them; otherwise nothing changes. One slash at the end of the prefix makes no difference. |
| Paths.EscapeDecodes | proxy.go:144-146 | The escape of any byte, in hexadecimal digits of either case, decodes to that byte. |
| Paths.StripKeepsInStep | proxy.go:144-172 | For every prefix, escapes included, "RawPath is empty or percent-decodes to Path" survives stripping. |
| Paths.RemaindersAgree | proxy.go:147-172 | A prefix cut from both encodings at a segment boundary leaves remainders that still decode into each other. |
| Paths.CutIsBetweenEscapes | proxy.go:163-172 | A cut before a slash or at the end never falls inside an escape: both halves decode. |
| Paths.DecodeAppend | proxy.go:144-146 | Decoding distributes over concatenation of decodable parts. |
| Paths.DecodeShortens | proxy.go:144-172 | Decoding never lengthens a path and never loses a slash. |
| Paths.StripRemovesWholeSegments | proxy.go:163-172 | A prefix matches exactly when its segments are the first segments of the path; the rest stays below the root. |
| Paths.EscapesSurviveIff | proxy.go:144-161 | However the client wrote the prefix and the slash after it, the escaped remainder is kept if and only if the escaped path itself starts with the prefix. |
| Paths.EscapedSlashCanBeLost | proxy.go:144-161 | A concrete URL whose escaped slash is lost. |
| TokenBucket.LevelGrowth | policy.go:216-225 | Between two instants a bucket gains at most rate times elapsed and loses nothing by waiting. |
| TokenBucket.LevelRefills | policy.go:216-225 | Looked at any number of times, a bucket refills at its rate, up to the burst. |
| TokenBucket.TakeIff | policy.go:216-225 | A request is admitted exactly if a whole token is there, and takes it; a refusal costs nothing. |
| TokenBucket.RetryAfterSuffices | policy.go:192-216 | A refused client that waits Retry-After seconds is admitted. |
| RateLimiter.RateLimiter.constructor | policy.go:181-209 | A new limiter knows no client; a shared one starts with a full bucket. |
| RateLimiter.RateLimiter.Allow | policy.go:222-250 | One call moves the table and answers as the specification of an LRU table of buckets says. |
| RateLimiter.RateLimiter.AllowClient | policy.go:228-250 | The same for limits per client: expiry, lookup, eviction and admission together. |
| RateLimiter.RateLimiter.ExpireIdle | policy.go:230-233 | Exactly the idle clients at the back leave both the map and the list. |
| RateLimiter.RateLimiter.Lookup | policy.go:234-247 | The client is found or made, and ends up at the front; a full table loses its last entry first. |
| RateLimiter.RateLimiter.Remove | policy.go:252-258 | Map and list lose the same client and keep the others in order. |
| RateLimiterRefinement.Compile | policy.go:181-209 | A policy is accepted exactly when no number is out of range and its key is known; the limits are those of the policy, with the defaults for zero, and shared for a global key. |
| RateLimiterRefinement.ServedKeepsTable | policy.go:228-258 | No call lets the table exceed its maximum or list a client twice, and eviction never meets an empty list. |
| RateLimiterRefinement.ServedIsLru | policy.go:228-250 | With a monotone clock the list stays sorted by last use, no idle client survives a call, and the evicted one is least recently seen. |
| RateLimiterRefinement.RunsKeepTable | policy.go:222-258 | Both, over any sequence of calls. |
| RateLimiterRefinement.StepRefines | policy.go:222-250 | One call answers like the everlasting buckets and keeps the simulation. |
| RateLimiterRefinement.RunRefines | policy.go:158-250 | Without capacity eviction, and if rate times idle timeout reaches the burst, every answer of every run is that of one everlasting bucket per client. |
| RateLimiterRefinement.FewClientsStay | policy.go:234-241 | While there are no more clients than the maximum, nobody is evicted. |
| RateLimiterRefinement.FewClientsRefine | policy.go:158-250 | So with no more clients than the maximum, and if rate times idle timeout reaches the burst, every answer of every run is that of everlasting buckets. |
| RateLimiterRefinement.WindowBound | policy.go:222-250 | Then a client gets at most burst plus rate times W admissions in any window of length W. |
| RateLimiterRefinement.SharedIsOneClient | policy.go:203-215 | One bucket for all answers everybody as it would answer a single client. |
| RateLimiterRefinement.SharedWindowBound | policy.go:203-215 | So all clients together get at most burst plus rate times W admissions in any window of length W, with nothing assumed about idling or capacity. |
| RateLimiterRefinement.ForgettingShows | policy.go:230-233 | Otherwise some run is admitted that everlasting buckets refuse. |
| RateLimiterRefinement.ForgettingInvisibleIff | policy.go:158-233 | Forgetting idle clients is invisible in all runs if and only if rate times idle timeout reaches the burst. |
| Hosts.HostTable.Set | hosts.go:24-38 | Sets exactly one pattern and reports whether it replaced a value. |
| Hosts.HostTable.Find | hosts.go:59-73 | Returns the entry of the first candidate pattern: exact, wildcard of the parent, "*". |
| Hosts.UpdatedGet | hosts.go:24-57 | set and get obey the laws of a map over patterns. |
| Hosts.MatchIsFirstCandidate | hosts.go:59-73 | A match is the entry of the most specific pattern present, also for odd hosts such as ".a" or "*.a". |
| Hosts.MatchMeans | hosts.go:59-73 | In plain terms: an exact entry, else the wildcard of what follows a non-empty first label, else the fallback. |
| Hosts.NormalizeIgnores | hosts.go:79-81 | Case and spaces around a name make no difference. |
| Hosts.NormalName | hosts.go:79-81 | A name in lower case without spaces around it only loses a dot at the end. |
| Hosts.ValidPatternIff | hosts.go:92-104 | Besides IP addresses, valid are exactly "*" and names without special characters, perhaps after "*.". |
| Hosts.NamesMatch | hosts.go:59-73 | What covers a pattern also matches every name the pattern stands for. |
| Certificates.Enter | tls.go:82-93 | One certificate takes over the entries of its names unless a later-expiring one is there. |
| Certificates.BuildStore | tls.go:63-95 | In each class every DNS name maps to a latest-expiring certificate listing it, the first listed on ties; it fails exactly on an unusable leaf. |
| Certificates.LoadCertificates | tls.go:49-95 | The same for files and the certificate source together, and when loading fails. |
| Certificates.CurrentIff | tls.go:77-81 | A certificate counts as current exactly if it is valid now and throughout the next 24 hours. |
| Certificates.LoadableIff | tls.go:49-76 | Loading works exactly if every file reads, the source answers, and every certificate parses and has a DNS name. |
| Certificates.LoadsMeans | tls.go:63-95 | In each class the entry of a name is a certificate that a file or the source gave, that lists the name, and that expires no sooner than any other such one; there is none only if none lists it. |
| Certificates.FirstOfLatest | tls.go:88-93 | Of those that expire last, the first listed has the entry. |
| Certificates.GatheredAt | tls.go:51-68 | Files come before the source, both in their order. |
| Certificates.MatchIsBest | hosts.go:59-73 | What is found for a host is the winner of the most specific pattern that any certificate of the class lists. |
| Certificates.CoversIff | tls.go:113-123 | A pattern is covered exactly if a certificate of the class lists it or a pattern that matches it; "*" always is. |
| Certificates.SelectedCertificateNamesHost | hosts.go:59-73 | A listed certificate chosen for a host lists the host, the wildcard of its parent, or "*". |
| Certificates.ExactBeatsLaterWildcard | hosts.go:60-67 | An exact entry wins over a wildcard that expires later. |
| Snapshots.CompileListeners | compile.go:177-206 | Accepts exactly non-empty, distinct names with addresses that are distinct unless the kernel picks the port. |
| Snapshots.SpecsDistinct | compile.go:190-192 | Accepted listeners never share a fixed address. |
| Snapshots.EphemeralIff | compile.go:190-192 | The kernel picks the port exactly where an address ends in port 0. |
| Snapshots.ListenersMeans | compile.go:101-104 | Listeners are the configured ones, or port 80, and port 443 with TLS if there is any certificate or ACME is on. |
| Snapshots.SameSpecIff | compile.go:199-203 | A listener has the same spec in two configurations exactly if its address, TLS, the server limits and, with TLS, the minimum version are the same. |
| Snapshots.ManagedHosts | compile.go:310-321 | ACME manages exactly the eligible TLS hosts that no current certificate covers. |
| Snapshots.CoverageMeansServable | compile.go:295-306 | For every name of a TLS pattern that compiling accepted, selection fails if and only if the name is managed, not issued yet, and matched by no stale certificate. |
| Snapshots.SelectMeans | server.go:571-588 | The best current certificate that is listed answers, else the one that ACME issued, and a stale one only if there is neither. |
| Routes.CompileRoute | compile.go:339-366 | A route compiles exactly when its path starts with a slash, its handler compiles, and its policies are known; then its pattern and name. |
| Routes.PatternMeans | compile.go:339-351 | A method in capitals goes in front of the path, which is "/" unless given; a name wins over both as the name of the route. |
| Routes.PatternIgnores | compile.go:344-347 | Case and spaces around a method make no difference. |
| Routes.CompileTable | compile.go:236-248 | The routes of a site are accepted exactly when each compiles, their names differ, and the mux takes them one after the other. |
| Routes.CompileRoutes | compile.go:222-252 | A site has routes or a single handler, not both and not neither; they and its policies compile. |
| Sites.Compiler.CheckSite | compile.go:208-268 | A site that passes has hosts, valid patterns, compiling routes with known policies, and known listeners; one that fails is not acceptable. |
| Sites.Compiler.RequireCertificates | compile.go:269-279 | Fails exactly when a host on a TLS listener has no way to a certificate; otherwise the hosts join the TLS hosts. |
| Sites.Compiler.EnterHosts | compile.go:283-289 | Enters every pattern of the site on one listener, or finds one that is taken. |
| Sites.Compiler.ServeSite | compile.go:254-290 | All listeners of a site: certificates, redirects, and table entries, or the reason against it. |
| Sites.Compiler.AddSite | compile.go:208-290 | Succeeds exactly when the site is fine by itself and clashes with no earlier one; the tables then dispatch to it. |
| Sites.NextDispatches | compile.go:280-289 | One more site keeps "each listener and pattern has exactly the entry of its owner". |
| Compile.CompileSites | compile.go:112-128 | Accepts exactly lists of good sites with distinct IDs and no shared pattern. |
| Compile.CheckListenerPolicies | compile.go:134-138 | The policies of every listener are known. |
| Compile.CompileRest | compile.go:89-143 | The checks after certificates and policies, and the snapshot they give. |
| Compile.Compile | compile.go:62-143 | Accepts exactly the configurations that pass every check against the certificates that were loaded, and what the snapshot then contains, policies with their limiters included. |
| Compile.SiteOkHasID | compile.go:115-120 | A compiled site has a non-empty ID. |
| Compile.DispatchPicksMostSpecific | compile.go:396-403 | A request goes to the one site that owns the most specific pattern claimed for its host on that listener. |
| Compile.AcceptedIsServable | server.go:571-588 | An accepted configuration can serve TLS for every name of every pattern other than "*", up to pending ACME certificates. |
| Accepted.TablesMean | compile.go:254-290 | For every accepted configuration, the table of a listener holds a pattern exactly for the site that lists it as a host and lists the listener, or no listener at all. It redirects exactly on a plain listener, unless the site allows HTTP, if one of the site's TLS listeners has a port. |
| Accepted.ListedIsThere | compile.go:262-266 | A site only lists listeners that there are. |
| Accepted.SitesAreApart | compile.go:115-119 | No two accepted sites share an ID, which is the name or else the first host, or a host on a listener. |
| Accepted.SiteIsFine | compile.go:208-248 | An accepted site has valid hosts, each once, and either a handler or routes with paths and different names. |
| Accepted.ListenersAreFine | compile.go:177-197 | Accepted listeners have names and addresses, and name no policy that is not configured. |
| Accepted.AcceptedSelects | server.go:571-588 | Under every accepted configuration, of the certificates in its files and the source, the best current one answers for a host, else the one that ACME issued, and a stale one only if there is neither. |
| Accepted.ListedIff | tls.go:49-68 | These certificates are those of the files that the configuration lists, and of the source. |
| Accepted.ManagedIff | compile.go:310-321 | ACME manages exactly what it can issue for, if it is on, of the hosts that a site serves over TLS without a current certificate. |
| Accepted.TLSIsCovered | compile.go:295-306 | Every host served over TLS, but "*", has a listed certificate, if only a stale one, or ACME can issue it. |
| Serving.AcceptedNamesAreKnown | compile.go:130-138 | An accepted configuration names no policy, on any listener, site or route, that is not compiled. |
| Serving.EntryIsPlanned | compile.go:280-289 | What a listener's table holds for a host is the site that claims the most specific pattern, with the policies and the redirect of that site; or no site answers. |
| Serving.AskingMeans | compile.go:224-253 | The policies are those of the listener, then of the site, then of the route with that name; a redirect, or no site, leaves those of the listener. |
| Serving.ServedAsConfigured | compile.go:62-143 | Under every accepted configuration, the site that claims the most specific pattern for a host answers, and the first occurrences of the policies of listener, site and route run once each, in that order, up to the first rejection. |
| Network.ListenKeepsConsistent | server.go:516-524 | No two open sockets exclude each other. |
| Gateway.Server.constructor | server.go:157-166 | A new server holds no socket, drains nothing, and runs no ACME task. |
| Gateway.Server.Apply | server.go:193-249 | Fails to compile exactly when compiling refuses, and then changes nothing. Success activates the compiled snapshot, with every policy as it is configured now, the limiters of unchanged ones, and the manager and task of an unchanged ACME section; it runs exactly its listeners, none if the gateway is off, unchanged ones on their sockets, and drains every replaced one. A failed bind has a true reason and keeps the snapshot; each stopped listener is bound again or reported, and all are if the rebinding calls meet quiet surroundings, whatever made the new bind fail. Binding succeeds only if the listeners fit, and always then unless something outside is in the way during the calls it makes. There is one socket per running listener in all cases, and a socket that stays open keeps its address, even one the kernel picked. |
| Gateway.Server.Install | server.go:202-260 | The same for the part after compiling, started or not. |
| Gateway.Server.Switch | server.go:224-249 | The same on a started server, with the exact condition for success. |
| Gateway.Server.RollBack | server.go:239-245 | Whatever made the bind fail, the stopped listeners are bound again with their old specs or reported, and none is lost if the rebinding calls meet quiet surroundings. |
| Gateway.Server.Rebind | server.go:332-347 | One call per stopped listener; others are left alone, and none is lost if nobody outside took an address during those calls. |
| Gateway.Server.BindNext | server.go:234-245 | Binds one more listener, or closes those begun by this call and reports an obstacle that is really there. |
| Gateway.Server.BindMissing | server.go:234-248 | Binds every listener that does not run on, or closes what it opened and reports a listener and an obstacle that is really there; succeeds in calm surroundings exactly when the listeners fit. |
| Gateway.Server.Finish | server.go:251-260 | The new snapshot becomes active with exactly its listeners. |
| Gateway.Server.CloseAll | server.go:229-233 | Closes exactly the sockets of the stopped listeners. |
| Gateway.Server.Commit | server.go:265-274 | The manager is told its hosts, the snapshot stored, and the ACME task follows. |
| Gateway.Server.SyncIssuer | server.go:278-293 | One task, that of the active manager, exactly while started; an unchanged manager keeps its task. |
| Gateway.Server.Refresh | server.go:297-308 | Only certificates and managed hosts change, to what the files that the active configuration lists and the source hold now, or nothing when they do not load. |
| Gateway.Server.Start | server.go:360-384 | Binds all listeners, or none with a true reason; succeeds only if they fit, and always then unless something outside is in the way. The ACME task starts only on success. |
| Gateway.Server.Detach | server.go:389-399 | Shutdown's locked part detaches every listener and stops the task. |
| Gateway.Server.CloseDetached | server.go:401-418 | The rest closes detached sockets only. |
| Gateway.Run | server.go:157-418 | Every sequence of calls, failed ones included, is a run of the specified steps, and keeps one socket per running listener, specs of the active snapshot, and at most one ACME task, that of the active manager. |
| Gateway.NoSelfConflict | server.go:228-248 | With fixed ports, nothing left to close, nothing outside in the way, and a host on which, of the addresses asked for, only equal ones exclude each other, switching to what compiles always succeeds, even if listeners swap addresses. |
| Gateway.CompileAdmitsOverlap | compile.go:190-192 | A pair of addresses that compiles, and for which no switch or start succeeds on a host where they exclude each other. |
| Binding.RefusalIsTrue | server.go:234-245 | A bind that fails has a reason that is really there: an open socket, a listener that an earlier call of the same operation bound, an outside holder, or a fault. |
| Binding.FailureDecides | server.go:234-245 | No such reason exists when the listeners fit and nothing outside is in the way during the calls made. |
| Binding.BoundFits | server.go:234-248 | Listeners that were all bound fit: they exclude neither each other nor what stays open. |
| Binding.FitsIffDisjoint | server.go:228-248 | With fixed ports and nothing left to close, the listeners fit if and only if no two addresses asked for exclude each other; what is being stopped never counts. |
| Binding.SwitchDecidedBy | server.go:224-249 | So switching succeeds only for such addresses, and for them always unless something outside is in the way. |
| Binding.RestartedIff | compile.go:199-203 | A running listener is restarted exactly if its address, TLS, the server limits or, with TLS, the minimum version change. |
| Binding.ClosedExactly | server.go:229-233 | Stopping the changed listeners closes exactly their sockets. |
| Binding.RebindSucceeds | server.go:332-347 | A stopped listener can be bound again if nobody outside took an address during the rebinding calls. |
| Binding.NothingInTheWay | server.go:332-347 | Why: no socket of the server excludes the address. |
| Refreshing.CompiledIsPlain | compile.go:130-133 | What compiles has a plain listener if ACME manages any host. |
| Refreshing.RefreshKeepsPlainIff | server.go:297-308 | Every refresh keeps that if and only if there is a plain listener, ACME is off, or no TLS host is eligible. |
| Refreshing.RefreshLosesPlain | server.go:297-322 | A server that is started and, refreshed an hour later, has a managed host and no plain listener. |
| Refreshing.ServedIff | server.go:297-308 | After a refresh, every name of every TLS pattern but "*" has a certificate or waits for ACME if and only if each pattern is covered, if only by a stale certificate, or ACME is on and it is eligible. |
| Refreshing.RefreshKeepsServedIff | server.go:297-308 | That is so whatever the files hold by then if and only if ACME is on and every TLS pattern but "*" is eligible. |
| Acme.RenewAtTwoThirdsIff | acme.go:311-316 | Renewal is due two thirds into the lifetime if and only if the lifetime is below 2^62 ns. |
| Acme.Manager.MutateHosts | acme.go:181-205 | setHosts replaces the hosts and loads the stored certificate of each host that has none; a reload sets every count to zero and brings the retry to at most a minute after the failure. Nothing else changes. |
| Acme.Manager.SendWake | acme.go:206-209 | The channel of capacity one holds a wake-up afterwards, whether or not it did before. |
| Acme.Manager.RecordFailure | acme.go:298-309 | The record gains one failure and the delay for its count. |
| Acme.DelayDoubles | acme.go:298-309 | The wait begins at five minutes and doubles with every failure in a row, up to twelve hours. |
| Acme.Manager.Visit | acme.go:254-283 | One host of a pass, with other goroutines at the points where no lock is held, changes the state as specified. |
| Acme.Manager.Maintain | acme.go:248-285 | So does a whole pass over the hosts captured at its start. |
| Acme.Manager.Run | acme.go:232-244 | So does the loop, for any rounds of passes, waits, wake-ups and timers. |
| Acme.VisitKeepsSound | acme.go:254-280 | A host is attempted only when its retry time has come, even if a reload moves that time meanwhile, and the record says what happened. |
| Acme.RunKeepsSound | acme.go:181-309 | In every run, with any interleaving, failure records and certificates are what the history of failures, successes and reloads says, and no attempt came before its host was due. |
| Acme.StepsLeaveWakeup | acme.go:181-210 | Whatever other goroutines change, they leave a wake-up waiting or on its way. |
| Acme.VisitIsTimely | acme.go:254-283 | Visiting a host leaves a wake-up, or a time to look at it again that is no later than its renewal or retry, and leaves other hosts alone. |
| Acme.PassIsTimely | acme.go:248-285 | A pass asks to run again within 12 hours of its start and, unless a wake-up is left, no later than the renewal or retry time of each of its hosts. |
| Acme.VisitIsBounded | acme.go:254-283 | A visit returns the earlier of the time so far and the renewal or retry time it saw. |
| Acme.PassIsBounded | acme.go:248-285 | Whoever interferes, a pass that is not cancelled returns a time no later than each host's renewal or retry time as the pass saw it. |
| Acme.ParkedIsTimely | acme.go:232-285 | In every run, whenever the loop is parked, a wake-up is on its way or the timer fires no later than the time of every current host: no lost wake-up and no late one. |
| Acme.LastPassReadHosts | acme.go:206-252 | A parked loop without a wake-up has read the hosts that were set last. |
| Acme.QuietPassServes | acme.go:254-283 | An undisturbed pass attempts exactly the hosts without a fresh certificate whose retry time has come, and changes no other. |
| AcmePasses.QuietPassAttempts | acme.go:254-283 | An undisturbed pass asks exactly once for each host that wants a certificate, and for no other. |
| AcmePasses.StoredIsUsed | acme.go:190-200 | A host whose certificate was found on disk is not asked for before that is due for renewal. |
| AcmePasses.CancelledVisit | acme.go:254-277 | A cancelled visit records neither a failure nor a certificate, and is cancelled only from outside. |
| AcmePasses.CancelledRound | acme.go:232-258 | A cancelled pass ends the loop, and no later host of it is visited. |
| AcmePasses.WakeUpIsReceived | acme.go:232-244 | The loop goes on before its time only for a wake-up, which it receives. |
| Acme.NextAttemptAfterSuccess | acme.go:254-281 | After a success the next attempt is held off only until the renewal time. |
| AcmeSpacing.MinuteApart | acme.go:181-190 | Under any reloads, failures of a host with no success between them are at least a minute apart. |
| AcmeSpacing.FullBackoff | acme.go:298-309 | With no reload, the gap after the k-th failure in a row is at least min(5 * 2^min(k-1, 10), 720) minutes, and the record counts k. |
| AcmeSpacing.RunsAreSpaced | acme.go:181-309 | Both for every run of the loop, from an empty manager or from what an earlier run left. |
| AcmeLimit.MissesArePaced | acme.go:254-309 | Without reloads, a failure is followed by the next of its row after the full backoff or, if a success came between, by the first of a new row after the backoff and the time the certificate lasts as well. |
| AcmeLimit.FiveTakeAnHour | acme.go:298-309 | If certificates last half an hour, any five failures at such a pace take an hour or more. |
| AcmeLimit.SixTakeAnHour | acme.go:298-309 | If they last 12.5 minutes, any six do. |
| AcmeLimit.FewAnHour | acme.go:254-309 | So no hour sees more than four, or five, over any number of successes. |
| AcmeLimit.FourAnHour | acme.go:298-309 | In particular no hour sees more than four failures while there is no success. |
| AcmeLimit.RunsStayFew | acme.go:181-309 | The same for every run of the loop, from an empty manager or from what an earlier run left. |
| AcmeLimit.SevenWithOneReload | acme.go:184-189 | A run of the loop, with a clock that does not go back, in which a host fails seven times within an hour with one reload. |
| AcmeLimit.SixWithSuccesses | acme.go:276-309 | A run without reloads in which a host fails six times within an hour, with any certificates that last less than 12.5 minutes. |
| AcmeLimit.FiveWithSuccess | acme.go:276-309 | The same with five failures, for certificates that last less than half an hour. |
| AcmeLimit.HourlyLimitIff | acme.go:36-39 | "At most five failures an hour" holds in all runs with at most r reloads between them, and certificates that last at least d, if and only if r is 0 and d is 12.5 minutes or more; "at most four" if and only if r is 0 and d is half an hour or more. |
| Policies.CompilePolicy | policy.go:54-87 | Accepts exactly policies with some limit and all numbers in range; limits are layered timeout, body, rate, concurrency. |
| Policies.MiddlewareMeans | policy.go:54-87 | A policy enforces each limit that it sets, once, in that order, and nothing else. |
| Policies.DefinitionOkIff | policy.go:54-87 | A policy is fine exactly if every number it gives is in range and it enforces something. |
| Policies.CompilePolicies | policy.go:32-52 | Accepts exactly named, distinct policies that are unchanged or compile. Afterwards every definition given is in force under its name, with limiters that were there before exactly if a policy of that name with that definition was. |
| Policies.AcceptableIff | policy.go:32-52 | What may run does not depend on what ran before. |
| Policies.SurvivesIff | policy.go:29-43 | Buckets and slots survive a reload if and only if the definition is unchanged, and then the policy keeps its own. |
| Handlers.RequestState.MarkApplied | middleware.go:34-43 | Reports whether the policy is new to the request, and marks it. |
| Handlers.RequestState.ServeHTTP | policy.go:91-103 | The closures, sharing the request's state, run what the specification says. |
| Handlers.Chain | middleware.go:13-18 | Wraps so that declaration order is running order (with ServeChained). |
| Handlers.ServeChained | middleware.go:12-18 | Chained middleware runs in declaration order up to the first rejection, then the handler. |
| Handlers.Wrap | policy.go:91-103 | A policy wraps its chain in the check for an earlier application. |
| Handlers.ApplyPolicies | policy.go:105-114 | Fails exactly on an unknown name, and names one; otherwise the first name ends up outermost. |
| Handlers.ServePoliced | policy.go:91-114 | In one scope, the policies that have not run yet run in order, then the handler inside. |
| Handlers.PoliciesThatRun | compile.go:130-140 | For a request, the first occurrences of the names of listener, site and route run, in that order, up to the first rejection; a redirect runs the listener's only. |
| Handlers.FirstsInOrder | policy.go:89-114 | First occurrences keep the order of the names. |
| Handlers.GuardsDiffer | policy.go:89-103 | No middleware instance runs twice for a request. |
| Slots.Server.Load | policy.go:24-52 | A reload compiles exactly acceptable policies, and changes the size of no channel: unchanged policies keep theirs, with the requests inside. |
| Slots.LoadKeepsCaps | policy.go:32-52 | Why: an instance that has a channel already is that of an unchanged policy. |
| Slots.Server.Arrive | policy.go:89-114 | A request meets the middleware of the first occurrences of the names, each instance once. |
| Slots.Server.Advance | policy.go:142-156 | A slot is taken exactly when fewer requests are inside than its channel holds, which for a policy in force is its concurrency maximum. |
| Slots.Server.Return | policy.go:146-149 | The innermost slot is given back. |
| Slots.Server.Run | policy.go:142-156 | Every interleaving of requests and reloads is a run of the specified steps, in which the tokens of each channel equal the requests inside it and stay within its capacity; with no request left all slots are free. |
| Slots.Server.WithinMaximum | policy.go:142-156 | No more requests are inside a policy in force than its concurrency maximum. |
| ApiSites.SiteIndex | api/sites.go:94-96 | The first site with the ID, or none. |
| ApiSites.LookupIff | api/sites.go:94-96 | With unique IDs the index is a faithful table of the list. |
| ApiSites.CreateSite | api/sites.go:30-49 | Does what CreateAdds describes. |
| ApiSites.CreateAdds | api/sites.go:30-49 | POST succeeds exactly for a new, non-empty ID and adds that one entry at the end; IDs stay unique. |
| ApiSites.PutSite | api/sites.go:55-78 | Does what PutReplaces describes. |
| ApiSites.PutReplaces | api/sites.go:55-78 | PUT succeeds exactly for an existing ID with a matching body and replaces that one entry in its place. |
| ApiSites.PutTakesIff | api/sites.go:61-68 | A body fits the URL exactly when it has no name or that name. |
| ApiSites.DeleteSite | api/sites.go:80-92 | Does what DeleteRemoves describes. |
| ApiSites.DeleteRemoves | api/sites.go:80-92 | DELETE succeeds exactly for an existing ID and removes that one entry. |
| ApiSites.DeleteUndoesCreate | api/sites.go:43-92 | Deleting a created site restores the configuration. |
| ApiSites.PutUndoesPut | api/sites.go:69-78 | Putting the old site back restores the configuration. |
| Api.CompiledHasIds | compile.go:115-120 | What compiles has non-empty, unique site IDs. |
| Api.AcceptedHasIds | compile.go:62-128 | So has every configuration that the server accepts. |
| Api.Service.Change | api/api.go:200-233 | A change is refused for the first of an invalid body, a stale If-Match or the callback, and then the server is untouched; otherwise the server decides, and refuses to compile exactly what does not compile. What is accepted is committed, and has to be saved if there is a Save; otherwise the client gets its tag at once. |
| Api.JudgedMeans | api/api.go:203-214 | If-Match lets a change through if it is absent, "*", or the tag of the configuration, and no other; an invalid body is refused before that, and an edit that cannot be made after it. |
| Api.Service.Update | api/api.go:110-123 | A program's change is committed and has to be saved like an API write. |
| Api.Service.Load | api/api.go:101-108 | A configuration from elsewhere is committed and not saved. |
| Api.Service.FinishSave | api/api.go:225-233 | Save gets the committed configuration. If it succeeds, the file holds it and the client gets its tag; if it fails, the file stays as it was, the change stays applied, and no tag is given out. |
| Api.Service.PutConfig | api/api.go:241-250 | Replaces the configuration under the same rules. |
| Api.Service.Reread | api/api.go:246-252 | The body fits the tag if and only if the configuration is still the one put. |
| Api.Service.Run | api/api.go:104-123 | Every interleaving of changes, programmatic updates, reloads, reads, saves that succeed or fail, and the server's starts, stops and refreshes is a run of the specified steps. It keeps commits a chain, calls of Save in commit order, and in the file what was saved last. |
| Api.Service.Commit | server.go:202-210 | A commit is exactly a successful Apply of the server, with all that Apply promises. |
| Api.Service.ActiveHasIds | compile.go:115-120 | Site IDs are non-empty and unique at all times, because everything active was compiled. |
| Api.ChainLinks | api/api.go:200-214 | Each commit starts from the result of the one before: no update is lost. |
| Api.Service.AcceptedMeansUnchanged | api/api.go:207-209 | A write accepted with a tag changed exactly the configuration the tag was issued for. |
| Api.Service.SavedIsActiveIff | api/api.go:70-72 | With no write in progress, the file holds what the last change made active if and only if that change was to be saved and its Save succeeded; otherwise it holds an earlier change, and equals the active configuration only if that one was to the same value. |
| Api.FileBehind | api/api.go:225-230 | A run of two PUT requests after which the file is not the active configuration, because the second Save failed. |
| Api.NewerBody | api/api.go:246-250 | A run of two PUT requests in which the first is answered with its own tag and the configuration of the second. |
| Encoding.ObjectDecodesIff | encoding.go:215-241 | What an object decodes to: every key is a field or an extension, never both; strict structs take no others. |
| Encoding.EncodeMeans | encoding.go:196-211 | A struct is written as its extensions and each field that they do not hide and that is not an omitted zero. |
| Encoding.RoundTripIff | encoding.go:196-241 | For values of any configuration type, decoding what was encoded gives the value back if and only if no extension, at any depth, is named like a field beside it. |
| Encoding.HiddenFieldIsLost | encoding.go:207-211 | An extension named like a field does not come back. |
| ConfigTypes.JsonFieldNames | encoding.go:245-262 | The walk over a struct type finds exactly the keys of its members, promoted ones included; these are the keys of encoding/json when no name is ambiguous. |
| ConfigTypes.SchemaIff | encoding.go:245-262 | The keys of a struct are those that its fields give it, directly or from what they embed. |
| ConfigTypes.MemberIs | encoding.go:245-262 | A field of its own gives a struct a member as its tag says, over anything promoted. |
| ConfigTypes.RouteMembers | config.go:142-164 | The keys of routes. |
| ConfigTypes.SiteMembers | config.go:112-128 | The keys of sites. |
| ConfigTypes.SitesAreUnambiguous | config.go:112-164 | No name is ambiguous in sites, routes and handlers. |
| ConfigTypes.MarshalWithExtensions | encoding.go:196-211 | Extensions are merged over the struct's own members. |
| ConfigTypes.UnmarshalWithExtensions | encoding.go:215-236 | The keys are partitioned into known ones and extensions. |
| ConfigTypes.ShorthandMeansMainField | encoding.go:161-166 | A string decodes like an object with only the main field. |
| ConfigTypes.SiteRoundTripIff | encoding.go:67-104 | A site with its routes survives a round trip if and only if its extensions avoid the names of site fields and each route's avoid those of route fields. |
| Events.EventLog.Add | events.go:32-41 | Appends to the history of which the ring shows the end. |
| Events.EventLog.List | events.go:44-48 | Returns the last min(n, 256) events, oldest first. |
| Events.Overwritten | events.go:39-47 | Overwriting the oldest entry and moving on drops the oldest event and adds the new one. |

## Left out

- Sockets, HTTP and TLS handshakes, ServeMux matching and reverse proxying are library code; only success, failure and the state change are modelled.
- A listener whose Serve failed stays in the map of running listeners; the model talks about the map, specs and sockets, not about liveness (server.go:543-546).
- How long draining takes, and the transports closed after a commit (server.go:558-568, server.go:605-620).
- Routes.CompileRoute: whether a handler and its extensions compile is an input (proxy, file, response and redirect settings are not modelled), and so is what ServeMux accepts.
- Routes.CompileTable: the same inputs.
- Routes.CompileRoutes: the same inputs, and the extensions of the site as a flag.
- Sites.Compiler.CheckSite: the same inputs, and the extensions of a site, are flags of the configuration.
- Sites.Compiler.AddSite: the same inputs are flags of the configuration.
- Compile.CompileSites: the same inputs are flags of the configuration.
- Compile.CompileRest: the same inputs are flags of the configuration.
- Compile.Compile: does not fill in or validate the server limits and durations (compile.go:153-175), and takes the inputs just named as flags.
- Handlers: the snapshot of `Compile.Compile` does not contain closures; `Serving.PlansOn` derives them from the configuration. Which route ServeMux picks is an input.
- The snapshot and the host tables of a compiled configuration are values; only the tables being filled are objects.
- Obtaining a certificate (acme.go:325-530): an attempt ends with a certificate, an error, or cancellation.
- X.509 parsing, hashing and file access: a file yields a leaf or fails.
- `Hosts.NormalizeHost` covers ASCII; Unicode case folding and spaces are not modelled.
- IP and port parsing of addresses are parameters (`isIP`, `port`).
- Float rounding in rate limits and in Retry-After: rates are reals. Grouping of IPv6 clients by /64 is left out; keys are strings.
- RateLimiter.RateLimiter.Position: the source keeps a pointer to the list element; the model searches for its position.
- RateLimiterRefinement.RunRefines: needs a monotone clock, as the window bounds do, because the time is read before the lock is taken (policy.go:213, policy.go:228).
- A handler outside the server has no request state, and then every policy runs each time (policy.go:95); `Handlers.Serve` always has the state.
- Middleware given by the embedding program (WithMiddleware) and observers.
- Api.Service.SavedIsActiveIff: the file is what Save wrote last; edits of the file by others are not modelled.
- Api.Service.Run: covers programs that go through the API; direct calls of Server.Apply beside it are not modelled.
- Gateway.Server.Apply: a port left to the kernel counts as free only if what the kernel picks excludes nothing asked for or picked besides; `Binding.FreePick` says so. The premise covers the calls that were made.
- ETags are an arbitrary function of the configuration; the hash is assumed injective only where `Api.Injective` says so.
- YAML decoding, and number and duration formats: `Encoding.Int` stands for both, and extension values keep their JSON form.
- Encoding.Decode: keys of Proxy, Files, Respond and Redirect match exactly; encoding/json also accepts other capitalisation there. Duplicate keys of an object are not modelled.
- ConfigTypes.JsonFieldNames: for ambiguous names, which encoding/json drops, and for embedded structs that are not exported, the keys differ from those of encoding/json; neither occurs in sites, routes and handlers.
- Client IP handling, metrics, the updater, the web interface and the command line.
