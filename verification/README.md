# Models of Myriad's protocols, scanners and embedded programs

These Dafny files model the parts of Myriad whose correctness is hardest to see from one
function body, and prove what each of them promises over every input or every run.

| files | what they model |
|---|---|
| `SwCache`, `SwProtocol`, `SwWrites`, `SwSizes`, `SwGenerations`, `SwOverflow`, `SwWorker` | the service worker's write queues and its cache clearer: any number of writes and overlapping clears, step by step between awaits |
| `RustText`, `RustComments`, `RustCommentSlices`, `RustCommentGrammar` | the comment extractor of the authored-comment walk: its loop, what it returns on any text, and a grammar of Rust text it is exact on |
| `ItemSkipper`, `ItemGrammar` | `skip_item`, `strip_cfg_test_items` and `read_literal`, a second scanner with rules of its own, and the grammar it supports |
| `ProxyHeaders`, `ProxyTokens`, `ProxyForwarding` | the proxy's header policy (section 7.6.1 of RFC 9110; the handshake of section 4 of RFC 6455), the client-address walk, and chains of proxies |
| `ProxyAdmission` | the six admission budgets, held over streamed bodies and WebSocket bridges |
| `ProxyMaintenance` | the double-checked, fail-closed cache of the maintenance file |
| `GuestFilter` | the classic-BPF seccomp program, a machine that runs it, the policy it stands for, and the file it is written to |
| `StorageQuota` | the storage-quota trigger under its advisory lock, with interleaved transactions |
| `MigrationGate` | the support-floor gate, cut off and restarted at any commit |
| `Usernames`, `Revisions` | the username clean-up, and the revision triggers |
| `Common`, `Letters` | an option type and decimal numerals; classes of characters, written out |

Code that changes things in place is written as methods and classes whose contracts tie the
new state to a function or to a step of a state machine; the results are then lemmas about
that function, or about every run of that machine.

## Where the code does not do what one would expect

The model follows the code, and these lemmas say so.

- `RustCommentSlices.EscapedNewlineInCharMiscounts`: a backslash before a newline inside a
  char literal hides that newline from the line counter. `ExtractedSlices` says that a line
  number is right exactly when the scanner stood at no such backslash before the comment.
- `ItemGrammar.SkipsItem`: the comment above `skip_item` promises to skip through the body or
  the semicolon. It skips exactly the item if and only if the item's first semicolon or pair of
  braces outside braces is its last part. `SemicolonStopsEarly` and `BracedUseLeavesSemicolon` are
  the two ways to fail that. `EscapedQuoteResumesEarly`, `WideCharSwallowsQuote`,
  `BraceBehindWideCharCounts` and `ByteRawStringIsAString` are literals it misreads, and
  `ItemSkipper.PanicsExactly` says exactly when it panics (`UnendedRawStringPanics`).
- `RustCommentGrammar.WideLifetimeOpensChar`: the comment extractor takes a lifetime whose name
  does not begin in ASCII for a char literal.
- `SwSizes.SizeBound` and `SwOverflow.BoundIsReached`: the comment on the write queue says
  that parallel requests cannot exceed the cap. A cache is one over its cap between a write and
  its eviction, and every task that fails between the two may leave one more entry, until a
  later eviction of that cache takes them all.
- `ProxyMaintenance.DroppedReadIsRepeated`: two disk reads are a TTL apart unless the caller
  of the first was dropped while it read; then the next caller to get the lock reads at once.
- `MigrationGate.TenSortsBeforeNine`: marks are compared as text, which is their order against
  the present floor (`ByteOrderIsDateOrder`) but would not be against every floor.
- `Usernames.RenamedMayCollide`: a renamed user may take the name of a user that was kept; the
  unique index is then refused. `IndexHoldsExactly` gives the exact condition.

## Model

| member | source | states |
|---|---|---|
| SwCache.WriteLeavesNewest | frontend/public/sw.js:68-78 | a write and its eviction leave at most the cap of entries, all unexpired, the written one last, whatever the cache held before; an unexpired entry goes only if a full cap of entries stays, all of which stood behind it |
| SwCache.OriginMonotone | frontend/public/sw.js:68-78 | eviction keeps insertion order: what is kept stands in the order in which it stood |
| SwCache.FreshComplete | frontend/public/sw.js:72-76 | the expiry pass keeps every entry that survives |
| SwCache.LimitedUnique | frontend/public/sw.js:68-78 | eviction never leaves two entries of one key |
| SwCache.PutReplaces | frontend/public/sw.js:133 | a put takes out the one entry of its key, if there is one, and no other, and appends the new one |
| SwCache.SurvivesExactly | frontend/public/sw.js:104-111 | an entry is unexpired exactly if expiry is off or it carries a readable time not more than the age ago |
| SwCache.Cache.Put | frontend/public/sw.js:133 | `put` drops the key's old entry and appends the new one |
| SwCache.Cache.Delete | frontend/public/sw.js:74 | `delete` removes exactly the entry of the key |
| SwCache.Cache.Match | frontend/public/sw.js:73 | `match` finds the entry of the key if there is one |
| SwCache.CacheWithTimestamp | frontend/public/sw.js:113-134 | anything but a GET, and a 206, leaves the cache alone; all else is stored with its time |
| SwCache.LimitCacheSize | frontend/public/sw.js:68-78 | the loop and the deletes leave the newest unexpired entries, in order, the clock read anew for each key |
| SwCache.EvictOldest | frontend/public/sw.js:77 | the slice of retained keys that is deleted is all but the newest `maxSize` |
| SwProtocol.StepKeeps | frontend/public/sw.js:80-102 | every step of writes and clears keeps the invariant: one running task a cache, tails are last, clears wait for every older write, no stale entry outlives a clear |
| SwProtocol.ClearedForGood | frontend/public/sw.js:267-295 | once a clear has reported success, no reachable cache holds an entry scheduled under an older generation, then or at any later point, whatever overlaps it |
| SwProtocol.FlagAndOverlap | frontend/public/sw.js:84-101 | the clearing flag is up exactly while the clear of the current generation is in flight, and two tasks of one cache never run at once |
| SwProtocol.Quiescence | frontend/public/sw.js:98-101 | with all clears settled writes are admitted again, and with all tasks cleaned up the chain map is empty |
| SwGenerations.BeginsUnderItsGeneration | frontend/public/sw.js:92 | no step makes a queued write begin unless its generation is the current one |
| SwGenerations.BeginsToWrite | frontend/public/sw.js:92-121 | under that generation it begins, and by writing exactly if it is a GET answered without a 206 |
| SwGenerations.QueuedBeforeClearNeverRuns | frontend/public/sw.js:89-92 | a write still queued when a clear starts never runs, in any later run, whether that clear succeeds or fails |
| SwGenerations.BornOutsideClears | frontend/public/sw.js:84-97 | a task is born only while the clearing flag is down, as it was asked for, under the current generation, behind the last task of its cache |
| SwGenerations.SuccessTakesTwoPasses | frontend/public/sw.js:271-284 | a clear that reports success has listed the caches twice, the second time after deleting all it listed first, and has deleted all it listed then |
| SwWrites.CompletedWrite | frontend/public/sw.js:90-101 | a task that writes and evicts, with any steps of others in between but a delete of this cache, leaves its cache with the newest unexpired entries of what it found and wrote, the written one last |
| SwWrites.WriteRunIsRun | frontend/public/sw.js:90-101 | the run that `CompletedWrite` speaks of is an ordinary run |
| SwSizes.SizeBound | frontend/public/sw.js:80-101 | from within its cap, a cache is never over it by more than the tasks of that cache that failed between write and eviction since it was last evicted or deleted, and one more only while a task of it is about to evict |
| SwOverflow.BoundIsReached | frontend/public/sw.js:90-101 | that bound is reached: for every number of such failures some run leaves that many entries more than the cache held, and one more before the next eviction |
| SwWorker.ServiceWorker.constructor | frontend/public/sw.js:81-83 | the worker starts with no chain, generation 0, and not clearing |
| SwWorker.ServiceWorker.ScheduleCacheWrite | frontend/public/sw.js:84-102 | scheduling is dropped while clearing, and otherwise chains the task behind the cache's last one under the generation of now |
| SwWorker.ServiceWorker.BeginWrite | frontend/public/sw.js:92-121 | a task of another generation settles without writing; one that is not a GET, or got a 206, goes on to evict; any other goes on to write |
| SwWorker.ServiceWorker.CleanUp | frontend/public/sw.js:98-100 | only the last task of a chain takes the chain away |
| SwWorker.ServiceWorker.OnClearCache | frontend/public/sw.js:267-271 | a clear bumps the generation, raises the flag and waits for the tails of all chains |
| SwWorker.ServiceWorker.SettleClear | frontend/public/sw.js:292-294 | only the clear of the current generation lowers the flag |
| RustComments.SkipRawPrefixAt | backend/src/authored_comments.rs:61-84 | finds the quote and the hashes of a raw literal that opens at `i`, and nothing after an identifier character |
| RustComments.CommentBranch | backend/src/authored_comments.rs:104-139 | the two comment branches of the loop are one turn of the scanner |
| RustComments.LiteralBranch | backend/src/authored_comments.rs:141-193 | so are the branches for raw strings, strings and chars |
| RustComments.CodeBranch | backend/src/authored_comments.rs:195-254 | and those for code |
| RustComments.Iterate | backend/src/authored_comments.rs:100-255 | every turn keeps the flags equal to one mode: at most one of the five is ever set |
| RustComments.ExtractRsComments | backend/src/authored_comments.rs:86-263 | the loop, run over any text, returns the lines and texts the scanner finds |
| RustText.IdentsAreWords | backend/src/authored_comments.rs:57-59 | the identifier test finds exactly the ASCII letters, digits and the underscore, by which the grammars speak |
| RustCommentSlices.ExtractedSlices | backend/src/authored_comments.rs:86-263 | on any text: whole comments of the text, in order, disjoint, and a line is one plus the newlines before the comment exactly if no turn of the scanner before it stands in a char literal at a backslash with a newline behind it |
| RustCommentSlices.ScanCountsMissed | backend/src/authored_comments.rs:180-193 | those turns are exactly the ones in which the line counter misses a newline |
| RustCommentSlices.CommentsOpenInCode | backend/src/authored_comments.rs:237-250 | on any text each comment opens where the scanner stands in code, outside every literal and every other comment |
| RustCommentSlices.LinesAreRight | backend/src/authored_comments.rs:162-193 | so every line number is right in a text whose char literals escape no newline, whatever its strings and comments hold |
| RustCommentSlices.EscapedNewlineInCharMiscounts | backend/src/authored_comments.rs:180-184 | with one inside a char literal a line number is wrong |
| RustCommentSlices.TurnCountsNewlines | backend/src/authored_comments.rs:100-255 | the counter and the newlines it missed together count every newline passed |
| RustCommentGrammar.ExtractsRenderedComments | backend/src/authored_comments.rs:86-263 | on every text rendered from the grammar (nested comments, strings, raw strings with any number of hashes, chars, lifetimes) exactly the comments, in order, with the lines they start on |
| RustCommentGrammar.ExtractFromTokens | backend/src/authored_comments.rs:86-263 | the same of the program's loop |
| RustCommentGrammar.BlockCommentScans | backend/src/authored_comments.rs:117-139 | a block comment with any nesting ends at the mark that closes it |
| RustCommentGrammar.RawStrPasses | backend/src/authored_comments.rs:141-160 | a raw string with any number of hashes and any prefix is passed over whole |
| RustCommentGrammar.RawPrefixOpens | backend/src/authored_comments.rs:61-84 | a raw literal is recognized only where the text really opens one |
| RustCommentGrammar.LifetimePasses | backend/src/authored_comments.rs:213-231 | a lifetime is not taken for a char literal |
| RustCommentGrammar.WideLifetimeOpensChar | backend/src/authored_comments.rs:213-235 | but one whose name does not begin in ASCII is |
| ItemSkipper.SkipItem | backend/src/error.rs:269-333 | the loop over bytes and depth returns what the scanner leaves, or panics where it does |
| ItemSkipper.JumpBranches | backend/src/error.rs:274-317 | the branches for comments, raw strings, strings and chars move as far as the scanner says |
| ItemSkipper.StripCfgTestItems | backend/src/error.rs:255-265 | the loop over the marks returns the stripped source |
| ItemSkipper.ReadLiteral | backend/src/error.rs:337-353 | the loop over characters returns the literal and the rest |
| ItemSkipper.FindIsFirst | backend/src/error.rs:259 | a search finds the first place at which the text stands, if there is one |
| ItemSkipper.PanicsExactly | backend/src/error.rs:287-297 | from any place, the scanner panics exactly if some turn of it stands at a raw string that does not end |
| ItemSkipper.SkipItemReturnsSuffix | backend/src/error.rs:269-333 | on any text, `skip_item` returns exactly if it meets no such raw string, and then returns a suffix of its input |
| ItemSkipper.EndedRawStringsReturn | backend/src/error.rs:287-297 | so it returns for every text all of whose raw strings end |
| ItemSkipper.SkipGivesSuffix | backend/src/error.rs:269-333 | whatever it returns is a suffix of its input |
| ItemSkipper.UnendedRawStringPanics | backend/src/error.rs:293-295 | with a raw string that does not end it may panic |
| ItemGrammar.SkipsItem | backend/src/error.rs:267-333 | of any parts, with braces hidden in strings, raw strings, chars and comments, it leaves exactly the text behind them if and only if their first semicolon or pair of braces outside braces is the last part, or there is none and a closing brace or the end follows |
| ItemGrammar.SkipsToFirstEnd | backend/src/error.rs:318-327 | of any parts, what it leaves: the text behind the first semicolon or pair of braces outside braces |
| ItemGrammar.StripsSource | backend/src/error.rs:254-265 | stripping a rendered source whose annotated items end so leaves exactly what is not annotated |
| ItemGrammar.ReadsLiteral | backend/src/error.rs:337-353 | a rendered string is read back as written |
| ItemGrammar.LiteralSplits | backend/src/error.rs:335-353 | on any text, literal, quote and rest put together are the text |
| ItemGrammar.ScannersAgreeOnStrings | backend/src/error.rs:298-306 | `skip_item` and `read_literal` agree on where any string ends |
| ItemGrammar.SemicolonStopsEarly | backend/src/error.rs:327 | the first semicolon outside braces ends any item, also inside brackets, and all behind it stays |
| ItemGrammar.BracedUseLeavesSemicolon | backend/src/error.rs:321-326 | the semicolon behind any braced `use` stays |
| ItemGrammar.EscapedQuoteResumesEarly | backend/src/error.rs:307-315 | an escaped quote is taken for the end of its char literal, and the real end for a literal's start if a quote stands two bytes behind it |
| ItemGrammar.EscapedQuotePasses | backend/src/error.rs:307-316 | else the literal is passed over whole |
| ItemGrammar.WideCharSwallowsQuote | backend/src/error.rs:307-316 | the quote that ends a char literal of several bytes takes a quote two bytes behind it along |
| ItemGrammar.BraceBehindWideCharCounts | backend/src/error.rs:307-318 | so a brace in the next char literal counts |
| ItemGrammar.ByteRawStringIsAString | backend/src/error.rs:287-306 | a byte raw string is read as an ordinary string |
| ProxyHeaders.ParseConnectionTokens | proxy/src/main.rs:1005-1022 | the loops over repeated fields and their parts collect the lowered tokens that are header names |
| ProxyTokens.NominatesExactly | proxy/src/main.rs:1005-1022 | of any Connection fields, a name is nominated exactly if an element of a field that is text is that name in any case, whatever blanks are around it and whatever else is there |
| ProxyTokens.EveryHeaderHasFields | proxy/src/main.rs:1007-1011 | all header values are fields of that grammar |
| ProxyTokens.TrimIsTheElement | proxy/src/main.rs:1012 | trimming gives the element between the blanks, and only that |
| ProxyTokens.SplitJoin | proxy/src/main.rs:1011 | elements joined by commas are split back |
| ProxyHeaders.BuildRequestHeaders | proxy/src/main.rs:907-938 | the copying loop keeps what is neither managed nor stripped, then writes the pair and the client address |
| ProxyHeaders.FilterForwardResponseHeaders | proxy/src/main.rs:943-971 | the same for responses |
| ProxyHeaders.BuildForwardRequestHeaders | proxy/src/main.rs:1113-1142 | a forwarded request's headers, from one trust decision |
| ProxyHeaders.ValuesInsert | proxy/src/main.rs:925-937 | an insert replaces all values of its name and touches no other |
| ProxyHeaders.ValuesCopied | proxy/src/main.rs:913-923 | copying keeps all the values of a name in order, or none |
| ProxyForwarding.ForwardedValues | proxy/src/main.rs:1113-1142 | what is forwarded under each name, for every name |
| ProxyForwarding.RequestPolicy | proxy/src/main.rs:892-938 | none of the ten hop-by-hop fields and no field that a Connection element names is forwarded but the canonical pair and what the proxy writes itself; every other field but the CDN's keeps all its values in order |
| ProxyForwarding.ResponsePolicy | proxy/src/main.rs:943-971 | the same for responses, the pair only as far as the upstream sent it |
| ProxyForwarding.HandshakeExactly | proxy/src/main.rs:569-577 | a request is a handshake exactly if a Connection element is `upgrade` and the first Upgrade value `websocket`, in any case |
| ProxyForwarding.TrustedPeerIsBelieved | proxy/src/main.rs:1123-1189 | from a trusted peer the first scheme and hosts are believed, and each host stands in for the other |
| ProxyForwarding.SecondProxyChangesNothing | proxy/src/main.rs:1113-1142 | a second proxy that trusts the first forwards the same headers, for HTTP and for handshakes, if the client address, written out, reads back as itself |
| ProxyForwarding.HandshakeStays | proxy/src/main.rs:569-577 | a forwarded handshake is a handshake to the next proxy |
| ProxyForwarding.ChainResolves | proxy/src/main.rs:1075-1093 | behind a trusted peer the client is the last untrusted address, whatever stands before it, however the chain is split over fields, whatever does not parse or is not text, and whatever the other headers are |
| ProxyForwarding.FieldsAreOneChain | proxy/src/main.rs:1054-1065 | a chain split over fields, with fields that are not text among them, is read as one |
| ProxyForwarding.FallbackResolves | proxy/src/main.rs:1095-1107 | if no untrusted address is forwarded, the client is the first address of the CDN's fields, else of X-Real-IP, else the leftmost hop, else the peer |
| ProxyForwarding.UntrustedPeerIsItself | proxy/src/main.rs:1076-1079 | from an untrusted peer address and scheme are the connection's and both hosts the Host it sent |
| ProxyAdmission.DomainsAreDisjoint | proxy/src/main.rs:530-566 | no path is both a persona path and a federation path |
| ProxyAdmission.BudgetsAreConserved | proxy/src/main.rs:279-431 | in every reachable state, of each budget, available permits and live holders are its capacity |
| ProxyAdmission.PermitsMatchPaths | proxy/src/main.rs:306-421 | a permit held or refused is of the pool that path and method select; outside both domains nothing is held or refused |
| ProxyAdmission.PermitsAreForKinds | proxy/src/main.rs:306-421 | in every reachable state, who holds or was refused a permit is of the kind its pool is for, with the paths written out, and who is of that kind holds one all the while it waits, its answer streams, or its bridge is up |
| ProxyAdmission.PoolIsForKind | proxy/src/main.rs:325-340 | a request draws on a pool exactly if it is of that kind |
| ProxyAdmission.PersonaExactly | proxy/src/main.rs:530-544 | a persona path is one of four roots, or goes on behind it with a slash |
| ProxyAdmission.FederationExactly | proxy/src/main.rs:548-566 | a federation path is one of four, or goes on behind one of ten roots |
| ProxyAdmission.ArrivalExactly | proxy/src/main.rs:233-430 | which arrivals are answered at once, with what; any other gets a permit of its kind, or is refused if none is left, or needs none |
| ProxyAdmission.BudgetsInNumbers | proxy/src/main.rs:279-431 | of each budget, available permits and holders are 32, 64, 16, 16, 32 and 64 |
| ProxyAdmission.OutsideIsAdmitted | proxy/src/main.rs:371-430 | a request outside both domains is let through whatever the budgets are, and over every run no step of it changes any |
| ProxyAdmission.HoldsAtMostOnce | proxy/src/main.rs:434-464 | a request that gave its permit back never holds one again, and none holds two |
| ProxyAdmission.ReturnsItsPermit | proxy/src/main.rs:434-464 | the step that ends a hold returns exactly that one permit |
| ProxyAdmission.DeclinedUpgradeReturnsFirst | proxy/src/main.rs:613-623 | a refused upgrade gives its permit back when the refusal is relayed, and over every run holds nothing from then on, through the end of its body |
| ProxyAdmission.StepKeeps | proxy/src/main.rs:279-431 | every step keeps permits and paths in accord |
| ProxyAdmission.Proxy.TryAcquire | proxy/src/main.rs:311 | takes a permit if one is left, and only then |
| ProxyAdmission.Proxy.Branches | proxy/src/main.rs:233-431 | the handler's branches select the route and the pool |
| ProxyAdmission.Proxy.Handle | proxy/src/main.rs:228-431 | an arriving request is the machine's arrival step |
| ProxyMaintenance.ReadsAreApart | proxy/src/main.rs:1191-1228 | two disk reads never overlap, and begin a TTL after the end of any earlier one whose caller was not dropped |
| ProxyMaintenance.DroppedReadIsRepeated | proxy/src/main.rs:1201-1207 | wherever a run has come to, after a dropped read no caller is answered from the cache and the next one to get the lock reads at once |
| ProxyMaintenance.ReadMayBeRepeatedAtOnce | proxy/src/main.rs:1207 | a run in which that happens |
| ProxyMaintenance.InactiveIsEarned | proxy/src/main.rs:1191-1239 | every answer is under a TTL old, and inactive exactly if the last stored read found the file missing or inactive |
| ProxyMaintenance.FailsClosed | proxy/src/main.rs:1209-1224 | after a failed read every answer is active until a read succeeds, and an active notice stays as it was |
| ProxyMaintenance.ReplayFailsClosed | proxy/src/main.rs:1209-1224 | what the cache holds after any number of failed reads |
| ProxyMaintenance.StepKeeps | proxy/src/main.rs:1191-1228 | every step of any callers keeps the cache, the lock and the log in accord |
| ProxyMaintenance.MaintenanceCache.FastPath | proxy/src/main.rs:1192-1199 | the check under the read lock answers from a fresh cache and else waits |
| ProxyMaintenance.MaintenanceCache.SlowPath | proxy/src/main.rs:1201-1206 | the check under the write lock does the same, and else begins a read |
| ProxyMaintenance.MaintenanceCache.StoreRead | proxy/src/main.rs:1207-1227 | the read is stored with the time of its end, and an unreadable file answers active |
| GuestFilter.FilterIsPolicy | docker/mcp-tool/guest_filter.py:12-38 | on either machine, for every architecture word, call number and argument, running the program gives the policy's decision |
| GuestFilter.HaltsAtAReturn | docker/mcp-tool/guest_filter.py:20-38 | any program of loads, comparisons and returns that stays in bounds and ends in a return halts, within its length, at one of its own returns |
| GuestFilter.TheProgramIsInBounds | docker/mcp-tool/guest_filter.py:20-38 | the program is such a program, for either machine |
| GuestFilter.NamespaceMask | docker/mcp-tool/guest_filter.py:35 | the mask tests exactly the seven flags of clone that make a namespace |
| GuestFilter.AbiAgrees | docker/mcp-tool/guest_filter.py:14-18 | the program's numbers are the audit architectures and the calls clone, unshare and setns of either kernel |
| GuestFilter.Layout | docker/mcp-tool/guest_filter.py:44 | a row is eight bytes, low bytes first, the jumps between code and operand |
| GuestFilter.ArchRowBytes | docker/mcp-tool/guest_filter.py:22 | the bytes of one row of the shipped file |
| GuestFilter.DecodesEncoded | docker/mcp-tool/guest_filter.py:41-44 | reading the written file gives the program back, for any program |
| GuestFilter.EncodesDecoded | docker/mcp-tool/guest_filter.py:44 | a file is readable exactly if its length is a multiple of 8, and then is the encoding of what was read |
| GuestFilter.ShippedFileIsPolicy | docker/mcp-tool/guest_filter.py:41-44 | what is read from the shipped file decides as the policy |
| StorageQuota.NeverOverQuota | backend/migrations/002_tapp_system.rs:780-829 | from any table in which it is so, in every run of interleaved inserts, upserts, updates (moving a row between owners too) and deletes, the keys, values and ciphertexts of each owner, put one after another, are at most 8388608 bytes, in what is committed and in what any transaction sees |
| StorageQuota.EnforceTappStorageQuota | backend/migrations/002_tapp_system.rs:782-823 | the trigger lets a write through exactly if in the table it leads to, also by replacing the row of its key, that text of the owner is at most 8388608 bytes |
| StorageQuota.ProjectsTheOutcome | backend/migrations/002_tapp_system.rs:792-819 | with the unique index, the projection by id or by key is what the owner will store |
| StorageQuota.SumIsLength | backend/migrations/002_tapp_system.rs:793-797 | the sum is the length of an owner's keys, values and ciphertexts |
| StorageQuota.ProjectsTheReplacement | backend/migrations/002_tapp_system.rs:804-814 | for an insert that meets a row of its key, the projection is what the owner stores once that row is replaced |
| StorageQuota.WriteIsSeen | backend/migrations/002_tapp_system.rs:780-829 | a written row is in its transaction's view at once, and in no other's |
| StorageQuota.DeleteIsSeen | backend/migrations/002_tapp_system.rs:780-829 | so is a deletion |
| StorageQuota.EndsAreSeen | backend/migrations/002_tapp_system.rs:788-790 | a commit makes that view what is committed, an abort changes nothing, and both give back every lock |
| StorageQuota.OthersStoreNoMore | backend/migrations/002_tapp_system.rs:792-802 | a write adds nothing to any other owner |
| StorageQuota.StepKeeps | backend/migrations/002_tapp_system.rs:780-829 | every step of any transaction keeps the invariant |
| StorageQuota.CommitShrinksLocked | backend/migrations/002_tapp_system.rs:788-790 | another's commit never adds to what a transaction sees of an owner whose lock it holds |
| StorageQuota.TappStorage.TakeLock | backend/migrations/002_tapp_system.rs:788-790 | the advisory lock is taken before the sum |
| StorageQuota.TappStorage.RunTrigger | backend/migrations/002_tapp_system.rs:792-823 | the sum decides on the write, or ends the transaction |
| StorageQuota.TappStorage.PutRow | backend/migrations/002_tapp_system.rs:780-829 | the row is written for its own transaction |
| StorageQuota.TappStorage.CommitAll | backend/migrations/002_tapp_system.rs:788-790 | a commit publishes the rows and releases the lock |
| MigrationGate.NewDatabaseIsNeverRefused | backend/migrations/lib.rs:58-89 | from an empty database, whatever startups are cut off between any two commits or run beside one another, none is refused |
| MigrationGate.RestartCompletes | backend/migrations/lib.rs:152-183 | of whatever that leaves, some run of the steps of one startup left alone makes a database with all six migrations built and recorded |
| MigrationGate.DriveIsRun | backend/migrations/lib.rs:152-183 | the commits of one startup, one after another, are a run of the machine |
| MigrationGate.UnsupportedIsUntouched | backend/migrations/lib.rs:70-87 | a database with history and no mark at the floor is left as it is by any number of attempts |
| MigrationGate.UnfinishedMediaIsUntouched | backend/migrations/lib.rs:101-131 | nor does any number of attempts change a supported database whose media upgrade has not finished, or get past its gate, unless only missing files are left and an operator accepts that |
| MigrationGate.PassesMediaExactly | backend/migrations/lib.rs:110-129 | which is exactly when a startup passes the media gate |
| MigrationGate.StartupCompletes | backend/migrations/lib.rs:152-183 | of any supported database, the steps of one startup left alone make one with the six migrations built and recorded and nothing else in its history |
| MigrationGate.RefusesExactly | backend/migrations/lib.rs:66-88 | a history without a mark at the floor is exactly what the floor gate refuses |
| MigrationGate.ByteOrderIsDateOrder | backend/migrations/lib.rs:53-56 | against the floor, byte order is the order of date and count, for every zero-padded date and every count |
| MigrationGate.TenSortsBeforeNine | backend/migrations/lib.rs:53-56 | against another floor it would not be |
| MigrationGate.DiscardKeepsFiles | backend/migrations/lib.rs:207-248 | the discard keeps exactly the versions that have files, and repeating it changes nothing |
| MigrationGate.Database.RefuseBelowSupportFloor | backend/migrations/lib.rs:63-89 | the block marks a new database, passes a supported one, and refuses and changes nothing otherwise |
| MigrationGate.Database.DiscardUnknownMigrationHistory | backend/migrations/lib.rs:218-248 | deletes the unknown versions if the table is there |
| Usernames.IndexHoldsExactly | backend/migrations/006_oauth_identities.rs:130-153 | after the rename the unique index can be created exactly if no kept name equals a renamed one |
| Usernames.SuffixesDiffer | backend/migrations/006_oauth_identities.rs:139-143 | two renamed users never share a lowered name, whatever their names were |
| Usernames.KeptDiffer | backend/migrations/006_oauth_identities.rs:134-138 | nor do two kept ones |
| Usernames.RenamesDuplicates | backend/migrations/006_oauth_identities.rs:134-143 | the row-number rule renames exactly those users whose name a user with a smaller id has |
| Usernames.UniqueIsUntouched | backend/migrations/006_oauth_identities.rs:134-143 | a table that meets the index is left as it is |
| Usernames.RenamedMayCollide | backend/migrations/006_oauth_identities.rs:130-153 | three users for whom the index cannot be created |
| Usernames.UsersTable.RenameDuplicates | backend/migrations/006_oauth_identities.rs:132-146 | the update appends their id to the duplicates and changes no other row |
| Usernames.UsersTable.MakeUnique | backend/migrations/006_oauth_identities.rs:130-153 | rename and index together fail exactly on a collision |
| Revisions.SameRevisionSameText | backend/migrations/003_phantasi_system.rs:1055-1065 | over every run of updates, also ones that set the revision, two states of one row with one content revision hold the same content and Markdown, and the revision never falls |
| Revisions.RevisionCountsChanges | backend/migrations/003_phantasi_system.rs:1055-1065 | the revision counts the updates that changed the text |
| Revisions.TextMayReturn | backend/migrations/003_phantasi_system.rs:1055-1065 | the same text may have different revisions |
| Revisions.StateRevisionGrows | backend/migrations/003_phantasi_system.rs:1046-1051 | a reading state's revision grows strictly with every update |
| Revisions.StateRevisionCounts | backend/migrations/003_phantasi_system.rs:1046-1051 | and by one each time, whatever the update sets |
| Revisions.ItemRow.Set | backend/migrations/003_phantasi_system.rs:1055-1067 | an update takes every column but the revision, which moves by one if the text changed |
| Revisions.ReadingRow.Set | backend/migrations/003_phantasi_system.rs:1046-1053 | an update takes every column but the revision, which moves by one |

## Left out

Service worker
- The precache of `install` and the clean-up of `activate` write outside the queues; runs start when both are over. The worker is not stopped between a write and its eviction.
- The eviction of one task is one step, its clock readings apart: keys are deleted one after another in the code, and only tasks of the same cache, which never overlap, write to it. A clear that deletes the cache in between is modelled around that step.
- Deletes left in flight by a failed clear are modelled; deletes left in flight by a failed eviction are not.
- Keys are strings: `Vary` and the matching of requests are not part of this model. The browser's own quota is a failed task.

Scanners
- Bytes are characters with the byte's code; UTF-8 decoding and the lossy conversion are not modelled. All bytes the scanners compare with are ASCII.
- `strip_comment`, `skip_body`, the phrase lists and the walk over files.
- In `ItemGrammar` a byte raw string, a nested block comment, and a char literal that escapes a quote or has several bytes where a quote stands two bytes behind it, are outside the grammar, because the scanner misreads them.
- In `RustCommentGrammar` the names of lifetimes are ASCII, because the extractor misreads others; a char literal does not escape a newline, because the extractor miscounts it.

Proxy
- Sockets, hyper's clients, timers and TLS are outcomes of steps. The choice of an upstream, the SEO shell, the updater's channel and the maintenance page are left out; the maintenance answer and the isolation flags are inputs of admission.
- IP and CIDR parsing are functions given to the model. `SecondProxyChangesNothing` asks of the one address the first proxy resolved that, printed, it parses back and that its text is visible ASCII without a comma.
- A header value that is not visible ASCII is one that is not text; its bytes are not modelled.
- A disk read of the maintenance file whose caller was dropped counts as ended when it was dropped, though the thread that reads may still be busy.
- The JSON of the maintenance file is an active flag and one text.

Database and kernel
- The quota model takes READ COMMITTED as the isolation level, row locks and the transaction-scoped advisory lock as PostgreSQL documents them. Savepoints, and updates that touch none of the trigger's columns, are left out. Stopping on a row that another transaction holds is waiting.
- The migration gate's media block is modelled by the fields it reads. Text is compared in byte order. What the migrations build is a set of names.
- LOWER works character by character and leaves digits and underscores as they are. The limit of 255 characters on a username, which a long renamed name can hit, is not modelled, nor are the ranges of the integer columns.
- The other seccomp filter, Docker's, that the guest filter is layered over. Machines other than the two, for which the program is not defined.
- `config.rs`, `runtime_role.rs`, `extract.rs`, cache-control tables and phase progress are finite tables that would add only easy members. Federation and persona leases and Tapp scheduling are not part of this model.
