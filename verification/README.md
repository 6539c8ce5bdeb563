# Verified models of the homework repository

Five components are modelled as the code stands, with its deviations from what
one would expect: the middleware router of `homework2`, the SQL builder, model
registry and row valuers of `homework_subquery`, the wire format of `rpc`, the
byte-limited LRU cache of `homework_memory_limit` and the graceful shutdown of
`homework_graceful_shutdown`. `dafny verify dfyconfig.toml` checks everything.

Code that changes things in place is imperative here too: the classes `Node`
and `Router`, `Request`, `Response`, `Cursor` and `Conn`, `MaxMemoryCache`, and
`Builder` with its `CacheCell`. Every such method is proved against a function
of the old state, and the promises of the component are lemmas about these
functions. Where a promise fails, the lemma is an equivalence that says exactly
when it holds. A panic is a failure result (`None`, `null`, or `ok == false`).

**Router** (`Segments`, `Routing*`, `Router`). The trie is a heap of nodes whose
abstraction is a table from locations (method and key path) to handler,
middleware and labels. `addRoute` is an update of that table; `findRoute` is a
greedy walk and `findMdls` a breadth-first one, and both are characterised by
matching key paths. Regular expressions are a parameter (which expressions
compile, which segments they match), handlers and middleware are opaque values.
The name check at `homework2/route.go:302` compares with the name of the parent
node, so regex edges are keyed by their expression. When the walk ends early at a
star, `findMdls` starts the request over from that star (`homework2/route.go:97`);
`RoutingStars` says when the middleware above is lost there. What the table functions
compute is said once more without them: `RoutingPatterns` says how each pattern segment
reads, `RoutingMiddleware` which nodes a middleware list is made of, and
`RoutingServed` when a registration is accepted, when its route serves a request and
which parameters it binds.

**SQL** (`Sql*`, `Models`, `Rows`). The text is modelled as tokens: quoted names,
placeholders, raw text with its own number of placeholders, keywords, operators
and parentheses; white space is not a token. User-built trees (`Selector`,
`Expression`, ...) refer to builder objects and to the shared cache cell of a
subquery. Every writing method of `Builder` is proved against one law, over trees
the API can build, with balanced raw expressions, in which a subquery may be shared
between any number of expressions: the method appends the text of the resolved
tree, fails exactly when there is none, and appends the arguments of each
subquery's first use only, because the cell a first use fills holds the text
without them (`OnceE`, `OnceSel`, ...; `filled` are the cells filled before). Where
nothing is shared these are all arguments of the tree (`FreshReady` and its
companions), and `SqlSharing` proves when that is so: a built statement has as many
arguments as placeholders exactly when no cell whose text has placeholders is used
twice. A parser that takes arguments as it meets placeholders recovers the resolved
tree from the text. `SqlMeaning` and `SqlWriteMeaning` say what such a tree asks for in
terms of the user's statement alone: the value of expressions and the truth of clauses
under any reading of columns, literals and operators that reads AND, OR and NOT as
usual (WHERE, HAVING and ON take predicates only, so clauses are made of these), the
columns and tables names stand for, the values of inserted rows. Deviations kept: a second use of a subquery writes its text
without its arguments (`homework_subquery/builder.go:146-161`), `Build` never resets
its buffer, `ANY`, `ALL` and `SOME` drop the error of their subquery, and both
upsert dialects return at the first `Assignment`. Of the two row valuers the
reflective one panics on fields that are not exported, reads promoted fields the
model does not know, and leaves the struct alone when a conversion fails, while the
unsafe one keeps the columns before it.

**Wire format** (`Bytes`, `Wire*`, `Frames`). Encoders and decoders work on byte
arrays with a moving cursor; the lengths are `uint32` with wrap-around. The order
in which a map is iterated is a parameter of every statement, and so is how much
of a stream has arrived when it is read: `ReadMsg` ignores what its two reads
deliver (`rpc/tcp.go:11,19`). The capacity of a received slice is its length.

**LRU cache** (`Lru*`). `MaxMemoryCache` and the `MemoryMapCache` inside it are one
object, joined by the eviction callback. Calls are atomic and read the clock once.
Recency is stated over the calls of a run (`LruRecency`): the latest access of a key is
the last Set of it or the last Get that found it.
Empty values and entries that expire inside `Set` are not excluded: `Set` keeps the
list exact unless it overwrites a surviving empty value, and never returns exactly
when it reads an expired entry, because the callback needs the lock `Set` holds.

**Shutdown** (`Shutdown*`). A transition system of the main goroutine, any number of
stop and callback goroutines, requests, and a watcher that may end the process at
any moment. The module is Go 1.18, so the callback goroutines share the loop
variable.

## Model

| member | source | states |
|---|---|---|
| Routing.KeyAndNameDetermineSegment | homework2/route.go:319-330 | parsing a segment loses nothing but what key and parameter name hold |
| Segments.SplitJoin | homework2/route.go:59 | cutting a joined path gives back its segments |
| Segments.LookupCutsLikeRegistration | homework2/route.go:59-88 | registration and lookup, which trim differently, cut every registered path into the same segments |
| Segments.EmptySegments | homework2/route.go:59-66 | cutting yields an empty segment exactly at a leading, a trailing and a double slash |
| Segments.CleanPathIs | homework2/route.go:31-63 | so registrable paths are those with a leading slash, no trailing one and no double one |
| Segments.TrimStrips | homework2/route.go:88 | lookup drops all slashes at both ends of a path and nothing else |
| Segments.SlashesDoNotMatter | homework2/route.go:88 | so a request with extra slashes in front or behind is cut like the path without them |
| RoutingPatterns.SegmentReads | homework2/route.go:186-206 | every segment reads as a star, itself, a plain parameter or a parameter with a regular expression, which decides its slot and the name it stores |
| RoutingPatterns.NamesParameter | homework2/route.go:319-330 | `:name` reads as the parameter `name`, and `:name(expr)` as `name` restricted to `expr` |
| RoutingLaws.WalkLaw | homework2/route.go:55-66 | the creating walk keeps the tree well formed, succeeds exactly on registrable patterns and ends at the pattern's location |
| RoutingLaws.AddRouteRefinesFlatMap | homework2/route.go:28-74 | addRoute accepts exactly when the table before the call allows it; success rebinds the target only, failure rebinds nothing, a location with a handler never changes again |
| RoutingLaws.RunWellFormed | homework2/route.go:243-313 | after any registrations the tree is closed, has at most one non-static child per node, and labels match keys |
| RoutingLaws.RunRefinesFlatMap | homework2/route.go:28-74 | after any run the trie holds the flat map of accepted registrations, middleware in registration order |
| RoutingLaws.HandlerIsForever | homework2/route.go:48-73 | a node with a handler keeps handler and middleware whatever is registered later |
| RoutingCommute.RegistrationsCommute | homework2/route.go:28-74 | if both orders of two registrations succeed the tables are equal exactly when the targets differ or their middleware lists commute |
| RoutingLookup.FrontierExact | homework2/route.go:115-165 | the breadth-first walk holds at depth d exactly the nodes matching the first d segments, once each, non-static first, at most 2^d of them |
| RoutingLookup.WalkEnds | homework2/route.go:91-112 | the greedy walk ends for every request |
| RoutingLookup.EndIsUnique | homework2/route.go:91-112 | and at one node only |
| RoutingLookup.ChildIsGreedy | homework2/route.go:202-236 | a child is taken if and only if some child of the node takes the segment: its own static one if there is one, else the star, parameter or matching regular expression |
| RoutingLookup.LookupIsGreedy | homework2/route.go:78-113 | where the walk ends decides the lookup: node, parameters and middleware list, or not found |
| RoutingLookup.GreedyIsLastOfFrontier | homework2/route.go:214-236 | the greedy walk stands on a matching node, the last one of every breadth-first level |
| RoutingLookup.FullMatchCollectsChain | homework2/route.go:107-111 | at full depth the middleware list holds that of all walked nodes in root-to-leaf order |
| RoutingMiddleware.WalkStartsOver | homework2/route.go:115-165 | from any start the level walk visits exactly the nodes below it that match the request from its first segment on |
| RoutingMiddleware.LevelAdds | homework2/route.go:127-154 | each round adds the middleware of every matching node of that depth, in order, to the list so far |
| RoutingMiddleware.CollectsLevels | homework2/route.go:115-165 | so the list of findMdls is the middleware of all matching nodes of all depths, level by level |
| RoutingMiddleware.LevelsExist | homework2/route.go:115-165 | every request has such levels at every start |
| RoutingMiddleware.FoundWithAllMatching | homework2/route.go:78-113 | a request that is used up gets the middleware of every node that matches it to any depth, on the way of the lookup or not |
| RoutingMiddleware.FoundAtStar | homework2/route.go:95-98 | any other served request ended at a star and gets that of the nodes below the star which match it from its first segment on |
| RoutingMiddleware.RootAndUnknown | homework2/route.go:79-86 | `/` is served by the root with the root's own middleware, and a method without routes is not served |
| RoutingLookup.LastNameWins | homework2/route.go:338-344 | a parameter is bound exactly when a walked node carries its name, to the segment of the deepest one |
| RoutingLookup.StaticRouteIsServed | homework2/route.go:78-113 | an all-static route, once accepted with a handler, is always served by that handler, whatever else is registered |
| RoutingServed.RouteIsServed | homework2/route.go:78-113 | an accepted route of any kind serves a request of its length if and only if the request runs along its pattern and no static sibling takes it over; it runs its own handler with the middleware of all nodes on the way and binds the names its pattern writes, the last one of a name winning (a regular expression that was there before keeps the name it came with, as line 302 does not compare it) |
| RoutingServed.LastParameter | homework2/route.go:319-344 | a lookup that ends at an accepted route ending in `:name` binds `name` to the last segment of the request |
| RoutingServed.AcceptedWhen | homework2/route.go:28-74 | addRoute returns without a panic exactly for the root or a clean path whose every edge fits the slots on the way, when the node at its end has no handler |
| RoutingStars.StarMiddleware | homework2/route.go:95-98 | at a star with no child for the request's first segment an early exit returns the star's own middleware, which holds that of all walked nodes exactly when no node above the star has any |
| RoutingStars.StarDropsMiddleware | homework2/route.go:95-98 | with middleware on `/a` and a handler on `/a/*`, a request for `/a/b/c` is served without that middleware |
| Router.Node.TestOrdersAgree | homework2/route.go:129-147 | findMdls and childOfNonStatic, testing the slots in opposite orders, choose the same child |
| Router.Node.ChildOrCreate | homework2/route.go:243-275 | panics exactly as the slot rules say, changes only the slot of the segment's key, and a new node is bare |
| Router.Node.ChildOrCreateParam | homework2/route.go:277-292 | the same for parameters |
| Router.Node.ChildOrCreateReg | homework2/route.go:294-317 | the same for regular expressions, whose name check reads the parent |
| Router.Router.AddRoute | homework2/route.go:28-74 | the heap trie changes as the table does, success and panic alike, and stays a proper tree |
| Router.Router.FindRoute | homework2/route.go:78-113 | the heap lookup returns what the table lookup returns |
| Router.Router.FindMdls | homework2/route.go:115-165 | the level loop returns the middleware of every node that matches, level by level |
| Router.Router.WalkDown | homework2/route.go:90-106 | the segment loop of findRoute is the greedy descent of the table |
| WireLaws.HeaderLengthOrderFree | rpc/message/request.go:112-124 | the header length does not depend on the iteration order of the metadata |
| WireLaws.RequestRoundTrip | rpc/message/request.go:23-128 | a measured request decodes to itself exactly when its fields hold no delimiter and the frame is below 2^32 bytes, for every pair of iteration orders |
| WireLaws.DecodedIsClean | rpc/message/request.go:63-110 | whatever the bytes, a decoded request holds no delimiter in its fields |
| WireLaws.OversizedIsLost | rpc/message/request.go:24-58 | with truncated lengths a frame of 2^32 bytes or more never survives |
| WireLaws.ResponseRoundTrip | rpc/message/response.go:19-67 | a measured response decodes to itself exactly when it is shorter than 2^32 bytes |
| WireLayout.RequestLayout | rpc/message/request.go:23-61 | the position of every part of an encoded request: three big-endian lengths and numbers, three flag bytes, service and method with their line feeds, each metadata pair with its two delimiters, and as much of the data as fits |
| WireLayout.ResponseLayout | rpc/message/response.go:19-38 | the same for responses |
| WireCodec.EncodeReq | rpc/message/request.go:23-61 | the array filled by the cursor is the specified frame, a slice panic included |
| WireCodec.DecodeReq | rpc/message/request.go:63-110 | the reslicing loop computes the specified request, or panics with it |
| WireCodec.ReadMeta | rpc/message/request.go:90-105 | the metadata loop parses all pairs, later keys winning |
| WireCodec.EncodeResp | rpc/message/response.go:19-38 | the same for responses |
| WireCodec.DecodeResp | rpc/message/response.go:40-59 | the same for responses |
| WireCodec.Request.CalculateHeaderLength | rpc/message/request.go:112-124 | the loop over the map computes the header length modulo 2^32 in the order it takes |
| WireCodec.Request.CalculateLengths | rpc/client.go:77-78 | both calculators leave the measured request, for the iteration order they took |
| WireCodec.Response.CalculateLengths | rpc/message/response.go:61-67 | both calculators, modulo 2^32 |
| WireCodec.ReadMsg | rpc/tcp.go:8-22 | the message or failure and what is left of the stream, whatever part of it has arrived at each read |
| Frames.ReadsOneFrame | rpc/tcp.go:8-22 | one call takes exactly one frame off the stream if and only if both reads deliver all they are asked for |
| Frames.EncodedRequestIsSelfSized | rpc/tcp.go:15-17 | every frame that can be encoded has the size its own length fields add up to |
| Frames.EncodedResponseIsSelfSized | rpc/server.go:75-86 | the same for responses |
| Frames.StreamSplits | rpc/tcp.go:8-22 | repeated reading of concatenated frames that have arrived yields exactly those frames |
| Frames.RequestStreamRoundTrip | rpc/tcp.go:8-22 | any number of clean fitting requests sent one after another is understood request by request |
| LruCache.MaxMemoryCache.OnEvicted | homework_memory_limit/max_memory_cache.go:26-39 | the deleting loop takes the size off the counter and the key off the list |
| LruCache.MaxMemoryCache.ChooseVictims | homework_memory_limit/max_memory_cache.go:64-87 | the loop chooses the last key or all keys, and gets stuck exactly on an expired one |
| LruCache.MaxMemoryCache.Set | homework_memory_limit/max_memory_cache.go:44-114 | Set is the specified step, and fails to return exactly when it reads an expired entry |
| LruCache.MaxMemoryCache.Get | homework_memory_limit/max_memory_cache.go:116-130 | Get returns the live value and moves the key to the front, or deletes the expired entry |
| LruCache.MaxMemoryCache.LoadAndDelete | homework_memory_limit/memory_cache.go:115-124 | returns the stored value, expired or not, and deletes it through the callback |
| LruCache.MaxMemoryCache.Sweep | homework_memory_limit/memory_cache.go:34-55 | a tick removes only expired entries, and all of them when few are stored |
| LruLaws.SetConsistent | homework_memory_limit/max_memory_cache.go:62-113 | Set keeps list and map consistent exactly when it does not overwrite a surviving empty value |
| LruLaws.RunConsistent | homework_memory_limit/max_memory_cache.go:44-145 | over any regular run the list has no duplicates and holds exactly the stored keys, and stored bytes minus used is the sum over the evicting Sets |
| LruRecency.GetLive | homework_memory_limit/max_memory_cache.go:116-130 | a Get of a live key returns its value, puts it first and changes nothing else, neither the order of the other keys nor the data |
| LruRecency.GetNothing | homework_memory_limit/memory_cache.go:66-94 | any other Get finds nothing, and removes the key from map, list and counter if it had expired |
| LruRecency.ListIsByAccess | homework_memory_limit/max_memory_cache.go:44-145 | over any regular run the list goes from the key that was last set, or got and found, to the key for which that is longest ago |
| LruRecency.LeastRecentGoes | homework_memory_limit/max_memory_cache.go:62-93 | a key evicted while another stays was accessed before it |
| LruRecency.GetAfterSet | homework_memory_limit/max_memory_cache.go:44-130 | a Get returns the value last set if and only if its deadline has not passed and the entry has not been deleted, swept, evicted or found expired |
| LruRecency.ExpiresAfter | homework_memory_limit/memory_cache.go:72-82 | a positive expiration ends that long after the Set, any other never does |
| LruRecency.DeadlocksWhen | homework_memory_limit/max_memory_cache.go:46-93 | a Set never returns exactly when the deadline of its own key or of a key it evicts has passed |
| LruRecency.SweepSparesLive | homework_memory_limit/memory_cache.go:34-55 | a tick keeps every live entry |
| LruLaws.NonEmptyIsRegular | homework_memory_limit/max_memory_cache.go:57-60 | runs with nonempty values are regular |
| LruLaws.EvictionRemovesSuffix | homework_memory_limit/max_memory_cache.go:62-93 | an evicting Set removes a suffix of the recency order, its last key or everything |
| LruLaws.BoundHoldsWithoutEviction | homework_memory_limit/max_memory_cache.go:94-99 | without eviction used is the exact total and never exceeds max |
| LruLaws.StoredAfterSet | homework_memory_limit/max_memory_cache.go:62-113 | the bytes stored after a Set: the new value alone if everything was evicted, else what was stored with the old value replaced and at most one other key freed |
| LruLaws.LimitAfterSet | homework_memory_limit/max_memory_cache.go:84-93 | from any consistent state, drifted or not, a Set ends within max exactly under a condition on the state before it |
| LruLaws.LimitOverRun | homework_memory_limit/max_memory_cache.go:44-145 | a regular run stays within max throughout exactly when every Set of it meets that condition, with the drift the evictions before it left |
| LruLaws.LimitCanBeExceeded | homework_memory_limit/max_memory_cache.go:84-93 | three Sets of six bytes exceed a limit of ten |
| ShutdownLaws.StepKeepsInv | homework_graceful_shutdown/service/shutdown.go:103-156 | every step of every goroutine keeps the invariant, with the WaitGroup equal to the outstanding work |
| ShutdownOrder.EveryInterleavingIsSafe | homework_graceful_shutdown/service/shutdown.go:103-156 | in every interleaving no stop begins before all servers reject, no callback before all stops are over, close runs after exactly as many callback invocations as callbacks have returned, and a rejecting server serves nothing |
| ShutdownProgress.RunIsBounded | homework_graceful_shutdown/service/shutdown.go:103-156 | the number of protocol steps is bounded in advance |
| ShutdownProgress.NoDeadlock | homework_graceful_shutdown/service/shutdown.go:103-156 | until it is finished or the process has exited some step is possible |
| ShutdownProgress.SharedLoopVariable | homework_graceful_shutdown/service/shutdown.go:139-146 | every finished shutdown is sure to call each callback exactly once if and only if there is at most one |
| ShutdownProgress.FinishedCalls | homework_graceful_shutdown/service/shutdown.go:137-148 | a finished shutdown has begun and ended as many invocations as there are callbacks |
| ShutdownComplete.NothingTwice | homework_graceful_shutdown/service/shutdown.go:103-156 | in every run each server is told to reject, begins and ends its stop at most once, each callback goroutine makes at most one call, and no call ends before it began |
| ShutdownComplete.FinishedIsComplete | homework_graceful_shutdown/service/shutdown.go:103-156 | a finished shutdown has closed once, and told every server to reject, stopped it and run every callback goroutine exactly once |
| SqlTree.MarksAppend | homework_subquery/builder.go:96-103 | placeholders of consecutive texts add up |
| SqlMarks.MarksQuery | homework_subquery/select.go:33-90 | the text of a query of any nesting has one placeholder for each argument |
| SqlRoundTrip.QueryRT | homework_subquery/select.go:33-162 | reading the text of a query with its arguments gives back the query and leaves what follows |
| SqlRoundTrip.PredRT | homework_subquery/builder.go:167-209 | the same for conditions, whose nested parts are always parenthesised |
| SqlRoundTrip.TableRT | homework_subquery/select.go:92-162 | the same for FROM and JOIN trees |
| SqlStatements.SelectReadsBack | homework_subquery/select.go:33-90 | what a successful single-use build wrote reads back to the resolved tree, with one argument per placeholder |
| SqlStatements.SelectIsUnambiguous | homework_subquery/select.go:33-90 | no two queries share text and arguments |
| SqlStatements.ConditionIsUnambiguous | homework_subquery/builder.go:105-209 | no two conditions share text and arguments, under no assumption on precedence |
| SqlStatements.TableIsUnambiguous | homework_subquery/select.go:92-162 | no two table trees share text and arguments |
| SqlStatements.SelectWords | homework_subquery/select.go:33-90 | the words of a statement with every clause, and its arguments in order |
| SqlStatements.JoinWords | homework_subquery/select.go:129-162 | the words of joins with USING and with ON |
| SqlMeaning.ResolvesAsMeant | homework_subquery/builder.go:20-94 | a column resolves exactly to the column of the model, table or subquery it was taken from, under the alias of that table or subquery |
| SqlMeaning.ExprSays | homework_subquery/builder.go:113-209 | whatever columns, literals and operators mean, the resolved expression has the value the user's expression has, and there is one exactly when every name in it means something |
| SqlMeaning.ClauseMeans | homework_subquery/builder.go:105-111 | with AND, OR and NOT read as usual, a clause of several predicates is true exactly when every one of them is |
| SqlMeaning.SelectMeans | homework_subquery/select.go:33-162 | the resolved statement asks for what the user put in each part: columns and aliases, tables and joins, WHERE, GROUP BY, HAVING, LIMIT and OFFSET |
| SqlMeaning.SelectIsAnswerable | homework_subquery/select.go:33-162 | and there is one exactly when every entity is registered and every name means something |
| SqlMeaning.BuiltSelectAsks | homework_subquery/select.go:33-90 | a database that reads a built SELECT with its arguments is asked exactly that |
| SqlBuilder.Builder.BuildColumn | homework_subquery/builder.go:20-35 | writes the alias and the resolved column, or fails when the name does not resolve |
| SqlBuilder.Builder.BuildAggregate | homework_subquery/builder.go:211-223 | writes function and column, or fails |
| SqlBuilder.Builder.BuildClause | homework_subquery/builder.go:105-111 | joins the predicates with And in a loop and writes their conjunction |
| SqlBuilder.Builder.BuildExpression | homework_subquery/builder.go:113-142 | the text of the resolved expression with the arguments of first uses, failure exactly when it does not resolve, and the cells of its subqueries filled |
| SqlBuilder.Builder.BuildBinary | homework_subquery/builder.go:167-181 | the same for binary and unary operators, whose right operand finds the cells of the left one filled |
| SqlBuilder.Builder.BuildSubExpr | homework_subquery/builder.go:183-209 | the same for operands, which are parenthesised when they are operators themselves |
| SqlBuilder.Builder.BuildSubqueryExpr | homework_subquery/builder.go:135-137 | ANY, ALL and SOME never fail: an unresolvable subquery leaves the bare keyword |
| SqlBuilder.Builder.BuildSubQuery | homework_subquery/builder.go:144-165 | a first use writes text and arguments and fills the cache; a later one writes the cached text and no argument |
| SqlBuilder.Builder.BuildTwice | homework_subquery/builder.go:144-165 | after two uses the placeholders exceed the arguments by exactly the subquery's number of arguments |
| SqlBuilder.Builder.BuildColumns | homework_subquery/select.go:164-189 | writes the selected columns with aliases, or the star |
| SqlBuilder.Builder.BuildRefs | homework_subquery/select.go:57-67 | the comma loop writes all columns or fails at the first unknown one |
| SqlBuilder.Builder.BuildUsing | homework_subquery/select.go:140-152 | the USING part of a join |
| SqlBuilder.Builder.BuildTable | homework_subquery/select.go:92-127 | the same for table references |
| SqlBuilder.Builder.BuildDerived | homework_subquery/select.go:96-109 | a subquery in FROM is built anew, its arguments follow its text |
| SqlBuilder.Builder.BuildJoin | homework_subquery/select.go:129-162 | the same for joins: left table, right table, USING and ON in text order |
| SqlBuilder.Builder.Build | homework_subquery/select.go:33-90 | the same for the statement, appended to whatever the buffer holds |
| SqlBuilder.Builder.BuildAgain | homework_subquery/select.go:33-90 | a second build of a selector whose subqueries all resolve, with none in FROM, returns its text twice over, the second copy without the arguments of the subqueries |
| SqlBuilder.Builder.FreshReady | homework_subquery/builder.go:113-165 | in an expression where no object is used twice every argument of the resolved tree is appended |
| SqlBuilder.Builder.FreshClause | homework_subquery/builder.go:105-111 | the same for the conjunction of a clause |
| SqlBuilder.Builder.FreshTable | homework_subquery/select.go:92-162 | the same for FROM and JOIN trees |
| SqlBuilder.Builder.FreshBody | homework_subquery/select.go:33-90 | the same for a statement |
| SqlSharing.KeptSel | homework_subquery/builder.go:144-165 | no more arguments are left than the resolved statement has, and all of them exactly when no cell whose text has placeholders is used twice or was filled before |
| SqlSharing.BuildShared | homework_subquery/select.go:33-90 | so a built statement, whatever it shares, has the text of its tree and as many arguments as placeholders exactly in that case |
| SqlSharing.ComparedWithItself | homework_subquery/builder.go:144-165 | a subquery with one argument compared with itself: two placeholders, one argument |
| SqlSharing.BuildCompared | homework_subquery/builder.go:144-165 | building that statement from new objects really leaves two placeholders and one argument |
| SqlWrite.FlatAt | homework_subquery/insert.go:108-123 | in a matrix written row by row entry (r, c) stands at r * k + c |
| SqlWrite.ChangeRT | homework_subquery/updater.go:38-96 | reading the text of an UPDATE with its arguments gives back the UPDATE |
| SqlUpdate.BuildAssigns | homework_subquery/updater.go:54-76 | the loop over the assignments appends text and arguments of all, or fails at the first that does not resolve |
| SqlUpdate.BuildAssignment | homework_subquery/updater.go:90-96 | an assignment writes its column and its expression without parentheses |
| SqlUpdate.BuildUpdate | homework_subquery/updater.go:38-88 | on a fresh builder and without shared subqueries the text and arguments of the resolved UPDATE, or failure when there is none |
| SqlUpdate.UpdateReadsBack | homework_subquery/updater.go:38-88 | what a successful build wrote reads back to the resolved UPDATE, with one argument per placeholder |
| SqlWriteMeaning.BuiltUpdateChanges | homework_subquery/updater.go:38-96 | read back with its arguments, a built UPDATE sets, in the table of its entity, each column asked for to the field of the struct or the value of the expression given, where every predicate is true |
| SqlWriteMeaning.UpdateIsKnown | homework_subquery/updater.go:38-96 | it is built exactly when it assigns something, every name means something and the struct has the fields |
| SqlInsert.FindFields | homework_subquery/insert.go:86-96 | the chosen columns in the given order, all fields without a choice, failure on an unknown one |
| SqlInsert.BuildRows | homework_subquery/insert.go:108-123 | the nested loops write the matrix of placeholders and its values, or fail on a missing field |
| SqlInsert.BuildUps | homework_subquery/dialect.go:43-68 | the assignment loop writes exactly the assignments up to the first Assignment |
| SqlInsert.BuildUpsert | homework_subquery/dialect.go:40-122 | the conflict clause of both dialects |
| SqlInsert.BuildInsert | homework_subquery/insert.go:72-139 | the same for INSERT |
| SqlInsert.InsertLayout | homework_subquery/insert.go:97-132 | m rows over k fields hold m * k placeholders, argument r * k + c is field c of row r, and the upsert's arguments follow |
| SqlInsert.InsertMarks | homework_subquery/insert.go:72-139 | a built INSERT has one argument per placeholder |
| SqlWriteMeaning.InsertRT | homework_subquery/insert.go:72-139 | reading the text of an INSERT with its arguments gives back table, columns, rows and upsert, in both dialects |
| SqlWriteMeaning.BuiltInsertInserts | homework_subquery/insert.go:72-139 | and these are the columns chosen, or all, with the values of each struct in the order given, and the upsert assignments up to the first expression, each for the column asked for |
| SqlWriteMeaning.InsertIsKnown | homework_subquery/insert.go:72-139 | it is built exactly when there are rows, every chosen column is known and has a value in every struct, and every name rendered in the upsert means something |
| SqlInsert.UpsertIsComplete | homework_subquery/dialect.go:57-63 | all upsert assignments are rendered exactly when only the last may be an Assignment |
| SqlInsert.UpsertArgs | homework_subquery/dialect.go:110-116 | the upsert's arguments are those of the first Assignment, if there is one |
| Models.UnderscoreName | homework_subquery/model/registry.go:133-147 | the loop computes the underscored name |
| ModelTags.WordsAreUnderscored | homework_subquery/model/registry.go:133-147 | a name made of capitalised words becomes the words in small letters with underscores between them |
| Models.CamelUndoesUnderscore | homework_subquery/model/registry.go:133-147 | a left inverse on names of letters and digits that start with a capital |
| Models.UnderscoresCollide | homework_subquery/model/registry.go:133-147 | two exported names, one with an underscore, share a column |
| Models.ParseTag | homework_subquery/model/registry.go:110-131 | the pairs of a tag, later ones winning, or failure on a malformed one |
| ModelTags.WellFormedTags | homework_subquery/model/registry.go:110-131 | a tag is accepted if and only if it consists of pairs `key=value` without further commas and equals signs |
| ModelTags.ColumnIsNamed | homework_subquery/model/registry.go:76-83 | the last `column=` of a tag names the column unless it is empty, otherwise the underscored field name does, and a malformed tag is an error |
| Models.ParseModel | homework_subquery/model/registry.go:59-107 | one pass builds the field list and both maps, or fails on a bad tag |
| ModelTags.TaggedColumn | homework_subquery/model/registry.go:80-83 | in particular a field tagged `column=c` is stored in `c` |
| ModelTags.ModelSays | homework_subquery/model/registry.go:67-107 | the model keeps every field in its place with its type and offset, finds the last field of a name or column, and takes the table name from TableName unless that is empty |
| ModelTags.NoModel | homework_subquery/model/registry.go:76-79 | there is no model exactly when a tag is malformed |
| Models.ColumnMapInverts | homework_subquery/model/registry.go:67-107 | ColumnMap inverts the columns of FieldMap, one entry a field, exactly when no two fields share a column |
| Models.PlainModelInverts | homework_subquery/model/registry.go:67-107 | it does for every struct of untagged fields with plain names |
| Rows.Scan | homework_subquery/internal/valuer/unsafe.go:68 | conversions are written one after another up to the first that fails, whatever the destinations share |
| Rows.UnsafeSetColumns | homework_subquery/internal/valuer/unsafe.go:49-69 | errors and memory after the offset-based copy |
| Rows.ReflectSetColumns | homework_subquery/internal/valuer/reflect.go:35-65 | errors, the panic of a field that may not be set, and memory after the copy through temporaries and field names |
| Rows.SamePlace | homework_subquery/internal/valuer/reflect.go:59-63 | reflection finds every mapped column where the model's offset points |
| Rows.UnsafeRefinesReflect | homework_subquery/internal/valuer/unsafe.go:49-69 | with distinct columns both report the same errors before a field is set, and when all columns convert they agree on error and struct exactly when every reported column belongs to an exported field |
| Rows.UnexportedFieldPanics | homework_subquery/internal/valuer/reflect.go:32-62 | a struct with one field `id` that is not exported: the reflective valuer panics where the unsafe one succeeds |
| Rows.PlainStructsAgree | homework_subquery/internal/valuer/unsafe.go:49-69 | so for every struct of untagged exported fields with plain names, by the registry's own model |
| Rows.SameErrorIff | homework_subquery/internal/valuer/reflect.go:40-42 | the errors differ exactly when the column count lies between the sizes of the two maps |
| Rows.CopiedUnchanged | homework_subquery/internal/valuer/unsafe.go:49-69 | copying columns changes nothing exactly when the struct already holds the value of each, of repeated ones the last |
| Rows.AgreeAfterScanError | homework_subquery/internal/valuer/reflect.go:56-58 | after a failed conversion the two structs agree exactly when the struct already held the values of the columns before it |
| Rows.ScanErrorDiffers | homework_subquery/internal/valuer/reflect.go:56-58 | two columns of which the second does not convert: the first is written by the unsafe valuer only |
| Rows.FieldsAgree | homework_subquery/internal/valuer/unsafe.go:39-47 | both valuers read the same, or neither knows the name, exactly when it is that of an exported field of the struct itself or of no field, promoted ones included |
| Rows.PromotedFieldDiffers | homework_subquery/internal/valuer/reflect.go:27-33 | a field promoted from an embedded struct is read by reflection only |
| Rows.CopiedReadsBack | homework_subquery/internal/valuer/unsafe.go:49-69 | a copied column reads back if no later column touches its words |

## Left out

- HTTP serving, TCP listening, connection pools, signals and real time: input and output.
- `rpc/client.go` and `rpc/server.go` beyond framing, compression and serialisation: reflection and foreign code.
- `homework1`, `homework_select` and `homework_delete`: smaller copies of what is modelled.
- Sessions, transactions, raw queries and middleware wrappers of `homework_subquery`: single folds around the builders.
- `WithColumnName` and `WithTableName` (`homework_subquery/model/registry.go:149-168`): the registry laws are about parsed models.
- Setters of `Selector`, `Updater` and `Inserter`: a statement is a value with a reference to its builder, so reconfiguring it between builds is not captured.
- Concrete SQL text: quoting characters, spaces and the spelling of operators are below the tokens, so a name that contains a backquote is not modelled. `Column.Multi` emits the operator of addition (`homework_subquery/column.go:57-63`) before the tree reaches the builder.
- The kinds of builder errors: a failing build has no statement, which of its errors comes first is not recorded.
- SqlBuilder.Builder.Build: a subquery's own model is assumed to be registered (`homework_subquery/select.go:230` drops that error).
- Models.UnderscoreName: capitals are the ASCII ones; other letters and their truncation to a byte are not modelled.
- Rows.Scan: a conversion overwrites its whole destination or fails and leaves it alone; `database/sql` sets a pointer destination to a fresh pointer before the conversion of what it points to fails, so a pointer field of the unsafe valuer changes there. Destinations with a `Scan` method of their own are not modelled.
- Rows.FieldsAgree: embedded pointers are not modelled, so neither is the panic of `FieldByName` on a nil one.
- SqlBuilder.Builder.BuildAgain: a second build with a subquery in FROM, whose builder is not reset either, or with one that does not resolve is not described.
- SqlUpdate.BuildUpdate: subqueries shared between the assignments and the condition of an UPDATE, or the assignments of an upsert, are not described; their expressions are written by the methods above.
- SqlBuilder.Builder.BuildExpression: a subquery is shared as a whole; a selector that is used in two subqueries with different cells, or both in FROM and in an expression, is not described.
- LruCache.MaxMemoryCache.Set: data races between calls, changes between the locked and the unlocked part, and 64-bit overflow of the counter are not modelled; the two locks appear only as the call that never returns.
- ShutdownOrder.EveryInterleavingIsSafe: the `reject` flag is visible at once and timeouts do not cut a stop or a callback short.
