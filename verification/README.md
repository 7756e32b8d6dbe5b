# A verified model of the tsukuyomi router

This Dafny project models the parts of tsukuyomi that decide which handler a
request reaches and what that handler is told, and proves what they promise.

**The recognizer.** Route patterns are inserted into a compressed trie that is
updated in place. `HeapTree`, `HeapBranch`, `HeapInsert` and `Recognizer` model
it as objects: nodes with fields, a cursor that walks down, labels that are
split, branches that are pushed, a route map in insertion order. Each of these
methods is proved equal to a function on values (`Trie`, `Routing`). A pattern
is seen through its *erased word*: every `:name` is the token `Par`, a final
`*name` is `Star`, everything else is a literal (`Patterns`). The meaning of a
tree is the partial map from words to routes that it stores (`Trie.Lookup`).
Recognition by walking the tree is proved equal to `Recognition.Filter`, which
reads nothing but the flat list of words (`Refinement`). From there follow
exact acceptance, completeness, soundness, the exact language of each route,
independence of insertion order and the canonicity of the tree (`Guarantees`,
`Matching`, `Languages`, `OrderIndependence`).

What holds without any assumption on wildcard kinds is proved on the tree
itself: what it stores and where (`Leaves`, `Kinds`, `Bookkeeping`, `Tracks`),
the wildcard kind under which each place was first opened (`Openers`), what a
walk finds and is bound to find (`Exactness`), and why it stops (`NearMisses`).

**URIs and parameters.** `Uris` models parsing and joining of route URIs and
their capture names. `Layouts` takes route texts apart into their segments: it
says which texts parse, which of them the recognizer takes, and which word each
stands for. `Parameters` models the accessors of a matched request and
the literal analysis of the `path!` macro. `Extraction` connects them end to
end, for any accepted run.

**Configuration and dispatch.** `Configs` models the configuration interpreter
that writes into the shared recognizer and scope table; `Flattening` gives the
same configuration a meaning without shared state and proves the two equal.
`Trails` says where its routes and scopes lie: along the segments of the mounts
around them, followed by those of their own path.
`Scopes`, `Apps` and `Service` model the scope forest, scope inference, default
handlers and the request future.

**Around the router.** `Sessions`, `CookieSessions`, `RedisSessions` and
`SharedStore` model both session backends and prove that they implement one
abstract session, for Redis with any number of clients and any interleaving.
`Extractors` models the poll combinators over arbitrary poll schedules.
`Endpoints` and `Methods` model the dispatch by request method.

## Words used below

- *Rooted*: the pattern is `*`, or starts with `/` and has every wildcard marker
  directly after a slash. `Uris.ParsedIsBuilt` and `Uris.JoinExactly` show that
  every URI reaching the recognizer is of this form.
- *Run*: insertions in order, stopping at the first refusal.
- *Kinds agree*: no common prefix is followed by `:` in one pattern and by `*`
  in another. *Accepted*: a run over rooted patterns whose kinds agree that was
  not refused.
- *Conflict* of two words: they are equal, they first differ in a wildcard
  against something else, or one is the other followed by a single `*`.
- *Spelling* of a pattern in a run: its word, in which each wildcard has the
  kind of the first pattern that has the same literals and wildcards up to
  there, kinds aside.
- *Layout* of a text: its segments, and whether it ends in a slash.
- *Trail* of a route or a mount: the prefixes mounted around it and its own path.
  It is *passable* if every part parses and no two of them capture.
- *Diverted*: a pattern that ends in a catch-all and is spelled with parameters
  only.

## What the code does differently from what one may expect

- Insertion descends into a wildcard child without comparing kinds
  (`tsukuyomi/src/app/recognizer.rs:193-208`), so `/:id/foo` and `/*p` are
  accepted together. `Exactness.CompleteIffKindsAgree` proves that an accepted
  run answers every instance of its patterns if and only if the kinds agree.
- In that order a request for `/x` is matched to `/*p`, but with a parameter
  captured, so the extractor of `path!("/*p")` finds no catch-all and panics
  (`Extraction.DivertedWitness`). `Extraction.MissedIffDiverted` proves, for
  every accepted run, that some matched request of a route misses a parameter if
  and only if the route is diverted; in the other order nothing is missed although
  the kinds disagree (`Extraction.OtherOrderIsNotDiverted`).
- `find_wildcard_end` is given a slice by `insert_child`, so that the check for a
  preceding slash is skipped for the first wildcard of that slice: the
  recognizer alone accepts `/a:b` (`Bookkeeping.InnerWildcardIsAccepted`).
  `Bookkeeping.AcceptedAlone` says exactly what
  it accepts; `Uri::parse` refuses such a text, so the theorems assume rooted
  patterns.
- `CaptureNames::extend` hands bare names to `push`, which wants a marker first:
  joining two URIs that both capture is always refused
  (`Uris.JoinExactly`).
- `parse_literal` cuts the first byte off every segment before it looks at it, so
  it panics on an empty segment, which its own branch for empty segments would
  ignore, and on one that starts with a character of several bytes.
  `Parameters.LiteralExactly` says for every string when it panics and when it
  refuses; for a URI that leaves the trailing slash (`Parameters.LiteralOfUri`).
- A catch-all is not reachable by its own name: `Params::name` finds its position
  among the names, where no parameter span is stored
  (`Extraction.NamesResolve`).
- A Redis read whose key is gone forgets the session id, so a write takes a new
  one and a clear leaves the cookie in place
  (`SharedStore.StaleCookieSurvivesClear`). `SharedStore.RequestMovesCookie`
  proves that this is exactly when nothing was stored.

## Model

| member | source | states |
|---|---|---|
| Patterns.EraseWellFormed | tsukuyomi/src/app/recognizer.rs:405-435 | erasing a text whose markers follow slashes gives a word with a catch-all only at the end, a slash after every parameter, and a slash before every wildcard but a leading one |
| Patterns.EraseLiterals | tsukuyomi/src/app/recognizer.rs:405-410 | a stretch up to the next wildcard marker is erased to its own literals |
| Trie.Lcp | tsukuyomi/src/app/recognizer.rs:394-399 | the longest common prefix: equal up to there, different or ended after it |
| Insertion.StepFits | tsukuyomi/src/app/recognizer.rs:150-252 | what each branch of the insertion walk means for the word: where it parts from a label, ends, goes on below a child, or meets a conflict |
| Insertion.AddLookup | tsukuyomi/src/app/recognizer.rs:150-252 | an accepted insertion adds its word to the meaning of the tree and changes no other word |
| Insertion.AddAcceptsExactly | tsukuyomi/src/app/recognizer.rs:185-251 | insertion into a valid tree is refused if and only if the word conflicts with a stored one |
| Insertion.AddRefuses | tsukuyomi/src/app/recognizer.rs:191-224 | a refusal names a stored word that the new one conflicts with |
| Insertion.AddShaped | tsukuyomi/src/app/recognizer.rs:159-251 | insertion keeps the shape: non-empty labels, distinct first bytes, a wildcard as only child, a slash after a parameter, a childless catch-all under a leafless parent, childless nodes are leaves |
| Leaves.AddTallied | tsukuyomi/src/app/recognizer.rs:166-202 | insertion keeps every node's candidates equal to the routes stored at or below it |
| Insertion.GraftLookup | tsukuyomi/src/app/recognizer.rs:254-281 | a fresh branch stores exactly its own word |
| HeapTree.Split | tsukuyomi/src/app/recognizer.rs:159-174 | splitting a label in place gives the lower half the leaf, the candidates and the children, and leaves the rest of the heap as it was |
| HeapBranch.FindWildcardEnd | tsukuyomi/src/app/recognizer.rs:412-435 | the end of a wildcard in the slice that begins at `start`, with no check of the preceding byte at its front |
| HeapBranch.InsertChild | tsukuyomi/src/app/recognizer.rs:254-281 | pushes a fresh branch below a node, or refuses exactly when a wildcard is malformed or does not follow a slash |
| HeapInsert.ScanChildren | tsukuyomi/src/app/recognizer.rs:210-225 | finds the static child that starts with a byte, or the wildcard that blocks the search |
| HeapInsert.AddPath | tsukuyomi/src/app/recognizer.rs:150-252 | the loop over the nodes, splitting and marking on the way down, computes the insertion function on the tree's value and is refused exactly when that is |
| Routing.InsertRepresents | tsukuyomi/src/app/recognizer.rs:60-81 | one insertion of an agreeing pattern is refused if and only if it is malformed or clashes, and otherwise stores it under the next index |
| Routing.RunRepresents | tsukuyomi/src/app/recognizer.rs:60-81 | exact acceptance of a run: every pattern well-formed and no two in conflict; the tree then maps each erased pattern to its index and nothing else |
| Routing.RecognizeIsFilter | tsukuyomi/src/app/recognizer.rs:330-391 | the walk over the tree answers as prefix filtering over the flat list of patterns |
| Recognizer.Recognizer.Insert | tsukuyomi/src/app/recognizer.rs:60-81 | the object's insertion, with its map in insertion order, is the insertion on its value |
| Recognizer.Recognizer.Recognize | tsukuyomi/src/app/recognizer.rs:87-102 | the object's lookup gives the recognized index, its value and the captures recorded on the way |
| Recognizer.Recognizer.VisitTree | tsukuyomi/src/app/recognizer.rs:300-312 | planting the first route or adding to the tree |
| Recognizer.WalkTree | tsukuyomi/src/app/recognizer.rs:330-382 | the recognition loop over the nodes computes the walk on the tree's value |
| Recognizer.WalkInBounds | tsukuyomi/src/app/recognizer.rs:339-369 | a walk only finds routes stored in the tree |
| Recognizer.MapPut | tsukuyomi/src/app/recognizer.rs:78 | an indexed map replaces the value of a known key in its place and appends a new key with its value; no other entry changes |
| Refinement.WalkIsFilter | tsukuyomi/src/app/recognizer.rs:330-382 | at every node the walk and the filter agree on what is left |
| Guarantees.InstancesAreMatched | tsukuyomi/src/app/recognizer.rs:330-382 | completeness: the path got from a registered pattern by replacing each parameter with a non-empty slash-free text and a catch-all with any text is matched to that pattern with exactly those spans |
| Guarantees.MatchesReexpand | tsukuyomi/src/app/recognizer.rs:333-371 | soundness: the matched pattern filled with the captured texts is the path, or the path and the literals it ran out in just before a last wildcard captured the empty span |
| Languages.MatchedExactly | tsukuyomi/src/app/recognizer.rs:330-382 | over agreeing kinds, a path is answered with a route and given captures if and only if it fills the route's pattern with those captures (inner parameters may be empty), or it runs out before the pattern's last wildcard in a stretch that all patterns still in play share |
| Languages.MissedExactly | tsukuyomi/src/app/recognizer.rs:330-382 | over agreeing kinds, a path is not matched at all if and only if there is no pattern but `*`, or some stretch of it fills what some patterns begin with and all of those go on with one literal that is not the next byte |
| Guarantees.MissesAreNoPrefix | tsukuyomi/src/app/recognizer.rs:345 | a path that is not matched is a prefix of no instance of any registered pattern |
| Guarantees.AsteriskIsMatched | tsukuyomi/src/app/recognizer.rs:92-94 | the path `*` is matched by the pattern `*` and by nothing else |
| Guarantees.InstancesAreDisjoint | tsukuyomi/src/app/recognizer.rs:185-251 | no path is an instance of two registered patterns |
| OrderIndependence.PermutationsAreAccepted | tsukuyomi/src/app/recognizer.rs:150-312 | if one order of insertion is accepted, every order is |
| OrderIndependence.AnswersAgree | tsukuyomi/src/app/recognizer.rs:330-391 | permuted runs give every path the same pattern, captures or candidates |
| OrderIndependence.TreesAgree | tsukuyomi/src/app/recognizer.rs:131-142 | a valid tree is determined by the patterns it stores, up to sibling order and route numbers |
| OrderIndependence.PermutedTreesAgree | tsukuyomi/src/app/recognizer.rs:150-312 | permuted runs build the same tree up to sibling order and route numbers |
| Kinds.StoredIffKindsAgree | tsukuyomi/src/app/recognizer.rs:193-208 | an accepted run stores every pattern under its own word if and only if the kinds agree |
| Kinds.MixedKindsAreAccepted | tsukuyomi/src/app/recognizer.rs:193-208 | `/:id/foo` and `/*p` are accepted in either order, and in either order the second is not stored as itself |
| Leaves.AddStored | tsukuyomi/src/app/recognizer.rs:150-289 | an accepted insertion adds exactly one leaf and moves none |
| Bookkeeping.TakenStays | tsukuyomi/src/app/recognizer.rs:150-252 | the place of an inserted route is still its place after any later insertion |
| Bookkeeping.RunIsBooked | tsukuyomi/src/app/recognizer.rs:60-81 | over any accepted run, kinds agreeing or not, entries are the patterns in order without repetition, and leaves and the asterisk slot biject with them |
| Bookkeeping.FoundHasEntry | tsukuyomi/src/app/recognizer.rs:101 | what recognition finds over any accepted run has an entry, so the final lookup cannot fail |
| Bookkeeping.TreeInvariant | tsukuyomi/src/app/recognizer.rs:131-289 | the tree invariant after every kind-consistent run: shape, candidates and bijection |
| Bookkeeping.AcceptedAlone | tsukuyomi/src/app/recognizer.rs:254-281 | an empty recognizer accepts a text if and only if it is ASCII and is `*`, or erases and has a slash before every wildcard after the first |
| Exactness.CompleteIffKindsAgree | tsukuyomi/src/app/recognizer.rs:193-208 | an accepted run answers every instance of every pattern exactly if and only if the kinds agree |
| Exactness.WalkWord | tsukuyomi/src/app/recognizer.rs:330-382 | for any tree insertion can build, captures are read off a word under which the found route is stored and which re-expands to the path |
| Exactness.WalkFollows | tsukuyomi/src/app/recognizer.rs:330-382 | for any tree insertion can build, a word without catch-all that finds a route is found by its own instances, with exactly their spans |
| Tracks.FoundAtTrack | tsukuyomi/src/app/recognizer.rs:193-208 | a route stored once is found under one word only, the labels on the way to its leaf |
| Tracks.TrackStays | tsukuyomi/src/app/recognizer.rs:150-252 | later insertions leave those labels as they are |
| Tracks.SharedTrack | tsukuyomi/src/app/recognizer.rs:193-208 | where two words have the same literals and wildcards, their labels are the same, kinds included |
| Openers.StoredIsSpelled | tsukuyomi/src/app/recognizer.rs:193-208 | after any accepted run a route is stored under its spelling and under nothing else |
| Openers.AgreeingSpelling | tsukuyomi/src/app/recognizer.rs:193-208 | if the kinds agree every route is spelled as itself |
| NearMisses.PartialMatchesExplain | tsukuyomi/src/app/recognizer.rs:334-380 | over any accepted run, the candidates of a partial match are exactly the routes whose spelling begins with what was consumed, there is one, the captures are those consumed, and the walk goes on into none: each goes on with a literal that is not the next byte, or ends there although the path does not |
| Exactness.MixedKindsAreIncomplete | tsukuyomi/src/app/recognizer.rs:193-208 | two accepted patterns of which some instance is not answered |
| Uris.CaptureNames.Push | tsukuyomi/src/uri.rs:226-251 | a name is added or refused as specified; a refusal changes nothing |
| Uris.CaptureNames.Extend | tsukuyomi/src/uri.rs:253-261 | names are pushed one after the other, each as a whole segment |
| Uris.Position | tsukuyomi/src/uri.rs:263-265 | the position of a name is its first place, and there is one exactly if the name occurs |
| Uris.Parse | tsukuyomi/src/uri.rs:116-162 | the loop over the segments computes the parse of the whole text |
| Uris.ParseExactly | tsukuyomi/src/uri.rs:116-162 | parsing succeeds if and only if the text is in the segment grammar; the text is kept verbatim and the names are those of the wildcard segments in order |
| Uris.ParsedIsBuilt | tsukuyomi/src/uri.rs:135-155 | in a parsed URI every marker follows a slash, the names are plain, distinct and those of the text, and a catch-all is named exactly if the text has a star |
| Layouts.ParsesByLayout | tsukuyomi/src/uri.rs:116-162 | the texts that parse are exactly those glued from slash-free ASCII segments, each a plain text or a marker and a name, with distinct names and a catch-all only in the last; the text is kept and the names are those of the wildcard segments |
| Layouts.ErasesBySegments | tsukuyomi/src/app/recognizer.rs:405-435 | a text of such segments is taken if and only if nothing, not even a slash, comes after a catch-all, and its word is then, segment by segment, a slash and a parameter, a catch-all or the segment's literals |
| Layouts.ParsedIsFine | tsukuyomi/src/app/recognizer.rs:60-81 | a text that parses as a URI is fine for the recognizer if and only if no slash follows a catch-all; its word is that of its segments |
| Layouts.LayoutsAccepted | tsukuyomi/src/app/recognizer.rs:60-81 | a run over such texts whose wildcard kinds agree is accepted if and only if nothing comes after a catch-all and no two of the words by segments are in conflict |
| Uris.Join | tsukuyomi/src/uri.rs:192-216 | the imperative join computes the join of the values |
| Uris.JoinExactly | tsukuyomi/src/uri.rs:192-216 | a join is refused if and only if both sides capture; otherwise it is built and extends the left text |
| Uris.JoinIsAssociative | tsukuyomi/src/uri.rs:192-216 | join is a partial monoid with the root as two-sided identity, in definedness and in value |
| Uris.JoinReparses | tsukuyomi/src/uri.rs:192-216 | the text of a join parses back to the join, names included, if and only if nothing was put after a catch-all |
| Parameters.ParseLiteral | tsukuyomi/macros/src/path_impl.rs:46-95 | the loop over the segments of a literal computes its analysis |
| Parameters.LiteralExactly | tsukuyomi/macros/src/path_impl.rs:46-95 | for every string: the analysis panics if and only if some segment that is reached cannot be cut after its first byte, is refused if and only if the text is no path or some segment that is reached is misplaced or repeats a name, and otherwise lists the names of the wildcard segments |
| Parameters.LiteralOfUri | tsukuyomi/macros/src/path_impl.rs:46-95 | a literal that is a URI yields its capture names in order with the catch-all last, unless it ends in a slash: then it panics, or is refused if the slash follows a catch-all |
| Parameters.CaptureShape | tsukuyomi/src/app/recognizer.rs:347-370 | captures are the spans of the parameters in order and that of the catch-all |
| Extraction.MatchIsSpelled | tsukuyomi/src/app/recognizer.rs:330-382 | a match of any accepted run re-expands from its captures as the spelling of the matched route, in which a catch-all can only be last |
| Extraction.NamesResolve | tsukuyomi/src/input/param.rs:26-43 | on a matched request of any accepted run every `:name` resolves to the text captured at its place, by name and by number; the catch-all is present exactly if the route ends in one, is found by the name `*` and not by its own; any other name gives nothing; unless the route is diverted: then it has no catch-all to offer |
| Extraction.MissedIffDiverted | tsukuyomi/macros/src/path_impl.rs:142-154 | over any accepted run, some request matched to a route misses a parameter if and only if the route ends in a catch-all and each of its wildcards was first opened by a parameter |
| Extraction.DivertedWitness | tsukuyomi/macros/src/path_impl.rs:142-154 | `/:id/foo` and `/*p` are URIs and accepted together; `/x` is matched to `/*p` and its extractor finds no catch-all |
| Extraction.OtherOrderIsNotDiverted | tsukuyomi/src/app/recognizer.rs:193-208 | inserted the other way round the kinds still disagree, but neither route is diverted |
| Extraction.ExtractorFinds | tsukuyomi/macros/src/path_impl.rs:142-154 | on a matched request of any accepted run the extractor generated from a literal misses a parameter if and only if it has some and the route is diverted; otherwise it extracts the captured texts in order |
| Scopes.Scopes.AddNode | tsukuyomi/src/app/scope.rs:43-60 | a new scope gets the next id and its parent's chain as ancestors; no other scope changes |
| Scopes.Scopes.SetData | tsukuyomi/src/app/scope.rs:74-81 | indexing for update changes the data of one scope |
| Scopes.GrowthKeepsRooted | tsukuyomi/src/app/scope.rs:43-60 | adding a scope keeps every chain a root path with increasing ids, and every scope in place |
| Configs.Context.Route | tsukuyomi/src/app/config.rs:284-324 | a route is resolved under the scope's prefix and inserted with the modified handler, or sets the default handler |
| Configs.Context.Mount | tsukuyomi/src/app/config.rs:327-352 | a mount adds a scope under the joined prefix and configures it |
| Configs.Context.Modify | tsukuyomi/src/app/config.rs:355-369 | a modifier is put inside those of the scope |
| Configs.Context.Configure | tsukuyomi/src/app/config.rs:396-445 | the walk over a configuration computes the compilation of the shared tables, and stops exactly where it is refused |
| Configs.Create | tsukuyomi/src/app/config.rs:247-266 | a new application's tables are the compilation of its configuration from the empty ones |
| Flattening.StackedWraps | tsukuyomi/src/handler.rs:330-343 | a chain of modifiers applies the outermost first and the innermost last |
| Flattening.CompileFlattens | tsukuyomi/src/app/config.rs:284-405 | compiling any part from any tables flattens it into them |
| Flattening.CompileIsFlattening | tsukuyomi/src/app/config.rs:247-405 | configuring succeeds if and only if every path resolves and the patterns are accepted in order; the tables are then the flattening: joined URIs, routes numbered in order, scopes in pre-order, innermost modifier last, last direct `*` as default |
| Trails.ResolvesAlong | tsukuyomi/src/app/config.rs:291-305 | a path resolves under the prefix that lies along a trail if and only if the longer trail is passable, and then to the URI with the segments of all parts in order, the slash of the last part that has segments, and the names of the part that captures |
| Trails.ResolvableExactly | tsukuyomi/src/app/config.rs:284-405 | everything in a configuration resolves if and only if nothing in it is an error and the trails of all its routes and mounts are passable |
| Trails.CompiledAlongTrails | tsukuyomi/src/app/config.rs:247-405 | configuring succeeds if and only if that holds and the texts along the routes' trails are accepted in order; the k-th route is then registered under the text and the URI, and the k-th scope has the prefix, that lie along the k-th trail |
| Trails.AcceptedAlongTrails | tsukuyomi/src/app/config.rs:247-405 | where the wildcard kinds agree, configuring succeeds if and only if the trails are passable, no trail goes on after a catch-all, and the words of no two routes, segment by segment, are in conflict |
| Apps.CompileKeepsSound | tsukuyomi/src/app/config.rs:284-405 | every part of a configuration keeps chains root paths, prefixes growing along them, and every endpoint under its scope's prefix with that scope's chain |
| Apps.CommonIsLongest | tsukuyomi/src/app.rs:120-132 | the fold over the candidates yields their longest common chain of scopes |
| Apps.CommonIsOrderFree | tsukuyomi/src/app.rs:120-132 | the order of the candidates is immaterial |
| Apps.InferScope | tsukuyomi/src/app.rs:114-146 | the loop that shrinks the common chain and the search along it compute the inferred scope |
| Apps.InferExactly | tsukuyomi/src/app.rs:134-145 | scopes of the common chain whose prefix extends the path form a suffix; the inferred scope is the shallowest of them, or else the deepest common scope |
| Apps.DefaultIsDeepest | tsukuyomi/src/app.rs:148-159 | the default handler found from a scope is that of the deepest scope on its root path that has one |
| Service.FindDefaultHandler | tsukuyomi/src/app.rs:148-159 | the search from a scope up to the root computes that handler |
| Service.AppFuture.ProcessRecognize | tsukuyomi/src/app/service.rs:128-145 | the endpoint, the captures and the handler are those of this request's path |
| Service.AppFuture.Poll | tsukuyomi/src/app/service.rs:184-209 | recognition happens in the first poll only; the handler in flight, the endpoint and the captures stay until it answers; 404 is given at once if there is no handler |
| Service.RouteServes | tsukuyomi/src/app/service.rs:132-139 | a path that fills the pattern of the k-th route of a configuration is, if the kinds of the configuration's patterns agree, served by that route's handler under its modifiers, with the replacements captured |
| Service.FallbackServes | tsukuyomi/src/app/service.rs:140-143 | a failed lookup is served by the default handler of the deepest scope on the chain that has one, and is 404 if and only if none has |
| Service.NearMissIsInferred | tsukuyomi/src/app.rs:161-176 | a near miss of any configuration, kinds agreeing or not, is answered from the longest chain of scopes shared by the routes whose spelling begins with what was consumed |
| Service.MissServes | tsukuyomi/src/app.rs:168 | a path that is not even a near miss is left to the last direct `*` of the root |
| Sessions.RawSession.Set | tsukuyomi-session/src/backend/cookie.rs:228-248 | a set creates or updates the map, and does nothing once cleared; the last arm is not reached |
| Sessions.OperationsImplementRequest | tsukuyomi-session/src/backend/cookie.rs:217-258 | the three-way state implements an optional map in which a clear wins over everything, reads included |
| CookieSessions.Write | tsukuyomi-session/src/backend/cookie.rs:155-173 | writing leaves, replaces or removes the cookie, which the builder hook may have changed, and touches no cookie if the jar cannot be opened |
| CookieSessions.ReadExactly | tsukuyomi-session/src/backend/cookie.rs:137-148 | a read fails if and only if the cookie header does not parse or the session's cookie holds a text that does not decode; without a cookie that unseals the session is empty |
| CookieSessions.RunImplementsRequests | tsukuyomi-session/src/backend/cookie.rs:145-173 | over any requests the cookie stores what the abstract session stores, and the next read sees it, for a hook that keeps name and value |
| RedisSessions.ReadSession.PollReady | tsukuyomi-session/src/backend/redis.rs:193-279 | one poll of the read machine goes on until something is not ready, or fails if the jar cannot be opened; its unreachable arm is not taken |
| RedisSessions.PollReadExactly | tsukuyomi-session/src/backend/redis.rs:193-279 | what one poll of a read gives: an error exactly if the cookie header or the id does not parse, the connection or the fetch fails or the data do not decode; a new session exactly if there is no id or nothing is stored; the stored one with its id if there is something; otherwise it is pending |
| RedisSessions.WriteSession.PollReady | tsukuyomi-session/src/backend/redis.rs:292-358 | the first poll sets or removes the cookie and issues the command, or fails with nothing done if the jar cannot be opened; from then on the write waits while the command has not answered, is done when it has, and is refused when it has failed |
| RedisSessions.WriteIsReported | tsukuyomi-session/src/backend/redis.rs:292-358 | over any polls, a write is reported done if and only if there was nothing to write or the command issued by its first poll has answered, and refused if and only if the jar could not be opened then or the command has failed |
| RedisSessions.PrefixesDiffer | tsukuyomi-session/src/backend/redis.rs:75-77 | backends with different prefixes, neither with a colon, share no key |
| RedisSessions.KeysDiffer | tsukuyomi-session/src/backend/redis.rs:75-77 | different ids have different keys |
| SharedStore.StepRefines | tsukuyomi-session/src/backend/redis.rs:189-358 | every poll, operation, served command or expiry is one step of the session it concerns and no step of any other client's session |
| SharedStore.NewWorldIsWell | tsukuyomi-session/src/backend/redis.rs:79-91 | the invariant of the shared store holds when it is empty and no client has a cookie |
| SharedStore.RunRefines | tsukuyomi-session/src/backend/redis.rs:189-358 | over any interleaved run every client's session is what its own steps make of it |
| SharedStore.RequestIsAtomic | tsukuyomi-session/src/backend/redis.rs:121-358 | a request interleaved with any others reads what was stored and stores what its operations make of it |
| SharedStore.WrittenIsServed | tsukuyomi-session/src/backend/redis.rs:292-358 | over the shared store a write under way is reported done if and only if the store has executed its command; otherwise it waits and the client is as it was |
| SharedStore.WrittenIsStored | tsukuyomi-session/src/backend/redis.rs:121-358 | a request that loaded and used its session and is over has been committed: what is stored is what its operations make of what was stored before |
| SharedStore.RequestMovesCookie | tsukuyomi-session/src/backend/redis.rs:189-358 | over any interleaving, a request with a clear leaves no cookie if and only if it came with none or something was stored; one that leaves a session keeps its id if and only if something was stored; any other leaves the cookie alone |
| SharedStore.StaleCookieSurvivesClear | tsukuyomi-session/src/backend/redis.rs:193-279 | a request that comes with the id of a key that is gone, and clears its session, keeps the cookie |
| Extractors.MaybeDone.PollReady | tsukuyomi/src/future.rs:158-171 | a finished future is not polled again; its value is kept |
| Extractors.MaybeDone.TakeItem | tsukuyomi/src/future.rs:146-151 | the value is handed out once |
| Extractors.ChainFuture.PollReady | tsukuyomi/src/extractor/ext.rs:115-148 | the n-th poll gives the chained answer; the right side is not polled before the left is ready, no finished side is polled again, and the items taken are there |
| Extractors.ChainSettles | tsukuyomi/src/extractor/ext.rs:115-148 | for every pair of poll schedules: when a chain finishes, if ever, and with what; a left failure finishes it whatever the right side does |
| Extractors.OrFuture.PollReady | tsukuyomi/src/extractor/ext.rs:300-323 | the n-th poll gives the answer of the race; a failed side is not polled again and both are never gone |
| Extractors.OrByPoll | tsukuyomi/src/extractor/ext.rs:300-323 | by any poll a race has succeeded if and only if some side has, and has failed if and only if both have |
| Extractors.OrSettles | tsukuyomi/src/extractor/ext.rs:300-323 | for every pair of poll schedules: the earlier success wins, the left one on a tie, even if the other side never finishes; the race fails only when both have failed, with the later failure; otherwise it never finishes |
| Endpoints.ApplyIsLeftmost | tsukuyomi/src/endpoint.rs:163-166 | the leftmost accepting endpoint is started with the arguments unchanged, or they come back |
| Endpoints.AllowedIsAccepted | tsukuyomi/src/endpoint.rs:169-173 | the listed methods are those some endpoint accepts, and none are listed if one accepts all |
| Endpoints.AllowedInOrder | tsukuyomi/src/endpoint.rs:169-173 | if every chained endpoint lists its methods, they are listed without repetition, in the order in which they first occur from left to right |
| Endpoints.DispatchAgrees | tsukuyomi/src/config/endpoint.rs:111-125 | a method is served if and only if it is listed or nothing is |
| Methods.ToHeaderValue | tsukuyomi/src/handler.rs:35-44 | the loop prints the methods separated by comma and space |
| Methods.PrintsWithCommas | tsukuyomi/src/handler.rs:35-44 | printing two lists one after the other puts a comma and a space between them; one method prints as itself and none as nothing |
| Methods.SplitExactly | tsukuyomi/src/handler.rs:107-111 | splitting gives the comma-free parts that make up the text |
| Methods.TrimExactly | tsukuyomi/src/handler.rs:107-111 | trimming takes away the white space at both ends and nothing else |
| Methods.ParseExactly | tsukuyomi/src/handler.rs:103-114 | a text parses if and only if its trimmed parts are all tokens, and gives them without repetition in the order in which they first occur |
| Methods.ParsePrinted | tsukuyomi/src/handler.rs:103-114 | parsing a printed ordered set gives it back in order; the empty set prints to a text that does not parse |
| Methods.Collect | tsukuyomi/src/handler.rs:53-66 | collecting into an ordered set keeps it free of repetitions and adds exactly the given elements |

## Left out

- Recognizer.Recognizer.Insert: says nothing about the tree after a refusal, because configuration stops there and the tree is dropped.
- Recognizer.Recognizer.Recognize: requires the stored route numbers to be in bounds, where the source would panic; `Bookkeeping.FoundHasEntry` shows that every accepted run of rooted patterns meets this.
- Guarantees.InstancesAreMatched: assumes that wildcard kinds agree; `Exactness.CompleteIffKindsAgree` shows that the assumption is needed exactly.
- Trails.AcceptedAlongTrails: assumes that wildcard kinds agree; without that, `Trails.CompiledAlongTrails` reduces configuring to the run of the route texts.
- Languages.MatchedExactly: assumes that wildcard kinds agree; without that, `Extraction.MatchIsSpelled` and `Exactness.WalkFollows` are the two halves over spellings.
- Service.RouteServes: assumes that wildcard kinds agree, as `Guarantees.InstancesAreMatched` does.
- SharedStore.StepRefines: one request of a client at a time; two overlapping requests of the same client race for its key in the source as well. Cookies with ids that were never issued and failing connections are not part of the interleaved model (`RedisSessions.PollReadExactly` and `RedisSessions.WriteIsReported` cover them poll by poll).
- CookieSessions.RunImplementsRequests: the cookie builder hook is taken to keep name and value; signing and encryption are a pair of functions with `unseal(seal(s)) == s`.
- Configs.Context.Configure: closures as configurations are not modelled; what a closure does is a sequence of route, mount and modify calls, which `Chain` expresses.
- Handlers, modifiers and endpoint actions are terms, not running code; what a handler does with the request is not modelled.
- Service.AppFuture.Poll: cookies, response headers and the content length added before a reply are not modelled.
- Texts are sequences of characters; the recognizer and the URI parser refuse anything that is not ASCII, as in the source.
- Error values and messages are reduced to refusal.
- The futures that `Builder::call` and `call_async` return: they pass the extracted arguments on and would only add easy members.
- `Optional`, `Fallible`, `Map` and `MapErr` extractors: each maps one answer of one future.
- Percent-decoding and the conversion of extracted texts to typed values.
- Static files, CORS, WebSocket handshakes, GraphQL, templates, derive macros, the server and TLS crates: plumbing, or flat decision tables.
