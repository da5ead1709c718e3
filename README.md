# Web explorer knowledge graph, modelled in Dafny

This project models the knowledge backbone of the web explorer in
`web_explorer/`. The explorer crawls a web application and builds an
*abstract interaction graph*:

- **Abstract states** are clusters of DOM snapshots that share a signature.
- **Abstract actions** are groups of interactive elements that serve one
  function. Each action has an exploration flag: unexplored, explored or
  ineffective.
- **Edges** join two states and are keyed by the action that leads from the
  first to the second.

The model covers each part of that knowledge:

- **The store** (`AppKnowledge`, `AbstractInteractionGraph`): states, actions,
  the unexplored index and the graph. It also covers saving and reloading.
- **Knowledge maintenance** (`update_knowledge`), the step that runs after every
  browser action. It appends the raw trace, matches or creates the state,
  registers new actions and updates the previous action's flag and edge.
- **State matching**: the signature of a snapshot, the exact tier, and the
  cached-oracle tier.
- **Element grouping**: the raw list of actions, the translation of the oracle's
  groups, and the rule that falls back to the raw list.
- **Action selection**: the least unexplored action, local first, then global.
- **Path finding**: the shortest directed path, with a retry that prunes
  ineffective edges and then searches the undirected graph.
- **Input generation** without an oracle.
- **Exploration policy**: the parts that are not browser I/O. These are the
  same-origin validator, the stop test, the back-tracking stack, and the check
  that an action's element is still on the page.

## How the model is built

Python objects whose fields change in place are Dafny classes:

- `Knowledge.Aig` is `AbstractInteractionGraph`. It keeps a node set and a
  sequence of distinct `(src, dst, key)` edges.
- `Knowledge.AppKnowledge` holds maps of states and actions, together with their
  insertion orders (Python dicts are walked in insertion order). It also holds
  the unexplored index, the raw trace and the graph.
- `AppKnowledge.Valid()` ties these tables together.
- `AppKnowledge.IndexExact()` says the unexplored index is exactly the set of
  actions flagged unexplored.

Each mutating method states its whole new state. Loops are methods proved
against specification functions; examples are `FindHit` against `FirstHit`,
`CollectIneffective` against `Ineffectives` and `FindByXpath` against
`XpathOwner`. Pure logic is functions and lemmas.

Python's untyped data is a `JsonValues.Json` value. Snapshots, candidate
actions, LLM replies and interactive rects are all of this type. An exception
the source raises on malformed data is an `Err` of a `Result`.

Some things the source takes from outside become parameters:

- the SHA-256 hash;
- the LLM equivalence oracle and the grouping reply;
- the equivalence cache;
- the page's interactive rects.

## Model

| member | source | states |
|---|---|---|
| Knowledge.FlagRoundTrip | web_explorer/knowledge.py:16-21 | parsing the stored value of every exploration flag gives that flag back |
| Knowledge.TypeRoundTrip | web_explorer/knowledge.py:24-30 | parsing the stored value of every action type gives that type back |
| Knowledge.ParseType | web_explorer/knowledge.py:24-30 | `ActionType(v)` succeeds only on the value of some type, and then returns that type |
| Knowledge.Without | web_explorer/path_finder.py:42-43 | removing a set of edges keeps exactly the edges not in the set, in order, and keeps them distinct |
| Knowledge.WithoutTwice | web_explorer/path_finder.py:42-43 | removing one edge set and then another is the same as removing their union |
| Knowledge.FirstEdgeBetween | web_explorer/knowledge.py:121-126 | the first edge from u to v, if there is one, is an edge of the graph with those endpoints; none means no such edge exists |
| Knowledge.Aig.constructor | web_explorer/knowledge.py:83-84 | a new graph has no nodes and no edges |
| Knowledge.Aig.AddState | web_explorer/knowledge.py:87-89 | adds the state's id to the nodes; the edges stay the same |
| Knowledge.Aig.AddEdge | web_explorer/knowledge.py:97-100 | both endpoints become nodes; the edge is present afterwards; an existing triple is not duplicated, and a new one is appended |
| Knowledge.Aig.RemoveEdge | web_explorer/path_finder.py:43 | removes exactly that triple; reports whether it was present; the nodes stay the same |
| Knowledge.Aig.Successors | web_explorer/knowledge.py:105-111 | lists exactly the (destination, key) pairs of the state's out-edges, in out-edge order: targets in the order their pair first got an edge, and the keys of one pair in insertion order |
| Knowledge.Aig.EdgeList | web_explorer/knowledge.py:214-217 | `edges(keys=True)`: every edge exactly once, sources in node order and, under one source, in out-edge order |
| Knowledge.Aig.ShortestPath | web_explorer/knowledge.py:113-129 | an error exactly when an endpoint is not a node; [] when the nodes are not connected; otherwise the actions of a shortest walk, one edge key per hop |
| Knowledge.FirstKeys | web_explorer/knowledge.py:118-127 | turns a node path into actions by picking one key per hop, which keeps the walk shortest (together with Knowledge.ShortestRekeyed) |
| Knowledge.ShortestRekeyed | web_explorer/knowledge.py:119-126 | replacing each hop of a shortest walk by another edge between the same nodes leaves a shortest walk |
| Knowledge.FirstWithSignature | web_explorer/knowledge.py:157-159 | a state returned is in the table order and carries the signature |
| Knowledge.FirstWithSignatureMeaning | web_explorer/knowledge.py:157-159 | a state returned is the first, in table order, that carries the signature; None means no state carries it |
| Knowledge.FirstWithSignatureAt | web_explorer/knowledge.py:157-159 | a state whose signature matches, with no earlier state matching, is exactly the one the scan returns |
| Knowledge.FreshId | web_explorer/knowledge.py:50 | the new id is not among the ids in use (it stands in for `uuid4`) |
| Knowledge.RegisterKeepsIndex | web_explorer/knowledge.py:172-176 | adding a new action, with its id added to the index when it is unexplored, keeps the index equal to the set of unexplored actions |
| Knowledge.FlagChangeKeepsIndex | web_explorer/knowledge.py:178-184 | the discard/add rule of `update_action_flag` keeps the index equal to the set of unexplored actions |
| Knowledge.FlagIndex | web_explorer/knowledge.py:181-184 | only the changed action's membership can change; it changes exactly when the flag enters or leaves "unexplored" |
| Knowledge.AppKnowledge.constructor | web_explorer/knowledge.py:143-152 | a new knowledge object has empty tables, an empty index and an empty graph |
| Knowledge.AppKnowledge.GraphState | web_explorer/knowledge.py:91-94 | returns a state exactly when its id is a graph node; the state returned has that id |
| Knowledge.AppKnowledge.GetOrCreateState | web_explorer/knowledge.py:155-164 | returns the first state with the signature, changing nothing; if there is none, appends a fresh empty state with that signature and adds it as a node |
| Knowledge.AppKnowledge.AddNewState | web_explorer/knowledge.py:161-164 | the created state has an id not yet in use and the signature; it is appended to the table order and becomes a graph node; nothing else changes |
| Knowledge.AppKnowledge.AddRawTraceItem | web_explorer/knowledge.py:166-167 | appends one trace item; nothing else changes |
| Knowledge.AppKnowledge.RegisterAction | web_explorer/knowledge.py:172-176 | stores the action under its id and adds the id to the index when the action is unexplored; the index stays exact when the id was new |
| Knowledge.AppKnowledge.UpdateActionFlag | web_explorer/knowledge.py:178-184 | sets the flag and updates the index by the discard/add rule, which keeps the index exact |
| Knowledge.AppKnowledge.LinkEdge | web_explorer/knowledge.py:97-103 | adds the edge and both nodes, and sets the action's source and target pointers |
| Knowledge.AppKnowledge.DropEdge | web_explorer/knowledge_maintenance.py:105-112 | removes exactly that triple from the graph; an edge that is absent is no error |
| Knowledge.AppKnowledge.SetElements | web_explorer/exploration_policy.py:373 | replaces the element list of one action; the index and the other tables stay the same |
| Persistence.ActionFrom | web_explorer/knowledge.py:236-243 | a saved action loads exactly when its type and its flag are valid values; the loaded action keeps its id and type |
| Persistence.ActionFromDump | web_explorer/knowledge.py:203-243 | a saved action loads back with its id, type, flag and description, its element ids without locators, and no back-pointers |
| Persistence.ToJson | web_explorer/knowledge.py:189-220 | one entry per state and per action, in table order; the edge triples exactly once each, in the order `edges(keys=True)` lists them; and the unexplored index |
| Persistence.FromJson | web_explorer/knowledge.py:222-253 | on an already-decoded document, fails exactly when `Load` does, with the same error; otherwise builds a fresh, valid knowledge object with the tables `Load` describes |
| Persistence.Load | web_explorer/knowledge.py:222-253 | raises ValueError exactly when some action entry has an unknown type or flag; otherwise raises KeyError exactly when some edge names a state or an action without an entry; the unexplored index is kept as saved |
| Persistence.LoadStatesKeys | web_explorer/knowledge.py:227-234 | the states loop keys its table by exactly the ids of the saved entries |
| Persistence.LoadActionsFails | web_explorer/knowledge.py:236-244 | the actions loop raises ValueError exactly when some entry is bad, and otherwise keys its table by exactly the saved ids |
| Persistence.LinkEdgesFails | web_explorer/knowledge.py:246-251 | the edges loop never adds or drops a state or an action, and raises KeyError exactly when some edge names an id not in the tables |
| Persistence.FillStates | web_explorer/knowledge.py:227-234 | the states loop: one state per saved entry, with an empty action list |
| Persistence.FillActions | web_explorer/knowledge.py:236-244 | the actions loop: stops with the first action that fails to load |
| Persistence.FillEdges | web_explorer/knowledge.py:246-251 | the edges loop: links each edge; an unknown id raises |
| Persistence.LinkEdgesOk | web_explorer/knowledge.py:246-251 | edges whose ids are all known always link; each state lists its out-edge keys, and each action points along the last edge keyed by it |
| Persistence.RoundTrip | web_explorer/knowledge.py:189-253 | saving and then loading gives back the state and action ids in order, the signatures, descriptions, groups, types, flags, function texts and element ids, the edges and the index |
| Persistence.RoundTripKeepsIndex | web_explorer/knowledge.py:218-253 | after a round trip the unexplored index is still exact |
| Persistence.DumpLoads | web_explorer/knowledge.py:189-251 | a saved knowledge object always loads, with the same ids, and every node is a known state |
| Persistence.LoadLosesPointers | web_explorer/knowledge.py:236-251 | as written, an action that has a source state but no edge comes back with no source, and a state with no edge is not a node |
| Persistence.RoundTripRepaired | web_explorer/knowledge.py:207-208 | a loader that reads the saved src/dst restores every back-pointer and makes every state a node |
| Persistence.AdjacencyRoundTrip | web_explorer/knowledge.py:214-251 | with the edges saved in adjacency order, reloading gives back exactly those triples in that order, and each action points along the last saved edge keyed by it |
| Persistence.AdjacencyMovesPointer | web_explorer/knowledge.py:214-251 | as written, an action last linked along one edge can come back pointing along another, because adjacency order need not be insertion order |
| StateMatcher.ScanMeaning | web_explorer/state_matcher.py:106-118 | the tag walk gives the first `limit` tags in pre-order, or fails exactly when a `children` value that cannot be iterated is reached before the limit |
| StateMatcher.ExtractTags | web_explorer/state_matcher.py:106-118 | the recursive walk appends exactly what the tag scan gives, and raises exactly where it does |
| StateMatcher.ExtractItem | web_explorer/state_matcher.py:111-117 | one child of the loop continues the tag scan of the children before it, and a raise there is a raise of the whole list |
| StateMatcher.CanonicalMeaning | web_explorer/state_matcher.py:92-104 | when no raising step comes before the 256th tag and the first 256 tags in walk order are strings, those tags joined with ","; otherwise the first 1024 characters of `str(snapshot)` |
| StateMatcher.UrlText | web_explorer/state_matcher.py:40-53 | no `url` key gives ""; a URL string that `urlparse` rejects is kept whole |
| StateMatcher.UrlTextOf | web_explorer/state_matcher.py:45-51 | a URL built from its parts contributes its path, followed by "?" and the query when the query is not empty |
| StateMatcher.SignatureSeparates | web_explorer/state_matcher.py:38-57 | with a collision-free hash, and tag strings without "\|", two snapshots share a signature exactly when they share both the tag string and the URL part |
| StateMatcher.SafeSig | web_explorer/state_matcher.py:85-89 | returns the first 16 characters of the signature |
| StateMatcher.SignatureIgnoresHost | web_explorer/state_matcher.py:29-57 | two snapshots with the same DOM tree, whose URLs differ only in scheme, host or fragment, get the same signature |
| StateMatcher.MatchState | web_explorer/state_matcher.py:59-83 | returns the first state whose signature matches, with the cache unchanged; with no match and no oracle, None; otherwise the result of the oracle tier |
| StateMatcher.MatchOutcome | web_explorer/state_matcher.py:59-83 | a state returned is in the table |
| StateMatcher.MatchOutcomeMeaning | web_explorer/state_matcher.py:59-83 | a signature hit returns the first such state with the cache unchanged; with no oracle, a miss is None and the cache is unchanged; a state from the oracle tier was judged equivalent on record |
| StateMatcher.OracleLoop | web_explorer/state_matcher.py:70-83 | the loop over states and references computes the oracle tier: at most three references per state, answered from the cache first |
| StateMatcher.OracleTierFound | web_explorer/state_matcher.py:73-82 | a returned state has a reference snapshot that was judged equivalent, and that answer is in the returned cache |
| StateMatcher.OracleTier | web_explorer/state_matcher.py:70-83 | no pairs gives None and the same cache |
| StateMatcher.OracleTierMeaning | web_explorer/state_matcher.py:70-83 | cached answers are never replaced or dropped; a returned state is one of the pairs'; None means every pair's answer is on record as no |
| StateMatcher.CachedNotAsked | web_explorer/state_matcher.py:75-78 | once every answer is cached the oracle is not asked: any oracle gives the same result, and the cache stays the same |
| StateMatcher.RefsOf | web_explorer/state_matcher.py:72 | at most the state's first three snapshots serve as references |
| ElementGrouper.RawActions | web_explorer/element_grouper.py:31-39 | exactly one raw action per interactive rect, in rect order; raises when the rects or a rect's description is not a dict |
| ElementGrouper.OriginalType | web_explorer/element_grouper.py:81-89 | the type of the last raw element with that id, or "click" |
| ElementGrouper.Translate | web_explorer/element_grouper.py:83-96 | a group with no truthy elements is skipped; otherwise one action whose representative is the first stringified id, with its raw type and xpath; raises on a non-dict group or on elements that cannot be iterated |
| ElementGrouper.TranslateAllActions | web_explorer/element_grouper.py:83-96 | a group loop that does not raise yields one action per kept group, in order |
| ElementGrouper.TranslateAllGroups | web_explorer/element_grouper.py:87 | every kept group's elements are normalised in place; skipped groups stay the same |
| ElementGrouper.GroupActions | web_explorer/element_grouper.py:76-96 | the group loop is the translation of the groups; a value that cannot be iterated raises |
| ElementGrouper.Chosen | web_explorer/element_grouper.py:98-101 | falls back to the raw list when there are no groups, or at most two groups for more than five elements; never empty when raw elements exist |
| ElementGrouper.Outcome | web_explorer/element_grouper.py:68-105 | either the raw list, or non-empty group actions, each represented by its first element, with the running token total |
| ElementGrouper.Grouper.constructor | web_explorer/element_grouper.py:18-19 | the token count starts at 0 |
| ElementGrouper.Grouper.ExtractActions | web_explorer/element_grouper.py:22-105 | raises exactly when the raw list or the html slice raises; otherwise the outcome of the try block on the raw list; the reply's tokens are added |
| KnowledgeMaintenance.NewGroupsMeaning | web_explorer/knowledge_maintenance.py:62-65 | a group is added exactly when its sorted-key dump is not among the state's existing groups |
| KnowledgeMaintenance.MergeTwice | web_explorer/knowledge_maintenance.py:59-65 | merging the same groups a second time adds nothing |
| KnowledgeMaintenance.MergeGroups | web_explorer/knowledge_maintenance.py:60-65 | a falsy value leaves the groups as they are; a value that cannot be iterated raises; otherwise the unseen groups are appended |
| KnowledgeMaintenance.AddSnapshotState | web_explorer/knowledge_maintenance.py:45-51 | a new state with the snapshot's signature, the snapshot, its page description and its groups |
| KnowledgeMaintenance.TouchState | web_explorer/knowledge_maintenance.py:52-65 | appends the snapshot, fills in an empty page description and merges the groups; raises exactly when the groups cannot be iterated |
| KnowledgeMaintenance.MergeState | web_explorer/knowledge_maintenance.py:42-65 | the tables before and after are related as `StateMerged` says (spelled out by `MergedMeaning`); the snapshot ends the merged state's snapshots; the graph edges stay the same, and only a newly created state becomes a new node; the index stays exact |
| KnowledgeMaintenance.MergedMeaning | web_explorer/knowledge_maintenance.py:42-65 | the match is `match_state`'s; only a None match creates a state, appended with a fresh id and the snapshot's signature; a matched state absorbs the snapshot, and raises exactly when its groups cannot be iterated; the action tables stay the same |
| KnowledgeMaintenance.MatchKnown | web_explorer/knowledge_maintenance.py:43-44 | the match and the cache after it are exactly the two-tier outcome of `match_state` |
| KnowledgeMaintenance.ReadCandidate | web_explorer/knowledge_maintenance.py:121-122 | reading a candidate succeeds exactly when it is a dict with an `element_id` and a string `function`; the id is `str()`-ed and the function text stripped and lowercased |
| KnowledgeMaintenance.HitOf | web_explorer/knowledge_maintenance.py:125-142 | an action is hit only when its type matches; a hit by id means that one of its elements has the id |
| KnowledgeMaintenance.Merged | web_explorer/knowledge_maintenance.py:133-142 | a hit by function or by xpath appends one element, after which the action is hit by id; nothing else in the action changes |
| KnowledgeMaintenance.FirstHit | web_explorer/knowledge_maintenance.py:124-143 | the first action, in table order, hit by any of the three tests; None means no action is hit |
| KnowledgeMaintenance.MatchAgain | web_explorer/knowledge_maintenance.py:119-143 | after a merge, the same candidate hits the same action by id and merges nothing more |
| KnowledgeMaintenance.FirstHitAt | web_explorer/knowledge_maintenance.py:124-143 | an action hit by the candidate, with no earlier action hit, is exactly the one the scan returns |
| KnowledgeMaintenance.FindHit | web_explorer/knowledge_maintenance.py:124-143 | the loop finds exactly FirstHit |
| KnowledgeMaintenance.ActionMatchesExisting | web_explorer/knowledge_maintenance.py:119-143 | true exactly when some action is hit, with that action merged; raises when there is an action to compare and the candidate has no type; actions only grow |
| KnowledgeMaintenance.CreateAbstractAction | web_explorer/knowledge_maintenance.py:145-156 | builds exactly `CreatedAction`: the candidate's own element with its xpath, then the rest of its group without locators; unexplored, no pointers; raises exactly when the group or the type is bad |
| KnowledgeMaintenance.CreatedAction | web_explorer/knowledge_maintenance.py:145-156 | fails exactly when `CreateFails` says, with its error; otherwise an unexplored action with the given id and type, no pointers, and one element more than the rest of the group |
| KnowledgeMaintenance.CreateFails | web_explorer/knowledge_maintenance.py:146-156 | creation raises exactly when the group's element list or the action type cannot be read; the element list is read first, and a dict there raises the KeyError of a slice lookup |
| KnowledgeMaintenance.AppendBlank | web_explorer/knowledge_maintenance.py:148-150 | the element list is the first element followed by one locator-less element per id, in order |
| KnowledgeMaintenance.MatchAbstractAction | web_explorer/knowledge_maintenance.py:158-164 | a returned action has the step's type and an element with its id; None means no action has both |
| KnowledgeMaintenance.AddCreated | web_explorer/knowledge_maintenance.py:81-84 | registers the new action as unexplored, with its source state, in the index, and lists it on that state |
| KnowledgeMaintenance.ProcessOne | web_explorer/knowledge_maintenance.py:77-84 | handles one candidate as `Handled` says: a hit merges into the first hit action and creates nothing; a miss creates exactly one action with a fresh id, appended to the action order and the index and listed on the state |
| KnowledgeMaintenance.NewAction | web_explorer/knowledge_maintenance.py:80-84 | creates one new unexplored action listed on the state, or raises and changes nothing |
| KnowledgeMaintenance.HandleAll | web_explorer/knowledge_maintenance.py:77-87 | the loop handles the candidates in order, each as `Handled` says, and stops at the first that raises (`CandidatesDone`); the index stays exact |
| KnowledgeMaintenance.ProcessCandidates | web_explorer/knowledge_maintenance.py:77-87 | the loop handles the candidates in order, each as `Handled` says, and stops at the first that raises (`CandidatesDone`); the new ids are those of the unmatched candidates, in order, each unexplored, indexed, sourced at the state and listed on it |
| KnowledgeMaintenance.ProcessedProgress | web_explorer/knowledge_maintenance.py:77-87 | after the first m candidates, exactly the ids created so far have been appended, each new, unexplored and listed on the state; older actions only grow |
| KnowledgeMaintenance.RecordStep | web_explorer/knowledge_maintenance.py:94-112 | a self-loop marks the action ineffective and removes its edge; otherwise it marks the action explored, adds the edge and sets its pointers; the index drops the action |
| KnowledgeMaintenance.MarkIneffective | web_explorer/knowledge_maintenance.py:96-112 | a self-loop leaves the action INEFFECTIVE, out of the index, and removes its edge; states, nodes and orders stay the same |
| KnowledgeMaintenance.SetIneffective | web_explorer/knowledge_maintenance.py:96-99 | setting EXPLORED and then INEFFECTIVE changes only that action's flag and drops it from the index |
| KnowledgeMaintenance.MarkExplored | web_explorer/knowledge_maintenance.py:96-102 | the action becomes EXPLORED with pointers to both states, leaves the index, and its edge is present exactly once; the endpoints are nodes |
| KnowledgeMaintenance.Candidates | web_explorer/knowledge_maintenance.py:70-76 | uses the snapshot's cached grouped actions when present, otherwise the grouper's actions (`CandidatesFor`) |
| KnowledgeMaintenance.PrevStep | web_explorer/knowledge_maintenance.py:89-112 | the step recorded is (matched state, matched action) exactly when `match_state` finds the previous snapshot and `_match_abstract_action` an action; otherwise none; it raises exactly when the state matched and the action lookup raised; a self-loop becomes ineffective with no edge, any other step an explored edge; `StepRecorded` gives the whole new action table, index and edge list, so every other action and edge is kept |
| KnowledgeMaintenance.RecordPrevious | web_explorer/knowledge_maintenance.py:89-112 | step 4: nothing when an earlier step raised or a previous value is None; otherwise `PrevStep` on the tables as they now are; in every case the new actions, index and edges are those `StepRecorded` gives, so an unresolved step changes no flag and no edge |
| KnowledgeMaintenance.StepFrame | web_explorer/knowledge_maintenance.py:89-112 | without a step no action, index entry or edge changes; with one, every other action and edge is kept, and an edge is added only when the state changed |
| KnowledgeMaintenance.ObserveState | web_explorer/knowledge_maintenance.py:42-87 | steps 2 and 3 as `Observed` says: the merge, then, unless it raised, every candidate handled in order; the snapshot ends up last in its state; the edges stay the same |
| KnowledgeMaintenance.Observe | web_explorer/knowledge_maintenance.py:39-87 | steps 1 to 3: one trace item appended, then the snapshot observed as `Observed` says |
| KnowledgeMaintenance.ActionsOfState | web_explorer/knowledge_maintenance.py:70-87 | the candidates are those `CandidatesFor` gives, and they are handled as `CandidatesDone` says; a grouper failure raises and changes nothing |
| KnowledgeMaintenance.UpdateKnowledge | web_explorer/knowledge_maintenance.py:27-114 | appends one trace item; steps 2 and 3 are those `Observe` states; step 4 records exactly the step the previous snapshot and action resolve to on the tables after step 3, or none when a previous value is None or an earlier step raised; a step is recorded as explored, or as ineffective without an edge, and the new actions, index and edges are those `StepRecorded` gives from the tables after step 3 |
| ActionSelector.UnexploredOf | web_explorer/action_selector.py:26-34 | keeps exactly the listed ids whose action is unexplored |
| ActionSelector.Least | web_explorer/action_selector.py:30-38 | `sorted(ids)[0]`: a member that no other member precedes in string order |
| ActionSelector.LeastIgnoresOrder | web_explorer/action_selector.py:30-38 | the least id depends only on the set of ids, not on the order the dict is walked in |
| ActionSelector.SelectAction | web_explorer/action_selector.py:16-40 | returns an unexplored action, or None exactly when none exists; prefers the least unexplored action of the current state, otherwise the least in the table |
| PathFinder.Ineffectives | web_explorer/path_finder.py:36-41 | exactly the edges whose action is flagged ineffective |
| PathFinder.CollectIneffective | web_explorer/path_finder.py:37-41 | the loop collects exactly those edges |
| PathFinder.Pruned | web_explorer/path_finder.py:35-43 | after pruning, exactly the edges whose action is not ineffective remain |
| PathFinder.PrunedIdempotent | web_explorer/path_finder.py:35-43 | pruning twice is the same as pruning once |
| PathFinder.PruneIneffective | web_explorer/path_finder.py:35-43 | the graph's edges become the pruned edges; the nodes and the index stay the same |
| PathFinder.DropOne | web_explorer/path_finder.py:42-43 | one removal takes exactly that edge out of what is left, keeping the nodes |
| PathFinder.DirectedFollows | web_explorer/path_finder.py:48-59 | every directed walk is also an undirected one, labelled by its own keys |
| PathFinder.HopActions | web_explorer/path_finder.py:52-59 | one action per hop, each the key of an edge joining the hop's nodes in some direction |
| PathFinder.BfsAnyPath | web_explorer/path_finder.py:46-62 | [] when an endpoint is missing or the nodes are not connected; otherwise the actions along a shortest undirected walk |
| PathFinder.Round | web_explorer/path_finder.py:24-32 | one retry round: a directed path when there is one, with the edges unchanged; otherwise prune, then search the undirected graph; [] for distinct endpoints means they are not connected even undirected in the pruned graph |
| PathFinder.Fallback | web_explorer/path_finder.py:28-32 | prunes, then returns actions that follow an undirected walk; [] for distinct endpoints exactly means none is left |
| PathFinder.PathFinder.constructor | web_explorer/path_finder.py:11-12 | stores the retry count |
| PathFinder.PathFinder.FindPath | web_explorer/path_finder.py:14-33 | [] when the target has no source state or there are no retries; an error exactly when an endpoint is not a node; a shortest directed path when one exists; otherwise the graph is pruned and the actions follow an undirected walk, and [] means the source state is unreachable even undirected |
| PathFinder.PathFinder.PathToState | web_explorer/path_finder.py:64-70 | [] for the same state; otherwise an error exactly when an endpoint is missing, [] when the states are not connected, and the actions of a shortest walk when they are |
| InputGenerator.Placeholder | web_explorer/input_generator.py:31 | "" for a non-dict or a missing key; raises when the placeholder is not a string |
| InputGenerator.SampleFor | web_explorer/input_generator.py:32-38 | tests email, then phone, then name; the default text exactly when none of them occurs |
| InputGenerator.Generate | web_explorer/input_generator.py:29-38 | fails exactly when the placeholder raises; otherwise a non-empty sample chosen by keyword |
| InputGenerator.SampleIgnoresCase | web_explorer/input_generator.py:32-36 | a placeholder and its lowercase form get the same sample |
| UrlParse.ParseCompose | web_explorer/exploration_policy.py:45-48 | `urlparse` gives back every part of a well-formed URL |
| ExplorationPolicy.Origin | web_explorer/exploration_policy.py:45 | the origin is the start URL's netloc, so the validator allows the start URL |
| ExplorationPolicy.Validator | web_explorer/exploration_policy.py:47-49 | allows a URL exactly when its netloc is the origin or empty, and answers "ok" or "blocked" to match |
| ExplorationPolicy.SameSiteAllowed | web_explorer/exploration_policy.py:47-49 | a well-formed URL on the origin is allowed |
| ExplorationPolicy.OtherSiteBlocked | web_explorer/exploration_policy.py:47-49 | a well-formed URL on another host is blocked |
| ExplorationPolicy.XpathOwnerMeaning | web_explorer/exploration_policy.py:368-374 | the id found is the first rect with that xpath; none means every rect was scanned without a match; an error means a non-dict rect came before any match |
| ExplorationPolicy.FindByXpath | web_explorer/exploration_policy.py:369-374 | the loop computes XpathOwner |
| ExplorationPolicy.IndexMatchesSelector | web_explorer/exploration_policy.py:349 | with an exact index, the index is non-empty exactly when the selector finds an action |
| ExplorationPolicy.ExplorationAgent.constructor | web_explorer/exploration_policy.py:32-80 | an empty knowledge object, no steps, no visited states and an empty stack |
| ExplorationPolicy.ExplorationAgent.ShouldContinue | web_explorer/exploration_policy.py:347-355 | continue exactly when the index is non-empty, fewer than max steps have run, and at most max-depth states were visited |
| ExplorationPolicy.ExplorationAgent.ContinueHasTarget | web_explorer/exploration_policy.py:103-111 | whenever the loop continues, the selector has an action to return |
| ExplorationPolicy.ExplorationAgent.PushForBacktrack | web_explorer/exploration_policy.py:123-131 | a missing state raises; otherwise pushes the state exactly when it still has unexplored work and is not already on the stack |
| ExplorationPolicy.ExplorationAgent.IsActionAvailable | web_explorer/exploration_policy.py:357-375 | true when the primary element's id is on the page, or when a rect with its xpath is found, in which case the id is updated; false with no elements or no xpath |

## Left out

- The LLM calls are left out. These are `_llm_equivalent` (state_matcher.py:121-146), the prompt and request in `extract_actions` (element_grouper.py:45-75), and the LLM branch of `generate` (input_generator.py:40-73). Their answers are parameters: an equivalence oracle, and a reply holding the reported tokens and the parsed JSON.
- SHA-256 is a parameter function. `uuid4` is replaced by `FreshId`, which returns an id not in use.
- networkx tie-breaking is not modelled. When several shortest paths exist, the model promises only some shortest walk. When several keys join two nodes, it promises only some key on that hop, not the first one inserted.
- The raw trace's base64/JSON encoding in `to_json`/`from_json` is not modelled. The saved document holds the trace-free fields, and a loaded knowledge object starts with an empty trace.
- Browser I/O is not modelled. This covers the `explore` loop, `_execute_action`, snapshots, screenshots, animation, `_would_navigate_external` and the output directory. The interactive rects are passed in as a value.
- The state-splitting branch of the policy (exploration_policy.py:398-414) is not modelled, because it runs only inside the browser loop.
- The `__main__` entry point, `__init__.py` and `animation_utils.py` are not part of this model.
- Text.Lower: lowercases ASCII letters only. Python's full Unicode case mapping is not modelled.
- JsonValues.Repr: escapes the quote, the backslash and ASCII control characters as `repr` does, but keeps every non-ASCII character as it is, where Python escapes the non-printable ones (such as U+0080 to U+009F). `json.dumps(sort_keys=True)` is `JsonValues.SortedDump`, with the default `ensure_ascii` escaping.
- KnowledgeMaintenance.Touched, KnowledgeMaintenance.NewState, KnowledgeMaintenance.SnapshotGroups: a `page_description` or `element_groups` value of the wrong type is read as its default ("" or []), where Python would store the value as it is.
- KnowledgeMaintenance.CreatedAction, KnowledgeMaintenance.Merged: an `xpath` value that is not a string is read as "", where Python would store it as it is.
- Persistence.FromJson: works on an already-decoded document. A missing key, a value of the wrong shape and the base64 raw trace (knowledge.py:254-260) are outside the model, so the errors they raise are not modelled.
- UrlParse.Parse: the model covers scheme, netloc, path, params, query and fragment splitting and the bracket check. It leaves out the IPv6 address validation and the NFKC netloc check.
- StateMatcher.Signature: the `except` fallback of `_canonicalize` uses `JsonValues.Repr` for `str(snapshot)`, so it inherits the escaping gap above. Of the exceptions `urlparse` can raise, only the bracket error is modelled.
- JsonValues.Lookup: a dict with duplicate keys reads the first one. JSON objects built by the source never have duplicates.
- KnowledgeMaintenance.Candidates: any exception escaping `extract_actions` is reported as `WrongType`.
- ExplorationPolicy.ExplorationAgent.constructor: takes the already-parsed origin and the limits. It does not take the start URL and the browser settings.
- JSON floats are not modelled, because no value in the core depends on one. `JsonValues.Json` has null, booleans, integers, strings, lists and dicts.
- Concurrency and `async` are not modelled. Every operation runs to completion.
- The `print` calls (such as knowledge_maintenance.py:85-86) and the `logger` calls of exploration_policy.py are not modelled, because they only write diagnostics and change no state.

## Findings

| source | as written | input that shows it | evidently intended | confidence | as-written member | corrected member |
|---|---|---|---|---|---|---|
| web_explorer/knowledge.py:236-251 | `from_json` ignores the saved `src`/`dst` of each action and the states' `actions` lists, and adds as nodes only the endpoints of edges | a state `s` that lists action `a` with `src = s`, and no edges (an action registered at knowledge_maintenance.py:81-83 but not yet taken): after reload `a` has no source, so `find_path` returns [] for it, and `s` is not a graph node | reloading restores every action's back-pointers and every state as a node, as `get_or_create_state` does for a live knowledge object | not executed | Persistence.LoadLosesPointers | Persistence.RoundTripRepaired |
| web_explorer/knowledge.py:214-251 | `to_json` lists the edges in adjacency order, and `from_json` sets each action's back-pointers from the last listed edge with its key | `add_edge(A, Y, j)`, `add_edge(A, X, k)`, `add_edge(A, Y, k)`: the live action `k` points at `Y`; the edges are saved as `(A, Y, j), (A, Y, k), (A, X, k)`, so after reload `k` points at `X` | reloading gives each action the source and target it was saved with (knowledge.py:207-208) | not executed | Persistence.AdjacencyMovesPointer | Persistence.RoundTripRepaired |
