# Lexigraph Meeting Intelligence — a Dafny model of its deterministic core

Lexigraph turns meeting transcripts into a Neo4j knowledge graph of meetings,
people, topics, decisions, action items and commitments, then answers questions
about it, summarises meetings, classifies deadlines, suggests task owners and
draws the graph. Most of the work is done by an LLM and by the database; this
project models the deterministic logic that surrounds those calls and proves
what it promises.

One Dafny module per source file:

- `Config` (`src/config.py`): the defaulted settings and `validate`.
- `Entities` (`src/models/entities.py`): the extraction records with their defaults, and `summary`.
- `ErrorHandling` (`src/utils/error_handling.py`): the priority-ordered error classifier, `safe_execute`, `handle_streamlit_error` and `LexigraphError`.
- `GraphModel`: the in-memory graph store that stands for Neo4j (upsert by key for meetings, people and topics, always-insert for decisions, action items and commitments, fuzzy relationship matching with merge-on-edge).
- `Neo4jClient` (`src/graph/neo4j_client.py`): a class holding the store and the driver state, one method per `create_*`, `link_*`, `clear_database` and the fallback `get_node_counts`.
- `GraphBuilder` (`src/agents/graph_builder.py`): `build_graph` as a method with its write order and its `stats` counters.
- `QueryAgent` (`src/agents/query_agent.py`): the chat history, its prompt window, Cypher fence cleanup, query error rows, result formatting and `query`.
- `Analyzer` (`src/agents/analyzer.py`): deadline parsing over integer day numbers, deadline bucketing, meeting comparison and the decision list of `detect_conflicts`.
- `SummaryAgent` (`src/agents/summary_agent.py`): the meeting and cross-meeting text builders and the no-result early returns.
- `GraphViz` (`src/visualization/graph_viz.py`): node labels and tooltips and the node/edge selection of both graph builders.
- `Embeddings` (`src/ml/embeddings.py`): owner-suggestion keywords, integer scores and reasons, the similar-people name filter and label counts.
- `Migration` (`migrate_to_aura.py`): `get_match_property` and which relationships are recreated.
- `Wrappers`, `Text`, `Rows`: an Option/Result pair, ASCII string helpers, and database rows as ordered key/value lists with Python truthiness.

LLM chains and database queries are function-valued parameters, so a contract
can say which prompt a chain saw and what becomes of its reply. Dates are
integer day numbers with weekday `(d + 6) % 7` (Monday is 0), and "today" is a
parameter.

## Model

| member | source | states |
|---|---|---|
| `Config.GetEnv` | src/config.py:13-22 | a variable that is set wins even when it is empty; an unset one takes the default |
| `Config.Load` | src/config.py:13-26 | the class attributes read from the environment; `LoadDefaults` and `ValidateLoaded` state the defaults and the check |
| `Config.LoadDefaults` | src/config.py:13-26 | unset variables give the localhost URI, the "neo4j" user, the llama-3.3-70b-versatile models and empty secrets; the token limits are always 4000 and 2000 |
| `Config.Validate` | src/config.py:28-35 | passes (true) exactly when the API key and the password are both non-empty; the missing key is reported before the missing password, each with its own message |
| `Config.ValidateLoaded` | src/config.py:13-35 | validation of the loaded settings passes exactly when both secrets are set in the environment and non-empty |
| `Entities.NewPerson` | src/models/entities.py:11-14 | a person built from a name alone has no role |
| `Entities.NewTopic` | src/models/entities.py:17-20 | a topic built from a name alone has no description |
| `Entities.NewDecision` | src/models/entities.py:23-27 | a decision built from its description alone has no maker and no topic |
| `Entities.NewActionItem` | src/models/entities.py:30-35 | an action item built from its description alone has no owner, deadline or priority |
| `Entities.NewCommitment` | src/models/entities.py:38-42 | a commitment needs its maker; the addressee defaults to none |
| `Entities.NewMeetingExtraction` | src/models/entities.py:45-54 | an extraction built from a title alone has no date and five empty lists |
| `Entities.Counts` | src/models/entities.py:61-65 | the five list lengths in the summary's order; `SummaryDependsOnlyOnCounts` states the summary depends only on them and the title |
| `Entities.CountLines` | src/models/entities.py:56-66 | five lines "  - <n> <noun>", giving the lengths of people, topics, decisions, action items and commitments in that order |
| `Entities.Summary` | src/models/entities.py:56-60 | the summary opens with "Meeting: " and the title on a line of its own |
| `Entities.SummaryText` | src/models/entities.py:56-66 | the summary is the title line followed by the five count lines, separated by newlines and with no trailing newline |
| `Entities.SummaryDependsOnlyOnCounts` | src/models/entities.py:56-66 | two extractions with the same title and the same five list lengths have the same summary |
| `ErrorHandling.RuleMatches` | src/utils/error_handling.py:70-92 | each rule's substring test on the lower-cased text; `TokenRule` and `ApiKeyWins` state two of them |
| `ErrorHandling.Classify` | src/utils/error_handling.py:67-92 | the first firing rule on the lower-cased text; `ClassifyIgnoresCase` and `FirstRuleWins` state it |
| `ErrorHandling.FirstMatch` | src/utils/error_handling.py:67-92 | the chosen rule fires and every rule before it does not; none is chosen exactly when no rule fires |
| `ErrorHandling.UserFriendlyError` | src/utils/error_handling.py:57-95 | the message of the first rule that fires on the lower-cased text, otherwise "An error occurred: " followed by the original text |
| `ErrorHandling.ClassifyIgnoresCase` | src/utils/error_handling.py:67 | texts that agree after lower-casing are classified alike |
| `ErrorHandling.ApiKeyWins` | src/utils/error_handling.py:70-71 | any text mentioning "api_key" in any case gets the Groq key message, whatever else it says |
| `ErrorHandling.TokenRule` | src/utils/error_handling.py:70-83 | the token-limit message is chosen exactly when "token" appears with "limit" or "exceed" and none of the four earlier rules fires |
| `ErrorHandling.FirstRuleWins` | src/utils/error_handling.py:67-92 | rule i is chosen exactly when it fires and rules 0..i-1 do not |
| `ErrorHandling.MatchedGivesFixedMessage` | src/utils/error_handling.py:44-95 | a matched error always gets one of the eight table messages; an unmatched one keeps its un-lowered text |
| `ErrorHandling.UserMessage` | src/utils/error_handling.py:14-21 | the user message is the message the error was built with |
| `ErrorHandling.LexigraphFallback` | src/utils/error_handling.py:14-21 | an application error that no rule matches is shown as the prefix plus its message, without its details |
| `ErrorHandling.SafeExecute` | src/utils/error_handling.py:98-119 | a call that returns passes its value through and logs nothing; one that raises yields the default and logs "Error in <name>: " with the custom prefix only when it is non-empty |
| `ErrorHandling.HandleStreamlitError` | src/utils/error_handling.py:122-142 | never a success; the friendly message always; details and traceback exactly when they are asked for |
| `GraphModel.SetProp` | src/graph/neo4j_client.py:68 | setting a property to a value stores it, setting it to null removes it, and no other property changes |
| `GraphModel.Upsert` | src/graph/neo4j_client.py:64-92 | `MERGE` on the key then `SET` of the secondary attribute; `UpsertSemantics` and `UpsertKeepsKey` state its effect |
| `GraphModel.UpsertKeepsKey` | src/graph/neo4j_client.py:66-69 | overwriting the secondary attribute of a merged node keeps its merge key |
| `GraphModel.UpsertSemantics` | src/graph/neo4j_client.py:64-92 | MERGE then SET keeps one node per key: a repeat adds no node, a first call appends exactly one; the matched node's attribute is overwritten (null removes it); edges and all other nodes are unchanged |
| `GraphModel.Insert` | src/graph/neo4j_client.py:94-133 | CREATE always appends the node, even for a duplicate description, and leaves the edges alone |
| `GraphModel.ActionItemNode` | src/graph/neo4j_client.py:103-124 | a new action item has its description and status 'pending'; deadline and priority are stored exactly when given |
| `GraphModel.InsertKeepsValid` | src/graph/neo4j_client.py:94-133 | creating a node of a kind that is never merged keeps keys unique and edges in range |
| `GraphModel.FuzzyMatch` | src/graph/neo4j_client.py:150-155 | the node has the label and its property contains the value, or the value contains it, both lower-cased; `FuzzyMatchAliases` shows it is not equality |
| `GraphModel.Matching` | src/graph/neo4j_client.py:150-155 | a node is selected exactly when it has the label and the property, and one lower-cased value contains the other |
| `GraphModel.PairEdges` | src/graph/neo4j_client.py:150-157 | the MERGE yields one edge of the type for every pair of matching nodes, and no others |
| `GraphModel.Link` | src/graph/neo4j_client.py:137-163 | the `MERGE` of one edge per matching pair; `LinkSemantics` and `LinkIdempotent` state its effect |
| `GraphModel.LinkSemantics` | src/graph/neo4j_client.py:137-163 | linking changes no node, only adds edges, adds one for every matching pair and only between matching nodes, and keeps the store valid |
| `GraphModel.LinkFound` | src/graph/neo4j_client.py:163 | `len(result) > 0`; `LinkFoundIffPair` states it is true exactly when some pair matched |
| `GraphModel.LinkFoundIffPair` | src/graph/neo4j_client.py:157-163 | the result is true exactly when at least one pair matched |
| `GraphModel.LinkIdempotent` | src/graph/neo4j_client.py:156 | repeating a link request leaves the store unchanged |
| `GraphModel.FuzzyMatchAliases` | src/graph/neo4j_client.py:151-152 | containment matching is not name equality: "Lee" matches a person named "Ashlee" |
| `GraphModel.Clear` | src/graph/neo4j_client.py:231-233 | after DETACH DELETE the store has no nodes and no edges |
| `GraphModel.CountLabel` | src/graph/neo4j_client.py:256-257 | a label's count never exceeds the number of nodes |
| `GraphModel.CountsCoverAllNodes` | src/graph/neo4j_client.py:253-258 | the six per-label counts add up to the number of nodes |
| `GraphModel.CountAfterInsert` | src/graph/neo4j_client.py:94-133 | creating a node adds one to its own label's count and leaves the other counts alone |
| `Neo4jClient.OrDefault` | src/graph/neo4j_client.py:24-26 | an argument that is given and non-empty wins; otherwise the configured value is used |
| `Neo4jClient.Client.constructor` | src/graph/neo4j_client.py:18-27 | the client starts without a driver, with the connection parameters from the arguments or the settings |
| `Neo4jClient.Client.Connect` | src/graph/neo4j_client.py:29-37 | a driver is created from the client's parameters only when there is none; an existing one is kept (`Session`) |
| `Neo4jClient.Client.Session` | src/graph/neo4j_client.py:46-50 | the driver a statement runs under: the existing driver, or a new one from the client's parameters when there is none; always present |
| `Neo4jClient.Client.Close` | src/graph/neo4j_client.py:39-43 | afterwards there is no driver |
| `Neo4jClient.Client.Merge` | src/graph/neo4j_client.py:64-92 | the store becomes the upsert of the old one; the returned id is a node with that key; the driver is connected |
| `Neo4jClient.Client.CreateMeeting` | src/graph/neo4j_client.py:64-72 | merges a meeting on its title and overwrites its date |
| `Neo4jClient.Client.CreatePerson` | src/graph/neo4j_client.py:74-82 | merges a person on the name and overwrites the role |
| `Neo4jClient.Client.CreateTopic` | src/graph/neo4j_client.py:84-92 | merges a topic on the name and overwrites the description |
| `Neo4jClient.Client.Create` | src/graph/neo4j_client.py:94-133 | appends the node; the returned id is its position |
| `Neo4jClient.Client.CreateDecision` | src/graph/neo4j_client.py:94-101 | appends a new decision node |
| `Neo4jClient.Client.CreateActionItem` | src/graph/neo4j_client.py:103-124 | appends a new pending action item |
| `Neo4jClient.Client.CreateCommitment` | src/graph/neo4j_client.py:126-133 | appends a new commitment node |
| `Neo4jClient.Client.CreateRelationship` | src/graph/neo4j_client.py:137-163 | the store gains the edges for every matching pair; the result is true exactly when both ends matched something |
| `Neo4jClient.Client.LinkPersonToMeeting` | src/graph/neo4j_client.py:165-171 | ATTENDED from persons matching the name to meetings matching the title |
| `Neo4jClient.Client.LinkMeetingToTopic` | src/graph/neo4j_client.py:173-179 | DISCUSSED from matching meetings to matching topics |
| `Neo4jClient.Client.LinkPersonToDecision` | src/graph/neo4j_client.py:181-187 | MADE from matching persons to decisions matching the description |
| `Neo4jClient.Client.LinkPersonToActionItem` | src/graph/neo4j_client.py:189-195 | OWNS from matching persons to matching action items |
| `Neo4jClient.Client.LinkPersonToCommitment` | src/graph/neo4j_client.py:197-203 | COMMITTED from matching persons to matching commitments |
| `Neo4jClient.Client.LinkDecisionToTopic` | src/graph/neo4j_client.py:205-211 | ABOUT from matching decisions to matching topics |
| `Neo4jClient.Client.LinkMeetingToDecision` | src/graph/neo4j_client.py:213-219 | CONTAINS from matching meetings to matching decisions |
| `Neo4jClient.Client.LinkMeetingToActionItem` | src/graph/neo4j_client.py:221-227 | CONTAINS from matching meetings to matching action items |
| `Neo4jClient.Client.ClearDatabase` | src/graph/neo4j_client.py:231-233 | the store is emptied |
| `Neo4jClient.Client.GetNodeCounts` | src/graph/neo4j_client.py:239-258 | exactly the six labels are keys, each mapped to the number of nodes with that label |
| `GraphBuilder.DecisionMakers` | src/agents/graph_builder.py:85-88 | at most one maker link per decision |
| `GraphBuilder.DecisionTopics` | src/agents/graph_builder.py:90-93 | at most one topic link per decision |
| `GraphBuilder.ActionOwners` | src/agents/graph_builder.py:106-109 | at most one owner link per action item |
| `GraphBuilder.CommitmentMakers` | src/agents/graph_builder.py:116-119 | at most one maker link per commitment |
| `GraphBuilder.GraphBuilderAgent.constructor` | src/agents/graph_builder.py:21-23 | the agent starts unconnected on the given client |
| `GraphBuilder.GraphBuilderAgent.Connect` | src/agents/graph_builder.py:25-29 | afterwards connected; the client connects only on the first call |
| `GraphBuilder.GraphBuilderAgent.Close` | src/agents/graph_builder.py:31-35 | afterwards not connected; the client's driver is closed only when the agent was connected |
| `GraphBuilder.GraphBuilderAgent.BuildGraph` | src/agents/graph_builder.py:37-121 | the store becomes exactly the writes of a build, in the source's order; the counters are 1 meeting, the five list lengths, and the number of link calls made; the driver is the one the first write connects, or the existing one |
| `GraphBuilder.GraphBuilderAgent.GetGraphStats` | src/agents/graph_builder.py:123-127 | connects when needed, leaves the store alone and returns the count of each of the six labels |
| `GraphBuilder.GraphBuilderAgent.WritePeople` | src/agents/graph_builder.py:64-69 | each person is merged and then linked to the meeting, one link call each |
| `GraphBuilder.GraphBuilderAgent.WriteTopics` | src/agents/graph_builder.py:71-76 | each topic is merged and then linked from the meeting, one link call each |
| `GraphBuilder.GraphBuilderAgent.WriteDecisions` | src/agents/graph_builder.py:78-93 | each decision is created and linked; the link calls are one per decision plus one per truthy maker and one per truthy topic |
| `GraphBuilder.GraphBuilderAgent.WriteDecision` | src/agents/graph_builder.py:79-93 | one decision: created, linked to the meeting, then to its maker and its topic when those are truthy |
| `GraphBuilder.GraphBuilderAgent.WriteActions` | src/agents/graph_builder.py:95-109 | each action item is created and linked; one link call per item plus one per truthy owner |
| `GraphBuilder.GraphBuilderAgent.WriteAction` | src/agents/graph_builder.py:96-109 | one action item: created pending, linked to the meeting, then to its owner when truthy |
| `GraphBuilder.GraphBuilderAgent.WriteCommitments` | src/agents/graph_builder.py:111-119 | each commitment is created and linked to its maker when the maker is non-empty; never to the meeting |
| `GraphBuilder.Build` | src/agents/graph_builder.py:59-119 | every write of `build_graph` in order; `BuildRecordsMeeting`, `BuildLinksAttendees`, `BuildLinksTopics`, `BuildCounts` and `BuildTyped` state the result |
| `GraphBuilder.GrowsTrans` | src/agents/graph_builder.py:59-121 | the store only grows: this is transitive across phases |
| `GraphBuilder.UpsertGrows` | src/agents/graph_builder.py:66-73 | merging a person or a topic keeps every earlier node's label and key and every edge |
| `GraphBuilder.UpsertHasKey` | src/graph/neo4j_client.py:64-92 | after a merge some node carries the key |
| `GraphBuilder.LinkGrows` | src/graph/neo4j_client.py:137-163 | linking only grows the store |
| `GraphBuilder.InsertGrows` | src/graph/neo4j_client.py:94-133 | creating a node only grows the store |
| `GraphBuilder.AddPersonGrows` | src/agents/graph_builder.py:65-67 | one iteration of the people loop only grows the store |
| `GraphBuilder.AddTopicGrows` | src/agents/graph_builder.py:72-74 | one iteration of the topic loop only grows the store |
| `GraphBuilder.AddDecisionGrows` | src/agents/graph_builder.py:79-93 | one iteration of the decision loop only grows the store |
| `GraphBuilder.AddActionGrows` | src/agents/graph_builder.py:96-109 | one iteration of the action loop only grows the store |
| `GraphBuilder.AddCommitmentGrows` | src/agents/graph_builder.py:112-119 | one iteration of the commitment loop only grows the store |
| `GraphBuilder.AddPeopleGrows` | src/agents/graph_builder.py:65-69 | the rest of the people loop only grows the store |
| `GraphBuilder.AddTopicsGrows` | src/agents/graph_builder.py:72-76 | the rest of the topic loop only grows the store |
| `GraphBuilder.AddDecisionsGrows` | src/agents/graph_builder.py:79-93 | the decision loop only grows the store |
| `GraphBuilder.AddActionsGrows` | src/agents/graph_builder.py:96-109 | the action loop only grows the store |
| `GraphBuilder.AddCommitmentsGrows` | src/agents/graph_builder.py:112-119 | the commitment loop only grows the store |
| `GraphBuilder.CreatedGrows` | src/agents/graph_builder.py:78-119 | the decision, action and commitment phases only grow the store |
| `GraphBuilder.BuildGrows` | src/agents/graph_builder.py:64-119 | everything after the meeting's merge only grows the store |
| `GraphBuilder.BuildRecordsMeeting` | src/agents/graph_builder.py:59-62 | after a build the meeting exists, keyed by its title, with the extracted date or none |
| `GraphBuilder.SelfMatch` | src/graph/neo4j_client.py:151-155 | a node's own property value always fuzzy-matches it |
| `GraphBuilder.GrowsKeepsMeeting` | src/agents/graph_builder.py:59-121 | a meeting once present stays present |
| `GraphBuilder.GrowsKeepsAttended` | src/agents/graph_builder.py:59-121 | an ATTENDED edge once present stays present |
| `GraphBuilder.GrowsKeepsDiscussed` | src/agents/graph_builder.py:59-121 | a DISCUSSED edge once present stays present |
| `GraphBuilder.AddPersonAttends` | src/agents/graph_builder.py:66-67 | merging a person and linking them to an existing meeting always yields their ATTENDED edge |
| `GraphBuilder.AddTopicDiscussed` | src/agents/graph_builder.py:73-74 | merging a topic and linking it from an existing meeting always yields its DISCUSSED edge |
| `GraphBuilder.AddPeopleStep` | src/agents/graph_builder.py:65-67 | iteration k of the people loop yields person k's ATTENDED edge |
| `GraphBuilder.AddPeopleAttended` | src/agents/graph_builder.py:65-69 | by the end of the people loop every person has attended |
| `GraphBuilder.BuildLinksAttendees` | src/agents/graph_builder.py:59-69 | after a build every extracted person has an ATTENDED edge to the meeting |
| `GraphBuilder.RestGrows` | src/agents/graph_builder.py:71-119 | the phases after the people loop only grow the store |
| `GraphBuilder.AddTopicsStep` | src/agents/graph_builder.py:72-74 | iteration k of the topic loop yields topic k's DISCUSSED edge |
| `GraphBuilder.AddTopicsDiscussed` | src/agents/graph_builder.py:72-76 | by the end of the topic loop every topic is discussed |
| `GraphBuilder.BuildLinksTopics` | src/agents/graph_builder.py:59-76 | after a build every extracted topic has a DISCUSSED edge from the meeting |
| `GraphBuilder.CountSameKinds` | src/graph/neo4j_client.py:253-258 | node lists with the same labels position by position have the same counts |
| `GraphBuilder.UpsertCount` | src/graph/neo4j_client.py:64-92 | a merge adds at most one node of its own label and none of another |
| `GraphBuilder.AddPeopleCount` | src/agents/graph_builder.py:65-69 | the people loop adds at most one person per entry and no other node |
| `GraphBuilder.AddTopicsCount` | src/agents/graph_builder.py:72-76 | the topic loop adds at most one topic per entry and no other node |
| `GraphBuilder.AddDecisionsCount` | src/agents/graph_builder.py:79-93 | the decision loop adds exactly one decision per entry and no other node |
| `GraphBuilder.AddActionsCount` | src/agents/graph_builder.py:96-109 | the action loop adds exactly one action item per entry and no other node |
| `GraphBuilder.AddCommitmentsCount` | src/agents/graph_builder.py:112-119 | the commitment loop adds exactly one commitment per entry and no other node |
| `GraphBuilder.CreatedCount` | src/agents/graph_builder.py:78-119 | the created kinds grow by exactly their list lengths |
| `GraphBuilder.BuildCountLabel` | src/agents/graph_builder.py:59-121 | one label's count after a build: exact for created kinds, bounded for merged kinds |
| `GraphBuilder.BuildCounts` | src/agents/graph_builder.py:59-121 | a build adds exactly one node per decision, action item and commitment (duplicates included) and at most one per meeting, person and topic |
| `GraphBuilder.UpsertKeepsTyped` | src/graph/neo4j_client.py:64-92 | merging keeps every edge within the relationship schema |
| `GraphBuilder.LinkKeepsTyped` | src/graph/neo4j_client.py:137-163 | a link whose endpoint labels the schema allows keeps every edge within it |
| `GraphBuilder.AddPeopleTyped` | src/agents/graph_builder.py:65-69 | the people loop keeps the schema |
| `GraphBuilder.AddTopicsTyped` | src/agents/graph_builder.py:72-76 | the topic loop keeps the schema |
| `GraphBuilder.AddDecisionTyped` | src/agents/graph_builder.py:79-93 | one decision iteration keeps the schema |
| `GraphBuilder.AddDecisionsTyped` | src/agents/graph_builder.py:79-93 | the decision loop keeps the schema |
| `GraphBuilder.AddActionTyped` | src/agents/graph_builder.py:96-109 | one action iteration keeps the schema |
| `GraphBuilder.AddActionsTyped` | src/agents/graph_builder.py:96-109 | the action loop keeps the schema |
| `GraphBuilder.AddCommitmentsTyped` | src/agents/graph_builder.py:112-119 | the commitment loop keeps the schema |
| `GraphBuilder.BuildTyped` | src/agents/graph_builder.py:59-121 | a build keeps every edge within the relationship schema; no meeting is ever joined directly to a commitment |
| `GraphBuilder.CounterCountsAttempts` | src/agents/graph_builder.py:85-88 | the relationships counter counts link calls, not edges: a decision whose maker is not in the store counts 2 but adds one edge |
| `QueryAgent.Window` | src/agents/query_agent.py:186 | the window is the last min(n, 5) turns of the history |
| `QueryAgent.TurnLines` | src/agents/query_agent.py:186-188 | "Qk: question" and "Ak: " plus the answer cut to 200 characters and "..."; `HistoryLinesAt` and `ChatHistoryLines` place them in the prompt |
| `QueryAgent.HistoryLines` | src/agents/query_agent.py:185-188 | two prompt lines per turn of the window |
| `QueryAgent.HistoryLinesAt` | src/agents/query_agent.py:186-188 | the turn at position i of the window becomes lines 2i and 2i+1, "Q<i+1>: question" and "A<i+1>: " with the answer cut to 200 characters and followed by "..." |
| `QueryAgent.JoinStartsWithFirst` | src/agents/query_agent.py:189 | a newline-joined text begins with its first line |
| `QueryAgent.FormatChatHistory` | src/agents/query_agent.py:180-189 | the placeholder "No previous conversation." is returned exactly when the history is empty |
| `QueryAgent.ChatHistoryLines` | src/agents/query_agent.py:180-189 | a non-empty history is rendered as 2·min(n, 5) lines, numbered from 1 at the oldest turn kept |
| `QueryAgent.ChatHistoryForgets` | src/agents/query_agent.py:186 | turns older than the last five never reach the prompt |
| `QueryAgent.WindowSlides` | src/agents/query_agent.py:185-189 | appending a turn slides the window by one |
| `QueryAgent.UpToFence` | src/agents/query_agent.py:214 | the text before the first fence: a prefix of the input, holding no fence, followed by a fence or by the end |
| `QueryAgent.CleanCypher` | src/agents/query_agent.py:211-217 | strip, unwrap a fenced reply, strip again; `CleanCypherShape`, `CleanCypherIdempotent` and `CleanFencedCypher` state the result |
| `QueryAgent.CleanCypherShape` | src/agents/query_agent.py:211-217 | cleaned Cypher is already stripped and never begins with a fence |
| `QueryAgent.Unfence` | src/agents/query_agent.py:213-216 | a fenced reply becomes the text up to its next fence, less a "cypher" tag; other text is kept; `UnfenceFenced` and `UnfencedHasNoFence` state it |
| `QueryAgent.UnfencedHasNoFence` | src/agents/query_agent.py:213-216 | what is taken out of a fenced reply holds no fence |
| `QueryAgent.CleanCypherIdempotent` | src/agents/query_agent.py:211-217 | cleaning an already cleaned query changes nothing |
| `QueryAgent.CleanFencedCypher` | src/agents/query_agent.py:211-217 | a fenced reply yields the text between its first two fences, less a leading "cypher" tag, stripped |
| `QueryAgent.UnfenceFenced` | src/agents/query_agent.py:213-216 | unwrapping "```" + inner + "```" + rest gives inner, less a leading "cypher" |
| `QueryAgent.UpToFenceOf` | src/agents/query_agent.py:214 | the first fence of a + b is where b starts when a holds none and does not end in a backtick |
| `QueryAgent.QueryRows` | src/agents/query_agent.py:219-226 | a successful query gives its rows; a raised error gives exactly one row whose "error" field is the message |
| `QueryAgent.FieldParts` | src/agents/query_agent.py:237 | one "key: value" part per field that is not None, so never more parts than fields, and one per field when none is None |
| `QueryAgent.ResultLines` | src/agents/query_agent.py:235-238 | one line per row, line i being "<i+1>. " followed by the row's parts joined by ", " |
| `QueryAgent.FormatResults` | src/agents/query_agent.py:228-239 | "No results found." for no rows, "Query error: " plus the message when the first row has an error, otherwise the numbered lines; `FailedQueryReported` and `FormatResultsNumbered` state the last two |
| `QueryAgent.FailedQueryReported` | src/agents/query_agent.py:223-233 | the message of a failing query is exactly what the formatter reports, after "Query error: " |
| `QueryAgent.FormatResultsNumbered` | src/agents/query_agent.py:228-239 | rows whose first row has no error key are reported as numbered lines starting with "1. " |
| `QueryAgent.Respond` | src/agents/query_agent.py:256-280 | the result carries the question, the Cypher and the raw rows, their formatting, and the stripped answer the answer chain gives for them and the history |
| `QueryAgent.Agent.constructor` | src/agents/query_agent.py:145-153 | a new agent is unconnected and has an empty history |
| `QueryAgent.Agent.ClearHistory` | src/agents/query_agent.py:176-178 | the history becomes empty |
| `QueryAgent.Agent.Connect` | src/agents/query_agent.py:192-196 | afterwards connected; the client connects only on the first call |
| `QueryAgent.Agent.Close` | src/agents/query_agent.py:198-202 | afterwards not connected; the client is closed only when the agent was connected |
| `QueryAgent.Agent.GenerateCypher` | src/agents/query_agent.py:204-217 | the cleaned reply of the Cypher chain for the question and the formatted history: stripped, with no leading fence |
| `QueryAgent.Agent.ExecuteQuery` | src/agents/query_agent.py:219-226 | connects when needed and runs under that driver; the store becomes whatever the statement leaves (a generated statement may write) and stays valid when it was; returns the statement's rows or its error row |
| `QueryAgent.Agent.Query` | src/agents/query_agent.py:241-280 | both chains see the history as it was before the call; the result is the response to the rows of the cleaned Cypher; exactly one turn (question, answer, Cypher) is appended; the store is what the cleaned Cypher leaves and stays valid when it was; the driver is connected |
| `QueryAgent.Agent.Ask` | src/agents/query_agent.py:250-254 | the cleaned Cypher the Cypher chain gives for the question and the prior history, the rows it yields on the store, and the store it leaves, valid when it was |
| `QueryAgent.Agent.Answer` | src/agents/query_agent.py:256-280 | the response for the rows, with its turn appended to the history |
| `QueryAgent.Agent.QuickQuery` | src/agents/query_agent.py:282-285 | the answer is the response to the rows of the cleaned Cypher for the question and the prior history; exactly that turn (question, answer, Cypher) is appended; the store is what the Cypher leaves and stays valid when it was; the driver is connected |
| `Analyzer.Weekday` | src/agents/analyzer.py:137 | a weekday is always 0 (Monday) to 6 (Sunday) |
| `Analyzer.FirstDayIn` | src/agents/analyzer.py:129-141 | the first day name, in Monday-to-Sunday order, that occurs in the text; none exactly when no day name occurs |
| `Analyzer.DaysAhead` | src/agents/analyzer.py:137-140 | `day_num - weekday`, plus 7 when not ahead; `DaysAheadLands` proves it lands on the named weekday 1 to 7 days on |
| `Analyzer.ParseDeadline` | src/agents/analyzer.py:124-154 | `_parse_deadline` on the lower-cased, stripped text; `ParsedOffsetRange`, `WeekdayDeadline`, `EndOfWeekIsFriday` and `ParseFailsIffNoKeyword` state what it returns |
| `Analyzer.ParseNormalized` | src/agents/analyzer.py:134-154 | day names first in Monday-to-Sunday order, then "today"/"eod", "tomorrow", "next week", "end of week"; `DayNameNormalized` and `EndOfWeekNormalized` state the day it returns |
| `Analyzer.ParsedOffsetRange` | src/agents/analyzer.py:124-154 | any parsed deadline lies 0 to 7 days after the reference day |
| `Analyzer.WeekdayShift` | src/agents/analyzer.py:137-141 | adding k days moves the weekday by k modulo 7 |
| `Analyzer.DaysAheadLands` | src/agents/analyzer.py:137-141 | moving to weekday d takes 1 to 7 days and lands on d; to today's weekday it takes exactly 7 |
| `Analyzer.WeekdayDeadline` | src/agents/analyzer.py:126-141 | a deadline naming a weekday lands 1 to 7 days ahead on the first weekday named; today's weekday means a week from now |
| `Analyzer.DayNameNormalized` | src/agents/analyzer.py:135-141 | the same, on the trimmed lower-cased text |
| `Analyzer.EndOfWeekLands` | src/agents/analyzer.py:151 | (4 - weekday) mod 7 days ahead is 0 to 6 days away and a Friday |
| `Analyzer.EndOfWeekNormalized` | src/agents/analyzer.py:143-152 | "end of week", with no day name or earlier term, parses to a Friday 0 to 6 days ahead |
| `Analyzer.EndOfWeekIsFriday` | src/agents/analyzer.py:124-152 | the same, from the raw deadline text |
| `Analyzer.ParseFailsIffNoKeyword` | src/agents/analyzer.py:124-154 | parsing fails exactly when none of the seven day names, "today", "eod", "tomorrow", "next week" or "end of week" occurs in the trimmed lower-cased text |
| `Analyzer.FridayText` | src/agents/analyzer.py:126 | "Friday" normalises to "friday" |
| `Analyzer.FridayFound` | src/agents/analyzer.py:135-136 | the first day name found in "friday" is Friday (4) |
| `Analyzer.FridayFromMonday` | tests/test_agents.py:170-182 | "Friday" from Monday 2024-01-15 is Friday 2024-01-19 |
| `Analyzer.ItemOf` | src/agents/analyzer.py:97-104 | the item keeps the row's status when the key is present and reads 'pending' only when it is absent |
| `Analyzer.BucketOf` | src/agents/analyzer.py:106-120 | no deadline exactly when the deadline is falsy; an unparseable deadline is upcoming; a parsed one is overdue exactly when in the past, due soon exactly when 0 to 2 days ahead, upcoming exactly when more than 2 days ahead |
| `Analyzer.NeverOverdue` | src/agents/analyzer.py:110-152 | no row is ever overdue, since parsed deadlines are never in the past |
| `Analyzer.InBucket` | src/agents/analyzer.py:95-120 | a bucket never holds more items than there are rows |
| `Analyzer.InBucketStep` | src/agents/analyzer.py:95-120 | one more row extends exactly its own bucket |
| `Analyzer.InBucketHolds` | src/agents/analyzer.py:95-120 | a bucket list holds the item of every row in that bucket, and only such items |
| `Analyzer.InBucketHas` | src/agents/analyzer.py:95-120 | every row's item is in its bucket's list |
| `Analyzer.InBucketOnly` | src/agents/analyzer.py:95-120 | every item of a bucket's list comes from a row in that bucket |
| `Analyzer.BucketsPartition` | src/agents/analyzer.py:95-120 | every row lands in exactly one bucket: the four lists together are as long as the input |
| `Analyzer.OverdueAlwaysEmpty` | src/agents/analyzer.py:110-152 | the overdue list is always empty |
| `Analyzer.Categorize` | src/agents/analyzer.py:86-122 | each bucket holds the items of exactly the rows in that bucket, in input order; overdue is empty; the four lists account for every row |
| `Analyzer.TopicSet` | src/agents/analyzer.py:292-293 | the set of a topic list holds exactly its elements |
| `Analyzer.CompareMeetings` | src/agents/analyzer.py:286-303 | "Meetings not found" exactly when there are no rows; otherwise common, unique-to-1 and unique-to-2 are pairwise disjoint and common + unique rebuild each meeting's topic set; titles and decisions come from the first row |
| `Analyzer.ComparisonCommonIsBoth` | src/agents/analyzer.py:298 | a topic is common exactly when both meetings list it |
| `Analyzer.DecisionLine` | src/agents/analyzer.py:244-251 | number, quoted decision, then " (by …)", " [Meeting: …]" and " [Topic: …]" each only for a truthy field; `DecisionLines` numbers them and `BareDecisionLine` gives the bare case |
| `Analyzer.DecisionLines` | src/agents/analyzer.py:243-252 | one line per decision, line i numbered i+1 in result order |
| `Analyzer.BareDecisionLine` | src/agents/analyzer.py:245-251 | a decision with no maker, meeting or topic is just its number and quoted text |
| `Analyzer.DetectConflicts` | src/agents/analyzer.py:239-259 | no rows gives "No decisions found in the knowledge graph." with no model call; otherwise the model sees the newline-joined decision lines |
| `Analyzer.AnalyzerAgent.constructor` | src/agents/analyzer.py:22-24 | a new agent is unconnected |
| `Analyzer.AnalyzerAgent.Connect` | src/agents/analyzer.py:49-53 | afterwards connected; the client connects only on the first call |
| `Analyzer.AnalyzerAgent.Close` | src/agents/analyzer.py:55-59 | afterwards not connected; the client is closed only when the agent was connected |
| `Analyzer.AnalyzerAgent.GetDeadlineStatus` | src/agents/analyzer.py:61-122 | connects when needed; a failing query propagates its error; otherwise the rows are bucketed as `Categorize` states, overdue empty |
| `Analyzer.AnalyzerAgent.DetectConflictsIn` | src/agents/analyzer.py:213-259 | connects when needed; a failing query propagates its error; otherwise the analysis of `DetectConflicts` |
| `Analyzer.AnalyzerAgent.GetMeetingComparison` | src/agents/analyzer.py:261-303 | connects when needed; a failing query propagates its error; otherwise the comparison of the rows |
| `SummaryAgent.CountWith` | src/agents/summary_agent.py:204-235 | at most one shown entry per item |
| `SummaryAgent.Entries` | src/agents/summary_agent.py:204-235 | one entry line per item whose key is truthy |
| `SummaryAgent.EntriesExact` | src/agents/summary_agent.py:204-235 | every item with a truthy key has its entry shown, and every entry shown comes from such an item |
| `SummaryAgent.Section` | src/agents/summary_agent.py:201-235 | an empty list gives no lines; a non-empty one gives its header and then one entry per item with a truthy key |
| `SummaryAgent.AppendSection` | src/agents/summary_agent.py:201-235 | appends exactly that section's lines |
| `SummaryAgent.CollectEntries` | src/agents/summary_agent.py:204-207 | the loop keeps the entry of each item with a truthy key, in order |
| `SummaryAgent.AttendeeNames` | src/agents/summary_agent.py:196 | one name per attendee with a truthy name; the list is empty exactly when no attendee has a truthy name |
| `SummaryAgent.AttendeeNamesExact` | src/agents/summary_agent.py:196 | every attendee with a truthy name has that name listed, and every listed name is the name of such an attendee |
| `SummaryAgent.ValueLine` | src/agents/summary_agent.py:192-193 | a line for a truthy value, no line otherwise |
| `SummaryAgent.JoinedLine` | src/agents/summary_agent.py:197-198 | a joined line for a non-empty list, no line otherwise |
| `SummaryAgent.MeetingLines` | src/agents/summary_agent.py:187-235 | the header lines then the four sections; `MeetingHeader` and `SectionsOpenWithNewline` state their shape |
| `SummaryAgent.FormatMeetingData` | src/agents/summary_agent.py:187-237 | the digest is the newline-joined title, date and attendee lines followed by the four sections |
| `SummaryAgent.SectionsOpenWithNewline` | src/agents/summary_agent.py:203-231 | every section begins a new paragraph |
| `SummaryAgent.MeetingHeader` | src/agents/summary_agent.py:191-198 | the first line is "MEETING: " and the title ("Unknown" only when the key is absent); the DATE line follows exactly when the date is truthy, otherwise the next line starts a new paragraph |
| `SummaryAgent.HeaderWithoutEntries` | src/agents/summary_agent.py:201-235 | a non-empty section shows its header even when none of its entries is shown |
| `SummaryAgent.NoneCounted` | src/agents/summary_agent.py:204-235 | with no truthy key, no entry is counted |
| `SummaryAgent.NonEmpty` | src/agents/summary_agent.py:253-262 | keeps exactly the non-empty names |
| `SummaryAgent.TaskActions` | src/agents/summary_agent.py:266-269 | keeps exactly the actions with a truthy task |
| `SummaryAgent.Elements` | src/agents/summary_agent.py:260 | the set of a list holds exactly its elements |
| `SummaryAgent.AllActionsExact` | src/agents/summary_agent.py:246-269 | the collected actions are exactly the actions of some meeting with a truthy task |
| `SummaryAgent.AllTopicsExact` | src/agents/summary_agent.py:245-260 | the recurring-topic set holds exactly the non-empty topic names of all meetings |
| `SummaryAgent.OwnerDefaultOnlyWhenAbsent` | src/agents/summary_agent.py:276-277 | an owner key holding None is shown as it is; only a missing key reads 'Unassigned' |
| `SummaryAgent.MapLines` | src/agents/summary_agent.py:275-283 | one line per item, in order |
| `SummaryAgent.CollectTasks` | src/agents/summary_agent.py:266-269 | the inner loop keeps exactly the actions with a truthy task |
| `SummaryAgent.OverviewOf` | src/agents/summary_agent.py:249-271 | one meeting gives its overview block, its non-empty topic names and its actions with a task |
| `SummaryAgent.Overview` | src/agents/summary_agent.py:245-271 | the meeting loop yields all overview blocks, the union of the topics and all kept actions, meeting by meeting |
| `SummaryAgent.ActionSummaryLine` | src/agents/summary_agent.py:275-278 | status (default "pending"), task, owner (default "Unassigned") and a due date only when truthy; `OwnerDefaultOnlyWhenAbsent` states the owner default |
| `SummaryAgent.FormatEach` | src/agents/summary_agent.py:275-283 | the loop formats one line per item |
| `SummaryAgent.CrossMeetingLines` | src/agents/summary_agent.py:243-286 | overview, actions, commitments and recurring topics in that order; `CrossMeetingSectionOrder` and `RecurringTopicsLine` state them |
| `SummaryAgent.FormatCrossMeetingData` | src/agents/summary_agent.py:239-288 | the digest is the newline-joined overview, action, commitment and recurring-topic sections |
| `SummaryAgent.RecurringTopicsLine` | src/agents/summary_agent.py:245-286 | the last line lists every recurring topic exactly once: the non-empty topic names of any meeting, and nothing else |
| `SummaryAgent.CrossMeetingSectionOrder` | src/agents/summary_agent.py:243-286 | the headers come in the order MEETINGS OVERVIEW, ALL ACTION ITEMS, ALL COMMITMENTS, RECURRING TOPICS, with one line per action and per commitment between them |
| `SummaryAgent.Agent.constructor` | src/agents/summary_agent.py:17-19 | a new agent is unconnected |
| `SummaryAgent.Agent.Connect` | src/agents/summary_agent.py:62-66 | afterwards connected; the client connects only on the first call |
| `SummaryAgent.Agent.Close` | src/agents/summary_agent.py:68-72 | afterwards not connected; the client is closed only when the agent was connected |
| `SummaryAgent.Agent.GenerateMeetingSummary` | src/agents/summary_agent.py:74-130 | no matching meeting gives "No meeting found matching '<title>'" without a model call; otherwise the model summarises the digest of the first record; a failing query propagates |
| `SummaryAgent.Agent.GenerateCrossMeetingSummary` | src/agents/summary_agent.py:132-185 | no meetings gives "No meetings found in the knowledge graph." and the commitment query is not run; otherwise the model summarises the cross-meeting digest; failing queries propagate |
| `GraphViz.PropOr` | src/visualization/graph_viz.py:337-354 | the default when no property has the key; otherwise a value the property list holds under that key |
| `GraphViz.Cut` | src/visualization/graph_viz.py:338-353 | a text within the limit is kept whole; a longer one is its first n characters followed by "..." |
| `GraphViz.PersonLabelAsWritten` | src/visualization/graph_viz.py:339-341 | the Person branch as written, with the IndexError as `Raised`; `PersonLabelCorrects` and `BlankNameRaises` state where it fails |
| `GraphViz.PersonLabel` | src/visualization/graph_viz.py:339-341 | a person's label is never empty |
| `GraphViz.PersonLabelCorrects` | src/visualization/graph_viz.py:339-341 | the corrected label agrees with the code as written wherever the latter returns; the latter raises exactly on a non-empty name made only of whitespace |
| `GraphViz.BlankNameRaises` | src/visualization/graph_viz.py:341 | the name " " makes the code as written raise IndexError, where the corrected label is "Person" |
| `GraphViz.PersonLabelIsFirstWord` | src/visualization/graph_viz.py:339-341 | the label is the first whitespace-separated word of the name, or "Person" when there is none, and holds no whitespace |
| `GraphViz.NodeLabel` | src/visualization/graph_viz.py:334-354 | `_get_node_label` with the Person case corrected; `LabelLength` and `MeetingLabel` state the cuts and `PersonLabelIsFirstWord` the Person label |
| `GraphViz.LabelLength` | src/visualization/graph_viz.py:334-354 | meeting labels are at most 23 characters, the other known kinds except persons at most 18, an unknown kind at most 15 (no ellipsis) |
| `GraphViz.MeetingLabel` | src/visualization/graph_viz.py:336-338 | a title of at most 20 characters is shown whole, a longer one as its first 20 characters and "..." |
| `GraphViz.Tooltip` | src/visualization/graph_viz.py:357-365 | the bold type line then one line per truthy property; `TooltipShowsProperty` and `TooltipSkipsEmpty` state which properties appear |
| `GraphViz.NodeTooltip` | src/visualization/graph_viz.py:357-365 | the loop builds "<b>type</b><br>" followed by one "<b>k:</b> v<br>" per truthy property, in property order |
| `GraphViz.TooltipShowsProperty` | src/visualization/graph_viz.py:359-365 | every property with a non-empty value appears in the tooltip |
| `GraphViz.PropLinesShow` | src/visualization/graph_viz.py:361-363 | every property with a non-empty value has its line among the property lines |
| `GraphViz.TooltipSkipsEmpty` | src/visualization/graph_viz.py:362 | a property with an empty value adds nothing to the tooltip |
| `GraphViz.CreateKnowledgeGraph` | src/visualization/graph_viz.py:135-176 | the record loop yields the nodes and edges of the full view |
| `GraphViz.CreateKnowledgeGraphFiltered` | src/visualization/graph_viz.py:286-326 | the record loop yields the nodes and edges of the filtered view |
| `GraphViz.AddNode` | src/visualization/graph_viz.py:145-167 | a node is added only when its id is present and not yet in `added_nodes`; `AddNodeKeeps` states that ids stay unique |
| `GraphViz.FullStep` | src/visualization/graph_viz.py:140-176 | one record: its start node (size 25 for a meeting), its end node, then its edge when type and both ids are present; `FullViewWellFormed` and `FullViewEdges` state what the steps build |
| `GraphViz.FullView` | src/visualization/graph_viz.py:135-176 | the records folded in order; `CreateKnowledgeGraph` equals it and `FullViewWellFormed` proves ids unique and edges closed over them |
| `GraphViz.FilteredStep` | src/visualization/graph_viz.py:296-326 | one record: only nodes of an active type are added, and the edge only when both ids were added; `FilteredViewWellFormed` and `FilteredNodesActive` state what the steps build |
| `GraphViz.FilteredView` | src/visualization/graph_viz.py:286-326 | the records folded in order; `CreateKnowledgeGraphFiltered` equals it and `FilteredViewWellFormed` proves edges join only drawn nodes |
| `GraphViz.AddNodeKeeps` | src/visualization/graph_viz.py:140-173 | adding a node when its id is present and new keeps ids unique, records the id, and leaves the edges alone |
| `GraphViz.FullViewWellFormed` | src/visualization/graph_viz.py:135-176 | the full builder draws each id at most once, its drawn ids are exactly `added_nodes`, and every edge joins two drawn nodes |
| `GraphViz.FilteredViewWellFormed` | src/visualization/graph_viz.py:286-326 | the filtered builder draws each id at most once, and draws an edge only when both its ends are drawn |
| `GraphViz.EdgeKeeps` | src/visualization/graph_viz.py:325-326 | an edge between two drawn nodes keeps the view well formed |
| `GraphViz.FilteredNodesActive` | src/visualization/graph_viz.py:296-310 | every node of the filtered view was offered by some record with an active type |
| `GraphViz.FullViewEdges` | src/visualization/graph_viz.py:175-176 | the full builder draws one edge per record with a relationship type and both ids |
| `Embeddings.MeaningfulWords` | src/ml/embeddings.py:209-214 | a word is kept exactly when it occurs in the input, is longer than two characters and is not a stop word |
| `Embeddings.MeaningfulWordsCount` | src/ml/embeddings.py:209-214 | each meaningful word is kept as many times as it occurs, every other word never |
| `Embeddings.MeaningfulWordsAppend` | src/ml/embeddings.py:213-214 | the filter keeps text order: the kept words of a + b are those of a followed by those of b |
| `Embeddings.Keywords` | src/ml/embeddings.py:208-217 | the first five meaningful words of the lower-cased description when there is one, otherwise its first three words; empty only for a blank description |
| `Embeddings.HitsScore` | src/ml/embeddings.py:234-261 | one query's rows raise a person's score by the kind's weight times the number of rows naming them, and leave every other score alone |
| `Embeddings.TallyOf` | src/ml/embeddings.py:225-261 | the three searches per keyword folded over the keywords; `TallyScore` and `TallyConsistent` state the scores |
| `Embeddings.TallyScore` | src/ml/embeddings.py:225-261 | after all keywords, a person's score is 5 per role row, 2 per owned-action row and 1 per topic row that names them |
| `Embeddings.KeywordScore` | src/ml/embeddings.py:232-261 | one keyword's three searches add 5, 2 and 1 per row naming the person |
| `Embeddings.BumpOrdered` | src/ml/embeddings.py:235-260 | adding to a score keeps each scored person listed exactly once in the iteration order |
| `Embeddings.HitFrame` | src/ml/embeddings.py:234-261 | a row adds its kind's weight to its own person's score, leaves every other person's role, tasks and topics alone, gives its person a reason to show and keeps their task list free of repeats |
| `Embeddings.HitKeeps` | src/ml/embeddings.py:234-261 | one row preserves the tally invariant: positive scores, each backed by a role, task or topic, and task lists without repeats |
| `Embeddings.HitsKeep` | src/ml/embeddings.py:234-261 | a whole result list preserves the tally invariant |
| `Embeddings.TallyConsistent` | src/ml/embeddings.py:225-261 | the tally built over all keywords satisfies the invariant |
| `Embeddings.Reason` | src/ml/embeddings.py:285-293 | a role gives "Role: " and the role; otherwise an owned task gives "Owns similar: ", the first task cut to 40 characters, and "..."; otherwise the reason names at most two of the person's topics, all of them when there are fewer |
| `Embeddings.ReasonNeverGeneric` | src/ml/embeddings.py:285-293 | every scored person gets a role, task or topic reason; "Active team member" is never reached |
| `Embeddings.SuggestionsFor` | src/ml/embeddings.py:279-295 | one suggestion per scored person, in the tally's order |
| `Embeddings.Insert` | src/ml/embeddings.py:297 | inserting adds exactly one element to the multiset |
| `Embeddings.SortByScore` | src/ml/embeddings.py:297 | the sort is a permutation of its input |
| `Embeddings.InsertTied` | src/ml/embeddings.py:297 | inserting an entry puts it before every entry of its own score already in the list |
| `Embeddings.SortStable` | src/ml/embeddings.py:297 | the sort is stable: the entries of any one score keep their input order, as Python's `sort` does |
| `Embeddings.InsertDescending` | src/ml/embeddings.py:297 | inserting into a descending list keeps it descending |
| `Embeddings.SortDescending` | src/ml/embeddings.py:297 | the sorted list is highest score first |
| `Embeddings.FallbackSuggestions` | src/ml/embeddings.py:273-276 | one suggestion per fallback row |
| `Embeddings.AddHits` | src/ml/embeddings.py:234-261 | the result-row loop computes the tally that the row-by-row specification gives |
| `Embeddings.BuildSuggestions` | src/ml/embeddings.py:279-295 | the loop over the scores builds one suggestion per scored person in order |
| `Embeddings.TallyKeywords` | src/ml/embeddings.py:225-261 | the keyword loop computes the specified tally |
| `Embeddings.Suggest` | src/ml/embeddings.py:203-298 | the fallback rows when no keyword scored, otherwise the top three scored suggestions; `SuggestRanks` and `SuggestFallback` state both cases |
| `Embeddings.SuggestTaskOwner` | src/ml/embeddings.py:203-298 | the method computes the specified suggestions: the fallback when nothing scored, otherwise the three best |
| `Embeddings.SuggestRanks` | src/ml/embeddings.py:278-298 | with any score: at most three suggestions, highest first, each a scored person with a concrete reason, and no one left out outscoring anyone kept |
| `Embeddings.AllBacked` | src/ml/embeddings.py:282-295 | every suggestion names a scored person with a concrete reason |
| `Embeddings.BackedFor` | src/ml/embeddings.py:282-295 | the same for the suggestions of any list of scored people |
| `Embeddings.TopThree` | src/ml/embeddings.py:297-298 | the first three after sorting are descending, come from the input, and outscore everything dropped |
| `Embeddings.PrefixBest` | src/ml/embeddings.py:297-298 | any prefix of a descending permutation is descending, drawn from the input and outscores the rest |
| `Embeddings.PrefixFrom` | src/ml/embeddings.py:298 | a prefix of a permutation holds only elements of the input |
| `Embeddings.PrefixOutscores` | src/ml/embeddings.py:297-298 | in a descending permutation, each kept element scores at least as high as each dropped one |
| `Embeddings.SuggestFallback` | src/ml/embeddings.py:263-276 | with no score at all, the answer is the first (at most three) fallback contributors, in order |
| `Embeddings.FallbackPeople` | src/ml/embeddings.py:273-276 | each fallback suggestion names the person of its row |
| `Embeddings.SimilarPeople` | src/ml/embeddings.py:155-173 | empty when the person is not found; otherwise the first top_k entries of the similar list without the person, in their order, and all of them when there are fewer |
| `Embeddings.Others` | src/ml/embeddings.py:173 | keeps exactly the entries whose name differs, ignoring case, from the query, in their order |
| `Embeddings.OthersAppend` | src/ml/embeddings.py:173 | the filter works entry by entry: filtering a concatenation concatenates the filtered parts |
| `Embeddings.OthersCount` | src/ml/embeddings.py:173 | each entry whose name differs from the query is kept as often as it occurs, and no other entry is kept |
| `Embeddings.NodeTypes` | src/ml/embeddings.py:320-323 | the map's keys are exactly the labels present |
| `Embeddings.Distinct` | src/ml/embeddings.py:322 | the same labels, each listed once |
| `Embeddings.CountAbsent` | src/ml/embeddings.py:321 | an absent label counts zero |
| `Embeddings.SumCountsAppend` | src/ml/embeddings.py:320-323 | one more node raises the per-label total by one exactly when its label is listed |
| `Embeddings.NodeTypesTotal` | src/ml/embeddings.py:320-323 | the per-label counts add up to the number of labelled nodes, and every listed label counts at least one |
| `Embeddings.CountPresent` | src/ml/embeddings.py:321 | a present label counts at least one |
| `Migration.Preferred` | migrate_to_aura.py:134-136 | the first of name, title, description whose value is truthy; none exactly when none of them is |
| `Migration.FirstTruthyString` | migrate_to_aura.py:137-139 | a property, in dict order, holding a non-empty string; none exactly when no property does |
| `Migration.MatchProperty` | migrate_to_aura.py:132-140 | `get_match_property`; `MatchPropertyChoice` states the preference order and the fallback |
| `Migration.MatchPropertyChoice` | migrate_to_aura.py:132-140 | name wins over title over description; otherwise the first non-empty string property; the result is always a truthy property of the node; none exactly when no candidate exists |
| `Migration.RecreatedOf` | migrate_to_aura.py:99-112 | a relationship is recreated exactly when both endpoints have a match property |
| `Migration.UnmatchableDropped` | migrate_to_aura.py:100-103 | a relationship whose start node has only null properties is not recreated |

## Left out

- The Streamlit UI in `app.py`: presentation only.
- LLM calls (the Cypher, answer, conflict and summary chains, and the structured extraction in `src/agents/extractor.py` with its retry decorator): each chain is a function parameter whose reply is an arbitrary string.
- The Neo4j driver, its sessions and the network: the store is the in-memory `GraphModel.Graph`. Each fixed Cypher read used by an agent is a function of the store passed in as a parameter. The generated Cypher of the question-answering agent is a function returning both its rows and the store it leaves, since nothing keeps it from writing.
- The APOC path of `get_node_counts`, `get_schema`, `get_topic_trends` and `get_person_insights`: they only pass a Cypher string to the database.
- Node2Vec, cosine similarity, KMeans clustering and the component stitching in `src/ml/embeddings.py`: floating point and third-party libraries; `find_similar_people` takes the similarity list as a parameter.
- Embeddings.SuggestTaskOwner: scores stay integers; the division by the maximum score, and the fallback's division of the task count by 10, are not applied. The order of the suggestions is the same.
- Embeddings.SuggestTaskOwner: the fallback query's ORDER BY and LIMIT 3 are not modelled as a query; the rows are a parameter and the method keeps the first three.
- pyvis `set_options` and `generate_html`, and `get_graph_legend_html`: HTML output of a library; the graph builders return their node and edge lists.
- `migrate()` itself, `export_summary_markdown`'s file writes, `datetime.now()`, `print` and traceback text: I/O. "Today" is a parameter.
- Python's set iteration order (the "Works on" reason, `list(topics1 & topics2)`, the recurring topics): it is unspecified, so it is a parameter `setOrder` or `order` required to list each set's elements exactly once (`Text.Enumerates`), or the result is a set.
- Lower-casing covers ASCII letters only. Stripping and splitting treat as whitespace the ASCII characters Python does (space, tab to carriage return, 0x1C-0x1F); Unicode case mapping and non-ASCII whitespace such as U+0085 and U+00A0 are not modelled.
- Rows.Value: a value that is not `None`, a string or an integer (a list from `collect`, a boolean, a float, a map) is kept only as its `str()` text and its truthiness, which is all the formatters use; Python's exact `str()` of such values is not modelled, the text is given with the value.
- Python dicts are ordered lists of key/value pairs; `Rows.Get` finds the first pair with the key, so a row with a repeated key is not excluded.
- Analyzer.BucketOf and the bucketing loop require that a deadline is a string or `None`: deadlines are written as strings, and the source would raise calling `.lower()` on any other value.
- QueryAgent.Agent.ExecuteQuery: the generated statement, here and in `Ask`, `Query` and `QuickQuery`, is required to keep the store valid (`KeepsValid`: Meeting, Person and Topic keys unique, edges between existing nodes). The source declares no uniqueness constraint, so a generated `CREATE` could duplicate a key; such a statement is outside the model.
- QueryAgent.CleanFencedCypher: it states the exact result only when the fenced text does not end in a backtick; other fenced replies are covered by the shape and idempotence lemmas.
- GraphViz.MeetingLabel: it states the label for a meeting whose title is its first property; `GraphViz.NodeLabel` covers the general case.
- A node without a label: its type is modelled as absent and its text is "None", the `labels(n)[0]` of the visualisation queries; what the database returns for such a node is not modelled further.
- The stale tests at tests/test_agents.py:141-165 and 226-232 expect a history format and a `driver` field that the code does not have; the model follows the code.
- `src/utils/export` and the `__init__.py` re-export files are not part of this model.

## Findings

| source | as written | input that shows it | evidently intended | confidence | as-written member | corrected member |
|---|---|---|---|---|---|---|
| src/visualization/graph_viz.py:339-341 | `name.split()[0] if name else "Person"` indexes the split of any non-empty name | a person named " " (only whitespace): the split is empty and `[0]` raises IndexError | the label "Person", as for an empty name | not executed | `GraphViz.BlankNameRaises` | `GraphViz.PersonLabelIsFirstWord` |
