# A model of Choregos' contract generator, event bus, migration, ratchet and smaller cores

Each part below models one program of the repository, with its branches, constants and error cases, and proves what
that program is for. Every claim is a contract in Dafny 4.11; `dafny verify dfyconfig.toml` checks them all.

**The contract generator** (`Schemas`, `TypeTexts`, `Emitter`, `Soundness`, `Exactness`, `Meanings`, `Contracts`). JSON
Schema gets a meaning as a set of JSON values, unfolding references to a given depth. The printed TypeScript is a
sequence of tokens: the generator joins `|` and `&` without parentheses, so a text is read again with `&` binding
tighter, and only then given a meaning. Outside three shapes that the generator narrows, the translation admits every
value the schema accepts, whatever is nested in what and whichever file a reference names; the theorem is about the
whole generated module. For each of the three shapes there is an input that shows the narrowing and, on schemas of that
shape alone, the exact condition under which the type is sound all the same. `Meanings` gives a schema the wider
meaning the generator has for it (`integer` is any number, `oneOf` is some operand, `additionalProperties: false`
forbids nothing) and proves that the printed type admits exactly the values of that meaning, for the exports of whole
modules too.

**The event bus** (`EventStreams`, `EventBuses`). Buffers, queues and subscriptions are classes that change in place.
Every buffer is the end of the unbounded history of its topic. A reader is a state machine of publications and reads;
the class methods are its steps, and theorems are about every interleaving, dropped events and reconnections included.
What is on a run's, a project's or a subject's topic is told by a filter on the events' fields.

**The tenant migration** (`Tenants`, `MigrationPlans`, `MigrationTool`, `MigrationGoals`, `MigrationRuns`,
`MigrationCoverage`, `MigrationRefusals`, `Migrations`, `MigrationCollisions`, `MigrationVersions`,
`MigrationOutcomes`, `MigrationAdditions`). A tenant is a record of maps, an API call an update of it; the server's
side (what a create, a discovery, a patch and a tightening do and when they are refused, and what a project's listing
shows) follows `apps/api/src/choregos_api/routers/org_connectors.py:143-849`. `MigrationPlans` says what is planned and
which writes a step performs; the planners and `apply` of `MigrationTool` are proved against it, for an API that
answers 409 to what is there, 404 to what is missing, 422 to a project that would widen an operation, and nothing once
the connection drops. A run stops at its first refusal. With such an API and a lasting connection only a tightening can
be refused: a run completes exactly when the copies have, under a policy no stricter, the operations whose decisions
they do not show yet.

What a tenant should become is a function of each object. Operation renames may send two operations of a connector to
one; while such operations agree wherever both say something (`Agreeing`), every write leaves the goal unchanged and a
run that completes reaches it, so every interruption can be resumed, and a run that cannot complete never does. Where
they disagree, a second run to the end changes what the first left, and resuming fails. "A second run finds nothing to
do", after a run that completed, holds exactly when such operations agree and every MCP copy has operations. The inputs
are asked for what the mapping's authors promise (`ValidSetup`: renames are injective and no new name is an old one,
the template is free of the marker state, of labels to translate and of the agents it replaces) and for what the server
guarantees (`WellFormed`: distinct ids and names; `NoOrphans`: what is narrowed exists). That runs only add is asked
nothing. `MigrationOutcomes` tells what a tenant is after runs of which the last completes, object by object and in
terms of the tenant before, the mapping and the template alone.

**The ratchet** (`Lines`, `Orders`, `Areas`, `Baselines`, `Ratchets`, `Scanners`, `Diffs`, `DiffHeaders`,
`PrintedDiffs`, `DiffExamples`). Baseline files are text, printed and parsed character by character; the ratchet is a
theorem about any sequence of scans and updates, and the gate's promise follows from it. A negative baseline, which
only an edit by hand can bring, counts as 0. `Scanners` covers the bracket scanners and the blanking, `Diffs` the
reading of any diff. `DiffHeaders` prints a file's header as `git` does, with a tab after a path that has a space and
quotes around one that has a control character, a quote, a backslash or anything outside ASCII; `PrintedDiffs` is about
whole diffs so printed, whose changed lines may hold line breaks of their own and lines that look like headers or
hunks.

**The bootstrap protocol** (`Bootstraps`). A request is one atomic step; safety is over every request sequence. A new
registration of the same run starts over, and theorems say so. When a declared secret is missing from the vault the
code is consumed and nothing is answered.

**Smaller cores**: cursor pagination and its client (`Paging`), percentiles and grouping over the reals (`Reports`,
`Aggregates`), the spending cap of concurrent shims (`Budgets`), recorded HTTP exchanges with UTF-8 and base 64
(`Utf8`, `Base64`, `Recordings`), the seed that follows the install's mode (`Seeds`).

Where the code and its comments differ, the model follows the code. `Page.slice` is described as resuming at the
cursor; when the cursor's row is gone it starts from the top. The bootstrap is described as answering one token; a
missing secret spends the code without one. `base64` on bodies is modelled as section 4 of RFC 4648, UTF-8 as section 3
of RFC 3629, schemas as JSON Schema 2020-12 (Core, sections 10.2 and 10.3; Validation, section 6.1).

## Model

| member | source | states |
|---|---|---|
| Emitters.Emitter.EmitObject | tools/gen_contracts.py:108-130 | the loop over the properties and the index line builds the object type of the recursive translation, whose meaning `Meanings.EmittedTypeMeans` gives |
| Emitters.TextIsAType | tools/gen_contracts.py:74-106 | the printed text parses as a type exactly when no list of alternatives or operands it prints is empty, at any depth |
| Emitters.BlankIsEmpty | tools/gen_contracts.py:87-94 | which schemas print the empty text, so that the `or` in `type_of` falls through to the typed form exactly for them |
| TypeTexts.RereadJoined | tools/gen_contracts.py:87-106 | what an unparenthesised join re-reads as: an intersection glues the last group of the left text to the first group of the right one, a union appends the groups |
| TypeTexts.GlueMeaning | tools/gen_contracts.py:92-93 | exact meaning of a glued text: the groups before, or the last and the first together, or the groups after |
| TypeTexts.GlueCoversIntersection | tools/gen_contracts.py:92-93 | gluing never loses a value that is in both operands |
| TypeTexts.UnionMeaning | tools/gen_contracts.py:84-91 | a union join of any texts re-reads as the union of what they mean |
| TypeTexts.IntersectionCovered | tools/gen_contracts.py:92-93 | an intersection join of any texts, themselves unions or not, re-reads as a type that contains the intersection of what they mean |
| TypeTexts.IntersectionExact | tools/gen_contracts.py:92-93 | it is exactly the intersection when no operand has a top-level bar |
| Soundness.EmittedTypeAdmits | tools/gen_contracts.py:74-106 | translation soundness: for a schema without the three narrowing shapes and without empty lists, at every depth of `$ref` unfolding and across files, every JSON value the schema accepts inhabits the re-read emitted type; `properties` may go without `type` wherever only objects come, by the schema itself or an enclosing one |
| Soundness.ComposedAdmits | tools/gen_contracts.py:87-94 | the same for `oneOf`, `anyOf` and `allOf`, unions nested in `allOf` included |
| Soundness.TypedAdmits | tools/gen_contracts.py:96-106 | the same for `type`, a list of types included |
| Soundness.ObjectAdmits | tools/gen_contracts.py:108-130 | the same for objects: named members, optional members and the index line |
| Soundness.OnlyObjectsAccepted | tools/gen_contracts.py:87-106 | a schema that asks for objects, by its type, by all of its alternatives or by one operand of `allOf`, accepts objects only, which is when typeless `properties` are not narrowed |
| Exactness.TypelessPropertiesSoundness | tools/gen_contracts.py:104-105 | `properties` without `type`: sound if and only if the schema accepts objects only |
| Exactness.TypelessExample | tools/gen_contracts.py:104-105 | a number is accepted by such a schema and not admitted by its type |
| Exactness.IndexLineSoundness | tools/gen_contracts.py:123-126 | a schema-valued `additionalProperties` beside named members, patterns with schemas and `required`: sound if and only if some required member is impossible or the index type admits whatever each named or matched member may hold; for schemas of `type: object` without validation keywords, and without composition, `const`, `enum` or `$ref`, beside which no index line is printed |
| Exactness.IndexLineExample | tools/gen_contracts.py:123-126 | a named string beside numeric extra members is accepted and not admitted |
| Exactness.PrefixItemsSoundness | tools/gen_contracts.py:102-103 | `prefixItems` beside `items`: sound if and only if the element type admits every prefix item that some array can reach; for schemas of `type: array` without validation keywords, and without composition, `const`, `enum` or `$ref`, beside which no element type is printed |
| Exactness.PrefixItemsExample | tools/gen_contracts.py:102-103 | a string ahead of numeric items is accepted and not admitted |
| Exactness.EmittedTypeIsExact | tools/gen_contracts.py:74-130 | on schemas of one printable keyword group per level the emitted type admits exactly the values the schema accepts |
| Meanings.EmittedTypeMeans | tools/gen_contracts.py:74-130 | the emitted type told exactly, without the generator's own functions: at every depth of `$ref` unfolding and across files a value inhabits it if and only if it has the meaning of the schema in which `integer` is any number, `oneOf` some operand, an operand that prints nothing is passed over, a member is demanded when it is declared and required, and closing an object forbids nothing; for every schema without empty lists whose operands of `allOf` print no bar |
| Meanings.ClosedObjectMeans | tools/gen_contracts.py:108-130 | for a closed object: the type admits exactly the objects that have every declared required member and whose declared members mean what their schemas do |
| Meanings.PlainMeansAccepts | tools/gen_contracts.py:74-130 | on the schemas whose type is exact that meaning is what the schema accepts |
| Contracts.EmitSchemaFile | tools/gen_contracts.py:133-148 | one export per definition and one for the root, in order, named after the file and the definition |
| Contracts.LocalRefName | tools/gen_contracts.py:56-60 | a reference to a local definition prints the name that definition is exported under |
| Contracts.FileRefName | tools/gen_contracts.py:61-63 | a reference to another schema file prints the name that file is exported under |
| Contracts.GenerateSchemas | tools/gen_contracts.py:151-160 | the loop over the files yields the exports of all of them, in order, and the union of their names |
| Contracts.ExportsAdmit | tools/gen_contracts.py:133-160 | the exports of the whole generated module, each reference, to a definition of its own file or to another file, read as the exported type it names, admit what their schemas accept |
| Contracts.ExportsMean | tools/gen_contracts.py:133-160 | each exported type of the generated module admits exactly the values that its schema means, references to the file's own definitions and to other files included |
| Emitters.PascalJoins | tools/gen_contracts.py:42-44 | an exported name falls into its words: at any character that is no letter or digit the name is that of what is before and that of what is after |
| Emitters.PascalWord | tools/gen_contracts.py:42-44 | a word keeps its letters but for the first, which becomes upper case |
| Contracts.ContractAdmits | tools/gen_contracts.py:151-160 | the union type over all files admits what any file's schema accepts |
| Contracts.SeparatorsCollide | tools/gen_contracts.py:42-44 | names that differ only in a separator are exported alike, which is why distinct exports are asked for |
| EventStreams.Topics | apps/api/src/choregos_api/events.py:57-67 | the topics of an event are pairwise distinct, so an event enters a topic once; `TopicsAreThose` says which they are |
| EventStreams.TopicsAreThose | apps/api/src/choregos_api/events.py:57-67 | an event is on `*`, on the topics that its non-empty project, subject and run name, and on no other |
| EventStreams.OnAll | apps/api/src/choregos_api/events.py:57-67 | everything published is on `*` |
| EventStreams.OnRun | apps/api/src/choregos_api/events.py:57-67 | a run's topic has exactly the events of that run, in order |
| EventStreams.OnProject | apps/api/src/choregos_api/events.py:57-67 | the same for a project |
| EventStreams.OnSubject | apps/api/src/choregos_api/events.py:57-67 | and for a subject |
| EventStreams.NoEmptyName | apps/api/src/choregos_api/events.py:57-67 | an absent or empty name puts an event on no topic of its kind |
| EventStreams.PublicationIsQueued | apps/api/src/choregos_api/events.py:53-55 | a publication on the reader's topic enters its queue if and only if the queue has room or no bound, and leaves it as it was otherwise |
| EventStreams.QueueIsBounded | apps/api/src/choregos_api/events.py:53-55 | a bounded queue never holds more than its size |
| EventStreams.PushLastN | apps/api/src/choregos_api/events.py:46-52 | appending to a bounded deque keeps the last elements of the unbounded sequence |
| EventStreams.ReplayAfter | apps/api/src/choregos_api/events.py:69-77 | for any event ever published on the topic, evicted or not, replay after its id gives the events after it that are among the last buffered ones |
| EventStreams.StreamOf | apps/api/src/choregos_api/events.py:79-89 | in every interleaving, what a reader got and what waits for it is the replay followed by what its queue took |
| EventStreams.KeptInOrder | apps/api/src/choregos_api/events.py:53-55 | what a bounded queue takes is an order-preserving subsequence of what was published |
| EventStreams.StreamIsComplete | apps/api/src/choregos_api/events.py:79-89 | a subscription is gapless and free of duplicates if and only if its queue was never full at a publication |
| EventStreams.ResumeSegment | apps/api/src/choregos_api/events.py:69-89 | one reconnection on the last id received adds a contiguous part of the topic's history |
| EventStreams.ChainIsContiguous | apps/api/src/choregos_api/events.py:69-89 | over any number of reconnections without overflow what a client holds is one contiguous segment, without gap or duplicate, if and only if no session brings anything after more than a buffer's worth of events was missed |
| EventBuses.EventBus.Publish | apps/api/src/choregos_api/events.py:49-55 | one publication appends to each of the event's topics and offers the event to each of their queues, and leaves every other buffer and queue alone; buffers stay the last events of the filtered history |
| EventBuses.EventBus.RunBuffer | apps/api/src/choregos_api/events.py:46-52 | what the bus has buffered for a run are the last events of that run among all published |
| EventBuses.EventBus.Replay | apps/api/src/choregos_api/events.py:69-77 | the loop finds what the replay of the buffer is |
| EventBuses.EventBus.Listen | apps/api/src/choregos_api/events.py:91-102 | a new empty queue joins the topic's subscribers, whose count goes up by one, and no other changes |
| EventBuses.Subscription.Next | apps/api/src/choregos_api/events.py:79-89 | each value handed out is the next of the replay, then the next of the queue: the step of the reader's state machine |
| EventBuses.Subscription.Close | apps/api/src/choregos_api/events.py:88-89 | the queue leaves the topic's subscribers, whose count goes down by one |
| EventBuses.PublishTo | apps/api/src/choregos_api/events.py:49-89 | publishing on the bus is the publication step of every running subscription of its topic |
| MigrationTool.PlanSkills | tools/rename_tenant_names.py:105-115 | the steps appended are those the plan asks for, one per template skill that is missing |
| MigrationTool.PlanAgents | tools/rename_tenant_names.py:118-130 | the same for agents; the slugs returned are all of the template's |
| MigrationTool.PolicyDifferences | tools/rename_tenant_names.py:138-155 | the loop with its lookup table finds the patches of the specification |
| MigrationTool.Tightenings | tools/rename_tenant_names.py:203-217 | the loops find every project's decision that the copy does not show |
| MigrationTool.PlanConnectors | tools/rename_tenant_names.py:158-200 | a copy step exactly for each source whose copy is missing, undiscovered, different or less tight |
| MigrationTool.Edited.TranslateLabels | tools/rename_tenant_names.py:220-226 | edits the document in place as the plan says, and the answer says whether any label was translated; `MigrationOutcomes.WorkflowOutcome` says what comes of it |
| MigrationTool.PlanWorkflows | tools/rename_tenant_names.py:234-274 | re-publication steps project by project, and each project's routing after its workflows |
| MigrationTool.PlanProjects | tools/rename_tenant_names.py:298-307 | a rename for each project whose name is not the wanted one |
| MigrationTool.PlanDeprecations | tools/rename_tenant_names.py:310-322 | a deprecation for each active agent whose replacement is in the template |
| MigrationTool.MakePlan | tools/rename_tenant_names.py:325-340 | the six planners in order append exactly the plan |
| MigrationTool.RunCopy | tools/rename_tenant_names.py:173-195 | creating, discovering, patching and tightening one copy performs exactly the step's writes, up to the first that is refused, be it for a lost connection, a missing operation or a stricter organisation |
| MigrationTool.Apply | tools/rename_tenant_names.py:343-349 | running the steps leaves the tenant after exactly the writes up to the first refusal; all steps finish if and only if no write is refused |
| MigrationTool.Migrate | tools/rename_tenant_names.py:325-349 | a run leaves the tenant after its writes up to the first refusal, and finishes if and only if none of its writes is refused and the connection lasts for all of them |
| MigrationGoals.RepublishedOnce | tools/rename_tenant_names.py:243-257 | a re-published document is not due another one |
| MigrationGoals.RelabelTwice | tools/rename_tenant_names.py:287-293 | renaming routing labels twice is renaming them once |
| MigrationGoals.TowardKeepsGoal | tools/rename_tenant_names.py:325-349 | every write of a run leaves what the tenant should become unchanged |
| MigrationRuns.DifferencesMerge | tools/rename_tenant_names.py:138-155 | patching with the differences gives the merged operations, when source operations that become one agree |
| MigrationRuns.PatchesRun | tools/rename_tenant_names.py:189-190 | performing the differences gives the merged copy |
| MigrationRuns.CopySettles | tools/rename_tenant_names.py:173-195 | a copy step leaves its connector and tightenings as they should become, whatever ran before it |
| MigrationRuns.StepsSettle | tools/rename_tenant_names.py:343-349 | running steps with distinct owners settles all of them and unsettles none |
| MigrationRuns.SettledTenantsAgree | tools/rename_tenant_names.py:343-349 | two settled tenants with the same goal are equal |
| MigrationCoverage.PlanFits | tools/rename_tenant_names.py:325-340 | every planned step is a right one |
| MigrationCoverage.PlanDistinct | tools/rename_tenant_names.py:325-340 | no two planned steps work on the same object |
| MigrationCoverage.PlanCovers | tools/rename_tenant_names.py:325-340 | whatever is not as it should become has a planned step |
| MigrationRefusals.CopyTaken | tools/rename_tenant_names.py:173-195 | every write of a copy is accepted but the tightening of an operation the copy does not have or has under a stricter policy, and the copy ends with the operations, policies and groups it was to have |
| MigrationRefusals.CompletesExactlyWhen | tools/rename_tenant_names.py:203-349 | a run completes if and only if every decision of a project that the copy does not show yet is on an operation that the copy has under its new name, with a carried policy no stricter; any other tightening is refused and stops the run |
| MigrationRefusals.StepsCopy | tools/rename_tenant_names.py:158-200 | whatever the other steps do, a run leaves the source of a copy alone and gives the copy its operations, whether or not operations agree |
| Migrations.CompletedIsSettled | tools/rename_tenant_names.py:325-349 | a run that completes leaves every object as it should become, and the goal as it was |
| Migrations.TakenKeepsStuck | tools/rename_tenant_names.py:173-195 | no write the API takes frees a decision that the finished copy would refuse, or makes one stuck |
| Migrations.AgreeingRunsResume | tools/rename_tenant_names.py:325-349 | when operations that become one agree, after any number of runs, each stopped between any two API calls, inside a connector copy included, or at a refusal: a run completes if and only if the first one would have on a lasting connection, and then leaves exactly the tenant of the uninterrupted run |
| MigrationCollisions.DisagreeingRunsChange | tools/rename_tenant_names.py:138-217 | when they disagree, a second run to the end does not leave what the first left |
| MigrationCollisions.RerunResumes | tools/rename_tenant_names.py:325-349 | resuming, exactly: among tenants whose first run completes, every sequence of interrupted runs ends in what the uninterrupted run leaves if and only if operations that become one agree |
| MigrationCollisions.CollidingTenantNeverSettles | tools/rename_tenant_names.py:138-155 | a tenant whose first run completes and whose second leaves something else |
| MigrationVersions.OneVersionOverAllRuns | tools/rename_tenant_names.py:234-274 | over runs of which the last completes each workflow that is due a document gains exactly one version, any other none, whether or not operations agree |
| MigrationOutcomes.WorkflowOutcome | tools/rename_tenant_names.py:220-272 | in terms of the mapping alone, after runs of which the last completes: a listed workflow keeps its versions and gains the template's document where it has the marker state, otherwise its current document with each label that `labels` has replaced, and nothing else, where there is such a label; nothing when neither holds, or when items are open and that is not allowed |
| MigrationOutcomes.OtherWorkflowOutcome | tools/rename_tenant_names.py:234-274 | any other workflow keeps its versions |
| MigrationOutcomes.RoutingOutcome | tools/rename_tenant_names.py:277-295 | each label of a listed project's rules is what `routing_labels` says, or as it was; rules, their order and their rest are kept, and so is the routing of any other project |
| MigrationOutcomes.NameOutcome | tools/rename_tenant_names.py:298-307 | a project that the mapping names has that name, any other its own |
| MigrationOutcomes.SkillOutcome | tools/rename_tenant_names.py:105-115 | skills that were there are kept, and the template's are there |
| MigrationOutcomes.AgentOutcome | tools/rename_tenant_names.py:310-322 | an agent that was active and is replaced by one of the template's is deprecated; any other keeps its lifecycle, and all keep their documents |
| MigrationOutcomes.TemplateAgentOutcome | tools/rename_tenant_names.py:118-130 | the template's agents are there, those that were missing as the template has them |
| MigrationOutcomes.ConnectorOutcome | tools/rename_tenant_names.py:138-190 | when operations that become one agree, each renamed connector is there under its new name with the body and the operations of what it started from, each operation with the policy and groups that the old one's set, and its own where they set none |
| MigrationOutcomes.DecisionOutcome | tools/rename_tenant_names.py:203-217 | what a listed project decided on an operation of a renamed connector is decided on the copy's, under the same condition |
| MigrationOutcomes.OtherConnectorOutcome | tools/rename_tenant_names.py:158-200 | a connector that is no copy, and what is narrowed on it, is as it was |
| Migrations.SecondRunFindsNothing | tools/rename_tenant_names.py:158-200 | planning after a run that completed gives no steps if and only if discovery found operations for every MCP copy and operations that become one agree: their policies, their groups and each project's decisions, where both are set |
| Migrations.CollidingOperationsNeverSettle | tools/rename_tenant_names.py:138-155 | two source operations renamed to one operation of the copy whose policies or groups differ leave a difference whatever the copy carries, so every run finds work |
| Migrations.CollidingDecisionsNeverSettle | tools/rename_tenant_names.py:203-217 | so do two that a project narrowed differently: its listing of the copy can match only one |
| MigrationAdditions.RunsOnlyAdd | tools/rename_tenant_names.py:234-349 | for any mapping and any tenant, over any sequence of runs, completed or not: no object is gone, no slug changes, no published version changes, a workflow with open items gains none unless allowed, routing keeps its rules, only copies change |
| Areas.FindArea | tools/check_english.py:893-900 | the nested loops keep the best match |
| Areas.BestIsLongest | tools/check_english.py:893-900 | the area is that of a longest matching prefix, or `repo` when none matches |
| Areas.AreaIsLongest | tools/check_english.py:893-900 | a path belongs to `repo` when no prefix matches, otherwise to an area that lists a matching prefix no other is longer than |
| Areas.OrderDoesNotMatter | tools/check_english.py:893-900 | with distinct prefixes the order of the table does not matter |
| Areas.OrderMattersForSharedPrefixes | tools/check_english.py:893-900 | with a shared prefix it does: the first area keeps it |
| Areas.CountsByArea | tools/check_english.py:919-923 | each area gets exactly its paths, with their counts |
| Areas.PartsPartition | tools/check_english.py:919-923 | every count lands in one area's part and no other |
| Lines.SplitTerminated | tools/check_english.py:933-943 | lines without breaks come back from the text they are written as |
| Lines.SplitAllTerminated | tools/check_english.py:933-943 | lines written one by one split into the pieces of each, wherever they break further |
| Lines.SplitAt | tools/check_english.py:759-759 | how any text splits: at its first break, where a carriage return takes a line feed with it; no break, one line |
| Lines.BreaksAre | tools/check_english.py:759-759 | the ten characters that break a line |
| Lines.ParseDecimal | tools/check_english.py:941-941 | a printed count reads back |
| Lines.DigitsRead | tools/check_english.py:941-941 | how digits read as a number, an underscore between two of them included |
| Lines.OthersFail | tools/check_english.py:941-941 | and what is no number |
| Lines.SignsRead | tools/check_english.py:941-941 | and what a sign before them does |
| Baselines.OnlyStorablePathsAreRead | tools/check_english.py:933-943 | no file, however edited, gives a baseline to a path with a line break or a leading `#` |
| Baselines.FilesRoundTrip | tools/check_english.py:933-991 | reading a written file gives exactly the positive counts if and only if no such path has one; tabs are allowed |
| Baselines.SortedPaths | tools/check_english.py:946-960 | rows and changes come in strictly increasing path order, each path once |
| Baselines.BeforeDiffers | tools/check_english.py:946-960 | the order of paths is decided by the first character in which they differ |
| Baselines.FileShows | tools/check_english.py:986-991 | a printed file is its header and one row, the path, a tab and the count, for each path with findings and for no other, in path order |
| Baselines.CompareInOrder | tools/check_english.py:946-960 | both halves of a comparison come in path order |
| Baselines.InRises | tools/check_english.py:946-960 | a change is listed exactly for each path whose numbers differ that way, with its count and its baseline |
| Baselines.CompareSays | tools/check_english.py:946-960 | no rise exactly when no count is above its baseline, no stale entry exactly when no baseline is above its count |
| Baselines.SilentMeansAgreement | tools/check_english.py:946-960 | counts and baselines agree as functions defaulting to 0 if and only if the comparison is silent and no number is negative on one side alone |
| Ratchets.Directory.WriteBaselines | tools/check_english.py:963-991 | accepted exactly when the areas are known, the directory loads and, unless `init`, nothing rises; a refusal changes no file |
| Ratchets.AcceptedPathsAreStorable | tools/check_english.py:975-986 | an update that raises nothing only writes paths a row can hold |
| Ratchets.LoadAfterUpdate | tools/check_english.py:963-991 | loading after an update gives the positive counts of each written area and the old baselines of the others |
| Ratchets.SilentAfterUpdate | tools/check_english.py:946-991 | after a successful update the comparison reports neither rise nor stale entry |
| Ratchets.CeilingsNeverRise | tools/check_english.py:963-991 | over any sequence of scans and updates without `init`, no path's baseline, counted from 0, ever rises |
| Ratchets.OnlyNegativesRise | tools/check_english.py:963-991 | a baseline itself rises in one update if and only if the update is accepted, writes its area and the baseline was negative |
| Ratchets.EditedFileRises | tools/check_english.py:933-991 | a file edited to hold -1 for a path, and the update that raises it to 0 |
| Ratchets.CountsOnlyGoDown | tools/check_english.py:1021-1060 | from a strict pass of the gate to any later pass, with any scans and updates between, no file has more findings |
| Ratchets.PassesExactlyWhen | tools/check_english.py:1021-1060 | path by path: the gate passes if and only if there are files, all load, no file of the areas has a count above its baseline and, unless lenient, no baseline is above its file's count |
| Scanners.Closing | tools/check_english.py:477-487 | the first index at which a closer brings the depth back to 0, or -1 when there is none |
| Scanners.DepthCounts | tools/check_english.py:477-487 | the depth is the number of openers less the number of closers |
| Scanners.InsideUntilClosed | tools/check_english.py:477-487 | from an opening bracket that is the first return to depth 0: everything before is inside |
| Scanners.SplitParameters | tools/check_english.py:490-500 | the loop yields the fragments between the cuts |
| Scanners.FragmentsCutAtCommas | tools/check_english.py:490-500 | fragments end at every comma of depth 0 and at no other, each at its reported offset, one after the other |
| Scanners.LevelCounts | tools/check_english.py:490-500 | depth 0 means as many opening as closing brackets of the three kinds together |
| Scanners.FragmentsJoinBack | tools/check_english.py:490-500 | joining the fragments with commas gives the text back if and only if its brackets come out even |
| Scanners.TsParameters | tools/check_english.py:503-510 | the names found in the fragments of the list, at positions in the whole text; none when the list never closes |
| Scanners.ParametersStand | tools/check_english.py:503-510 | every reported name stands in the text at its reported position |
| Scanners.BlankedKeepsPositions | tools/check_english.py:513-518 | blanking changes only the characters of comments and strings, no line feed and no position |
| Scanners.BlankingKeepsLines | tools/check_english.py:513-535 | every line number read off the blanked text is the content's |
| Scanners.NamesStandInTheContent | tools/check_english.py:513-535 | a name read off the blanked text stands in the content at the same position, outside every comment and string |
| Diffs.AddedLines | tools/check_english.py:755-765 | the loop over the lines of a diff |
| Diffs.ReadsExactly | tools/check_english.py:755-765 | on any text: a line is reported for a file if and only if a hunk covers it and the last header before that hunk names the file |
| DiffHeaders.HeaderReads | tools/check_english.py:759-761 | the header `git` prints is read as the path, as the path and a tab when it has a space, and as no path when it is quoted |
| DiffHeaders.PlainIsRead | tools/check_english.py:759-761 | a path is read back from its header if and only if it has no space and needs no quotes |
| PrintedDiffs.HunkReads | tools/check_english.py:752-764 | a printed hunk line reads as its range in the new file, an unprinted count as 1 |
| PrintedDiffs.ChangedLineIsQuiet | tools/check_english.py:755-765 | a changed line is read as neither header nor hunk if and only if it does not add a text that begins with two pluses and a space |
| PrintedDiffs.PrintedSplits | tools/check_english.py:755-765 | a printed diff splits into labelled pieces, where headings, preambles and changed lines may break anywhere |
| PrintedDiffs.QuietDiffReads | tools/check_english.py:755-765 | what is read of a diff whose changed lines look like neither header nor hunk: under each name, exactly the lines of the files whose header reads as that name |
| PrintedDiffs.PrintedDiffReads | tools/check_english.py:755-765 | such a diff is read right, each line reported for a file if and only if the file adds it, exactly when no file that adds lines has a path with a space or in quotes |
| PrintedDiffs.OwnHeadersSuffice | tools/check_english.py:755-765 | with no hunk inside a changed line a diff is read right when the last header-like piece before each hunk that adds lines reads as the hunk's own file |
| PrintedDiffs.OwnHeadersDecide | tools/check_english.py:755-765 | and exactly then, for distinct paths and disjoint hunks, when no header-like piece reads as another file of the diff |
| DiffExamples.SwappedHunksReadRight | tools/check_english.py:755-765 | why that is asked: two files whose hunks trade places behind each other's headers are read right |
| DiffExamples.HeaderLikeLineHidesHunks | tools/check_english.py:755-765 | an added line that prints as a header hides the hunk after it |
| DiffExamples.InnerBreakHidesHunks | tools/check_english.py:755-765 | so does a quiet line with a line separator inside and such a header behind it |
| DiffExamples.InnerHunkReportsMore | tools/check_english.py:755-765 | a changed line with a hunk line behind a line separator reports a line that no file adds |
| DiffExamples.SpacedFileIsRenamed | tools/check_english.py:759-761 | the lines of a file with a space in its path are reported under a name that ends in a tab |
| DiffExamples.QuotedFileIsSkipped | tools/check_english.py:759-761 | the lines of a file whose path is quoted are reported under no name |
| DiffExamples.HunksRead | tools/check_english.py:752-752 | a range that leaves out its count counts 1, a range of 0 lines counts 0, and without a new range there is no hunk |
| Bootstraps.Server.Handle | trials/no-secret/api/app.py:62-88 | every request does one step of the protocol: new table of runs and answer |
| Bootstraps.Server.Bootstrap | trials/no-secret/api/app.py:90-111 | the method makes the step of an exchange, which `ExchangeAnswers` and `ExchangeLeaves` tell in terms of the run |
| Bootstraps.ExchangeAnswers | trials/no-secret/api/app.py:90-111 | each answer exactly, in terms of the run's fields and in the order of the checks: 401, 409, 425, 410 after 600 seconds, 403; granted if and only if the code is right and unspent, the pod is recorded, the time is not over, the address is the pod's and the vault has every declared secret, and then with the drawn token and just those secrets |
| Bootstraps.ExchangeLeaves | trials/no-secret/api/app.py:90-111 | what an exchange leaves: a good one spends the code, answered or not, a spent code fails and revokes the run, any other leaves everything as it was |
| Bootstraps.InternalRequests | trials/no-secret/api/app.py:44-76 | what registrations, recorded pods and looks leave and answer with the internal token |
| Bootstraps.ReportAnswers | trials/no-secret/api/app.py:80-87 | a result is taken if and only if it comes with the token of a run that is not revoked; its exit code decides the status |
| Bootstraps.StepKeepsSound | trials/no-secret/api/app.py:62-111 | a run has a token if and only if its code was consumed; a revoked run is failed; a result needs a token |
| Bootstraps.RefusalsChangeNothing | trials/no-secret/api/app.py:62-111 | answers 401, 403, 404, 410 and 425 change nothing, so they are retryable |
| Bootstraps.RetriesSucceed | trials/no-secret/api/app.py:90-111 | over a sequence: an exchange that would have been granted at one moment is granted at a later one, with the same secrets, when every request about the run in between was refused with 401, 403, 404, 410 or 425 |
| Bootstraps.RefusalsLeaveNoTrace | trials/no-secret/api/app.py:62-111 | any sequence of such refusals, among requests about other runs, leaves the run as it was |
| Bootstraps.GrantIsJustified | trials/no-secret/api/app.py:90-111 | a grant needs the registered code, the recorded address and the validity window, and hands out the token it stores |
| Bootstraps.GrantedExactlyWhen | trials/no-secret/api/app.py:90-111 | the token is answered if and only if the code is consumed and the vault has every declared secret |
| Bootstraps.SpentWithoutAnswer | trials/no-secret/api/app.py:109-111 | otherwise the code is spent without an answer, and asking again is a replay |
| Bootstraps.AlwaysOnward | trials/no-secret/api/app.py:62-111 | over any requests under one registration the token never changes, and consumption and revocation are for good |
| Bootstraps.ConsumedOnce | trials/no-secret/api/app.py:62-111 | between two consumptions of a run's code the run was registered again |
| Bootstraps.GrantsAtMostRegistrations | trials/no-secret/api/app.py:62-111 | over every request sequence a run is granted at most once per registration |
| Bootstraps.SecondExchangeReplays | trials/no-secret/api/app.py:96-101 | after a consumption every further exchange with the right code is a replay |
| Bootstraps.ReplayIsFinal | trials/no-secret/api/app.py:80-101 | after a replay the run stays revoked and failed, and takes no result and grants nothing |
| Bootstraps.ResultsComeFromGrants | trials/no-secret/api/app.py:80-87 | a result is only taken with the token drawn under the same registration, and never after a replay |
| Bootstraps.LooksHideSecrets | trials/no-secret/api/app.py:44-54 | two tables that differ only in codes and tokens look the same |
| Paging.Slice | apps/api/src/choregos_api/deps.py:405-416 | the loop finds the page after the cursor's row |
| Paging.SliceShows | apps/api/src/choregos_api/deps.py:405-416 | in terms of the listing: a page shows the rows after the first one with the cursor's id, or from the top when the cursor is absent, empty or nobody's; at most `limit` of them, with more to come if and only if rows are left, and then naming its last row |
| Paging.RepeatsExactlyWhen | apps/api/src/choregos_api/deps.py:405-416 | with deletions, a page repeats a served row if and only if the cursor's row is gone and a served row is among the first of the listing |
| Paging.DeletedCursorStartsOver | apps/api/src/choregos_api/deps.py:405-416 | a listing on which the loop serves a row twice |
| Paging.Pages | tools/report_round_trips.py:291-303 | on a listing that does not change the loop ends and returns the rows, each once and in order |
| Paging.PagesKeep | tools/report_round_trips.py:291-303 | on a listing that only grows, nothing served repeats, all is in order, and no first row before the cursor was missed |
| Paging.FinishedLoopCovers | tools/report_round_trips.py:291-303 | a finished loop served every row that was there at first and no row twice |
| Paging.LoopFinishes | tools/report_round_trips.py:291-303 | the loop finishes as soon as its pages could hold the listing |
| Reports.PercentileInRange | tools/report_round_trips.py:189-196 | a percentile lies between the least and the greatest value, and is them at fractions 0 and 1 |
| Reports.PercentileInterpolates | tools/report_round_trips.py:189-196 | between two neighbouring ranks a percentile is the weighted mean of their values, for any order of the values |
| Reports.PercentileAtRank | tools/report_round_trips.py:189-196 | at a rank it is the value of that rank |
| Reports.MedianOfTwo | tools/report_round_trips.py:189-196 | the median of two values is their mean |
| Reports.PercentileMonotone | tools/report_round_trips.py:189-196 | a greater fraction gives no smaller percentile |
| Reports.PercentileIgnoresOrder | tools/report_round_trips.py:189-196 | it depends only on the multiset of values |
| Aggregates.Aggregate | tools/report_round_trips.py:230-255 | grouping in one pass and building rows gives one row per agent and backend, the busiest first |
| Aggregates.RunsAddUp | tools/report_round_trips.py:230-255 | the runs of the rows add up to the number of samples |
| Aggregates.RowsAreBusiestFirst | tools/report_round_trips.py:230-255 | one row for each agent and backend that has samples, no busier one after a less busy one, equally busy ones in the order of agent and backend |
| Aggregates.RowsTell | tools/report_round_trips.py:234-255 | each row counted over the samples of its agent and backend: their number, the share that succeeded, the sum of what they cost, the share with five calls of the platform's tools or more among those that counted them, which is absent when none did |
| Aggregates.RowSpreadsTell | tools/report_round_trips.py:237-241 | and for each of the nine measures the p50 and p90 of what those samples measured |
| Aggregates.RatesAreShares | tools/report_round_trips.py:246-252 | unrounded, the success rate and the share of runs with many calls lie between 0 and 1 |
| Aggregates.RowsIgnoreOrder | tools/report_round_trips.py:230-255 | the whole report is the same for every order of the samples |
| Aggregates.SpreadsAreOrdered | tools/report_round_trips.py:237-241 | in every row and for every measure p50 is at most p90 |
| Budgets.Ledger.Spent | trials/graphify/scripts/claude_shim.py:11-13 | the sum of the ledger |
| Budgets.Ledger.Shim | trials/graphify/scripts/claude_shim.py:11-28 | alone, a shim appends its cost exactly when the ledger is below the cap |
| Budgets.StepKeepsBound | trials/graphify/scripts/claude_shim.py:11-28 | every step of any shim keeps ledger plus worst cost in flight below the bound |
| Budgets.SpendIsCapped | trials/graphify/scripts/claude_shim.py:11-28 | in every interleaving the recorded spend stays below the cap plus one call for each shim in flight |
| Budgets.BoundIsSharp | trials/graphify/scripts/claude_shim.py:11-28 | and comes as close to that bound as one likes |
| Utf8.DecodedEncodes | tools/catalogues/_recording.py:60-69 | bytes that decode strictly are the encoding of what they decode to |
| Utf8.EncodedDecodes | tools/catalogues/_recording.py:60-69 | every text decodes from its encoding |
| Utf8.SectionSeven | tools/catalogues/_recording.py:60-69 | the examples of section 7 of RFC 3629 |
| Base64.RoundTrip | tools/catalogues/_recording.py:63-68 | every byte string decodes from its base 64 |
| Base64.ThreeBytes | tools/catalogues/_recording.py:63-68 | three bytes are written as the four letters of their twenty-four bits, in the alphabet of RFC 4648 |
| Base64.TwoBytes | tools/catalogues/_recording.py:63-68 | two bytes at the end as three letters and one padding |
| Base64.OneByte | tools/catalogues/_recording.py:63-68 | one byte as two letters and two paddings |
| Recordings.BodyRoundTrip | tools/catalogues/_recording.py:59-69 | every byte string comes back from its record |
| Recordings.TextExactlyWhenUtf8 | tools/catalogues/_recording.py:59-63 | a body is stored as text if and only if it is the UTF-8 of some text |
| Recordings.FramesAreInjective | tools/catalogues/_recording.py:39-47 | without NUL in method and URL, two requests are hashed alike if and only if they are the same but for the method's case |
| Recordings.FramesCollide | tools/catalogues/_recording.py:39-47 | with NUL they may be hashed alike and differ |
| Recordings.UpperTells | tools/catalogues/_recording.py:39-47 | letters of the method become capitals, every other character stays |
| Recordings.PathsAgree | tools/catalogues/_recording.py:50-56 | two requests share a file name if and only if their URLs read alike in it and their hashes agree in the first twelve digits |
| Recordings.RecordTransport.HandleRequest | tools/catalogues/_recording.py:102-123 | writes the exchange under its path, notes the path and passes the response on |
| Recordings.KeptHeadersAre | tools/catalogues/_recording.py:32-110 | the headers kept are exactly those whose name is that of the content type, in capitals or not, in order |
| Recordings.NeverRecordedIsAMiss | tools/catalogues/_recording.py:78-123 | from an empty directory a request never recorded is a miss |
| Recordings.ReplaysTheLast | tools/catalogues/_recording.py:78-123 | after any sequence of recordings over any files a replay answers the last status and body recorded for that request; for one not recorded since it answers what it did before |
| Seeds.Demo.SeedLocalDemo | apps/api/src/choregos_api/local_demo.py:292-395 | what one seed leaves of project, connectors and work items |
| Seeds.FreshConnectors | apps/api/src/choregos_api/local_demo.py:245-260 | the connectors of a fresh demo, for each mode |
| Seeds.FreshModels | apps/api/src/choregos_api/local_demo.py:263-289 | its backend and the profiles of its models |
| Seeds.ConnectorAt | apps/api/src/choregos_api/local_demo.py:366-383 | every connector of the demo is there and is what its kind asks; no other is touched |
| Seeds.SeedsSettle | apps/api/src/choregos_api/local_demo.py:292-383 | over any seeds in any modes: a value no mode seeds is never overwritten, one that some mode seeds is what the last mode wants |
| Seeds.UntouchedFollowsLastMode | apps/api/src/choregos_api/local_demo.py:292-395 | an install nobody touched depends on the last mode only, but for its work item, which follows the first |

## Left out

- The generator's indentation, comments, key quoting and operations map: types are tokens, not characters.
- `Path(ref).name` is modelled as the text after the last slash; trailing slashes and backslashes are not.
- Validation keywords that only narrow a schema (formats, ranges, lengths) and `unevaluatedProperties`: the emitter ignores them, and a schema carries one arbitrary set of values for all of them together.
- Exactness.EmittedTypeIsExact: does not cover `oneOf`, `integer`, closed objects with members, `allOf` over unions, records and literals of arrays or objects, because the emitted type is wider there; but for `allOf` over unions, whose type TypeTexts.GlueMeaning gives, Meanings.EmittedTypeMeans says what it is.
- Meanings.EmittedTypeMeans: asks that operands of `allOf` print no bar, because a union joined by `&` without parentheses means something else (TypeTexts.RereadJoined).
- Asyncio scheduling, cancellation and PostgreSQL notification around the bus: a publication and a read are atomic steps.
- HTTP and authentication in the migration, and the API's answers about content and about what is behind it (a policy its type forbids, a second gateway of the organisation, a routing rule without its workflow, a discovery that the route, the network or the server behind the connector refuses with 409, 422 or an upstream error): what the model's API refuses is what is there already, what is missing, and everything after the connection drops.
- Project listings filtered by group or availability: a listing shows what was decided.
- The two forms `json` and `yaml` of a current workflow are one document, and the texts the tool prints (details, skipped and open items) are not modelled.
- Template and mapping files are given values; a skill folder whose front matter does not parse is not modelled.
- The lexicon that finds French, and `git` itself: findings are given counts, and the lines of a diff are given text.
- `int` on baseline counts accepts signs, blanks, line breaks and underscores here, not the digits and blanks outside ASCII that Python also accepts.
- A write that stops between two baseline files, and text that cannot be encoded.
- The regular expressions of `ts_declarations`: spans of comments and strings are given and disjoint, and the parameter pattern is a function that finds a name without spaces where it says.
- PrintedDiffs.OwnHeadersDecide: asks that no header-like piece reads as another file of the diff, because hunks that trade places are read right by accident (DiffExamples.SwappedHunksReadRight).
- Diffs printed with another configuration of `git` than its default (`core.quotePath` off, other prefixes than `a/` and `b/`); lines before a header are asked to read as neither header nor hunk, which all that `git` prints there do.
- Threads of the bootstrap server within one request, malformed request bodies and the HTTP routing: requests are atomic and well formed.
- Rows without an `id`, in `Page.slice`.
- Rounding of floating point in the reports: values are reals and `round` is any function.
- The ledger's other fields, a cost that does not parse (it counts 0) and the refusal to recurse, in the shim.
- SHA-256 and slugs: any functions, with the absence of chance collisions asked for where it is needed; `base64.b64decode` skips foreign characters, the model refuses them.
- Response headers of a replay are those kept; a request body stored beside a recording is not modelled.
- The organisation, the demo workflow and the report of the local seed.
- `build_mcp_catalogue.py`: its conservation and order independence repeat arguments made for `aggregate` and `counts_by_area`.
