# Yetka: verified models of its stateful kernels

Yetka is a privileged-access-management platform built on Django. Most of its code is wiring; the parts modelled here
carry state over several calls, and their correctness is not visible from one function. Each Dafny module follows one
part of the source: state that the source updates in place is a class whose methods are proved against a function of
the state, and the properties are lemmas about that function, over every input and, where there is a run, over every run.

| module | what it models |
|---|---|
| `Debounce` | the debounce-and-merge scheduler: three dictionaries per key, timers, completions that wipe a key |
| `BatchBuffer` | the batching decorator that switches organizations |
| `Signature` (with `Strings`) | signed service requests: header parsing, canonical form, clock window, nonce store |
| `Tenancy` | the customer tenant from request to published task to worker, with a database that changes in between |
| `OrgContext` | the copy-on-write context store, the organization registry, and the brackets that switch organizations |
| `Retention` | batch deletion by offset over a live result set, and the day-by-day sweep |
| `PermissionTree` | insertion in passes, memoised leaf counts, pruning |
| `ParentTree` | the parent-pointer tree and its cycle check |
| `ChainedSlices` | indexing and slicing a chain of query sets |
| `CloudSync`, `CloudReruns` | reconciliation of a cloud inventory with mappings, assets and a quarantine, and its reruns |
| `FieldCache` | local snapshots over a shared hash over recomputable values |
| `Labels`, `LabelSearch` | selecting by all labels, replacing a label's resources, the paged search |
| `ReleaseTags` | the release-tag grammar, the version extractor, the offer of an update |

## Where the code does not do what it is for

Several intended properties are false of the code. The model keeps the code as it is; each entry names the lemma that
says exactly when the property holds.

- A later call of a debounced key takes the waiting task's place: positional arguments and the organization are the
  last caller's (`Debounce.ServedAmongAgreeingIff`, `Debounce.OrganizationKeptIff`). A key that is called both by keyword
  and by position gets a task that the one-parameter function rejects, and both calls are lost
  (`Debounce.MixedCallsLoseBoth`). `apps/authentication/backends/drf.py:184` passes its argument by position.
- A signed request is documented as consumed once (`docs/security/service-signature-v2.md`). Without delay between the
  clock check and the nonce, one whose timestamp is ahead of the server's clock can be accepted a second time, never a
  third time; delays widen this by their length (`Signature.ConsumedOnceIff`, `Signature.AcceptancesBounded`).
- Batch deletion skips every second batch (`Retention.BatchDeleteClearsIff`, `Retention.SweepClearsIff`), and the sweep
  raises when there is nothing to delete (`Retention.Table.DeleteExpiredByDay`).
- A slice that ends in 0 is read as ending at the total (`ChainedSlices.SliceAgreesIff`).
- A node may be made its own parent (`ParentTree.AddKeepsAcyclicIff`), and be put below its own descendant when the
  parent passed is another object with that descendant's id (`ParentTree.MoveKeepsAcyclicIff`).
- Two cloud instances with one name import once and fail on every later run (`CloudReruns.SameNameNeverSettles`); two
  that swap their names both fail on every run (`CloudReruns.SwapNeverSettles`). When reruns over instances that are
  mapped ever stop failing is `CloudReruns.ReconciliationSettlesIff`; an instance that is not mapped yet also fails while its
  name and its suffixed name are both taken.
- Between a change and its deferred expiry a cached field reads as it was before (`FieldCache.StaleUntilExpired`).
- Organizations, unlike tenants, are not reset between tasks of a worker, so a task published without one runs in what
  another tenant's task left (`Tenancy.BodyOrganizationIff`, `Tenancy.LeftoverOrganization`).
- Labelling a resource both in the root organization and in the label's own, in either order, duplicates its row, after
  which counting in the root selects resources that lack a label (`Labels.RunsKeepRowsIff`,
  `Labels.EitherOrderDuplicates`). A request that repeats a label misses resources (`Labels.AllLabelsMeansAllIff`).
- The paged search can miss rows when one resource type crosses a page boundary (`LabelSearch.SearchCompleteIff`).
- A bracket can restore another organization when one organization's name is a second one's id and its own id is a
  third one's name (`OrgContext.BracketsRestoreIff`, `OrgContext.SeesByTextIff`).
- Instances buffered without a current organization, or under one that the registry does not find, are handed over under
  a later one (`BatchBuffer.OrganizationsKeptIff`).
- A value merged into a debounced call is handed over again by a call that comes while its run has not completed
  (`Debounce.HandedOverOnceIff`).
- Tags whose numbers are too long for `int` are never offered (`ReleaseTags.VersionOfTagIff`).

## Model

| member | source | states |
|---|---|---|
| Debounce.Caches.CancelOrRemoveTask | apps/common/decorators.py:85-92 | a finished task is forgotten, a waiting one cancelled, a dispatched one left alone; the whole new state is given |
| Debounce.Caches.RunDebouncerFunc | apps/common/decorators.py:95-116 | dispatch at once when the first run is more than ttl ago, otherwise a new waiting task takes the key; the whole new state is given |
| Debounce.Caches.DelayCall | apps/common/decorators.py:205-225 | merging of keyword collections into the cached dictionary, which a rejected keyword leaves half updated; the whole new state is given |
| Debounce.Caches.RunFuncWithOrg | apps/common/decorators.py:147-166 | the function is entered iff the arguments bind to its one parameter; either way the end of the run wipes its key's entries, whoever wrote them |
| Debounce.TaskOfCall | apps/common/decorators.py:85-225 | in every run, told from its events alone: the task of an accepted call carries exactly the values given since the last completion or immediate dispatch of its key, runs at once iff the first of those calls is more than its ttl ago, otherwise waits its ttl, and cancels only the last of their tasks if it still waits |
| Debounce.FirstAfterCompletion | apps/common/decorators.py:147-225 | in every run, the first accepted call after a completion of its key makes a task of exactly its own values that waits its ttl and replaces nothing |
| Debounce.NeverEarly | apps/common/decorators.py:119-134 | in every continuation no task is sent before it is due |
| Debounce.WaitingCompletes | apps/common/decorators.py:119-166 | a waiting task can be sent when due and completed: the function is entered iff the arguments fit, and nothing of its key is left in the caches |
| Debounce.InvStep | apps/common/decorators.py:85-116 | every event keeps the invariant that a cached, still waiting task has its arguments inside the argument cache |
| Debounce.DebounceLosesNothing | apps/common/decorators.py:85-225 | in every run, the keyword values of every accepted call are together in one task of that call or a later one, which is dispatched or waits uncancelled |
| Debounce.UnmixedLosesNothing | apps/common/decorators.py:85-240 | in a run that calls the key in one way only, that task is one the function accepts, and with timers on time and ttls at most m it is sent by 2m after the call |
| Debounce.MixedCallsLoseBoth | apps/common/decorators.py:147-240 | the failing input: a call by keyword and then one by position share a task that the function rejects, so neither is served |
| Debounce.DebounceInventsNothing | apps/common/decorators.py:205-225 | conversely, every value, organization and positional list of a task comes from a call for its own key |
| Debounce.DebounceCannotStarve | apps/common/decorators.py:95-134 | with timers on time and ttls at most m, a value offered at time s is dispatched by s + 2m, however often the timer is reset |
| Debounce.TwiceTheTtlIsReached | apps/common/decorators.py:99-116 | the bound is exact: there is a timely run in which nothing is dispatched at 2m |
| Debounce.ServedAmongAgreeingIff | apps/common/decorators.py:147-240 | among later calls by keyword from the same organization, a call is served with all its arguments and its organization in every continuation iff its own and the cached arguments bind and it passed nothing by position or was dispatched at once |
| Debounce.ServedWhateverFollowsIff | apps/common/decorators.py:147-240 | whatever proper calls follow, it is served iff its own and the cached arguments bind and it was dispatched at once |
| Debounce.OrganizationKeptIff | apps/common/decorators.py:95-116 | a call's values stay under its organization in every continuation iff it was dispatched at once |
| Debounce.HandedOverOnceIff | apps/common/decorators.py:85-225 | over any run that does not offer a value anew, at most one live task hands it over iff no accepted call of its key comes while the value is cached and no waiting task is there to be replaced, that is, during its run |
| Debounce.FirstOffer | apps/common/decorators.py:205-225 | this applies from any accepted call on that offers a value which nothing holds yet |
| Debounce.ReplacedByNext | apps/common/decorators.py:205-225 | the failing input: the next call for the key, without keywords, replaces the waiting task, its positional arguments and its organization |
| BatchBuffer.BulkHandler.Handle | apps/common/decorators.py:332-340 | hands over the buffer and empties it, under the remembered organization or, when that cannot be switched to, the current one |
| BatchBuffer.BulkHandler.HandleOnOrgChanged | apps/common/decorators.py:342-350 | a change of organization hands over what was buffered before adopting the new one |
| BatchBuffer.BulkHandler.Wrapper | apps/common/decorators.py:352-371 | one call of the decorated function, as a function of the state |
| BatchBuffer.BulkHandler.FinishAll | apps/common/decorators.py:374-377 | `finish` hands over what is left |
| BatchBuffer.BatchesConserve | apps/common/decorators.py:332-377 | over every call sequence ending in `finish` the batches, put together, are the instances made, in order and once each; batches hold 1 to batch_size, the buffer fewer |
| BatchBuffer.OneOrganizationWholeBatches | apps/common/decorators.py:332-371 | as long as the current organization stays the same, batches are handed over under it, in order, of exactly batch_size each |
| BatchBuffer.FirstOrganizationAdopts | apps/common/decorators.py:332-350 | instances made under no organization are not handed over when the first one becomes current, but together with its own and under it |
| BatchBuffer.OrganizationsKeptIff | apps/common/decorators.py:332-350 | for every batch size, every instance is handed over under the organization current when it was made iff batches hold one, or no organization and unknown ones are followed only by themselves |
| Strings.JoinSplit | apps/common/permissions.py:79-82 | joining what a bounded split produced gives the string back |
| Strings.SplitJoin | apps/common/permissions.py:79-82 | splitting a join gives the parts back when only the last may hold the separator |
| Strings.ToNatDecimal | apps/common/permissions.py:90-94 | reading the decimal numeral of a number gives the number |
| Strings.StripCuts | apps/common/permissions.py:120-142 | stripping takes off white space at both ends, all of it and nothing else |
| Signature.NonceCache.Add | apps/common/permissions.py:105 | adds a key only if absent or expired, and says whether it did |
| Signature.SignaturePermission.VerifyV2 | apps/common/permissions.py:81-105 | accepts iff all checks pass at the time of the window check and the nonce can be added at the later time of adding; only then the store changes, by that entry |
| Signature.SignaturePermission.VerifyLegacy | apps/common/permissions.py:107-118 | the same for the legacy format |
| Signature.SignaturePermission.HasPermission | apps/common/permissions.py:120-142 | the decision and the new nonce store as functions of request, times and store, and when the key lookup raises |
| Signature.ParseFormat | apps/common/permissions.py:82-85 | the six header fields survive printing and parsing, the signature may hold colons |
| Signature.FormatParse | apps/common/permissions.py:82-85 | whatever parses prints back to the same header |
| Signature.CanonicalBindsEverything | apps/common/permissions.py:75-79 | equal canonical forms mean equal method, path, body digest, timestamp, nonce and tenant |
| Signature.NonceKeyInjective | apps/common/permissions.py:104 | two key and nonce pairs share a nonce entry iff they are equal |
| Signature.AcceptedV2Iff | apps/common/permissions.py:81-142 | a v2 request is accepted iff its six fields name an active key of a usable account by its own id, algorithm and shapes are right, the timestamp is within 30 of the truncated clock, the tenant is the bound one or "-", the lower-cased signature is the keyed hash of method, path, body digest, timestamp, nonce and tenant, each on its line, and the nonce is free |
| Signature.AcceptedLegacyIff | apps/common/permissions.py:107-142 | a legacy request is accepted iff these are allowed, the header names an active key of a usable account, the rest decrypts to a timestamp within 30 of the truncated clock, and it is unused |
| Signature.LookupRaisesIff | apps/common/permissions.py:120-130 | the key query raises iff the header names an id before its first colon and that id is malformed |
| Signature.ReplaySpacing | apps/common/permissions.py:90-105 | over every run, acceptances of one nonce entry are added at least 31 s apart |
| Signature.NonceSpacing | apps/common/permissions.py:90-105 | the same, said of access key and nonce |
| Signature.AcceptancesBounded | apps/common/permissions.py:90-105 | m acceptances of one key, timestamp and nonce, in whatever spelling, need 31 (m - 1) < 61 + the largest delay between check and nonce |
| Signature.AcceptedAtMostTwice | apps/common/permissions.py:90-105 | so with delays up to a second there are at most two |
| Signature.ConsumedOnceIff | apps/common/permissions.py:90-105 | with delays up to d no continuation accepts the same key, timestamp and nonce again iff the nonce was first added no earlier than d after the timestamp |
| Signature.OnlyAcceptanceConsumes | apps/common/permissions.py:104-105 | a refused request leaves the nonce store alone; an accepted one adds its own entry and no other |
| Tenancy.Context.SetCurrentTenant | apps/tenants/context.py:17-18 | sets the tenant and returns the token that undoes it |
| Tenancy.Context.ResetCurrentTenant | apps/tenants/context.py:21-22 | puts back what the token remembers |
| Tenancy.Context.BeforeTaskPublish | apps/ops/signal_handlers.py:83-93 | the four internal keys are overwritten from the thread's context |
| Tenancy.Context.Run | apps/tenants/context.py:25-31 | code over nested contexts, publishing and raising anywhere, as a function of thread and backend |
| Tenancy.Context.OnTaskPreRun | apps/ops/signal_handlers.py:96-119 | language and organization are popped and applied when set and known |
| Tenancy.Context.CallTask | apps/tenants/celery.py:14-40 | refuses without any effect, or runs the body inside the admitted tenant and puts the context back |
| Tenancy.Context.HandleRequest | apps/tenants/middleware.py:65-81 | binds the resolved tenant around the view, or answers with an error and no effect |
| Tenancy.ContextRestored | apps/tenants/context.py:25-31 | however code nests contexts and wherever it raises, the tenant is afterwards what it was |
| Tenancy.CodePublishesIn | apps/tenants/context.py:25-31 | code publishes one message for each publication in its text, each made and stamped in the tenant of the innermost context around it, or the one from outside |
| Tenancy.WorkerPublishes | apps/tenants/celery.py:14-40 | in every run, what a task body publishes outside contexts of its own is published in the tenant of the running message; a refused message publishes nothing |
| Tenancy.RequestPublishes | apps/tenants/middleware.py:65-81 | in every run, what a view publishes outside contexts of its own is published in the tenant resolved for its request; a refused request publishes nothing |
| Tenancy.PublishedUnderOrg | apps/ops/signal_handlers.py:83-93 | a message is made and stamped under the organization switched to last, if that one is known |
| Tenancy.PreRunLang | apps/ops/signal_handlers.py:112-116 | a body runs in its publisher's language when that was set |
| Tenancy.ResolveMeans | apps/tenants/middleware.py:18-47 | which tenant is bound, and exactly when access is denied, a selection is required, or none is bound |
| Tenancy.AdmitStamped | apps/tenants/celery.py:19-40 | a stamped message is refused iff its publisher's tenant is no longer active or does not own the publisher's organization |
| Tenancy.ForgedKeysIgnored | apps/ops/signal_handlers.py:87-93 | caller-supplied internal keys change neither the message nor the stored arguments (lines 149-153) |
| Tenancy.TenantPropagation | apps/tenants/celery.py:14-40 | in every run a body observes exactly its publisher's tenant, active and owning at its start, the publisher's organization if set and known, and the caller's arguments; and every thread is outside tenants between events |
| Tenancy.TenantsAreGranted | apps/tenants/middleware.py:65-81 | the tenant of every published message, and of every body, goes back to a request of the run that was rightly granted it, unless trusted code entered it |
| Tenancy.GrantsAreRight | apps/tenants/middleware.py:18-54 | every binding of a tenant over a run, first or repeated, answers a request of an active member, for the tenant asked for if any and an organization it owns |
| Tenancy.BodyOrganizationIff | apps/ops/signal_handlers.py:112-119 | a body starts under its publisher's organization whatever ran before iff that was set and is known to the worker |
| Tenancy.LeftoverOrganization | apps/ops/signal_handlers.py:112-119 | the failing input: after a task of one tenant, a task that another tenant published without an organization runs in the first one's |
| OrgContext.AsyncLocal.Set | apps/common/local.py:38-41 | changes one key for this context; no other context's view changes, even where dictionary objects are shared |
| OrgContext.AsyncLocal.Delete | apps/common/local.py:46-50 | removes one key for this context only |
| OrgContext.AsyncLocal.Clear | apps/common/local.py:52-53 | empties this context's view only |
| OrgContext.Thread.ConstructOrgsMapping | apps/orgs/models.py:122-134 | the loop builds the registry in which later rows and the root's keys win |
| OrgContext.Thread.GetInstance | apps/orgs/models.py:100-120 | the cached mapping, rebuilt when absent or on a miss, answers as the registry does |
| OrgContext.Thread.GetCurrentOrg | apps/orgs/utils.py:81-91 | unset and unknown ids mean the root |
| OrgContext.Thread.SetCurrentOrg | apps/orgs/utils.py:57-62 | stores the id of the object or of what the key finds; an unknown key changes nothing; other contexts do not notice |
| OrgContext.Thread.TmpToOrg | apps/orgs/utils.py:110-119 | the state after the bracket and what its body saw, for every body and whether or not it raises |
| OrgContext.Thread.TmpToRootOrg | apps/orgs/utils.py:99-107 | the same |
| OrgContext.Thread.TmpToBuiltinOrg | apps/orgs/utils.py:122-135 | the same; without an argument it raises before anything changes |
| OrgContext.Thread.Execute | apps/orgs/utils.py:57-135 | any program over brackets, bare switches and exceptions does what its specification says, and leaves every other context's view alone |
| OrgContext.ById | apps/orgs/models.py:122-134 | an organization's id finds it iff no later organization has that id as its name |
| OrgContext.StoredStays | apps/orgs/utils.py:57-135 | only the root's id, an organization's id, or an id that nothing has any more is ever stored, never a name |
| OrgContext.BracketsRestoreIff | apps/orgs/utils.py:99-135 | every bracket restores the current organization, for whatever can be stored, every body and exception, iff no organization that hides another by its name is hidden itself |
| OrgContext.BracketedProgramsRestore | apps/orgs/utils.py:99-135 | a program with bare switches only inside brackets restores the current organization, however it ends |
| OrgContext.PlainNamesRestore | apps/orgs/utils.py:99-135 | in particular when no organization is named with an earlier one's id |
| OrgContext.StoredIdChangesIff | apps/orgs/utils.py:99-135 | the stored id changes exactly when it was not the current organization's own id, as when unset, and the bracket was entered |
| OrgContext.BracketSees | apps/orgs/utils.py:99-135 | what a body sees first: in `tmp_to_org` the organization asked for by object, id or name iff it is not hidden, and the one outside when nothing is found; in `tmp_to_root_org` the root; in `tmp_to_builtin_org` the one with the id its argument names iff it is not hidden |
| OrgContext.SeesByTextIff | apps/orgs/utils.py:57-135 | saving, setting and putting back is scoping by text: every program without bare switches sees at each step the organization of the innermost bracket around it, whatever is stored and wherever it raises, iff no organization that hides another by its name is hidden itself |
| OrgContext.RaisedIsFails | apps/orgs/utils.py:57-135 | whether a program ends by an exception does not depend on any organization |
| OrgContext.RegistryFinds | apps/orgs/models.py:122-134 | the root is found by its id and both names, any other key finds the last row with that id or name, and nothing else is found |
| Retention.Table.BatchDelete | apps/audits/tasks.py:82-88 | the loop that slices the live result set leaves the table without the even blocks of the original listing |
| Retention.Table.SweepOneDay | apps/audits/tasks.py:107-129 | one turn of the day loop: an empty window or day is skipped, a small day deleted directly, a larger one in batches |
| Retention.Table.DeleteExpiredByDay | apps/audits/tasks.py:91-137 | raises iff nothing has expired; otherwise sweeps day by day from the minimum |
| Retention.BatchDeleteExact | apps/audits/tasks.py:82-88 | exactly the odd blocks survive, and nothing outside the query is touched |
| Retention.SurvivorsByPosition | apps/audits/tasks.py:86-88 | the row listed at position j survives iff j / batch_size is odd |
| Retention.BatchDeleteClearsIff | apps/audits/tasks.py:82-88 | everything is removed iff one batch suffices |
| Retention.RepeatedClears | apps/audits/tasks.py:82-88 | run again and again it finishes |
| Retention.FromTheFrontClears | apps/audits/tasks.py:86-88 | the intended loop, which slices from the front, removes everything |
| Retention.WindowsTile | apps/audits/tasks.py:107-117 | an instant is in a day's window iff it has expired and that is its date, for any strictly increasing midnights |
| Retention.ExpiredRowsAreVisited | apps/audits/tasks.py:100-106 | the days visited cover every expired row |
| Retention.SweepExact | apps/audits/tasks.py:106-137 | each visited day is swept as the table was at the start: cleared within the direct limit, odd blocks left beyond it |
| Retention.SweepOthers | apps/audits/tasks.py:106-137 | nothing outside the visited windows changes |
| Retention.SweepSurvivors | apps/audits/tasks.py:91-137 | a row survives iff it has not expired or is in an odd block of an overfull day |
| Retention.SweepClearsIff | apps/audits/tasks.py:91-137 | every expired row is deleted iff no day holds more than the direct limit and more than one batch |
| PermissionTree.CounterTree.CreateNode | apps/rbac/tree.py:300-302 | for a new id, fails iff the parent is absent, otherwise appends the node under it |
| PermissionTree.CounterTree.AddNodesToTree | apps/rbac/tree.py:292-307 | the passes, with the fallback to the root in the third |
| PermissionTree.CounterTree.GetTotalCount | apps/rbac/tree.py:252-268 | whatever was asked before, the memoised answer is the count, and memos stay right |
| PermissionTree.CounterTree.GetCheckedCount | apps/rbac/tree.py:270-290 | the same for checked leaves |
| PermissionTree.EveryNodeInsertedOnce | apps/rbac/tree.py:292-307 | every list with distinct ids is inserted, each node exactly once, and the tree stays rooted and acyclic |
| PermissionTree.DeclaredParentUnlessTwoPassesFailed | apps/rbac/tree.py:292-307 | nodes hang from their declared parent, except those rejected twice, which hang from the root |
| PermissionTree.ParentsFirstOnePass | apps/rbac/tree.py:294-302 | a list in which parents come first needs one pass |
| PermissionTree.CountIsLeaves | apps/rbac/tree.py:252-290 | a count is the number of (checked) leaves the node stands for |
| PermissionTree.CheckedAtMostTotal | apps/rbac/tree.py:252-290 | checked is at most total, at every node |
| PermissionTree.RootTotalIff | apps/rbac/tree.py:252-268 | the root's total is the number of all leaves iff no leaf hangs below another |
| PermissionTree.CountNodes | apps/rbac/tree.py:511-526 | after building and counting, the table holds every node's two counts |
| PermissionTree.ComputeNodesCount | apps/rbac/tree.py:511-541 | the list returned is the given one in its order without the nodes of total zero, parents with their counts |
| PermissionTree.PrunedIsFilter | apps/rbac/tree.py:528-541 | the list returned is the given one, in its order, without the nodes that are no leaf and have none below them |
| PermissionTree.PrunedClosed | apps/rbac/tree.py:528-541 | with a node the list shows the node it hangs from in the tree |
| PermissionTree.PrunedShowsLeaves | apps/rbac/tree.py:528-541 | every entry returned shows, for a parent, the number of checked leaves below it and of all leaves below it, and is ticked iff it was or one of these leaves is |
| ChainedSlices.QuerySetChain.TotalCount | apps/common/struct.py:34-44 | the length of the concatenation |
| ChainedSlices.QuerySetChain.GetItem | apps/common/struct.py:53-106 | indexing and slicing refine those of the concatenation, for all integer bounds, with the cases in which a query set refuses a negative index |
| ChainedSlices.SliceAgreesIff | apps/common/struct.py:60-64 | `chain[a:b]` is the slice of the concatenation iff b is not a zero read as the total and does not lie before the part that holds a |
| ChainedSlices.OpenSlices | apps/common/struct.py:53-106 | a missing bound is the end on its side: the whole, what follows the first a items (also for a zero stop), the first b |
| ChainedSlices.ItemAt | apps/common/struct.py:53-106 | the concatenation has the items of each part, in order, after those of the parts before it |
| ChainedSlices.OrderedSliceAgrees | apps/common/struct.py:53-106 | in particular for all bounds in order with b at least 1 |
| ParentTree.Tree.GetNode | apps/common/tree.py:91-92 | the node, or a fresh stand-in for the root |
| ParentTree.Tree.GetParents | apps/common/tree.py:30-39 | terminates and returns the chain of parents |
| ParentTree.Tree.AddNode | apps/common/tree.py:75-86 | both errors, the new parents, and acyclicity iff the node is neither the parent nor above it, which for the stored parent object means not itself |
| ParentTree.MoveKeepsAcyclicIff | apps/common/tree.py:80-86 | giving a node to a parent, subtrees included, keeps all chains finite iff the node is neither that parent nor above it |
| ParentTree.AddKeepsAcyclicIff | apps/common/tree.py:80-86 | so a call accepted for the stored parent keeps all chains finite iff the node is not its own parent |
| ParentTree.SelfParentAccepted | apps/common/tree.py:80-84 | and giving a node to itself is accepted |
| ParentTree.ChainIsAncestors | apps/common/tree.py:30-39 | `get_parents` returns exactly the proper ancestors below the root, nearest first, each once |
| ParentTree.RunsStaySound | apps/common/tree.py:75-86 | every sequence of calls that gives no node to itself keeps all chains finite |
| CloudSync.CloudSyncer.QuarantineInstance | apps/cloud_sync/sync.py:15-35 | one unresolved record per object id, updated or created |
| CloudSync.CloudSyncer.Import | apps/cloud_sync/sync.py:113-140 | one instance, with a fault at any point |
| CloudSync.CloudSyncer.SyncInstance | apps/cloud_sync/sync.py:107-140 | one turn of the loop: quarantined for a missing address or a failure, created or updated otherwise |
| CloudSync.CloudSyncer.RunSync | apps/cloud_sync/sync.py:83-157 | counters, status and database of a run, for any pattern of faults |
| CloudSync.ReconciliationConserves | apps/cloud_sync/sync.py:107-145 | counters add up, new mappings are the created ones, none is dropped or redirected, every instance ends mapped or in quarantine |
| CloudSync.CountersCount | apps/cloud_sync/sync.py:104-145 | with any faults the counters are the numbers of instances created, updated and failed |
| CloudSync.StatusIff | apps/cloud_sync/sync.py:146-151 | with any faults: success iff no instance failed, failure iff there were instances and all failed, partial iff some failed and some were created or updated |
| CloudSync.ImportedAs | apps/cloud_sync/sync.py:46-136 | an imported instance is mapped to an asset of its own with the address the account prefers and the name it asks for, suffixed iff it is new and the name was held; other assets stay |
| CloudSync.QuarantinedAs | apps/cloud_sync/sync.py:15-35 | a failed instance is in quarantine under its id, cut to 256 characters, with its reason; nothing else changes but a new asset without mapping |
| CloudSync.FailsIff | apps/cloud_sync/sync.py:57-140 | an instance fails iff it has no address, something raises at its step, or its name (for a new one, the suffixed one too) is held by another asset |
| CloudSync.OrphanIff | apps/cloud_sync/sync.py:129-140 | a failed instance changes no asset, but when only its mapping could not be saved its new asset stays with nothing mapped to it |
| CloudSync.MappedCreatesNothing | apps/cloud_sync/sync.py:115-136 | once all addressed instances are mapped no run creates anything, whatever fails |
| CloudSync.RerunCreatesNothing | apps/cloud_sync/sync.py:107-140 | so a rerun after a run without exceptions creates nothing |
| CloudSync.NoChangeIff | apps/cloud_sync/sync.py:107-140 | an instance changes nothing and raises nothing iff it is in sync |
| CloudSync.NoOpIff | apps/cloud_sync/sync.py:107-140 | a rerun is a no-op throughout iff every listed instance is in sync |
| CloudReruns.NoFailureInRunIff | apps/cloud_sync/sync.py:107-140 | one run over mapped instances has no failure iff each is the first in the list to want its name and any other holder of that name at the start belongs to an earlier instance (names are unique, `apps/assets/models/asset/common.py:426`) |
| CloudReruns.ReconciliationSettlesIff | apps/cloud_sync/sync.py:107-140 | reruns over addressed, mapped instances ever reach a run without failure iff no name is wanted twice and no set of instances waits for its own assets' names or for assets outside the list; then within as many reruns as instances |
| CloudReruns.MappingRunIsReady | apps/cloud_sync/sync.py:107-140 | a run that leaves all instances of its list mapped, as one without failure does, brings the list into that state |
| CloudReruns.UnsettledFailsForever | apps/cloud_sync/sync.py:107-140 | otherwise every run fails, however many came before |
| CloudReruns.SwapNeverSettles | apps/cloud_sync/sync.py:118-128 | two instances that swap names fail both, in every run, and nothing changes |
| CloudReruns.SameNameNeverSettles | apps/cloud_sync/sync.py:69-75 | two new instances of one name import without failure, and every later run fails |
| FieldCache.Cache.LoadDataFromDb | apps/common/cache.py:120-126 | loads the declared entries; an empty hash leaves the snapshot alone |
| FieldCache.Cache.SaveDataToDb | apps/common/cache.py:128-131 | merges into the hash and reloads |
| FieldCache.Cache.Data | apps/common/cache.py:94-104 | loads once, else initialises everything |
| FieldCache.Cache.RefreshFields | apps/common/cache.py:152-165 | recomputes the named fields, or all when the hash has none |
| FieldCache.Cache.ExpireFields | apps/common/cache.py:173-179 | drops the named entries and the own snapshot |
| FieldCache.Cache.Get | apps/common/cache.py:192-199 | reading a field through its descriptor |
| FieldCache.RefreshLeavesOthers | apps/common/cache.py:152-165 | a refresh of some fields on a hash with data changes no other entry |
| FieldCache.RefreshStores | apps/common/cache.py:152-165 | a refresh writes current values of the named fields, or of all when none are named or cached, to the shared hash, changes nothing else there, and takes the snapshot from it |
| FieldCache.ReadLeaves | apps/common/cache.py:192-199 | what a read leaves in hash and snapshot on each of its paths |
| FieldCache.ExpireForgets | apps/common/cache.py:173-179 | exactly the named entries, or all without names, leave the hash, and the snapshot goes |
| FieldCache.ReadYields | apps/common/cache.py:192-199 | for any hash: the snapshot's value, else without a snapshot the hash's, else the recomputed one, whether it hits, fills one field or initialises all |
| FieldCache.ReadIsCurrentIff | apps/common/cache.py:192-199 | a field the handle's snapshot does not hold reads as current iff there is a snapshot without it, or the hash lacks it or holds its current value |
| FieldCache.CacheAgrees | apps/common/cache.py:94-179 | over every run of changes, deferred expiries, reads and refreshes, a read without a snapshot equals recomputation now for every field not changed since its last expiry, and in any case iff the hash lacks it or holds its current value |
| FieldCache.SnapshotAgrees | apps/common/cache.py:94-199 | the same for any handle, for fields its snapshot is not behind in |
| FieldCache.StaleUntilExpired | apps/common/cache.py:173-199 | between a change and its expiry a cached field reads as before, afterwards as now |
| FieldCache.ExpiringHandleNeverStale | apps/common/cache.py:152-199 | the handle that makes all expiries and refreshes reads every field that is not pending as current, with or without a snapshot |
| Labels.LabeledResources.Put | apps/labels/api.py:98-120 | not found, bad request, or the new table and the count |
| Labels.ReplacedExactly | apps/labels/api.py:112-119 | exactly the requested resources are bound afterwards among the visible rows, and no other row changes |
| Labels.CountingIsInclusion | apps/labels/mixins.py:52-63 | with one row per label and resource and distinct labels, counting selects exactly the resources that carry every label |
| Labels.ShortcutAgrees | apps/labels/mixins.py:54-55 | the path for one label agrees with counting |
| Labels.AllLabelsMeansAllIff | apps/labels/mixins.py:52-63 | selection means "carries all labels" for every such table iff the requested labels are distinct |
| Labels.AnyLabelFilter | apps/labels/mixins.py:65-77 | the other mode selects exactly the resources that carry some label, and contains the first |
| Labels.RunsKeepRowsIff | apps/labels/api.py:98-120 | over any sequence of replacements, in whatever organizations, rows are unique after every call iff each call that finds its label requests no resource bound by another organization's row |
| Labels.FreeRunsFilterRight | apps/labels/mixins.py:52-77 | after such a sequence the filter selects exactly the carriers of all requested labels in every organization |
| Labels.OrdinaryCallsKeepRows | apps/labels/api.py:98-120 | every sequence made in ordinary organizations only is of that kind |
| Labels.FilterIsRight | apps/labels/mixins.py:52-77 | in an ordinary organization the filter is right whatever the table holds, in the root if rows are unique |
| Labels.FilterByRows | apps/labels/mixins.py:49-77 | row by row: no filter iff no labels are given; otherwise exactly the resources that rows of the type, of the organization or in the root of any, bind to all of the labels, or to one of them |
| Labels.CallKeepsRowsIff | apps/labels/api.py:112-119 | one replacement, in any organization, keeps rows unique iff no requested resource is bound by another organization's row (key in `apps/labels/models.py:48`) |
| Labels.EitherOrderDuplicates | apps/labels/api.py:112-119 | the failing inputs: the root and the label's organization bind one resource in either order, and the root's filter then selects it for a label it lacks |
| LabelSearch.FilterSearch | apps/labels/api.py:155-171 | the paging loop ends and keeps exactly the matching rows that some page showed |
| LabelSearch.SearchCompleteIff | apps/labels/api.py:155-176 | every row is shown, however each query orders equal types, iff no type's rows straddle a page boundary |
| LabelSearch.OnePageIsComplete | apps/labels/api.py:162-171 | up to one page of rows is always searched completely |
| ReleaseTags.ParsePrint | apps/common/security_updates.py:24-26 | parsing what a well-formed tag prints gives it back |
| ReleaseTags.PrintParse | apps/common/security_updates.py:24-26 | whatever is accepted is the print of a well-formed tag |
| ReleaseTags.ExtractPrint | apps/common/security_updates.py:46-51 | the extractor finds exactly the three numbers that the grammar denotes, for every prefix and suffix |
| ReleaseTags.VersionOfTagIff | apps/common/security_updates.py:46-53 | the version is the grammar's triple iff no number has more digits than `int` reads, otherwise there is none |
| ReleaseTags.SearchFindsIff | apps/common/security_updates.py:47-49 | for any string, something is found iff a dot stands between two digits |
| ReleaseTags.OfferedIff | apps/common/security_updates.py:183-196 | between accepted tags an update is offered iff the tags differ and the new numbers are readable and not below the current ones |
| ReleaseTags.ValueOfDecimal | apps/common/security_updates.py:50-51 | a decimal numeral is read as its number |
| ReleaseTags.OfferedByNumbers | apps/common/security_updates.py:46-196 | of two releases vA.B.C the second is offered over the first iff its numbers are greater, compared as numbers from the left |
| ReleaseTags.OfferedOverUnknown | apps/common/security_updates.py:143-196 | checking fails iff the release is no print of a tag; over a version that cannot be told every other readable tag is offered; what was offered and taken is the current version then |
| ReleaseTags.TrackNeverDowngrades | apps/common/security_updates.py:143-196 | over any history of releases, taking what is offered never lowers or loses a known version |
| ReleaseTags.MutualOfferIff | apps/common/security_updates.py:189-196 | two strings are each offered as the other's update iff they differ and have equal versions |
| ReleaseTags.ChainReturnsOnlyOverRebuilds | apps/common/security_updates.py:189-196 | a chain of offers that comes back to a version only went through builds of it |

## Left out

- The database, Redis, the Celery broker and the thread pool appear only as maps, sets, sequences and queues.
- HMAC, SHA-256 and AES are parameters; nothing is assumed about them but that they are functions.
- One `delay`, one timer and one completion are each atomic; interleavings of threads inside them, and unlocked appends in `bulk_handle`, are not modelled.
- A cancelled debounced task is one that still sleeps or is queued; a task in the middle of the hand-over to the executor is not modelled.
- The plain `delay_run` decorator uses the same debouncer without merging and adds nothing to it.
- BatchBuffer.BulkHandler.Handle: the handler does not raise and there is one thread, as the source assumes; which organizations the registry finds does not change.
- Debounce.Caches.DelayCall: keywords and parameters named `ttl`, `cache_key`, `org`, `func`, `key` or `self` collide with the scheduler's own parameters, where the source takes them as such or raises; no decorated function of the repository uses them and the type of names excludes them.
- Signature.SignaturePermission.HasPermission: the access keys do not change during a run; what a query finds under each spelling of an id is a parameter.
- Digits and white space in signed headers are the ASCII ones, so `strip` and `isdigit` on other Unicode characters are not modelled.
- The tenant middleware for WebSockets and the parsing of its cookie are not modelled; it resolves with the same function.
- Where an exception of a task body goes after the context is put back is left to Celery.
- OrgContext.Thread.GetInstance: the table of organizations does not change during a program, so a cached mapping is never outdated.
- The organization a request asks for (`apps/orgs/utils.py:15-54`) is chosen by branches over settings that add only easy facts.
- Retention.Table.BatchDelete: query results keep a stable order; the source asks for none.
- The other clean-up tasks of `apps/audits/tasks.py` delete by one query or remove files.
- PermissionTree.CounterTree.CreateNode: the tree library, which is not part of this model, also raises on a repeated id.
- PermissionTree.ComputeNodesCount: ids are distinct and the list ends with the root, as its callers build it; the text appended to names is replaced by the pair of counts.
- Sort keys of permission nodes and of `TreeNode` are not modelled; the latter are no consistent order.
- ParentTree.Tree.AddNode: nodes are stored under their id (the source's `key` is not part of `TreeNode`), and a parent with an id of the tree belongs to this tree.
- ChainedSlices.QuerySetChain.GetItem: steps other than 1 are not modelled, the code applies them per part; the query sets do not change after they are counted.
- CloudSync.CloudSyncer.Import: platform, protocol and node choice, and the observed details of a quarantine record, are not modelled; writing the quarantine record itself does not fail.
- FieldCache.CacheAgrees: a recomputation and the write of its result are one step, so a change that commits between them is not modelled.
- FieldCache.Cache.Get: values survive the conversion to and from text in Redis, and the lock around initialisation is a no-op in one thread.
- Labels.LabeledResources.Put: whether label and type exist, and whether an id has the right form, are parameters.
- LabelSearch.FilterSearch: whether a row's text holds the keyword is a parameter; rows do not change between page queries.
- ReleaseTags.TrackNeverDowngrades: the host records the tag it installed; the queue that carries the tag to it is not modelled.
- The files and locks of the update queue, and the reports of known vulnerabilities, are not modelled.
