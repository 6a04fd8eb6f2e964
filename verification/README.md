# Verified model of reviewed exploration authority

Synapsor's runner inspects a database, lets a human review which resources, fields, scopes and
measures an exploration boundary may use, and then enforces exactly that. This project models
the machinery behind the promise in Dafny and proves what the promise amounts to.

The modules follow the program:

- **Scope paths.** `Catalog` and `Evidence` hold the catalog facts, `Relational` says what they
  mean for rows. `ScopeSearch` finds the mandatory paths to a tenant or principal column,
  `ScopeProof` is the separate validator and its consequence for rows, `Drift` the recheck
  against a later inspection, `ChildCount` the child-count measure.
- **Analysis paths.** `ComposedPaths` adds multi-hop relationships to a pack while traversing it,
  `ComposedRecords` says what each record holds and which ones a resource gets.
- **Selection.** `ScopeClosure`, `Selection` and `InstantSelection` choose the resources that are
  offered for review, `ReviewCandidates` builds and reviews the two candidates.
- **Review.** `Pack` and `Boundary` hold the boundary, `DependentAuthority` normalises a
  candidate, `Narrowing` validates it against its draft, `Review` says what acceptance implies,
  `JoinKeys` what child counts join on, `Acceptance` restates the validator in terms of what a
  candidate permits, check by check and along chains of reviews.
- **Recorded decisions.** `EvidenceReview` applies human decisions to an evidence graph,
  `DecisionMeaning` says what they do to a resource. `Prune` reconciles them with a changed
  schema, `PruneKeeps` says what must survive that.
- **Files.** `Registry` is the lock-guarded set of active boundaries with its legacy file,
  `ArtifactCommit` the all-or-nothing rename transaction.
- **Smaller parts.** `StableJson` is the canonical printer and `JsonText` the grammar of its
  texts, `AttentionEpisodes` the supervision-sink episodes, `CapabilityNames` the name generator.
  `Sequences` holds filters, duplicate-free lists and stable sorting.

Conventions. A step that throws in the original returns `false` or `None` here, and its contract
says exactly when. Code that changes things step by step is a method or a class proved against a
function of the old state; what the program promises is then proved about that function. Where a
promise fails, the exact condition is proved and a concrete case is beside it: a rollback that
leaves a new file behind, two keys a collation ties, a dotted name that splits two ways, colons in
names that hide a scope path, a child count that joins on a kept-out column, a review that drops a
function list, stops withholding a field or raises a budget, a permission change that fails after
its rename.

## Model

| member | source | states |
|---|---|---|
| `Catalog.TargetUniqueness` | apps/runner/src/auto-boundary.ts:5128-5161 | a key is found exactly when the target table declares one over these columns; the primary key is preferred, and a unique index is named only when no constraint covers the columns |
| `Catalog.PathIdJoins` | apps/runner/src/auto-boundary.ts:3625 | the id of a path in two parts is the two ids with a double underscore between them, and that of one link its constraint name |
| `ScopeSearch.DerivedScopeCandidates` | apps/runner/src/auto-boundary.ts:3589-3650 | the sorted candidates are, one per text of path id, ancestor and column, exactly the simple paths of one to three proven non-null links whose last resource is the only one with a direct scope column |
| `ScopeSearch.EveryOfferListed` | apps/runner/src/auto-boundary.ts:3643-3646 | no two listed candidates share path id, ancestor and column, and every offered combination is listed if and only if no two different ones read alike when joined by colons |
| `ScopeSearch.WithoutColonTellsApart` | apps/runner/src/auto-boundary.ts:3643-3646 | where resource ids and scope columns hold no colon, every offered combination is listed |
| `ScopeSearch.ColonsHideAPath` | apps/runner/src/auto-boundary.ts:3643-3646 | a concrete graph whose names hold colons: two paths to two ancestors are offered and one is not listed |
| `ScopeSearch.DedupeKeepsLast` | apps/runner/src/auto-boundary.ts:3643-3646 | of the candidates found under one key exactly the last one found is kept |
| `ScopeSearch.ListedInOrder` | apps/runner/src/auto-boundary.ts:3646-3649 | the list is ordered by path id, then by ancestor, then by column |
| `ScopeSearch.Visit` | apps/runner/src/auto-boundary.ts:3596-3632 | the recursive visit appends precisely the completions of the path walked so far, in a fixed order |
| `ScopeSearch.WalkIffPath` | apps/runner/src/auto-boundary.ts:3596-3632 | the walk that the visit follows step by step is the same as the search-free definition of a simple scope path |
| `ScopeProof.AssertDerivedScopePath` | apps/runner/src/auto-boundary.ts:4496-4543 | accepts if and only if the path is well formed, within the hop limit, continuous, simple, made of non-null unique links inside the boundary, and ends at the direct scope column |
| `ScopeProof.SearchPassesValidator` | apps/runner/src/auto-boundary.ts:3589-3650 | every path the search offers passes the separately written validator once its resources and hop limit are in the boundary |
| `ScopeProof.ReachesExactlyOne` | apps/runner/src/auto-boundary.ts:4510-4531 | along links the validator accepts, each row reaches exactly one row at the end of the path |
| `ScopeProof.JoinIsOwnerFilter` | apps/runner/src/auto-boundary.ts:4496-4543 | the mandatory join restricted to one trusted value returns the same rows, order and multiplicity as filtering the root table by owner |
| `ScopeProof.OwnersPartition` | apps/runner/src/auto-boundary.ts:4496-4543 | the rows of two different trusted values share no occurrence |
| `ScopeProof.ValidatedScopeIsolates` | apps/runner/src/auto-boundary.ts:4496-4543 | validator acceptance alone gives both of the above in every database that obeys the links |
| `Drift.DependencyFingerprint` | apps/runner/src/auto-boundary.ts:1868-1907 | the recomputed digest covers the current facts of every link; it is absent exactly when, for some link, a table or the foreign key is gone or the target key's kind, name or columns changed |
| `Drift.RecordedLinkIsCurrent` | apps/runner/src/auto-boundary.ts:1868-1907 | a recorded link recomputes to itself on the inspection it came from exactly when its reference names the target by its own schema and table, and otherwise to nothing |
| `Drift.DottedNameSplitsTwoWays` | apps/runner/src/auto-boundary.ts:1880-1888 | a concrete inspection in which a recorded link is not found again, because a dotted name splits into schema and table in two ways |
| `Drift.RecordedLinksAreCurrent` | apps/runner/src/auto-boundary.ts:1909-1961 | a list of recorded links recomputes to itself on the inspection it came from if and only if every reference names its target by the target's own schema and table |
| `Drift.MatchingDigestDeclares` | apps/runner/src/auto-boundary.ts:1868-1907 | the recomputed digest matches if and only if the later inspection still declares every link: columns, nullability and the unique target key |
| `Drift.DeclaredLinkHolds` | apps/runner/src/auto-boundary.ts:3609-3619 | in a database that enforces the inspection, a declared link joins as recorded |
| `Drift.CurrentScopeIsolates` | apps/runner/src/auto-boundary.ts:1868-1961 | a validated scope path whose digest still matches isolates trusted values in every database that conforms to the later inspection |
| `Drift.OfferedPathsIsolate` | apps/runner/src/auto-boundary.ts:3589-3650 | from the inspection to rows: whatever the search offers on the graph of an inspection passes the validator, recomputes to its own digest, and isolates trusted values in every conforming database |
| `Drift.HopsAreDeclared` | apps/runner/src/auto-boundary.ts:3602-3619 | over the graph of an inspection, a scope path may use exactly the foreign keys whose columns are all NOT NULL and whose target declares the referenced columns as a key |
| `ChildCount.ResolveReviewedChildCountLink` | apps/runner/src/auto-boundary.ts:4259-4325 | returns the child and link exactly when all recorded proofs agree on one well-formed link from that child to the root, and the child has its own tenant scope |
| `ChildCount.ChildProofsExactly` | apps/runner/src/auto-boundary.ts:4280-4300 | the proofs weighed for a child are exactly those of its direct relationships under that id and of its tenant and principal scopes of one link under it |
| `ChildCount.SumPeelsOneChild` | apps/runner/src/auto-boundary.ts:4259-4325 | removing one child row lowers the total over all parents by the number of parents it joins |
| `ChildCount.ChildCountsConserve` | apps/runner/src/auto-boundary.ts:4259-4325 | over any accepted link the per-parent counts add up to the number of child rows, each child joined to exactly one parent |
| `ComposedPaths.Visit` | apps/runner/src/auto-boundary.ts:5518-5555 | the recursive visit finds exactly the walks that leave the direct targets, each once |
| `ComposedPaths.WalkIffSimple` | apps/runner/src/auto-boundary.ts:5518-5555 | the visited walks are exactly the simple contiguous paths of direct hops |
| `ComposedPaths.KeptIsUnambiguous` | apps/runner/src/auto-boundary.ts:5556-5567 | a composite survives grouping by target exactly when its path is the only shortest one to that target |
| `ComposedPaths.ComposeRoot` | apps/runner/src/auto-boundary.ts:5501-5585 | the relationships left on one root are its own plus the best-ranked unambiguous composites per depth |
| `ComposedPaths.AddComposedExplorationPaths` | apps/runner/src/auto-boundary.ts:5501-5585 | although each root is rewritten while later roots still traverse it, every root ends with what the original pack determines |
| `ComposedPaths.OrderDoesNotMatter` | apps/runner/src/auto-boundary.ts:5501-5585 | visiting the resources in another order leaves every resource with the same relationships |
| `ComposedPaths.AddedPathsAreUniqueShortest` | apps/runner/src/auto-boundary.ts:5518-5581 | every added relationship is a simple contiguous path of two or three direct hops, to no directly reachable resource, and every other composable path there is longer |
| `ComposedPaths.AtMostThreePerDepth` | apps/runner/src/auto-boundary.ts:5568-5581 | at most three relationships of each depth, two or three hops deep, are added to a resource, and an unambiguous path stays out only when three of its depth, ranked no lower, are there |
| `ComposedRecords.AddedRecord` | apps/runner/src/auto-boundary.ts:5526-5549 | the record of an added relationship, for packs whose direct links run from their own resource to its target: two or three links, one per hop and as many as it is deep, leading from the root through different resources to its target, each that of a direct relationship; its id and columns are its hops', it is nullable and to be reviewed exactly when some link is nullable, and it joins in every database the rows its hops join one after the other |
| `ComposedRecords.WhatComposingKeeps` | apps/runner/src/auto-boundary.ts:5507-5511 | composing loses no relationship and changes nothing else; a resource with at most one relationship and nothing to measure, bucket or group keeps its list as it is |
| `ComposedRecords.LeftOutForBetter` | apps/runner/src/auto-boundary.ts:5564-5581 | an unambiguous path stays out of a resource with facts only for three of its depth, each leading to a resource worth more (four for a groupable field, three for a time bucket, one for a selectable field) or worth as much with an id no later |
| `ComposedRecords.ComposedListOrdered` | apps/runner/src/auto-boundary.ts:5582-5583 | the list ends ordered by depth, then by id |
| `ScopeClosure.ScopeDependencyClosure` | apps/runner/src/boundary-candidate.ts:220-245 | the worklist returns the least set that holds the root and every scope dependency, or nothing exactly when a reachable dependency is missing |
| `ScopeClosure.ClosedContainsReachable` | apps/runner/src/boundary-candidate.ts:220-245 | any closed set that holds the root holds everything reachable from it |
| `Selection.SelectedIds.AddWithScopeDependencies` | apps/runner/src/boundary-candidate.ts:206-218 | adds the whole closure exactly when it exists and fits the cap, otherwise changes nothing |
| `Selection.FitsShrinks` | apps/runner/src/boundary-candidate.ts:206-218 | what fits a larger selection fits a smaller one, which is why one greedy pass is enough |
| `Selection.AddAnchor` | apps/runner/src/boundary-candidate.ts:28-45 | the anchor is the first ranked resource whose closure fits an empty selection |
| `ReviewCandidates.RecommendedBoundaryReviewCandidate` | apps/runner/src/boundary-candidate.ts:11-80 | the recommended candidate is the review of the draft with lowered budgets and, over the cap, exactly a selection that is within the cap, closed under scope dependencies, maximal, and the greedy one: the closure of the best resource that fits, then its relationship targets in rank order, then all resources in rank order, each with its whole closure if that fits |
| `ReviewCandidates.RecommendedIsSelfContained` | apps/runner/src/boundary-candidate.ts:70-79 | in the recommended candidate as returned, every scope path and relationship stays inside the selection and no relationship is deeper than the hop limit |
| `ReviewCandidates.RecommendedHolds` | apps/runner/src/boundary-candidate.ts:70-79 | the recommended candidate holds each selected resource with exactly the relationships that are within the hop limit and keep all their links, or without links their target, inside the selection |
| `ReviewCandidates.WholeHolds` | apps/runner/src/boundary-candidate.ts:154-177 | within the cap every resource is recommended, each with exactly its relationships within the hop limit |
| `ReviewCandidates.LoweredExactly` | apps/runner/src/boundary-candidate.ts:154-170 | each budget of the candidates is the smaller of the draft's and its reviewed default, and none is added or dropped |
| `ReviewCandidates.LoweredBudgetsAccepted` | apps/runner/src/boundary-candidate.ts:154-170 | budgets a review accepts as they are, it also accepts lowered to the reviewed defaults |
| `ReviewCandidates.InstantLocalBoundaryCandidate` | apps/runner/src/boundary-candidate.ts:82-152 | the instant candidate is the review of a selection whose list and id set agree without duplicates, within min(5, resource count), closed, connected in the draft, and grown step by step from the best resource that fits by the best, then best connected, attached one, each bringing in its closure in draft order, until nothing attached fits |
| `ReviewCandidates.ReturnedConnected` | apps/runner/src/boundary-candidate.ts:141-152 | the candidate as returned, after review, is itself connected when no two selected resources are related only through paths that leave the selection or exceed the hop limit |
| `ReviewCandidates.ReturnedRelates` | apps/runner/src/boundary-candidate.ts:141-152 | the candidate as returned, after review, relates two resources if and only if some relationship between them keeps all its links inside the selection and is within the hop limit |
| `ReviewCandidates.InstantHolds` | apps/runner/src/boundary-candidate.ts:146-151 | the instant candidate holds the selected resources in order, each with exactly the relationships that keep all their links, or without links their target, inside the selection |
| `ReviewCandidates.ReturnedProfiles` | apps/runner/src/boundary-candidate.ts:141-152 | as returned, the recommended candidate keeps the draft's profile, the instant one is a production boundary for a production draft and a development one for any other, and the rest of the header is the draft's |
| `InstantSelection.ConnectionIsEdge` | apps/runner/src/boundary-candidate.ts:192-204 | a counted connection is an edge of the graph of relationships and scope dependencies |
| `InstantSelection.AddFirst` | apps/runner/src/boundary-candidate.ts:126-139 | adds the first candidate that fits, with exactly its scope closure, or proves that none fits |
| `InstantSelection.UnionConnected` | apps/runner/src/boundary-candidate.ts:206-218 | adding an attached closure keeps the selection in one piece |
| `DependentAuthority.SingleDefinitionsBlind` | apps/runner/src/auto-boundary.ts:2230-2262 | whether a definition validates does not depend on which other definitions are present |
| `DependentAuthority.DropInvalidDependents` | apps/runner/src/auto-boundary.ts:2230-2262 | editing one resource in place, between already edited and untouched ones, equals judging it against the trimmed boundary |
| `DependentAuthority.NormalizeDependentAggregateAuthority` | apps/runner/src/auto-boundary.ts:2197-2264 | the in-place passes return the normal form defined resource by resource from the hop-trimmed boundary |
| `DependentAuthority.KeepsExactlyWhatValidates` | apps/runner/src/auto-boundary.ts:2197-2264 | a derived measure, band or auto-band survives exactly when it validates, alone, against the normalised boundary |
| `DependentAuthority.NormalizedTwice` | apps/runner/src/auto-boundary.ts:2197-2264 | normalising is idempotent |
| `DependentAuthority.NormalFormExactly` | apps/runner/src/auto-boundary.ts:2197-2264 | besides definitions, the normal form keeps exactly the relationships within the hop limit, the function lists of aggregate fields and the presence of shown fields that scope no rows, each in order; no emptied list of definitions is left and nothing else changes |
| `DependentAuthority.OperandTargetIs` | apps/runner/src/auto-boundary.ts:4439-4447 | an operand without a relationship reads the resource itself, one with a relationship the resource that relationship leads to, and one whose relationship is unknown nothing |
| `Narrowing.AssertReviewedDerivedMeasures` | apps/runner/src/auto-boundary.ts:4206-4257 | accepts if and only if there are at most 16 differently named measures and each is reviewable |
| `Narrowing.AssertReviewedNumericBands` | apps/runner/src/auto-boundary.ts:4341-4369 | accepts if and only if there are at most 16 differently named bands, each over a reviewed numeric field of its target |
| `Narrowing.AssertReviewedAutoBands` | apps/runner/src/auto-boundary.ts:4384-4405 | accepts if and only if there are at most 16 policies on different, model-visible aggregate fields |
| `Narrowing.AssertReviewedResourceScope` | apps/runner/src/auto-boundary.ts:4459-4494 | accepts if and only if the resource has exactly one tenant mode (none in a single-organization boundary), one principal mode at most, and proven derived paths |
| `Narrowing.AssertBoundaryCandidateNarrowsDraft` | apps/runner/src/auto-boundary.ts:3966-4204 | the validator returns if and only if header, budgets, resources, relationships and definitions all narrow the draft |
| `Narrowing.DistinctIdsFillTheTable` | apps/runner/src/auto-boundary.ts:4027-4030 | counting the id table's entries detects exactly the repeated ids |
| `Acceptance.AcceptedExactly` | apps/runner/src/auto-boundary.ts:3966-4204 | the validator as a whole accepts if and only if header and budgets are allowed and the candidate is a non-empty choice of the draft's resources, each of which only narrows the draft's, keeps out what it says, is scoped one way inside the hop limit, defines reviewed measures and bands, and holds allowed relationships within the hop limit |
| `Acceptance.HeaderExactly` | apps/runner/src/auto-boundary.ts:3970-4024 | the header check holds if and only if the candidate differs from the draft in nothing but pack name, a choice of local profiles, budgets, resources and open decisions, so that trusted context, locks and organization scope are the draft's |
| `Acceptance.ComparedExactly` | apps/runner/src/auto-boundary.ts:4031-4202 | the comparison of a resource with its draft holds if and only if identity and scope are the same, it permits nothing the draft does not permit, lifts no restriction, repeats nothing, keeps suppression-aware totals and has a safe cohort at least the draft's |
| `Acceptance.ChainKeeps` | apps/runner/src/auto-boundary.ts:3966-4204 | along every chain of reviews the header stays the first draft's, no permission is gained, no restriction lifted, and a group the first draft suppressed stays suppressed |
| `Acceptance.CohortReachesExactly` | apps/runner/src/auto-boundary.ts:4193-4198 | replacing the cohort of one resource leaves an accepted candidate accepted if and only if the new one is a safe integer of at least one and at least the draft's |
| `Acceptance.RelationshipExactly` | apps/runner/src/auto-boundary.ts:4138-4191 | a relationship is accepted if and only if it is the draft's last one of that id with at most its open decision about unmatched rows taken, as deep as it has links, within the hop limit, and each link stays inside, leads to at most one row and uses kept-out columns between tenant keys only |
| `Acceptance.BudgetsExactly` | apps/runner/src/auto-boundary.ts:4603-4640 | the budget check holds if and only if no budget is dropped, each is positive and within its hard ceiling or, without one, the draft's value, and top lists, ranked groups and hops fit |
| `Acceptance.ScopeExactly` | apps/runner/src/auto-boundary.ts:4459-4494 | the scope check holds if and only if there is exactly one tenant mode (none under one organization), at most one principal mode, a shared table is acknowledged word for word, and derived paths are proven |
| `Acceptance.KeptOutExactly` | apps/runner/src/auto-boundary.ts:4673-4691 | the kept-out check holds if and only if the resource permits nothing about a field it keeps out |
| `Review.ReviewExplorationBoundaryCandidate` | apps/runner/src/auto-boundary.ts:2184-2195 | accepts exactly the candidates whose normal form narrows the draft, and returns that form with its open decisions; its digest is the review's |
| `Review.SmallestBoundaryAccepted` | apps/runner/src/auto-boundary.ts:3966-4204 | the demands of the validator can be met together: a concrete one-resource draft is its own normal form and narrows itself |
| `Review.RequiredDecisionsAreOpen` | apps/runner/src/auto-boundary.ts:4558-4580 | the decisions still asked for are exactly the draft's decisions about the whole boundary, a retained resource or a retained relationship to the named target |
| `Review.ReviewIdempotent` | apps/runner/src/auto-boundary.ts:2180-2195 | reviewing an accepted candidate again returns it unchanged, with the digest the unreviewed input already had |
| `Review.DigestSettlesReview` | apps/runner/src/auto-boundary.ts:2180-2195 | two candidates accepted against one draft have equal digests if and only if their reviews agree |
| `Review.KeptOutUnreachable` | apps/runner/src/auto-boundary.ts:4031-4203 | in an accepted candidate no operation of any resource, directly, through a relationship or as an operand or band of a named definition, reads a field kept out by the candidate or by the draft |
| `Review.OperandsNeverReadWithdrawn` | apps/runner/src/auto-boundary.ts:4423-4457 | an accepted derived measure never reads a field its target has withdrawn |
| `Review.KeptOutJoinKeysAreTenantKeys` | apps/runner/src/auto-boundary.ts:4170-4190 | a relationship of an accepted candidate joins on a kept-out column only in a single-column link from tenant key to tenant key |
| `JoinKeys.RelationshipCountJoinsTenantKeys` | apps/runner/src/auto-boundary.ts:4286-4290 | a child count whose link a relationship of the child carries joins on kept-out columns between tenant keys only |
| `JoinKeys.CountJoinsKeptOutExactly` | apps/runner/src/auto-boundary.ts:4259-4325 | for a column that an accepted child count joins on and no list of its resource holds: keeping it out leaves the candidate accepted, and the count joining on it, if and only if reviewed relationships use the column to tie tenant keys only |
| `JoinKeys.CountJoinsKeptOutColumn` | apps/runner/src/auto-boundary.ts:4291-4294 | a concrete accepted candidate whose child count, over the link of a derived tenant scope, joins on a kept-out column that is no tenant key |
| `JoinKeys.KeepingOutAcceptedExactly` | apps/runner/src/auto-boundary.ts:4170-4192 | keeping out one more column that no list holds leaves a candidate accepted if and only if reviewed relationships use it to tie tenant keys only |
| `JoinKeys.CountedLinkDrafted` | apps/runner/src/auto-boundary.ts:4259-4325 | whatever link an accepted child count uses, the draft recorded it for that child under the same id |
| `Review.ReachNarrows` | apps/runner/src/auto-boundary.ts:4050-4137 | select, filter, sort, group, aggregate, presence, distinct and time-bucket operations of an accepted candidate, directly or through a relationship, reach only fields they reached in the draft |
| `Review.DefinitionReachNarrows` | apps/runner/src/auto-boundary.ts:4206-4257 | the operands and bands of a derived measure, band or auto-band of an accepted candidate read only fields the draft let the same resource aggregate or count |
| `Review.FunctionsWidenExactlyWhenDropped` | apps/runner/src/auto-boundary.ts:4076-4094 | an accepted candidate allows an aggregate function the draft does not if and only if it dropped the field's function list and the draft's list lacks sum or avg |
| `Review.VisibilityWidensExactlyWhenReleased` | apps/runner/src/auto-boundary.ts:4120-4125 | an accepted candidate shows the model a field the draft did not if and only if it stopped withholding that selectable field |
| `Review.WideningAccepted` | apps/runner/src/auto-boundary.ts:4120-4125 | a concrete draft and accepted candidate in which both widenings happen |
| `Review.BudgetWidensOnlyToCeiling` | apps/runner/src/auto-boundary.ts:4603-4640 | an accepted budget is new or above the draft's only for a budget with a hard ceiling, and never beyond the ceiling |
| `Review.BudgetReachesCeiling` | apps/runner/src/auto-boundary.ts:4603-4640 | replacing one such budget by any value is accepted if and only if the value lies between one and the ceiling and fits the other budgets |
| `Review.RaisedBudgetsAccepted` | apps/runner/src/auto-boundary.ts:4603-4640 | a candidate with budgets raised in this way stays accepted as a whole, as long as no hop limit falls |
| `Review.RaisingAccepted` | apps/runner/src/auto-boundary.ts:4603-4640 | a concrete draft and accepted candidate with higher budgets, a new budget and higher hop limits |
| `Review.AcceptedRelationshipNeverMultiplies` | apps/runner/src/auto-boundary.ts:4149-4190 | joining along an accepted relationship returns at most one row per starting row |
| `Review.AcceptedCandidateIsolates` | apps/runner/src/auto-boundary.ts:4459-4543 | every resource of an accepted candidate has exactly one tenant mode (none in a single-organization boundary), and each derived tenant or principal scope isolates trusted values in every database that obeys its links |
| `Review.NarrowingComposes` | apps/runner/src/auto-boundary.ts:3966-4204 | acceptance composes: a candidate accepted against an accepted candidate would have been accepted against the first draft |
| `Review.BudgetsCompose` | apps/runner/src/auto-boundary.ts:4603-4640 | budgets cannot be raised past the first draft and the hard ceilings by reviewing in stages |
| `Review.KeptOutAfterEveryReview` | apps/runner/src/auto-boundary.ts:4122-4203 | a field the first draft kept out stays out of reach after a second review |
| `EvidenceReview.ApplyDecision` | apps/runner/src/auto-boundary.ts:3431-3553 | does not throw exactly when keys, columns, enum values, exposures and groupings fit the resource, and then yields the reviewed resource |
| `EvidenceReview.EvidenceGraph.ApplyReviewOverrides` | apps/runner/src/auto-boundary.ts:3423-3555 | throws exactly when some decision does not fit its resource, whatever the order; otherwise every resource is as its decision leaves it |
| `EvidenceReview.EvidenceGraph.InferDerivedScopeCandidates` | apps/runner/src/auto-boundary.ts:3557-3587 | rewriting the graph it reads, it lists for each resource without a direct column the paths the original graph offers |
| `EvidenceReview.ListsEveryOffer` | apps/runner/src/auto-boundary.ts:3557-3587 | after inference a resource without a direct column lists every offered path id and no other, unless two paths read alike when joined by colons; one with a direct column lists nothing new |
| `EvidenceReview.EvidenceGraph.ApplyDerivedScopeReviewOverrides` | apps/runner/src/auto-boundary.ts:3652-3726 | throws exactly when some decision names two modes, an unlisted path or an ineligible shared reference, judged on the graph before any choice was taken |
| `DecisionMeaning.FieldAfterReview` | apps/runner/src/auto-boundary.ts:3490-3552 | a field kept out is open to nothing, one allowed or withheld exactly to what its type and name are good for, any other keeps its use; an exact grouping makes it groupable besides, facts never change and a review stays until replaced |
| `DecisionMeaning.KeysAfterReview` | apps/runner/src/auto-boundary.ts:3433-3489 | chosen keys are selected and among the candidates, a principal decided to be none is deselected, and everything a decision cannot reach is as before |
| `DecisionMeaning.FitsMeans` | apps/runner/src/auto-boundary.ts:3431-3552 | a decision is applied if and only if its keys and fields exist, its vocabularies name declared values once, fields in use have a readable type, and exact groupings are of open, insensitive scalars that act as no key |
| `DecisionMeaning.ScopesFitMeans` | apps/runner/src/auto-boundary.ts:3652-3726 | a scope decision is taken if and only if it names one tenant and one principal mode at most, offered paths only, and sharing only of a table that nothing ties to tenants, outside a single organization |
| `DecisionMeaning.ScopesAfterDecisions` | apps/runner/src/auto-boundary.ts:3652-3726 | taking the scope decisions selects exactly the decided paths among unchanged candidates, marks decided and judges undecided sharing, and leaves everything else |
| `Prune.PruneAutoBoundaryReviewOverrides` | apps/runner/src/auto-boundary.ts:897-1183 | never throws while it surveys the graph, returns exactly what is left of every decision, and its report names exactly what is missing: it is empty if and only if every decision survived whole |
| `PruneKeeps.ExposuresKept` | apps/runner/src/auto-boundary.ts:1084-1097 | an exposure survives if and only if its column exists and, unless it is a keep-out, has a readable type: every keep-out on an existing column is kept |
| `PruneKeeps.MetadataKept` | apps/runner/src/auto-boundary.ts:1047-1057 | a reviewed label survives if and only if its column exists |
| `PruneKeeps.VocabulariesKept` | apps/runner/src/auto-boundary.ts:1058-1083 | a vocabulary survives if and only if its column exists, with exactly the values still declared, in their order |
| `PruneKeeps.KeysKept` | apps/runner/src/auto-boundary.ts:923-948 | a reviewed key goes exactly when its column is gone, a row identity exactly when it no longer identifies a row on its own; metadata and cohort always stay |
| `PruneKeeps.DefinitionsKept` | apps/runner/src/auto-boundary.ts:949-1023 | derived measures and bands survive if and only if the schema supports them: own operands have their column, and a child count names the first reference of that name, non-null and into a declared key |
| `PruneKeeps.ScopesKept` | apps/runner/src/auto-boundary.ts:1131-1160 | a path survives if and only if the build from the pruned overrides lists it, a shared reference if and only if that build finds it eligible |
| `PruneKeeps.GroupingsKept` | apps/runner/src/auto-boundary.ts:1024-1046 | a grouping survives if and only if its column has the type recorded at review and the build finds the field eligible |
| `PruneKeeps.AcceptedComesBackWhole` | apps/runner/src/auto-boundary.ts:897-1183 | overrides that a build accepts come back whole, with nothing reported, if and only if what a build does not check stands: definitions, recorded types, and no large or binary column in use |
| `Prune.PrunedIsApplicable` | apps/runner/src/auto-boundary.ts:1124-1129 | the structural step accepts both what the pruner surveys and what it finally leaves |
| `Prune.PruningKeepsSurvey` | apps/runner/src/auto-boundary.ts:1124-1172 | dropping paths, shared references, groupings and emptied decisions does not change the surveyed graph they were judged on |
| `Prune.GroupingsDoNotMoveScopes` | apps/runner/src/auto-boundary.ts:3519-3552 | recorded groupings change neither the inferred scope paths nor shared-reference eligibility |
| `Prune.PrunedOverridesNeverThrow` | apps/runner/src/auto-boundary.ts:3423-3726 | a multi-tenant build from the pruned overrides passes the structural step, and the scope step if and only if what is left names one tenant and one principal mode at most; pruning never adds a mode |
| `Prune.TakeDecisions` | apps/runner/src/auto-boundary.ts:1308-1317 | the decision-taking part of a build throws exactly when one of the two steps does |
| `Prune.PrunedTwice` | apps/runner/src/auto-boundary.ts:897-1183 | pruning twice equals pruning once, and the second pass loses nothing |
| `Registry.UpdateMeaning` | apps/runner/src/auto-boundary.ts:2327-2375 | an activation puts the new boundary after the others, in their order, and is refused exactly when there are eight others or one of another posture; a deactivation keeps exactly the others in their order and is refused exactly when something is active but not that name |
| `Registry.UpdatedCoherent` | apps/runner/src/auto-boundary.ts:2460-2511 | an update of a coherent list is coherent and only an activation adds to it |
| `Registry.StepPreserves` | apps/runner/src/auto-boundary.ts:2450-2534 | every step of every process, writes that fail before, at or after their rename included, keeps the lock discipline, a valid registry and the epoch of both files, and, while the run is on time, the agreement of the files with the committed updates |
| `Registry.MutualExclusion` | apps/runner/src/auto-boundary.ts:2573-2615 | at most one process is past the lock at any moment of any run |
| `Registry.QuietRegistry` | apps/runner/src/auto-boundary.ts:2318-2375 | the registry always holds one to eight distinctly named boundaries of one posture and selects the last; with no writer past the lock and no permission change failed after its rename, the active boundaries are the committed updates replayed in order and the legacy file shows the last |
| `Registry.SuccessIsLogged` | apps/runner/src/auto-boundary.ts:2460-2511 | a writer that reports success has its update in the log, in last place while it holds the lock |
| `Registry.NoUpdateLost` | apps/runner/src/auto-boundary.ts:2450-2521 | an update a writer reports as committed keeps its place among the committed updates for the rest of the run |
| `Registry.UpdateTakesEffect` | apps/runner/src/auto-boundary.ts:2450-2521 | while the lock is free, a writer that nothing disturbs comes to an end with exactly the updated list active, its update logged and the legacy file showing the last boundary; it changes nothing if there is nothing to deactivate or the update is refused |
| `Registry.NobodyIsStuck` | apps/runner/src/auto-boundary.ts:2450-2534 | whoever holds the lock can always take another step, and whoever waits can once the lock is free |
| `Registry.ReaderSeesCommittedState` | apps/runner/src/auto-boundary.ts:2292-2302 | an unlocked reader that finds the registry reads a valid one and, while no permission change has failed after its rename, exactly the replay of the committed updates |
| `Registry.ReaderNeverResurrects` | apps/runner/src/auto-boundary.ts:2292-2302 | a reader that saw a registry, then misses it and falls back to the legacy file, gets only a boundary that some activation wrote after the first look and that no full deactivation committed since has removed |
| `Registry.LegacyIsActiveOrInFlight` | apps/runner/src/auto-boundary.ts:2292-2302 | while no permission change has failed after its rename, what the legacy file shows is active after the committed updates or is the boundary the lock holder is activating at that moment |
| `Registry.LateLegacyWrite` | apps/runner/src/auto-boundary.ts:2503-2504 | a legacy write whose permissions fail after the rename parts the files if and only if the registry's last boundary is not the one just written |
| `Registry.LateRegistryWrite` | apps/runner/src/auto-boundary.ts:2505-2511 | a registry write whose permissions fail after the rename is reported as failed although its update is active, and parts the files if and only if the old legacy file did not already show the new last boundary |
| `Registry.LateFirstActivation` | apps/runner/src/auto-boundary.ts:2502-2534 | a concrete run that ends with an active boundary, a writer reporting failure and no legacy file |
| `ArtifactCommit.CommitManagedWrite` | apps/runner/src/auto-boundary.ts:6100-6192 | refused if and only if a check fails, and then nothing changed; otherwise committed if and only if no planned operation fails, and then exactly the install set is in place and the remove set gone; otherwise the first failing operation is the error and everything is restored, whatever the fault, when every installed file existed before; rollback gets stuck only on a second fault or a missing staged source |
| `ArtifactCommit.Transaction.RollBack` | apps/runner/src/auto-boundary.ts:6164-6191 | undoes whatever the interrupted run did, leaving at most the one file whose permissions failed; only a further fault stops it |
| `ArtifactCommit.Transaction.InstallFiles` | apps/runner/src/auto-boundary.ts:6148-6157 | carries out the planned operations of the install list in order, or stops with the first one that fails |
| `ArtifactCommit.Precheck` | apps/runner/src/auto-boundary.ts:6115-6133 | refuses exactly on an unsafe name, an irregular file, or an existing state file without an existing output |
| `ArtifactCommit.UniqueKeepsOrder` | apps/runner/src/auto-boundary.ts:6110-6112 | without repetitions, the files to install or remove come in the order of their first occurrences |
| `ArtifactCommit.StrandedFileIsLeft` | apps/runner/src/auto-boundary.ts:6148-6175 | a concrete input and fault schedule, a first build whose permission change fails, after which the commit rolls back and the new file is still there |
| `ArtifactCommit.StrandNewFile` | apps/runner/src/auto-boundary.ts:6148-6191 | for every run that is not refused and installs a file that did not exist, a schedule with one fault after which rollback leaves that file behind: restoring everything whatever the fault needs every installed file to exist before |
| `ArtifactCommit.CleanRunSucceeds` | apps/runner/src/auto-boundary.ts:6141-6163 | with every staged source in place and no fault, the plan goes through |
| `StableJson.ValueReads` | apps/runner/src/audit-candidates.ts:613-623 | a printed value followed by any separator can be read back in one way only, up to equivalence |
| `StableJson.EquivalentPrintsAlike` | apps/runner/src/audit-candidates.ts:613-623 | equivalent values print the same text when the collation aligns objects |
| `StableJson.StableJsonIsCanonical` | apps/runner/src/audit-candidates.ts:613-623 | two values print the same text if and only if they are equal up to key order and undefined members, under a total collation |
| `StableJson.CanonicalExactlyWithoutTies` | apps/runner/src/audit-candidates.ts:613-623 | the printer forgets key order if and only if the collation never ties two different keys |
| `StableJson.TiedKeysKeepTheirOrder` | apps/runner/src/audit-candidates.ts:618-620 | for any two tied keys, two equal objects that print differently |
| `StableJson.Collapses` | apps/runner/src/audit-candidates.ts:613-623 | where different values share a text: one undefined element and the empty array, a non-finite number and null |
| `JsonText.PrintDenotes` | apps/runner/src/audit-candidates.ts:613-623 | the printed text follows the grammar of RFC 8259 for the value: its literals and numbers, strings that decode to the given ones, arrays in order and objects with their defined members in key order |
| `JsonText.EscapeIsShortest` | apps/runner/src/audit-candidates.ts:619-622 | every character is written by a shortest escape RFC 8259 allows, with lower-case digits |
| `AttentionEpisodes.Store.RecordUnhealthySupervisionSinkAttention` | apps/runner/src/attention-domain.ts:249-316 | overwrites the stored health and records an event as the step function of the store before it, which the rows below tie to the checks of the run |
| `AttentionEpisodes.Store.ResolveHealthySupervisionSinkAttention` | apps/runner/src/attention-domain.ts:319-365 | stores the recovery, resolves the item and records a recovery event only on leaving an unhealthy state |
| `AttentionEpisodes.UnhealthyEventExactly` | apps/runner/src/attention-domain.ts:266-315 | in every run a check appends an unhealthy event, and leaves the item open, if and only if some sink it finds unhealthy has been allowed no longer than the time since the first check of the unbroken episode; the event names the episode's sinks, first check and whole seconds |
| `AttentionEpisodes.RecoveryEventExactly` | apps/runner/src/attention-domain.ts:319-365 | a recovery check appends a recovery event if and only if notices are enabled, some earlier check was due and an episode is open, naming that episode's first check; either way the item is closed and no episode is open |
| `AttentionEpisodes.ItemAlongRun` | apps/runner/src/attention-domain.ts:293-333 | the item exists since the first check that was due, and is open if and only if no recovery check came after the last one |
| `AttentionEpisodes.StepKeepsInvariant` | apps/runner/src/attention-domain.ts:249-365 | every check keeps each stored unhealthy state and each recorded event tied to one unbroken episode |
| `AttentionEpisodes.EventMeansUnbrokenEpisode` | apps/runner/src/attention-domain.ts:270-315 | in any run with a non-decreasing clock, an event implies that the shortest degraded duration has passed and that every state stored since the first observation was unhealthy with the same fingerprint |
| `AttentionEpisodes.OneKeyPerEpisode` | apps/runner/src/attention-domain.ts:278-313 | two events carry one source key if and only if every state stored from the first one's own up to the second's is unhealthy with its fingerprint |
| `AttentionEpisodes.RecoveryStartsNewEpisode` | apps/runner/src/attention-domain.ts:319-345 | in every run with a non-decreasing clock, a stored recovery starts a new episode: no later event repeats an earlier event's key |
| `AttentionEpisodes.RecoveriesSeparatedByUnhealth` | apps/runner/src/attention-domain.ts:342-364 | a recovery event names the first observation of the episode it ends, and between any two recovery events some unhealthy state was stored |
| `CapabilityNames.Names.UniqueCapabilityName` | apps/runner/src/audit-candidates.ts:438-447 | returns the first free try, within one more try than there are taken names, and takes it |
| `CapabilityNames.AttemptsDiffer` | apps/runner/src/audit-candidates.ts:438-447 | the candidate and its numeric suffixes are pairwise different |
| `CapabilityNames.AttemptNames` | apps/runner/src/audit-candidates.ts:438-447 | the tries are the candidate itself, then the candidate with "_2", "_3" and so on in decimal |
| `CapabilityNames.TakenTriesBounded` | apps/runner/src/audit-candidates.ts:438-447 | tries that are all taken cannot outnumber the taken names |
| `CapabilityNames.NameTools` | apps/runner/src/audit-candidates.ts:186-187 | every tool of a bundle gets a name, a suffixed form of its own candidate within its position, and no two share one |

## Left out

Assumptions and simplifications of what is modelled:

- Digests are free constructors, so equal digests mean equal contents; the hash itself is not modelled.
- `localeCompare` is a total order on the strings it sorts; `StableJson` states what happens when it ties two keys.
- Absent and empty texts are told apart by options; the original also treats an empty string as absent.
- Column names within a table and ids within a draft or graph are distinct; where the original looks up the first or last of several, the model does the same only for ids and relationships.
- Regular expressions on names and types, text normalisation, secret detection, timestamps and the shape checks of numeric and automatic bands are parameters (`Rules`, `Naming`).
- Metadata, trusted-context bindings and server authority are compared as opaque values.
- Integer widths: budgets and cohort sizes are unbounded integers with the safe-integer check written out.
- Candidate lists of inferred keys are kept in the order of their decisions, where the original sorts them; only membership is read later.
- Evidence strings, confidence and status recomputation after a reviewed decision (`refreshResourceStatus`) never influence a later decision and are not carried.
- Messages of removed decisions are records of resource, kind and name, collected as a set rather than a sorted list of sentences; the reason of a removal is not told apart.
- Parsing of review overrides, which rejects malformed input and duplicate enum values, is the precondition `EnumsDistinct`.
- EvidenceReview.EvidenceGraph.InferDerivedScopeCandidates: resources are visited in any order, where the original follows the graph's list; the result is the same for every order.
- ScopeClosure.ScopeDependencyClosure: the dependencies of a scope path are queued as listed, without first removing the repeats among them; the closure is the same.
- StableJson.StableJsonIsCanonical: numbers are the tokens they print as and strings are sequences of characters, so number formatting and the escaping of lone surrogates are not modelled.
- Registry.MutualExclusion: locks do not go stale; takeover of a stale lock breaks exclusion in the original. Each write is one step that succeeds, fails before its rename or fails after it; reads, the snapshot, its restoration and the lock's release succeed.
- Registry.ReaderSeesCommittedState: says nothing of a reader that starts from a legacy-only state, for which the original promises nothing.
- ArtifactCommit.CommitManagedWrite: paths are a datatype, so output, state, staging and backup are disjoint by construction; the caller passes whether an output exists truthfully.
- Review.RequiredDecisionsAreOpen: what a decision text is about is the parameter `Rules.subject`; parsing the text is not modelled.
- AttentionEpisodes.EventMeansUnbrokenEpisode: follows one environment and policy from an empty store; deduplication of events inside the proposal store is not part of this model.
- Prune.PrunedOverridesNeverThrow: single-organization builds are excluded, where a reviewed shared reference always throws.

Not modelled, because it would add foreign calls or easy members:

- Terminal rendering, prompts, interactive shells, help text and the local user interface.
- MCP servers and clients, HTTP, keychain, credentials and process spawning.
- Draft DSL emission and compilation, contract validation, database adapters and the SQL compiler.
- Inspection ranking of tenant and principal columns, sensitivity classification and schema parsing.
- Re-validation of an activated boundary's digest and generation lock when it is loaded.
- Build-level assertions on derived measures, numeric bands and automatic bands after pruning; the pruner checks only part of what they demand.
- Role-posture checks, confirmation of review decisions, audit projections, profiles, preferences and activity formatting.
