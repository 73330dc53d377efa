# Pandora cluster-list manager and cluster helpers in Dafny

This project models five small pieces of the Pandora particle-flow framework and proves properties about them:

- **Cluster manager** (`ClusterManagers`, `ClusterManagerProperties`). The manager keeps named cluster lists, a current list, one scope record per registered algorithm and a set of saved lists. The record holds the parent list, the temporary lists and a creation counter. Every operation is a pure transition from a state to a status code and the next state. A failing operation leaves the state unchanged. Clusters are opaque ids.
- **MC-particle relations** (`MCParticles`). Parent and daughter pointer sets with ALREADY_PRESENT / NOT_FOUND codes, and the optional pfo target.
- **`PandoraType<T>`** (`PandoraTypes`). A value with an initialised flag; reading it while unset fails with NOT_INITIALIZED.
- **Cluster helper** (`ClusterHelper`, on top of `OrderedCaloHitLists` and `MinimumScan`). It covers:
  - which hits of a cluster's ordered calo-hit list feed a fit (first n layers, last n layers, a closed layer range, all layers);
  - the ordered chain of status codes guarding each fit entry point;
  - the fit-point constructors;
  - the nearest-distance searches.
  The fit arithmetic and the geometry behind each distance are left abstract.
- **Track-cluster association** (`TrackClusterAssociation`). For each track, the algorithm picks the closest cluster above a hadronic-energy cut and the closest one at or below it. A distance cut prefers the first, falls back to the second, and makes at most one association.

Shared definitions are in `StatusCodes`: the status codes, `Option`, and `Result`, a value or a status code.

The manager's implementation file `Framework/src/Managers/ClusterManager.cc` is not part of this model. Only the inline bodies of `ClusterManager.h` are concrete code. The other operations follow the contracts documented in the header's comments, and where those comments are silent the model makes the choices below.

- A missing list in `GetList` is NOT_INITIALIZED.
- A missing list in a mutating operation is NOT_FOUND.
- An unregistered algorithm is NOT_FOUND.
- Registering an algorithm twice is ALREADY_PRESENT and changes nothing.
- Merging a cluster with itself is INVALID_PARAMETER.
- A temporary list is named `<algorithm>_<counter>`, both in decimal. A name that is already taken is ALREADY_PRESENT.
- `NULL_LIST_NAME` is `"NullList"`.
- Saving moves clusters out of the source list into the target list. The target is recorded as saved and stops being one of the algorithm's temporary lists.
- Resetting an algorithm deletes its temporary lists that were not saved.
- `MoveClustersToTemporaryListAndSetCurrent` takes its clusters from `originalListName`. The header comment says "the current list" but names `originalListName` as the list holding them. The two coincide in use, and `MovePartitionsCurrentList` states the documented property for that case.
- `ResetCurrentListToAlgorithmInputList` leaves the may-create flag untouched, as its inline body does.
- The may-create flag, on which the header is silent except through `DropCurrentList`:
  - `MakeTemporaryListAndSetCurrent` and `MoveClustersToTemporaryListAndSetCurrent` set it.
  - `TemporarilyReplaceCurrentList` and `ResetAlgorithmInfo` set it exactly when the list that becomes current is not the null list.
- `CreateCluster` refuses with NOT_INITIALIZED while the flag is clear, while the current list is missing, and while the current list is the null list. The header calls the null list the default empty list (ClusterManager.h:335), so no cluster is ever made in it.
- `SaveClusters` (both forms) refuses a reserved target name with INVALID_PARAMETER. The reserved names are the null list's name, so that the null list stays empty, and the empty name, which `GetCurrentListName` reads as "no current list". Together with the null-list guard in `CreateCluster` this keeps the null list empty and the current name readable in every valid state.
- `DeleteClusters` is all-or-nothing: when the list lacks any of the clusters, NOT_FOUND is returned and none is deleted.

The cluster helper rests on one assumption about a type whose definition is not part of this model. `PseudoLayer` is taken to be a 32-bit unsigned integer, 0 to 2^32-1, that wraps on increment (`OrderedCaloHitLists.PseudoLayer`, `MAX_PSEUDO_LAYER`). The never-ending layer loop in the second Findings row depends on this width.

## Model

| member | source | states |
|---|---|---|
| ClusterManagers.Fresh | Framework/include/Managers/ClusterManager.h:28-56 | A new manager has only the empty null list, which is current. No scope records or saved lists exist, and no cluster may be made. |
| ClusterManagers.GetCurrentListName | Framework/include/Managers/ClusterManager.h:343-351 | NOT_INITIALIZED exactly when the current name is empty; otherwise exactly the current name. |
| ClusterManagers.GetAlgorithmInputListName | Framework/include/Managers/ClusterManager.h:355-365 | For a registered algorithm, the parent list recorded at registration. Otherwise it falls back to the current name, with NOT_INITIALIZED when that is empty. |
| ClusterManagers.GetList | Framework/include/Managers/ClusterManager.h:90-96 | Succeeds exactly when a list has the name and returns that list. |
| ClusterManagers.GetCurrentList | Framework/include/Managers/ClusterManager.h:369-374 | Hands out the current name. The list lookup succeeds exactly when that name is registered. |
| ClusterManagers.GetAlgorithmInputList | Framework/include/Managers/ClusterManager.h:378-393 | The parent list of a registered algorithm, else the current list. The name is handed out and the lookup succeeds exactly when it is registered. |
| ClusterManagers.ResetCurrentListToAlgorithmInputList | Framework/include/Managers/ClusterManager.h:397-400 | The status is the input-list-name lookup's. A registered algorithm's parent becomes current; otherwise the current name is set to itself or the call fails, and nothing changes. |
| ClusterManagers.DropCurrentList | Framework/include/Managers/ClusterManager.h:404-409 | Always succeeds. The null list becomes current and creation is disabled. No list, record or saved mark changes. |
| ClusterManagers.TemporarilyReplaceCurrentList | Framework/include/Managers/ClusterManager.h:106-113 | Succeeds exactly for an existing list, which becomes current; creation is allowed unless it is the null list. NOT_FOUND otherwise, with no change. |
| ClusterManagers.RegisterAlgorithm | Framework/include/Managers/ClusterManager.h:260-265 | A new record whose parent is the current list, with no temporaries and a zero counter. ALREADY_PRESENT, with no change, for a registered algorithm. |
| ClusterManagers.TemporaryListName | Framework/include/Managers/ClusterManager.h:127-133 | A temporary list name is never the null list's name. |
| ClusterManagers.MakeTemporaryListAndSetCurrent | Framework/include/Managers/ClusterManager.h:127-133 | A new empty list is recorded as the algorithm's temporary list and made current, and creation is enabled. The counter advances modulo 2^32. NOT_FOUND for an unregistered algorithm, ALREADY_PRESENT for a taken name; neither changes anything. |
| ClusterManagers.MoveClustersToTemporaryListAndSetCurrent | Framework/include/Managers/ClusterManager.h:135-146 | An empty selection is rejected. Only selected clusters that are in the original list move, into a new current temporary list. The rest of the original list stays. |
| ClusterManagers.SaveClusters | Framework/include/Managers/ClusterManager.h:148-155 | A reserved target name (the null list's or the empty name) is INVALID_PARAMETER. Otherwise the target is created if absent and receives every cluster of the source. It is marked saved. Every other list is unchanged. |
| ClusterManagers.SaveClusterSubset | Framework/include/Managers/ClusterManager.h:157-168 | An empty subset and a reserved target name are rejected. Only clusters in both the subset and the source are saved; the others stay in the source. The target is created if absent. |
| ClusterManagers.DeleteClusterFrom | Framework/include/Managers/ClusterManager.h:210-216 | Succeeds exactly when the named list holds the cluster. Only that cluster leaves that list. |
| ClusterManagers.DeleteCluster | Framework/include/Managers/ClusterManager.h:413-416 | The named-list deletion applied to the current list. |
| ClusterManagers.DeleteClustersFrom | Framework/include/Managers/ClusterManager.h:225-231 | Succeeds exactly when the named list holds every given cluster. Exactly those clusters leave it; on failure none do. |
| ClusterManagers.DeleteClusters | Framework/include/Managers/ClusterManager.h:420-423 | The named-list deletion of several clusters applied to the current list. |
| ClusterManagers.MergeAndDeleteClustersIn | Framework/include/Managers/ClusterManager.h:249-258 | Succeeds exactly when the two clusters differ and each is in its stated list. The deleted cluster leaves its list and the enlarged one stays. |
| ClusterManagers.MergeAndDeleteClusters | Framework/include/Managers/ClusterManager.h:241-247 | The merge restricted to two distinct clusters of the current list. |
| ClusterManagers.GetClustersToBeDeleted | Framework/include/Managers/ClusterManager.h:267-273 | Exactly the clusters held by the algorithm's unsaved temporary lists; NOT_FOUND for an unregistered algorithm. |
| ClusterManagers.ResetAlgorithmInfo | Framework/include/Managers/ClusterManager.h:275-281 | The unsaved temporary lists are removed and every other list is kept unchanged. The parent list becomes current again, and creation is allowed exactly when it is not the null list. The record is erased only when the algorithm has finished. |
| ClusterManagers.ResetForNextEvent | Framework/include/Managers/ClusterManager.h:283-286 | Always succeeds and leaves only the empty null list, current, with creation disabled. |
| ClusterManagers.CreateCluster | Framework/include/Managers/ClusterManager.h:39-46 | Succeeds exactly when creation is allowed and the current list exists and is not the null list. The new cluster joins the current list. NOT_INITIALIZED otherwise. |
| ClusterManagerProperties.FreshIsValid | Framework/include/Managers/ClusterManager.h:326-335 | The initial state satisfies the manager invariant. The invariant: the null list exists and is empty, no list has the empty name, the current list exists, no cluster is in two lists, temporaries exist and belong to one record, and parents exist. |
| ClusterManagerProperties.ResetForNextEventIsValid | Framework/include/Managers/ClusterManager.h:283-286 | From any state, the event reset restores the invariant and holds no cluster. |
| ClusterManagerProperties.QueriesAndDropKeepValid | Framework/include/Managers/ClusterManager.h:397-409 | Dropping, replacing or resetting the current list, and registering, keep the current name pointing at a registered list and keep the invariant. |
| ClusterManagerProperties.RegisterKeepsValid | Framework/include/Managers/ClusterManager.h:260-265 | Registering keeps the invariant. |
| ClusterManagerProperties.MakeTemporaryKeepsValid | Framework/include/Managers/ClusterManager.h:127-133 | Making a temporary list keeps the invariant. |
| ClusterManagerProperties.MoveClustersKeepsValid | Framework/include/Managers/ClusterManager.h:135-146 | After a move each cluster is still in at most one list. |
| ClusterManagerProperties.SaveIntoKeepsValid | Framework/include/Managers/ClusterManager.h:148-168 | Moving saved clusters into a target list keeps each cluster in at most one list. |
| ClusterManagerProperties.SaveClustersKeepsValid | Framework/include/Managers/ClusterManager.h:148-168 | Both forms of SaveClusters keep the invariant. |
| ClusterManagerProperties.ShrinkKeepsValid | Framework/include/Managers/ClusterManager.h:203-231 | Removing clusters from one list keeps the invariant. |
| ClusterManagerProperties.DeletionKeepsValid | Framework/include/Managers/ClusterManager.h:203-258 | Deleting one or several clusters, and merging, keep the invariant. |
| ClusterManagerProperties.ResetAlgorithmInfoKeepsValid | Framework/include/Managers/ClusterManager.h:275-281 | With no other scope depending on the deleted lists, an algorithm reset keeps the invariant. |
| ClusterManagerProperties.CreateClusterKeepsValid | Framework/include/Managers/ClusterManager.h:39-46 | Creating a cluster that is in no list yet keeps the invariant. |
| ClusterManagerProperties.MoveAndSaveConserveClusters | Framework/include/Managers/ClusterManager.h:127-168 | Making, moving and saving never create or lose a cluster: the set of clusters held by some list is unchanged. |
| ClusterManagerProperties.MakeConserves | Framework/include/Managers/ClusterManager.h:127-133 | Making a temporary list keeps the set of held clusters. |
| ClusterManagerProperties.MoveConserves | Framework/include/Managers/ClusterManager.h:135-146 | Moving keeps the set of held clusters. |
| ClusterManagerProperties.SaveIntoConserves | Framework/include/Managers/ClusterManager.h:148-168 | Saving keeps the set of held clusters. |
| ClusterManagerProperties.DeleteRemovesExactly | Framework/include/Managers/ClusterManager.h:225-231 | A successful deletion removes exactly the given clusters from the manager. |
| ClusterManagerProperties.ResetDeletesExactlyThePreview | Framework/include/Managers/ClusterManager.h:267-281 | The reset deletes exactly the clusters GetClustersToBeDeleted reports, and those were all held. |
| ClusterManagerProperties.CreateClusterAdds | Framework/include/Managers/ClusterManager.h:39-46 | A successful creation adds exactly the new cluster. |
| ClusterManagerProperties.MovePartitionsCurrentList | Framework/include/Managers/ClusterManager.h:141-143 | Moving out of the current list partitions it. The selected clusters form the new current temporary list; the other clusters stay in the original list. |
| ClusterManagerProperties.FinishedResetRemovesTemporaries | Framework/include/Managers/ClusterManager.h:275-281 | After a finished reset the unsaved temporary lists are gone and the record is erased. The parent list is current again with its contents. |
| ClusterManagerProperties.ReplacementRevertsAtReset | Framework/include/Managers/ClusterManager.h:106-120 | A temporary replacement of the current list lasts only until the scope's reset, or until a reset to the input list. |
| ClusterManagerProperties.SavedClustersSurviveReset | Framework/include/Managers/ClusterManager.h:157-168 | Saved clusters survive the algorithm's exit. The unsaved ones stay in the temporary list and are deleted with it. |
| ClusterManagerProperties.SubsetSavedBeforeReset | Framework/include/Managers/ClusterManager.h:157-168 | After a subset save, the source is still an unsaved temporary list holding the rest, and the target holds the saved clusters. |
| ClusterManagerProperties.CreationIsGated | Framework/include/Managers/ClusterManager.h:106-125 | After a drop no cluster can be made. Replacing the current list with an existing non-null list allows it again. |
| ClusterManagerProperties.ValidNamesAreReadable | Framework/include/Managers/ClusterManager.h:343-351 | In a valid state the current name reads back without NOT_INITIALIZED, the current list exists, and the null list reads back empty. |
| ClusterManagerProperties.DropThenCurrentNameIsNull | Framework/include/Managers/ClusterManager.h:343-351 | After a drop the current name reads back as the null list's name, and the current list is the null list. |
| ClusterManagerProperties.RegisterIsIdempotent | Framework/include/Managers/ClusterManager.h:318-324 | A second registration is refused, and the parent is the list current at the first one. |
| ClusterManagerProperties.NatToStringInjective | Framework/include/Managers/ClusterManager.h:318-324 | Different counter values have different decimal spellings. |
| ClusterManagerProperties.TemporaryListNamesDistinct | Framework/include/Managers/ClusterManager.h:318-324 | Two temporary names are equal exactly when both the algorithm and the counter value are. |
| ClusterManagerProperties.SaveAndFinishScenario | Framework/include/Managers/ClusterManager.h:127-168 | A whole scope: register, make "7_0", create three clusters, save them into "final" and finish. The null list is current again, "final" holds the three clusters and "7_0" is gone. |
| ClusterManagerProperties.ScenarioMake | Framework/include/Managers/ClusterManager.h:127-133 | The first temporary list of algorithm 7 is "7_0". |
| ClusterManagerProperties.ScenarioCreate | Framework/include/Managers/ClusterManager.h:39-46 | Three creations add three clusters to the current temporary list. |
| ClusterManagerProperties.ScenarioSave | Framework/include/Managers/ClusterManager.h:148-155 | Saving the temporary list and finishing keeps its clusters in the target. |
| MCParticles.MCParticle.GetPfoTarget | include/Objects/MCParticle.h:233-241 | NOT_INITIALIZED exactly while the target is unset; otherwise the (non-null) target. |
| MCParticles.MCParticle.AddDaughter | include/Objects/MCParticle.h:252-258 | ALREADY_PRESENT exactly when the pointer is already a daughter, SUCCESS otherwise. Afterwards the pointer is a daughter and nothing else changed. |
| MCParticles.MCParticle.AddParent | include/Objects/MCParticle.h:262-268 | The same as AddDaughter, on the parent set. |
| MCParticles.MCParticle.RemoveDaughter | include/Objects/MCParticle.h:272-282 | NOT_FOUND exactly when the pointer is not a daughter, with no change. Otherwise exactly that pointer leaves the daughter set. |
| MCParticles.MCParticle.RemoveParent | include/Objects/MCParticle.h:286-296 | The same as RemoveDaughter, on the parent set. |
| MCParticles.MCParticle.SetPfoTarget | include/Objects/MCParticle.h:300-308 | A null pointer is refused with FAILURE and changes nothing. Any other pointer becomes the target and nothing else changes. |
| MCParticles.AddThenRemoveRestores | include/Objects/MCParticle.h:252-296 | Adding a previously absent daughter or parent and removing it again succeeds and restores the particle. |
| MCParticles.RemoveThenAddRestores | include/Objects/MCParticle.h:252-296 | Removing a present daughter or parent and adding it back succeeds and restores the particle. |
| MCParticles.AddTwiceIsRefused | include/Objects/MCParticle.h:252-268 | A second insertion of the same pointer is ALREADY_PRESENT and leaves the set unchanged. |
| MCParticles.RootParticleFollowsParents | include/Objects/MCParticle.h:212-296 | A particle is a root exactly when its parent set is empty. Adding a parent ends that, removing the only parent restores it, and daughter operations do not affect it. |
| MCParticles.SetPfoTargetReadsBack | include/Objects/MCParticle.h:219-308 | After a successful set, the target reads back and is marked set. The particle is its own target exactly when it pointed at itself. |
| PandoraTypes.PandoraType.Get | include/PandoraTypes.h:112-118 | Succeeds exactly when the value is initialised; otherwise NOT_INITIALIZED. |
| PandoraTypes.PandoraType.Set | include/PandoraTypes.h:103-107 | Afterwards the value is initialised and reads back as the value written. |
| PandoraTypes.PandoraType.Reset | include/PandoraTypes.h:123-126 | Afterwards the value is uninitialised and every read fails with NOT_INITIALIZED. |
| PandoraTypes.PandoraType.Assign | include/PandoraTypes.h:139-143 | The same effect as Set, and the returned flag is always true. |
| PandoraTypes.Uninitialized | include/PandoraTypes.h:86-89 | A default-constructed value is not initialised, and reading it fails with NOT_INITIALIZED. |
| PandoraTypes.Initialized | include/PandoraTypes.h:94-98 | A value-constructed instance is initialised, reads back its value, and equals a default-constructed instance after Set. |
| PandoraTypes.LastWriteWins | include/PandoraTypes.h:103-118 | After two sets the second value is read back, whatever came before. |
| PandoraTypes.ResetThenSet | include/PandoraTypes.h:103-134 | A reset makes every read fail. A set after a reset is the same as the value constructor. |
| OrderedCaloHitLists.ListSizeAtMostLength | src/Helpers/ClusterHelper.cc:28 | The size stored in an unsigned int never exceeds the number of occupied layers. |
| OrderedCaloHitLists.FlattenMembership | src/Helpers/ClusterHelper.cc:124-145 | A hit is among the collected hits exactly when some layer of the list holds it. |
| OrderedCaloHitLists.FlattenLength | src/Helpers/ClusterHelper.cc:124-145 | Collecting hits from layers with one hit or more gives at least one hit per layer. |
| OrderedCaloHitLists.InLayerRangeMembership | src/Helpers/ClusterHelper.cc:103-117 | The layers kept by a range selection are exactly those inside the closed range. |
| OrderedCaloHitLists.InLayerRangeAscending | src/Helpers/ClusterHelper.cc:103-117 | The range selection keeps ascending layer order. |
| OrderedCaloHitLists.InLayerRangeStops | src/Helpers/ClusterHelper.cc:110-111 | Stopping at the first layer above the range end loses nothing, because the list is ascending. |
| ClusterHelper.MakeClusterFitPoint | src/Helpers/ClusterHelper.cc:600-607 | Throws INVALID_PARAMETER exactly for an unset position or a zero cell size; otherwise it keeps the three arguments. |
| ClusterHelper.FitPointFromHit | src/Helpers/ClusterHelper.cc:589-596 | A point built from a hit copies its position, cell size and layer. It has the same guard. |
| ClusterHelper.FitPointList | src/Helpers/ClusterHelper.cc:149-152 | The point-list fit refuses a list of one point or none with INVALID_PARAMETER, and passes any other list on unchanged. |
| ClusterHelper.FitInputFromHits | src/Helpers/ClusterHelper.cc:149-152 | The fit receives one point per selected hit, in order. It fails with INVALID_PARAMETER exactly when some hit is invalid for a point or fewer than two hits were selected. |
| ClusterHelper.FitStart | src/Helpers/ClusterHelper.cc:22-51 | Guards in order: n < 2 is INVALID_PARAMETER, an empty list NOT_INITIALIZED, and n above the occupied layer count OUT_OF_RANGE. Otherwise the fit gets the hits of exactly the first n layers, ascending. |
| ClusterHelper.FirstLayersHits | src/Helpers/ClusterHelper.cc:36-48 | The counting loop collects exactly the hits of the first n layers, layer by layer, each in list order. |
| ClusterHelper.FitEnd | src/Helpers/ClusterHelper.cc:55-84 | The same guards as FitStart. Otherwise the fit gets the hits of exactly the last n layers, in descending layer order. |
| ClusterHelper.LastLayersHits | src/Helpers/ClusterHelper.cc:69-81 | The reverse counting loop collects exactly the hits of the last n layers, outermost first. |
| ClusterHelper.FitLayers | src/Helpers/ClusterHelper.cc:88-120 | Guards in order: start >= end is INVALID_PARAMETER, an empty list NOT_INITIALIZED, one layer OUT_OF_RANGE. Otherwise the fit gets the hits of the layers L with start <= L <= end. |
| ClusterHelper.FitPoints | src/Helpers/ClusterHelper.cc:124-145 | The empty and single-layer guards, then every hit of the cluster in ascending layer order. |
| ClusterHelper.LayerSelectionsHaveEnoughPoints | src/Helpers/ClusterHelper.cc:22-84 | When FitStart or FitEnd passes its guards on layers that each hold a hit, the point-list size check cannot refuse it. |
| ClusterHelper.FitLayersSelection | src/Helpers/ClusterHelper.cc:103-117 | FitLayers selects a hit exactly when a layer inside the closed range holds it. |
| ClusterHelper.FitLayersNarrowRangeRefused | src/Helpers/ClusterHelper.cc:88-120 | A range that holds a single hit passes FitLayers' guards on a two-layer list and is refused by the point-list size check. |
| ClusterHelper.SharedLayersMembership | src/Helpers/ClusterHelper.cc:475-481 | The layers the intra-layer search visits are exactly those occupied in both clusters. |
| ClusterHelper.GetClosestIntraLayerDistance | src/Helpers/ClusterHelper.cc:464-499 | NOT_FOUND when the recorded layer ranges are disjoint, or when no shared layer gives a distance below FLT_MAX. Otherwise the smallest centroid distance over the shared layers, attained at one of them. |
| ClusterHelper.CandidatesMembership | src/Helpers/ClusterHelper.cc:551-557 | A hit is a candidate exactly when it is within the parallel-distance cut. |
| ClusterHelper.CandidatesOfCluster | src/Helpers/ClusterHelper.cc:546-557 | The hits searched are exactly those in layers up to maxSearchLayer that pass the cut. |
| ClusterHelper.TrackStateClusterDistance | src/Helpers/ClusterHelper.cc:533-574 | NOT_FOUND for an empty cluster or one starting beyond maxSearchLayer, or when no candidate qualifies. Otherwise the smallest perpendicular distance of a candidate, attained by one. It succeeds whenever some candidate is below FLT_MAX. |
| ClusterHelper.SmallestSuccess | src/Helpers/ClusterHelper.cc:509-528 | The smallest of the successful per-state distances, NOT_FOUND when none succeeds. |
| ClusterHelper.StateResults | src/Helpers/ClusterHelper.cc:512-522 | One per-state result for the ECal state and for each calorimeter projection, in that order. |
| ClusterHelper.TrackClusterDistance | src/Helpers/ClusterHelper.cc:503-529 | The track distance as intended: the smallest successful per-state distance over every state. It is NOT_FOUND exactly when every state fails. |
| ClusterHelper.LastSuccess | src/Helpers/ClusterHelper.cc:512-522 | The last successful result in the sequence, NOT_FOUND when none succeeds. |
| ClusterHelper.LastOkIndex | src/Helpers/ClusterHelper.cc:512-522 | The position of the last success; every later result failed. |
| ClusterHelper.TrackClusterDistanceAsWritten | src/Helpers/ClusterHelper.cc:503-529 | The track distance as written: it fails exactly when the intended one does. Otherwise it is the result of the last successful state. |
| ClusterHelper.OneHitStateDistance | src/Helpers/ClusterHelper.cc:533-574 | On a one-hit cluster a state at constant distance v finds v. |
| ClusterHelper.TrackClusterDistanceKeepsLastNotSmallest | src/Helpers/ClusterHelper.cc:512-522 | On one hit seen at 1 by the ECal state and at 5 by the only projection, the code as written gives 5 and the intended minimum is 1. |
| ClusterHelper.GetDistanceToClosestHit | src/Helpers/ClusterHelper.cc:372-403 | start > end throws INVALID_PARAMETER. Otherwise the result is at most the distance of every hit in a layer of [start, end], and it is attained unless it is FLT_MAX. This is the corrected loop: it also returns when end is 2^32-1, where the code as written never exits (second Findings row). |
| ClusterHelper.GetDistanceToClosestCentroid | src/Helpers/ClusterHelper.cc:434-460 | start > end throws INVALID_PARAMETER. Otherwise the result is at most the centroid distance of every occupied layer in [start, end], and it is attained unless it is FLT_MAX. This is the corrected loop: it also returns when end is 2^32-1, where the code as written never exits (second Findings row). |
| ClusterHelper.PairsMembership | src/Helpers/ClusterHelper.cc:407-430 | The nested loops visit exactly the pairs of a hit of the first cluster and a hit of the second. |
| ClusterHelper.GetDistanceToClosestHitBetween | src/Helpers/ClusterHelper.cc:407-430 | The smallest distance over every pair of hits, attained unless it is FLT_MAX. |
| ClusterHelper.LayerLoopAsWritten | src/Helpers/ClusterHelper.cc:381 | The unsigned layer loop as written visits only layers no larger than the end. It stops only when the counter passes the end, so a run that has not exited has used every allowed step. |
| ClusterHelper.LayerLoopExitsBelowMax | src/Helpers/ClusterHelper.cc:381 | With an end below the largest layer, the unsigned layer loop visits start..end once each and exits. |
| ClusterHelper.LayerLoopNeverExitsAtMax | src/Helpers/ClusterHelper.cc:381 | With the end at the largest layer, the loop never exits and wraps back to layer 0. |
| MinimumScan.ScanMin | src/Algorithms/TopologicalAssociation/TrackClusterAssociationAlgorithm.cc:35-63 | A running minimum started at FLT_MAX and lowered only on a strict `<`. It is at most every candidate and is attained unless it is FLT_MAX. |
| TrackClusterAssociation.ReadOr | src/Algorithms/TopologicalAssociation/TrackClusterAssociationAlgorithm.cc:92-94 | A missing key keeps the default and a read value replaces it. Any other failure is returned. |
| TrackClusterAssociation.ReadSettings | src/Algorithms/TopologicalAssociation/TrackClusterAssociationAlgorithm.cc:90-109 | The four optional settings: with no keys the defaults are 0.2, 10, 10 and 100, and each key that is read replaces its default, and the result is exactly the four values read or defaulted. The keys are tried in source order, and the first read that fails other than with NOT_FOUND decides the returned error. |
| TrackClusterAssociation.ClosestAtUnique | src/Algorithms/TopologicalAssociation/TrackClusterAssociationAlgorithm.cc:48-63 | Because an update needs a strict `<`, a bucket has at most one closest cluster: the earliest of equally close ones. |
| TrackClusterAssociation.Visit | src/Algorithms/TopologicalAssociation/TrackClusterAssociationAlgorithm.cc:42-63 | A failed lookup or a cluster of the other bucket leaves the pick alone. Only a strictly smaller distance replaces it. |
| TrackClusterAssociation.VisitKeepsClosest | src/Algorithms/TopologicalAssociation/TrackClusterAssociationAlgorithm.cc:39-64 | One loop step keeps each bucket holding the closest competitor seen so far. |
| TrackClusterAssociation.SelectClosest | src/Algorithms/TopologicalAssociation/TrackClusterAssociationAlgorithm.cc:32-64 | After the cluster loop, each bucket holds its closest successful cluster with its distance, or nothing and FLT_MAX. Buckets: hadronic energy above the cut, and at or below it. |
| TrackClusterAssociation.MatchDecision | src/Algorithms/TopologicalAssociation/TrackClusterAssociationAlgorithm.cc:66-76 | The high-energy pick if it is within the cut, otherwise the low-energy pick if it is, otherwise nothing. |
| TrackClusterAssociation.PickIsClosest | src/Algorithms/TopologicalAssociation/TrackClusterAssociationAlgorithm.cc:39-64 | The loop's pick equals the declaratively defined closest cluster of the bucket. |
| TrackClusterAssociation.MatchTrack | src/Algorithms/TopologicalAssociation/TrackClusterAssociationAlgorithm.cc:32-76 | The per-track decision equals the declarative match. A match is a listed cluster whose lookup succeeded, within the cut. |
| TrackClusterAssociation.Run | src/Algorithms/TopologicalAssociation/TrackClusterAssociationAlgorithm.cc:15-86 | A failed list fetch or association removal returns its status before any association is made. Otherwise one association per matched track, in track order. The first failed add aborts with its status. Every earlier matched track's add succeeded, and exactly those associations were made. On success every matched track's add succeeded. |
| TrackClusterAssociation.AssociationsAtMostOncePerTrack | src/Algorithms/TopologicalAssociation/TrackClusterAssociationAlgorithm.cc:27-83 | Each track is associated at most once, only with a listed cluster, and only within the distance cut. |
| TrackClusterAssociation.MatchedWithinCut | src/Algorithms/TopologicalAssociation/TrackClusterAssociationAlgorithm.cc:66-76 | A match is a listed cluster within the distance cut. |
| TrackClusterAssociation.ClosestExists | src/Algorithms/TopologicalAssociation/TrackClusterAssociationAlgorithm.cc:48-63 | A bucket with a competitor has a closest one. |
| TrackClusterAssociation.HighEnergyPreferred | src/Algorithms/TopologicalAssociation/TrackClusterAssociationAlgorithm.cc:66-72 | A high-energy cluster within the cut always wins over every low-energy cluster, however close. The match is then high-energy and no further away. |

## Left out

- `ReplaceCurrentAndAlgorithmInputLists`, `DeleteTemporaryClusterList` and `RemoveEmptyClusterList`: the header documents no error behaviour for them, and their bodies live in `ClusterManager.cc`, which is not part of this model.
- `CreateNullList`, `DeleteNullList`, the destructor and all deallocation: memory management. `Fresh` stands for the state after construction.
- The manager's calo-hit and track-association operations and its friend classes: their behaviour lives in the `Cluster` and `Track` classes, which are not part of this model.
- The contents of clusters on a merge: clusters are opaque ids, so only list membership is modelled.
- The least-squares fit (`FitBarrelPoints`, `FitEndCapPoints`, `GetFitResultsClosestApproach`, the body of the point-list `FitPoints` after its size check): floating-point geometry. A fit entry point returns the point list it would fit.
- The distance and energy values: cross products, magnitudes and `sqrt` are abstract functions of a hit, a layer or a cluster.
- `ClusterHelper.TrackStateClusterDistance`: the per-state search stops at the first layer beyond maxSearchLayer; the model gives the same selection through the range filter, since the list is ascending.
- `CanMergeCluster`: it depends on cluster photon, MIP and fit accessors that are not part of this model.
- `StringToType` and `TypeToString`: stream input and output.
- `MCParticle::SetPfoTargetInTree`: its body is not part of this model.
- `TemporarilyReplaceCurrentList`: the header's "may only be a temporary list" restriction is not enforced, because the header says neither how it is checked nor which status it gives.
- `ClusterHelper.FitInputFromHits`: a hit that cannot become a fit point makes the `ClusterFitPoint` constructor throw INVALID_PARAMETER (ClusterHelper.cc:594-595). The model returns that code as `Err(InvalidParameter)`, so it cannot be told apart from the size check's returned INVALID_PARAMETER (ClusterHelper.cc:151-152). The same holds for `ClusterHelper.FitStart`, `ClusterHelper.FitEnd`, `ClusterHelper.FitLayers` and `ClusterHelper.FitPoints`. Both paths end the fit with the same code, and exceptions are not modelled.
- `TrackClusterAssociation.Run`: the track-cluster distance is an input standing for `ClusterHelper.TrackClusterDistance`, not the as-written version.
- Iteration order of `std::set` cluster and track lists: modelled as the order of a sequence. Only the tie-break between equally close clusters depends on it.
- Floating point: distances are `real`. FLT_MAX is the exact value of the largest finite float.

## Findings

| source | as written | input that shows it | evidently intended | confidence | as-written member | corrected member |
|---|---|---|---|---|---|---|
| src/Helpers/ClusterHelper.cc:512-522 | Each per-state call gets the caller's `minDistance` as its output and overwrites it on success, so the last successful state's distance is returned. | A one-hit cluster. The ECal state sees the hit at distance 1 and the only calorimeter projection sees it at distance 5: the result is 5. | The smallest distance over all track states (here 1), as the running-minimum variable name suggests. | medium, not executed | ClusterHelper.TrackClusterDistanceAsWritten | ClusterHelper.TrackClusterDistance |
| src/Helpers/ClusterHelper.cc:381 | The range search loops over an unsigned layer counter from startLayer while the counter is at most endLayer, incrementing it each time. The same loop appears at line 443. | endLayer = 4294967295 (the largest unsigned int): `iLayer <= endLayer` always holds and `++iLayer` wraps to 0, so the loop never ends. | Visit each layer of [startLayer, endLayer] once and stop. This assumes `PseudoLayer` is a 32-bit unsigned integer; its typedef is not part of this model. | low, not executed | ClusterHelper.LayerLoopAsWritten | ClusterHelper.GetDistanceToClosestHit |
