/** Invariants of the cluster manager and the transitions that keep them, the
    clusters each transition keeps, deletes or adds, and the scope
    behaviour a caller relies on. */
module ClusterManagerProperties {
  import opened StatusCodes
  import opened OrderedCaloHitLists
  import opened ClusterManagers

  // ---------------------------------------------------------------------------
  // The invariant

  /** No cluster is in two lists. */
  ghost predicate ExclusiveMembership(m: ClusterManager)
  {
    forall n1, n2 :: n1 in m.nameToClusterList && n2 in m.nameToClusterList && n1 != n2 ==>
      m.nameToClusterList[n1] !! m.nameToClusterList[n2]
  }

  /** Every temporary list of every record exists, and is not the null list. */
  ghost predicate TemporariesRegistered(m: ClusterManager)
  {
    forall a :: a in m.algorithmInfo ==>
      m.algorithmInfo[a].temporaryListNames <= m.nameToClusterList.Keys &&
      NULL_LIST_NAME !in m.algorithmInfo[a].temporaryListNames
  }

  /** No list is a temporary list of two records. */
  ghost predicate TemporariesDisjoint(m: ClusterManager)
  {
    forall a1, a2 :: a1 in m.algorithmInfo && a2 in m.algorithmInfo && a1 != a2 ==>
      m.algorithmInfo[a1].temporaryListNames !! m.algorithmInfo[a2].temporaryListNames
  }

  /** Every record's parent list exists. */
  ghost predicate ParentsRegistered(m: ClusterManager)
  {
    forall a :: a in m.algorithmInfo ==> m.algorithmInfo[a].parentListName in m.nameToClusterList
  }

  /** The manager's invariant: the null list exists and is empty, no list has
      the empty name, the current list exists, and the four properties above
      hold. */
  ghost predicate Valid(m: ClusterManager)
  {
    NULL_LIST_NAME in m.nameToClusterList && m.nameToClusterList[NULL_LIST_NAME] == {} &&
    "" !in m.nameToClusterList &&
    m.currentListName in m.nameToClusterList &&
    ExclusiveMembership(m) && TemporariesRegistered(m) && TemporariesDisjoint(m) && ParentsRegistered(m)
  }

  /** Every cluster held by some list. */
  ghost function AllClusters(m: ClusterManager): set<ClusterId>
  {
    set n, c | n in m.nameToClusterList && c in m.nameToClusterList[n] :: c
  }

  lemma AllClustersMembership(m: ClusterManager, c: ClusterId)
    ensures c in AllClusters(m) <==> exists n :: n in m.nameToClusterList && c in m.nameToClusterList[n]
  {
  }

  // ---------------------------------------------------------------------------
  // Transitions keep the invariant

  lemma FreshIsValid()
    ensures Valid(Fresh())
    ensures Valid(ResetForNextEvent(Fresh()).next)
  {
  }

  /** ResetForNextEvent restores a valid state whatever the state before. */
  lemma ResetForNextEventIsValid(m: ClusterManager)
    ensures Valid(ResetForNextEvent(m).next)
    ensures AllClusters(ResetForNextEvent(m).next) == {}
  {
    var n := ResetForNextEvent(m).next;
    assert n.nameToClusterList == map[NULL_LIST_NAME := {}];
  }

  lemma QueriesAndDropKeepValid(m: ClusterManager, alg: AlgorithmId, name: ListName)
    requires Valid(m)
    ensures Valid(DropCurrentList(m).next)
    ensures Valid(TemporarilyReplaceCurrentList(m, name).next)
    ensures Valid(ResetCurrentListToAlgorithmInputList(m, alg).next)
    ensures Valid(RegisterAlgorithm(m, alg).next)
  {
    RegisterKeepsValid(m, alg);
  }

  lemma RegisterKeepsValid(m: ClusterManager, alg: AlgorithmId)
    requires Valid(m)
    ensures Valid(RegisterAlgorithm(m, alg).next)
  {
    var r := RegisterAlgorithm(m, alg).next;
    if alg !in m.algorithmInfo {
      assert forall a :: a in r.algorithmInfo ==> a == alg || a in m.algorithmInfo;
    }
  }

  lemma MakeTemporaryKeepsValid(m: ClusterManager, alg: AlgorithmId)
    requires Valid(m)
    ensures Valid(MakeTemporaryListAndSetCurrent(m, alg).next)
  {
    var s := MakeTemporaryListAndSetCurrent(m, alg);
    if s.result.Ok? {
      var name := s.result.value;
      var n := s.next;
      forall n1, n2 | n1 in n.nameToClusterList && n2 in n.nameToClusterList && n1 != n2
        ensures n.nameToClusterList[n1] !! n.nameToClusterList[n2]
      {
      }
      forall a1, a2 | a1 in n.algorithmInfo && a2 in n.algorithmInfo && a1 != a2
        ensures n.algorithmInfo[a1].temporaryListNames !! n.algorithmInfo[a2].temporaryListNames
      {
        if a1 != alg && a2 != alg {
          assert n.algorithmInfo[a1] == m.algorithmInfo[a1];
          assert n.algorithmInfo[a2] == m.algorithmInfo[a2];
        } else if a1 == alg {
          assert name !in m.algorithmInfo[a2].temporaryListNames;
        } else {
          assert name !in m.algorithmInfo[a1].temporaryListNames;
        }
      }
    }
  }

  lemma MoveClustersKeepsValid(m: ClusterManager, alg: AlgorithmId, originalListName: ListName, clustersToMove: set<ClusterId>)
    requires Valid(m)
    ensures Valid(MoveClustersToTemporaryListAndSetCurrent(m, alg, originalListName, clustersToMove).next)
  {
    var s := MoveClustersToTemporaryListAndSetCurrent(m, alg, originalListName, clustersToMove);
    if s.result.Ok? {
      var made := MakeTemporaryListAndSetCurrent(m, alg).next;
      MakeTemporaryKeepsValid(m, alg);
      var name := s.result.value;
      var original := m.nameToClusterList[originalListName];
      var n := s.next;
      assert made.nameToClusterList[name] == {};
      forall n1, n2 | n1 in n.nameToClusterList && n2 in n.nameToClusterList && n1 != n2
        ensures n.nameToClusterList[n1] !! n.nameToClusterList[n2]
      {
        if n1 != name && n1 != originalListName {
          assert n.nameToClusterList[n1] == m.nameToClusterList[n1];
        }
        if n2 != name && n2 != originalListName {
          assert n.nameToClusterList[n2] == m.nameToClusterList[n2];
        }
      }
    }
  }

  lemma SaveIntoKeepsValid(m: ClusterManager, alg: AlgorithmId, targetListName: ListName, sourceListName: ListName,
                           saved: set<ClusterId>)
    requires Valid(m)
    requires alg in m.algorithmInfo && sourceListName in m.nameToClusterList
    requires saved <= m.nameToClusterList[sourceListName]
    requires !IsReservedName(targetListName)
    ensures Valid(SaveInto(m, alg, targetListName, sourceListName, saved))
  {
    var n := SaveInto(m, alg, targetListName, sourceListName, saved);
    var L := m.nameToClusterList;
    forall n1, n2 | n1 in n.nameToClusterList && n2 in n.nameToClusterList && n1 != n2
      ensures n.nameToClusterList[n1] !! n.nameToClusterList[n2]
    {
      if n1 != targetListName && n1 != sourceListName {
        assert n.nameToClusterList[n1] == L[n1];
      }
      if n2 != targetListName && n2 != sourceListName {
        assert n.nameToClusterList[n2] == L[n2];
      }
    }
    forall a1, a2 | a1 in n.algorithmInfo && a2 in n.algorithmInfo && a1 != a2
      ensures n.algorithmInfo[a1].temporaryListNames !! n.algorithmInfo[a2].temporaryListNames
    {
      assert n.algorithmInfo[a1].temporaryListNames <= m.algorithmInfo[a1].temporaryListNames;
      assert n.algorithmInfo[a2].temporaryListNames <= m.algorithmInfo[a2].temporaryListNames;
    }
  }

  lemma SaveClustersKeepsValid(m: ClusterManager, alg: AlgorithmId, targetListName: ListName, sourceListName: ListName,
                               clustersToSave: set<ClusterId>)
    requires Valid(m)
    ensures Valid(SaveClusters(m, alg, targetListName, sourceListName).next)
    ensures Valid(SaveClusterSubset(m, alg, targetListName, sourceListName, clustersToSave).next)
  {
    if !IsReservedName(targetListName) && sourceListName in m.nameToClusterList && alg in m.algorithmInfo {
      SaveIntoKeepsValid(m, alg, targetListName, sourceListName, m.nameToClusterList[sourceListName]);
      SaveIntoKeepsValid(m, alg, targetListName, sourceListName, m.nameToClusterList[sourceListName] * clustersToSave);
    }
  }

  /** Removing clusters from one list keeps every list and record in place. */
  lemma ShrinkKeepsValid(m: ClusterManager, listName: ListName, cs: set<ClusterId>)
    requires Valid(m) && listName in m.nameToClusterList
    ensures Valid(m.(nameToClusterList := m.nameToClusterList[listName := m.nameToClusterList[listName] - cs]))
  {
    var n := m.(nameToClusterList := m.nameToClusterList[listName := m.nameToClusterList[listName] - cs]);
    forall n1, n2 | n1 in n.nameToClusterList && n2 in n.nameToClusterList && n1 != n2
      ensures n.nameToClusterList[n1] !! n.nameToClusterList[n2]
    {
      assert n.nameToClusterList[n1] <= m.nameToClusterList[n1];
      assert n.nameToClusterList[n2] <= m.nameToClusterList[n2];
    }
  }

  lemma DeletionKeepsValid(m: ClusterManager, c: ClusterId, cs: set<ClusterId>, keep: ClusterId, listName: ListName,
                           enlargeListName: ListName)
    requires Valid(m)
    ensures Valid(DeleteClusterFrom(m, c, listName).next)
    ensures Valid(DeleteClustersFrom(m, cs, listName).next)
    ensures Valid(MergeAndDeleteClustersIn(m, keep, c, enlargeListName, listName).next)
  {
    if listName in m.nameToClusterList {
      ShrinkKeepsValid(m, listName, {c});
      ShrinkKeepsValid(m, listName, cs);
    }
  }

  /** Nothing the reset deletes is still needed: no record's parent list is
      one of the lists it deletes. Strict nesting of algorithm scopes gives
      this, since a daughter's record is erased before its parent resets. */
  ghost predicate NoDependentScopes(m: ClusterManager, alg: AlgorithmId)
    requires alg in m.algorithmInfo
  {
    forall a :: a in m.algorithmInfo ==> m.algorithmInfo[a].parentListName !in ListsToDelete(m, alg)
  }

  lemma ResetAlgorithmInfoKeepsValid(m: ClusterManager, alg: AlgorithmId, isAlgorithmFinished: bool)
    requires Valid(m)
    requires alg in m.algorithmInfo ==> NoDependentScopes(m, alg)
    ensures Valid(ResetAlgorithmInfo(m, alg, isAlgorithmFinished).next)
  {
    var s := ResetAlgorithmInfo(m, alg, isAlgorithmFinished);
    if s.status == Success {
      var n := s.next;
      forall a | a in n.algorithmInfo
        ensures n.algorithmInfo[a].temporaryListNames <= n.nameToClusterList.Keys
        ensures n.algorithmInfo[a].parentListName in n.nameToClusterList
      {
        if a != alg {
          assert n.algorithmInfo[a] == m.algorithmInfo[a];
          assert m.algorithmInfo[a].temporaryListNames !! m.algorithmInfo[alg].temporaryListNames;
        }
      }
      forall a1, a2 | a1 in n.algorithmInfo && a2 in n.algorithmInfo && a1 != a2
        ensures n.algorithmInfo[a1].temporaryListNames !! n.algorithmInfo[a2].temporaryListNames
      {
        assert n.algorithmInfo[a1].temporaryListNames <= m.algorithmInfo[a1].temporaryListNames;
        assert n.algorithmInfo[a2].temporaryListNames <= m.algorithmInfo[a2].temporaryListNames;
      }
    }
  }

  /** A new cluster keeps membership exclusive only if it is in no list yet,
      which a fresh allocation guarantees. */
  lemma CreateClusterKeepsValid(m: ClusterManager, newCluster: ClusterId)
    requires Valid(m) && newCluster !in AllClusters(m)
    ensures Valid(CreateCluster(m, newCluster).next)
  {
    var n := CreateCluster(m, newCluster).next;
    forall n1, n2 | n1 in n.nameToClusterList && n2 in n.nameToClusterList && n1 != n2
      ensures n.nameToClusterList[n1] !! n.nameToClusterList[n2]
    {
      assert newCluster !in m.nameToClusterList[n1] && newCluster !in m.nameToClusterList[n2];
    }
  }

  // ---------------------------------------------------------------------------
  // Which clusters each transition keeps

  /** Making, moving and saving only relocate clusters: the set of all
      clusters held by some list does not change. */
  lemma MoveAndSaveConserveClusters(m: ClusterManager, alg: AlgorithmId, originalListName: ListName,
                                    clustersToMove: set<ClusterId>, targetListName: ListName, sourceListName: ListName)
    ensures AllClusters(MakeTemporaryListAndSetCurrent(m, alg).next) == AllClusters(m)
    ensures AllClusters(MoveClustersToTemporaryListAndSetCurrent(m, alg, originalListName, clustersToMove).next) == AllClusters(m)
    ensures AllClusters(SaveClusters(m, alg, targetListName, sourceListName).next) == AllClusters(m)
    ensures AllClusters(SaveClusterSubset(m, alg, targetListName, sourceListName, clustersToMove).next) == AllClusters(m)
  {
    MakeConserves(m, alg);
    MoveConserves(m, alg, originalListName, clustersToMove);
    if sourceListName in m.nameToClusterList && alg in m.algorithmInfo {
      SaveIntoConserves(m, alg, targetListName, sourceListName, m.nameToClusterList[sourceListName]);
      SaveIntoConserves(m, alg, targetListName, sourceListName, m.nameToClusterList[sourceListName] * clustersToMove);
    }
  }

  lemma MakeConserves(m: ClusterManager, alg: AlgorithmId)
    ensures AllClusters(MakeTemporaryListAndSetCurrent(m, alg).next) == AllClusters(m)
  {
    var s := MakeTemporaryListAndSetCurrent(m, alg);
    if s.result.Ok? {
      var L, L' := m.nameToClusterList, s.next.nameToClusterList;
      forall c
        ensures c in AllClusters(s.next) <==> c in AllClusters(m)
      {
        AllClustersMembership(m, c);
        AllClustersMembership(s.next, c);
        if c in AllClusters(m) {
          var n :| n in L && c in L[n];
          assert L'[n] == L[n];
        }
      }
    }
  }

  lemma MoveConserves(m: ClusterManager, alg: AlgorithmId, originalListName: ListName, clustersToMove: set<ClusterId>)
    ensures AllClusters(MoveClustersToTemporaryListAndSetCurrent(m, alg, originalListName, clustersToMove).next) == AllClusters(m)
  {
    var s := MoveClustersToTemporaryListAndSetCurrent(m, alg, originalListName, clustersToMove);
    if s.result.Ok? {
      var name := s.result.value;
      var L, L' := m.nameToClusterList, s.next.nameToClusterList;
      forall c
        ensures c in AllClusters(s.next) <==> c in AllClusters(m)
      {
        AllClustersMembership(m, c);
        AllClustersMembership(s.next, c);
        if c in AllClusters(m) {
          var n :| n in L && c in L[n];
          if n == originalListName {
            if c in clustersToMove {
              assert c in L'[name];
            } else {
              assert c in L'[originalListName];
            }
          } else {
            assert L'[n] == L[n];
          }
        }
        if c in AllClusters(s.next) {
          var n :| n in L' && c in L'[n];
          if n == name || n == originalListName {
            assert c in L[originalListName];
          } else {
            assert L'[n] == L[n];
          }
        }
      }
    }
  }

  lemma SaveIntoConserves(m: ClusterManager, alg: AlgorithmId, targetListName: ListName, sourceListName: ListName,
                          saved: set<ClusterId>)
    requires alg in m.algorithmInfo && sourceListName in m.nameToClusterList
    requires saved <= m.nameToClusterList[sourceListName]
    ensures AllClusters(SaveInto(m, alg, targetListName, sourceListName, saved)) == AllClusters(m)
  {
    var n := SaveInto(m, alg, targetListName, sourceListName, saved);
    var L, L' := m.nameToClusterList, n.nameToClusterList;
    forall c
      ensures c in AllClusters(n) <==> c in AllClusters(m)
    {
      AllClustersMembership(m, c);
      AllClustersMembership(n, c);
      if c in AllClusters(m) {
        var k :| k in L && c in L[k];
        if k == sourceListName {
          if c in saved {
            assert c in L'[targetListName];
          } else if sourceListName == targetListName {
            assert c in L'[targetListName];
          } else {
            assert c in L'[sourceListName];
          }
        } else if k == targetListName {
          assert c in L'[targetListName];
        } else {
          assert L'[k] == L[k];
        }
      }
      if c in AllClusters(n) {
        var k :| k in L' && c in L'[k];
        if k == targetListName {
          if c !in saved {
            if targetListName == sourceListName {
              assert c in L[sourceListName];
            } else {
              assert c in L[targetListName];
            }
          }
        } else if k == sourceListName {
          assert c in L[sourceListName];
        } else {
          assert L'[k] == L[k];
        }
      }
    }
  }

  /** With exclusive membership, deleting clusters from a list removes exactly
      those clusters from the manager. */
  lemma DeleteRemovesExactly(m: ClusterManager, cs: set<ClusterId>, listName: ListName)
    requires ExclusiveMembership(m)
    requires DeleteClustersFrom(m, cs, listName).status == Success
    ensures AllClusters(DeleteClustersFrom(m, cs, listName).next) == AllClusters(m) - cs
  {
    var n := DeleteClustersFrom(m, cs, listName).next;
    var L, L' := m.nameToClusterList, n.nameToClusterList;
    forall c
      ensures c in AllClusters(n) <==> c in AllClusters(m) - cs
    {
      AllClustersMembership(m, c);
      AllClustersMembership(n, c);
      if c in AllClusters(m) - cs {
        var k :| k in L && c in L[k];
        assert c in L'[k];
      }
      if c in AllClusters(n) {
        var k :| k in L' && c in L'[k];
        assert c in L[k];
      }
    }
  }

  /** The preview is exact: a reset deletes precisely the clusters
      GetClustersToBeDeleted reports, and keeps every other cluster. */
  lemma ResetDeletesExactlyThePreview(m: ClusterManager, alg: AlgorithmId, isAlgorithmFinished: bool)
    requires ExclusiveMembership(m)
    requires alg in m.algorithmInfo
    ensures GetClustersToBeDeleted(m, alg).Ok?
    ensures AllClusters(ResetAlgorithmInfo(m, alg, isAlgorithmFinished).next) ==
              AllClusters(m) - GetClustersToBeDeleted(m, alg).value
    ensures GetClustersToBeDeleted(m, alg).value <= AllClusters(m)
  {
    var n := ResetAlgorithmInfo(m, alg, isAlgorithmFinished).next;
    var doomed := GetClustersToBeDeleted(m, alg).value;
    var L, L' := m.nameToClusterList, n.nameToClusterList;
    forall c
      ensures c in AllClusters(n) <==> c in AllClusters(m) - doomed
      ensures c in doomed ==> c in AllClusters(m)
    {
      AllClustersMembership(m, c);
      AllClustersMembership(n, c);
      if c in AllClusters(m) - doomed {
        var k :| k in L && c in L[k];
        assert k !in ListsToDelete(m, alg);
        assert c in L'[k];
      }
      if c in AllClusters(n) {
        var k :| k in L' && c in L'[k];
        assert k !in ListsToDelete(m, alg) && c in L[k];
      }
    }
  }

  lemma CreateClusterAdds(m: ClusterManager, newCluster: ClusterId)
    requires CreateCluster(m, newCluster).status == Success
    ensures AllClusters(CreateCluster(m, newCluster).next) == AllClusters(m) + {newCluster}
  {
    var n := CreateCluster(m, newCluster).next;
    var L, L' := m.nameToClusterList, n.nameToClusterList;
    forall c
      ensures c in AllClusters(n) <==> c in AllClusters(m) + {newCluster}
    {
      AllClustersMembership(m, c);
      AllClustersMembership(n, c);
      if c in AllClusters(m) {
        var k :| k in L && c in L[k];
        assert c in L'[k];
      }
      if c == newCluster {
        assert c in L'[m.currentListName];
      }
      if c in AllClusters(n) && c != newCluster {
        var k :| k in L' && c in L'[k];
        assert c in L[k];
      }
    }
  }

  // ---------------------------------------------------------------------------
  // Scope behaviour

  /** Moving out of the current list partitions it: the selected clusters it
      holds form the new current list, the rest stay in the original list,
      and selected clusters it does not hold are ignored. */
  lemma MovePartitionsCurrentList(m: ClusterManager, alg: AlgorithmId, clustersToMove: set<ClusterId>)
    requires Valid(m)
    requires MoveClustersToTemporaryListAndSetCurrent(m, alg, m.currentListName, clustersToMove).result.Ok?
    ensures var n := MoveClustersToTemporaryListAndSetCurrent(m, alg, m.currentListName, clustersToMove).next;
            var before := m.nameToClusterList[m.currentListName];
            n.nameToClusterList[n.currentListName] == before * clustersToMove &&
            n.nameToClusterList[m.currentListName] == before - clustersToMove &&
            n.nameToClusterList[n.currentListName] + n.nameToClusterList[m.currentListName] == before &&
            n.nameToClusterList[n.currentListName] !! n.nameToClusterList[m.currentListName] &&
            n.currentListName in n.algorithmInfo[alg].temporaryListNames
  {
  }

  /** A finished reset leaves none of the algorithm's unsaved temporary lists,
      erases its record and makes its parent list current again. */
  lemma FinishedResetRemovesTemporaries(m: ClusterManager, alg: AlgorithmId)
    requires Valid(m) && alg in m.algorithmInfo && NoDependentScopes(m, alg)
    ensures var n := ResetAlgorithmInfo(m, alg, true).next;
            (forall name :: name in m.algorithmInfo[alg].temporaryListNames && name !in m.savedLists ==>
               GetList(n, name) == Err(NotInitialized)) &&
            alg !in n.algorithmInfo &&
            GetCurrentList(n).0 == m.algorithmInfo[alg].parentListName &&
            GetCurrentList(n).1 == Ok(m.nameToClusterList[m.algorithmInfo[alg].parentListName])
  {
  }

  /** A replacement of the current list lasts only until the scope's reset:
      afterwards the list current at registration is current again. */
  lemma ReplacementRevertsAtReset(m: ClusterManager, alg: AlgorithmId, name: ListName, isAlgorithmFinished: bool)
    requires Valid(m) && alg in m.algorithmInfo && name in m.nameToClusterList
    ensures var replaced := TemporarilyReplaceCurrentList(m, name).next;
            replaced.currentListName == name &&
            ResetAlgorithmInfo(replaced, alg, isAlgorithmFinished).next.currentListName == m.algorithmInfo[alg].parentListName &&
            ResetCurrentListToAlgorithmInputList(replaced, alg).next.currentListName == m.algorithmInfo[alg].parentListName
  {
  }

  /** Saved clusters survive the scope's reset: saving a temporary list into a
      new list and then finishing the algorithm leaves the new list holding
      exactly the saved clusters, while the temporary list and the clusters
      left in it are gone. */
  lemma SavedClustersSurviveReset(m: ClusterManager, alg: AlgorithmId, targetListName: ListName, sourceListName: ListName,
                                  clustersToSave: set<ClusterId>)
    requires Valid(m) && alg in m.algorithmInfo
    requires sourceListName in m.algorithmInfo[alg].temporaryListNames && sourceListName !in m.savedLists
    requires targetListName !in m.nameToClusterList && !IsReservedName(targetListName) && clustersToSave != {}
    ensures var saved := SaveClusterSubset(m, alg, targetListName, sourceListName, clustersToSave);
            var source := m.nameToClusterList[sourceListName];
            var n := ResetAlgorithmInfo(saved.next, alg, true).next;
            saved.status == Success &&
            GetList(n, targetListName) == Ok(source * clustersToSave) &&
            GetList(n, sourceListName) == Err(NotInitialized) &&
            (source - clustersToSave) !! AllClusters(n)
  {
    var saved := SaveClusterSubset(m, alg, targetListName, sourceListName, clustersToSave);
    var source := m.nameToClusterList[sourceListName];
    SubsetSavedBeforeReset(m, alg, targetListName, sourceListName, clustersToSave);
    SaveClustersKeepsValid(m, alg, targetListName, sourceListName, clustersToSave);
    var mid := saved.next;
    ResetDeletesExactlyThePreview(mid, alg, true);
    var doomed := GetClustersToBeDeleted(mid, alg).value;
    forall c | c in source - clustersToSave
      ensures c in doomed
    {
      assert c in mid.nameToClusterList[sourceListName];
    }
    var n := ResetAlgorithmInfo(mid, alg, true).next;
    assert targetListName in n.nameToClusterList && n.nameToClusterList[targetListName] == source * clustersToSave;
    assert sourceListName !in n.nameToClusterList;
  }

  /** The state between the save and the reset of SavedClustersSurviveReset. */
  lemma SubsetSavedBeforeReset(m: ClusterManager, alg: AlgorithmId, targetListName: ListName, sourceListName: ListName,
                               clustersToSave: set<ClusterId>)
    requires alg in m.algorithmInfo && sourceListName in m.nameToClusterList
    requires sourceListName in m.algorithmInfo[alg].temporaryListNames && sourceListName !in m.savedLists
    requires targetListName !in m.nameToClusterList && !IsReservedName(targetListName) && clustersToSave != {}
    ensures var saved := SaveClusterSubset(m, alg, targetListName, sourceListName, clustersToSave);
            var source := m.nameToClusterList[sourceListName];
            var mid := saved.next;
            saved.status == Success && alg in mid.algorithmInfo &&
            sourceListName in ListsToDelete(mid, alg) && targetListName !in ListsToDelete(mid, alg) &&
            sourceListName in mid.nameToClusterList && mid.nameToClusterList[sourceListName] == source - clustersToSave &&
            targetListName in mid.nameToClusterList && mid.nameToClusterList[targetListName] == source * clustersToSave
  {
    assert targetListName != sourceListName;
    var mid := SaveClusterSubset(m, alg, targetListName, sourceListName, clustersToSave).next;
    assert mid.savedLists == m.savedLists + {targetListName};
    assert mid.algorithmInfo[alg].temporaryListNames == m.algorithmInfo[alg].temporaryListNames - {targetListName};
  }

  /** Dropping the current list stops cluster creation, and replacing the
      current list with an existing non-null list allows it again. */
  lemma CreationIsGated(m: ClusterManager, name: ListName, newCluster: ClusterId)
    requires Valid(m)
    ensures CreateCluster(DropCurrentList(m).next, newCluster).status == NotInitialized
    ensures name in m.nameToClusterList && name != NULL_LIST_NAME ==>
              var n := TemporarilyReplaceCurrentList(DropCurrentList(m).next, name).next;
              CreateCluster(n, newCluster).status == Success &&
              CreateCluster(n, newCluster).next.nameToClusterList[name] == m.nameToClusterList[name] + {newCluster}
  {
  }

  /** In a valid state the current-list name is readable, since no list has
      the empty name, and the null list reads back empty. */
  lemma ValidNamesAreReadable(m: ClusterManager)
    requires Valid(m)
    ensures GetCurrentListName(m) == Ok(m.currentListName)
    ensures GetCurrentList(m).1.Ok?
    ensures GetList(m, NULL_LIST_NAME) == Ok({})
  {
  }

  /** After a drop the current-list name is the null list's name, and the
      current list is the null list. */
  lemma DropThenCurrentNameIsNull(m: ClusterManager)
    ensures GetCurrentListName(DropCurrentList(m).next) == Ok(NULL_LIST_NAME)
    ensures GetCurrentList(DropCurrentList(m).next).1 == GetList(m, NULL_LIST_NAME)
  {
  }

  /** Registering twice is refused and changes nothing, so a scope records
      the list current at its first registration. */
  lemma RegisterIsIdempotent(m: ClusterManager, alg: AlgorithmId)
    ensures var once := RegisterAlgorithm(m, alg).next;
            RegisterAlgorithm(once, alg) == Step(AlreadyPresent, once) &&
            once.algorithmInfo[alg].parentListName ==
              (if alg in m.algorithmInfo then m.algorithmInfo[alg].parentListName else m.currentListName)
  {
  }

  // ---------------------------------------------------------------------------
  // Temporary list names

  lemma {:induction false} NatToStringInjective(a: nat, b: nat)
    requires NatToString(a) == NatToString(b)
    ensures a == b
  {
    var sa, sb := NatToString(a), NatToString(b);
    if a < 10 && b < 10 {
      assert Digit(a) == sa[0] == Digit(b);
    } else if a >= 10 && b >= 10 {
      assert sa[..|sa| - 1] == NatToString(a / 10);
      assert sb[..|sb| - 1] == NatToString(b / 10);
      NatToStringInjective(a / 10, b / 10);
      assert Digit(a % 10) == sa[|sa| - 1] == Digit(b % 10);
    }
  }

  /** Temporary list names never collide: different algorithms, or different
      counter values of one algorithm, give different names. */
  lemma TemporaryListNamesDistinct(a1: AlgorithmId, n1: uint32, a2: AlgorithmId, n2: uint32)
    ensures TemporaryListName(a1, n1) == TemporaryListName(a2, n2) <==> a1 == a2 && n1 == n2
  {
    if TemporaryListName(a1, n1) == TemporaryListName(a2, n2) {
      var x1, x2 := NatToString(a1), NatToString(a2);
      var name := TemporaryListName(a1, n1);
      assert name == x1 + "_" + NatToString(n1);
      assert name == x2 + "_" + NatToString(n2);
      assert x1 == name[..|x1|] == x2;
      NatToStringInjective(a1, a2);
      assert NatToString(n1) == name[|x1| + 1..] == NatToString(n2);
      NatToStringInjective(n1, n2);
    }
  }

  // ---------------------------------------------------------------------------
  // A whole algorithm scope

  /** Algorithm 7 registers while the null list is current, makes the
      temporary list "7_0", creates three clusters in it, saves them into
      "final" and finishes: the null list is current again, "final" holds the
      three clusters and "7_0" is gone. */
  lemma SaveAndFinishScenario()
    ensures var m0 := Fresh();
            var m1 := RegisterAlgorithm(m0, 7).next;
            var made := MakeTemporaryListAndSetCurrent(m1, 7);
            var m2 := CreateCluster(CreateCluster(CreateCluster(made.next, 1).next, 2).next, 3).next;
            var m3 := SaveClusters(m2, 7, "final", "7_0").next;
            var m4 := ResetAlgorithmInfo(m3, 7, true).next;
            made.result == Ok("7_0") &&
            m4.currentListName == NULL_LIST_NAME &&
            GetList(m4, "final") == Ok({1, 2, 3}) &&
            GetList(m4, "7_0") == Err(NotInitialized) &&
            m4.algorithmInfo == map[]
  {
    ScenarioMake();
    var made := MakeTemporaryListAndSetCurrent(RegisterAlgorithm(Fresh(), 7).next, 7);
    ScenarioCreate(made.next);
    var m2 := CreateCluster(CreateCluster(CreateCluster(made.next, 1).next, 2).next, 3).next;
    ScenarioSave(m2);
  }

  lemma ScenarioMake()
    ensures var made := MakeTemporaryListAndSetCurrent(RegisterAlgorithm(Fresh(), 7).next, 7);
            made.result == Ok("7_0") &&
            made.next.nameToClusterList == map[NULL_LIST_NAME := {}, "7_0" := {}] &&
            made.next.currentListName == "7_0" && made.next.canMakeNewClusters &&
            made.next.algorithmInfo == map[7 := AlgorithmInfo(NULL_LIST_NAME, {"7_0"}, 1)] &&
            made.next.savedLists == {}
  {
    assert NatToString(7) == "7";
    assert NatToString(0) == "0";
    assert TemporaryListName(7, 0) == "7_0";
    var m1 := RegisterAlgorithm(Fresh(), 7).next;
    assert m1.algorithmInfo == map[7 := AlgorithmInfo(NULL_LIST_NAME, {}, 0)];
    assert m1.nameToClusterList == map[NULL_LIST_NAME := {}];
    assert "7_0" != NULL_LIST_NAME;
    var made := MakeTemporaryListAndSetCurrent(m1, 7);
    assert made.result == Ok("7_0");
    var info := AlgorithmInfo(NULL_LIST_NAME, {}, 0);
    assert info.temporaryListNames + {"7_0"} == {"7_0"};
    assert (info.numberOfListsCreated + 1) % UINT_RANGE == 1;
    assert made.next.algorithmInfo == map[7 := AlgorithmInfo(NULL_LIST_NAME, {"7_0"}, 1)];
  }

  lemma ScenarioCreate(m: ClusterManager)
    requires m.nameToClusterList == map[NULL_LIST_NAME := {}, "7_0" := {}]
    requires m.currentListName == "7_0" && m.canMakeNewClusters
    ensures var m2 := CreateCluster(CreateCluster(CreateCluster(m, 1).next, 2).next, 3).next;
            m2 == m.(nameToClusterList := map[NULL_LIST_NAME := {}, "7_0" := {1, 2, 3}])
  {
    assert "7_0" != NULL_LIST_NAME;
    assert {} + {1} == {1} && {1} + {2} == {1, 2} && {1, 2} + {3} == {1, 2, 3};
    var c1 := CreateCluster(m, 1).next;
    assert c1.nameToClusterList == m.nameToClusterList["7_0" := {1}];
    var c2 := CreateCluster(c1, 2).next;
    assert c2.nameToClusterList == m.nameToClusterList["7_0" := {1, 2}];
    var m2 := CreateCluster(c2, 3).next;
    assert m2.nameToClusterList == m.nameToClusterList["7_0" := {1, 2, 3}];
  }

  lemma ScenarioSave(m2: ClusterManager)
    requires m2.nameToClusterList == map[NULL_LIST_NAME := {}, "7_0" := {1, 2, 3}]
    requires m2.algorithmInfo == map[7 := AlgorithmInfo(NULL_LIST_NAME, {"7_0"}, 1)] && m2.savedLists == {}
    ensures var m4 := ResetAlgorithmInfo(SaveClusters(m2, 7, "final", "7_0").next, 7, true).next;
            m4.currentListName == NULL_LIST_NAME &&
            GetList(m4, "final") == Ok({1, 2, 3}) &&
            GetList(m4, "7_0") == Err(NotInitialized) &&
            m4.algorithmInfo == map[]
  {
    var m3 := SaveClusters(m2, 7, "final", "7_0").next;
    assert "final" != NULL_LIST_NAME && "final" != "7_0";
    assert m3.nameToClusterList["final"] == {1, 2, 3};
    assert m3.savedLists == {"final"};
    assert m3.algorithmInfo[7].temporaryListNames == {"7_0"};
    assert ListsToDelete(m3, 7) == {"7_0"};
  }
}
