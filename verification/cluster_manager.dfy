/** The cluster manager's list bookkeeping: named cluster lists, the current
    list, per-algorithm scope records with their temporary lists, and the
    saved-list set. Clusters are opaque ids and cluster contents are not
    modelled. Every operation is a pure transition from a manager state to a
    status code (or a result) and the next state; a failing operation leaves
    the state unchanged. */
module ClusterManagers {
  import opened StatusCodes
  import opened OrderedCaloHitLists

  type ClusterId = nat
  type AlgorithmId = nat
  type ListName = string

  /** The name of the default, empty cluster list. */
  const NULL_LIST_NAME: ListName := "NullList"

  /** A name no cluster may be saved under: the null list's, which stays
      empty, and the empty name, which GetCurrentListName reads as "no
      current list". */
  predicate IsReservedName(name: ListName)
  {
    name == "" || name == NULL_LIST_NAME
  }

  /** An algorithm's scope record: the current list when it was registered,
      the temporary lists it made, and how many lists it has made. */
  datatype AlgorithmInfo = AlgorithmInfo(
    parentListName: ListName,
    temporaryListNames: set<ListName>,
    numberOfListsCreated: uint32)

  datatype ClusterManager = ClusterManager(
    nameToClusterList: map<ListName, set<ClusterId>>,
    algorithmInfo: map<AlgorithmId, AlgorithmInfo>,
    canMakeNewClusters: bool,
    currentListName: ListName,
    savedLists: set<ListName>)

  /** A status code and the state after the call. */
  datatype Step = Step(status: StatusCode, next: ClusterManager)

  /** A list name (or the error) and the state after the call. */
  datatype NamedStep = NamedStep(result: Result<ListName>, next: ClusterManager)

  /** The manager after construction or ResetForNextEvent: only the empty null
      list exists, it is current, and no cluster may be made. */
  function Fresh(): (m: ClusterManager)
    ensures m.nameToClusterList.Keys == {NULL_LIST_NAME} && m.nameToClusterList[NULL_LIST_NAME] == {}
    ensures m.algorithmInfo == map[] && m.savedLists == {}
    ensures m.currentListName == NULL_LIST_NAME && !m.canMakeNewClusters
  {
    ClusterManager(map[NULL_LIST_NAME := {}], map[], false, NULL_LIST_NAME, {})
  }

  // ---------------------------------------------------------------------------
  // Queries

  /** GetCurrentListName: NOT_INITIALIZED while the name is empty. */
  function GetCurrentListName(m: ClusterManager): (r: Result<ListName>)
    ensures r.Err? <==> m.currentListName == ""
    ensures r.Err? ==> r.code == NotInitialized
    ensures r.Ok? ==> r.value == m.currentListName
  {
    if m.currentListName == "" then Err(NotInitialized) else Ok(m.currentListName)
  }

  /** GetAlgorithmInputListName: the parent list of a registered algorithm,
      otherwise whatever GetCurrentListName gives. */
  function GetAlgorithmInputListName(m: ClusterManager, alg: AlgorithmId): (r: Result<ListName>)
    ensures alg in m.algorithmInfo ==> r == Ok(m.algorithmInfo[alg].parentListName)
    ensures alg !in m.algorithmInfo ==> (r.Err? <==> m.currentListName == "")
    ensures alg !in m.algorithmInfo && r.Ok? ==> r.value == m.currentListName
    ensures r.Err? ==> r.code == NotInitialized
  {
    if alg in m.algorithmInfo then Ok(m.algorithmInfo[alg].parentListName)
    else GetCurrentListName(m)
  }

  /** GetList: the named list, or NOT_INITIALIZED when no list has the name. */
  function GetList(m: ClusterManager, name: ListName): (r: Result<set<ClusterId>>)
    ensures r.Ok? <==> name in m.nameToClusterList
    ensures r.Ok? ==> r.value == m.nameToClusterList[name]
    ensures r.Err? ==> r.code == NotInitialized
  {
    if name in m.nameToClusterList then Ok(m.nameToClusterList[name]) else Err(NotInitialized)
  }

  /** GetCurrentList: the current name is handed out even when the list lookup
      fails. */
  function GetCurrentList(m: ClusterManager): (r: (ListName, Result<set<ClusterId>>))
    ensures r.0 == m.currentListName
    ensures r.1.Ok? <==> m.currentListName in m.nameToClusterList
    ensures r.1.Ok? ==> r.1.value == m.nameToClusterList[m.currentListName]
    ensures r.1.Err? ==> r.1.code == NotInitialized
  {
    (m.currentListName, GetList(m, m.currentListName))
  }

  /** GetAlgorithmInputList: the parent list of a registered algorithm, the
      current list otherwise; the name is handed out even when the lookup
      fails. */
  function GetAlgorithmInputList(m: ClusterManager, alg: AlgorithmId): (r: (ListName, Result<set<ClusterId>>))
    ensures alg in m.algorithmInfo ==> r.0 == m.algorithmInfo[alg].parentListName
    ensures alg !in m.algorithmInfo ==> r.0 == m.currentListName
    ensures r.1.Ok? <==> r.0 in m.nameToClusterList
    ensures r.1.Ok? ==> r.1.value == m.nameToClusterList[r.0]
    ensures r.1.Err? ==> r.1.code == NotInitialized
  {
    var name := if alg in m.algorithmInfo then m.algorithmInfo[alg].parentListName else m.currentListName;
    (name, GetList(m, name))
  }

  // ---------------------------------------------------------------------------
  // Current-list transitions

  /** ResetCurrentListToAlgorithmInputList: the current name becomes the
      algorithm's input-list name when that lookup succeeds; the creation flag
      is not touched. */
  function ResetCurrentListToAlgorithmInputList(m: ClusterManager, alg: AlgorithmId): (s: Step)
    ensures s.status == GetAlgorithmInputListName(m, alg).Status()
    ensures s.status == Success ==> s.next == m.(currentListName := GetAlgorithmInputListName(m, alg).value)
    ensures alg in m.algorithmInfo ==> s.status == Success && s.next.currentListName == m.algorithmInfo[alg].parentListName
    ensures alg !in m.algorithmInfo ==> s.next == m
  {
    match GetAlgorithmInputListName(m, alg)
    case Ok(name) => Step(Success, m.(currentListName := name))
    case Err(code) => Step(code, m)
  }

  /** DropCurrentList: always succeeds; the null list becomes current and no
      cluster may be made. No list is created or deleted. */
  function DropCurrentList(m: ClusterManager): (s: Step)
    ensures s.status == Success
    ensures s.next.currentListName == NULL_LIST_NAME && !s.next.canMakeNewClusters
    ensures s.next.nameToClusterList == m.nameToClusterList && s.next.algorithmInfo == m.algorithmInfo
    ensures s.next.savedLists == m.savedLists
  {
    Step(Success, m.(canMakeNewClusters := false, currentListName := NULL_LIST_NAME))
  }

  /** TemporarilyReplaceCurrentList: an existing list becomes current, and
      clusters may be made unless it is the null list; NOT_FOUND for a missing
      list. Nothing is created or deleted. */
  function TemporarilyReplaceCurrentList(m: ClusterManager, name: ListName): (s: Step)
    ensures s.status == Success <==> name in m.nameToClusterList
    ensures s.status != Success ==> s.status == NotFound && s.next == m
    ensures s.status == Success ==> s.next.currentListName == name && (s.next.canMakeNewClusters <==> name != NULL_LIST_NAME)
    ensures s.next.nameToClusterList == m.nameToClusterList && s.next.algorithmInfo == m.algorithmInfo
    ensures s.next.savedLists == m.savedLists
  {
    if name !in m.nameToClusterList then Step(NotFound, m)
    else Step(Success, m.(currentListName := name, canMakeNewClusters := name != NULL_LIST_NAME))
  }

  // ---------------------------------------------------------------------------
  // Algorithm scopes

  /** RegisterAlgorithm: a new record whose parent is the current list, with
      no temporary lists and a zero counter; ALREADY_PRESENT, with nothing
      changed, for an algorithm already registered. */
  function RegisterAlgorithm(m: ClusterManager, alg: AlgorithmId): (s: Step)
    ensures s.status == AlreadyPresent <==> alg in m.algorithmInfo
    ensures s.status != AlreadyPresent ==> s.status == Success
    ensures alg in m.algorithmInfo ==> s.next == m
    ensures alg !in m.algorithmInfo ==>
              s.next == m.(algorithmInfo := m.algorithmInfo[alg := AlgorithmInfo(m.currentListName, {}, 0)])
  {
    if alg in m.algorithmInfo then Step(AlreadyPresent, m)
    else Step(Success, m.(algorithmInfo := m.algorithmInfo[alg := AlgorithmInfo(m.currentListName, {}, 0)]))
  }

  /** The character of a decimal digit. */
  function Digit(d: nat): (c: char)
    requires d < 10
    ensures '0' <= c <= '9'
  {
    ('0' as int + d) as char
  }

  /** The decimal digits of n. */
  function NatToString(n: nat): (s: string)
    ensures |s| > 0
    ensures forall i :: 0 <= i < |s| ==> '0' <= s[i] <= '9'
  {
    if n < 10 then [Digit(n)] else NatToString(n / 10) + [Digit(n % 10)]
  }

  /** The name of the algorithm's n-th list: its identity, an underscore and n. */
  function TemporaryListName(alg: AlgorithmId, n: uint32): (name: ListName)
    ensures !IsReservedName(name)
    ensures '_' in name
  {
    var name := NatToString(alg) + "_" + NatToString(n);
    assert name[|NatToString(alg)|] == '_';
    name
  }

  /** MakeTemporaryListAndSetCurrent: a new empty list named after the
      algorithm and its counter, recorded as one of its temporary lists and
      made current; the counter advances (modulo 2^32) and clusters may be
      made. NOT_FOUND for an unregistered algorithm, ALREADY_PRESENT when the
      name is taken. */
  function MakeTemporaryListAndSetCurrent(m: ClusterManager, alg: AlgorithmId): (s: NamedStep)
    ensures alg !in m.algorithmInfo ==> s == NamedStep(Err(NotFound), m)
    ensures alg in m.algorithmInfo &&
            TemporaryListName(alg, m.algorithmInfo[alg].numberOfListsCreated) in m.nameToClusterList ==>
              s == NamedStep(Err(AlreadyPresent), m)
    ensures s.result.Ok? ==> alg in m.algorithmInfo && s.result.value !in m.nameToClusterList
    ensures s.result.Ok? ==>
              var info := m.algorithmInfo[alg];
              var name := s.result.value;
              name == TemporaryListName(alg, info.numberOfListsCreated) &&
              s.next.nameToClusterList == m.nameToClusterList[name := {}] &&
              s.next.algorithmInfo == m.algorithmInfo[alg := info.(
                temporaryListNames := info.temporaryListNames + {name},
                numberOfListsCreated := (info.numberOfListsCreated + 1) % UINT_RANGE)] &&
              s.next.currentListName == name && s.next.canMakeNewClusters &&
              s.next.savedLists == m.savedLists
    ensures s.result.Err? ==> s.next == m
  {
    if alg !in m.algorithmInfo then NamedStep(Err(NotFound), m)
    else
      var info := m.algorithmInfo[alg];
      var name := TemporaryListName(alg, info.numberOfListsCreated);
      if name in m.nameToClusterList then NamedStep(Err(AlreadyPresent), m)
      else
        var info' := info.(temporaryListNames := info.temporaryListNames + {name},
                           numberOfListsCreated := (info.numberOfListsCreated + 1) % UINT_RANGE);
        NamedStep(Ok(name), m.(nameToClusterList := m.nameToClusterList[name := {}],
                               algorithmInfo := m.algorithmInfo[alg := info'],
                               currentListName := name,
                               canMakeNewClusters := true))
  }

  /** MoveClustersToTemporaryListAndSetCurrent: an empty selection is
      INVALID_PARAMETER and a missing original list NOT_FOUND, both before
      anything is made. Otherwise a temporary list is made current as above,
      and the selected clusters that are in the original list move into it;
      the rest of the original list stays. */
  function MoveClustersToTemporaryListAndSetCurrent(m: ClusterManager, alg: AlgorithmId, originalListName: ListName,
                                                    clustersToMove: set<ClusterId>): (s: NamedStep)
    ensures clustersToMove == {} ==> s == NamedStep(Err(InvalidParameter), m)
    ensures clustersToMove != {} && originalListName !in m.nameToClusterList ==> s == NamedStep(Err(NotFound), m)
    ensures clustersToMove != {} && originalListName in m.nameToClusterList ==>
              s.result == MakeTemporaryListAndSetCurrent(m, alg).result
    ensures s.result.Err? ==> s.next == m
    ensures s.result.Ok? ==>
              var made := MakeTemporaryListAndSetCurrent(m, alg).next;
              var original := m.nameToClusterList[originalListName];
              var name := s.result.value;
              originalListName in m.nameToClusterList && name != originalListName &&
              s.next.nameToClusterList == made.nameToClusterList[originalListName := original - clustersToMove]
                                                                [name := original * clustersToMove] &&
              s.next.algorithmInfo == made.algorithmInfo &&
              s.next.currentListName == name && s.next.canMakeNewClusters &&
              s.next.savedLists == m.savedLists
  {
    if clustersToMove == {} then NamedStep(Err(InvalidParameter), m)
    else if originalListName !in m.nameToClusterList then NamedStep(Err(NotFound), m)
    else
      var made := MakeTemporaryListAndSetCurrent(m, alg);
      if made.result.Err? then made
      else
        var original := m.nameToClusterList[originalListName];
        var lists := made.next.nameToClusterList[originalListName := original - clustersToMove]
                                                [made.result.value := original * clustersToMove];
        NamedStep(made.result, made.next.(nameToClusterList := lists))
  }

  /** The state after moving `saved` from the source list into the target
      list (created if absent): the target is recorded as saved and is no
      longer one of the algorithm's temporary lists. */
  function SaveInto(m: ClusterManager, alg: AlgorithmId, targetListName: ListName, sourceListName: ListName,
                    saved: set<ClusterId>): ClusterManager
    requires alg in m.algorithmInfo && sourceListName in m.nameToClusterList
  {
    var lists := m.nameToClusterList[sourceListName := m.nameToClusterList[sourceListName] - saved];
    var target := if targetListName in lists then lists[targetListName] else {};
    var info := m.algorithmInfo[alg];
    m.(nameToClusterList := lists[targetListName := target + saved],
       algorithmInfo := m.algorithmInfo[alg := info.(temporaryListNames := info.temporaryListNames - {targetListName})],
       savedLists := m.savedLists + {targetListName})
  }

  /** SaveClusters, whole-list form: every cluster of the source list moves to
      the target list. INVALID_PARAMETER for a reserved target name, checked
      first; NOT_FOUND for a missing source list or an unregistered
      algorithm. */
  function SaveClusters(m: ClusterManager, alg: AlgorithmId, targetListName: ListName, sourceListName: ListName): (s: Step)
    ensures IsReservedName(targetListName) ==> s == Step(InvalidParameter, m)
    ensures s.status == Success <==>
              !IsReservedName(targetListName) && sourceListName in m.nameToClusterList && alg in m.algorithmInfo
    ensures s.status != Success ==> s.next == m && (s.status == InvalidParameter || s.status == NotFound)
    ensures s.status == Success ==>
              targetListName in s.next.nameToClusterList &&
              s.next.nameToClusterList[targetListName] ==
                (if targetListName in m.nameToClusterList then m.nameToClusterList[targetListName] else {}) +
                m.nameToClusterList[sourceListName] &&
              (targetListName != sourceListName ==> sourceListName in s.next.nameToClusterList && s.next.nameToClusterList[sourceListName] == {}) &&
              s.next.nameToClusterList.Keys == m.nameToClusterList.Keys + {targetListName} &&
              (forall n :: n in m.nameToClusterList && n != targetListName && n != sourceListName ==>
                 s.next.nameToClusterList[n] == m.nameToClusterList[n]) &&
              s.next.savedLists == m.savedLists + {targetListName} &&
              s.next.algorithmInfo.Keys == m.algorithmInfo.Keys &&
              s.next.algorithmInfo[alg].temporaryListNames == m.algorithmInfo[alg].temporaryListNames - {targetListName} &&
              s.next.currentListName == m.currentListName && s.next.canMakeNewClusters == m.canMakeNewClusters
  {
    if IsReservedName(targetListName) then Step(InvalidParameter, m)
    else if sourceListName !in m.nameToClusterList || alg !in m.algorithmInfo then Step(NotFound, m)
    else Step(Success, SaveInto(m, alg, targetListName, sourceListName, m.nameToClusterList[sourceListName]))
  }

  /** SaveClusters, subset form: only the chosen clusters that are in the
      source list move; the others stay behind. An empty subset is
      INVALID_PARAMETER, checked first, and so is a reserved target name. */
  function SaveClusterSubset(m: ClusterManager, alg: AlgorithmId, targetListName: ListName, sourceListName: ListName,
                             clustersToSave: set<ClusterId>): (s: Step)
    ensures clustersToSave == {} ==> s == Step(InvalidParameter, m)
    ensures IsReservedName(targetListName) ==> s == Step(InvalidParameter, m)
    ensures s.status == Success <==>
              clustersToSave != {} && !IsReservedName(targetListName) &&
              sourceListName in m.nameToClusterList && alg in m.algorithmInfo
    ensures s.status != Success ==> s.next == m && (s.status == InvalidParameter || s.status == NotFound)
    ensures s.status == Success ==>
              var source := m.nameToClusterList[sourceListName];
              targetListName in s.next.nameToClusterList &&
              s.next.nameToClusterList[targetListName] ==
                (if targetListName in m.nameToClusterList && targetListName != sourceListName
                 then m.nameToClusterList[targetListName] else if targetListName == sourceListName then source - clustersToSave else {}) +
                source * clustersToSave &&
              (targetListName != sourceListName ==>
                 sourceListName in s.next.nameToClusterList && s.next.nameToClusterList[sourceListName] == source - clustersToSave) &&
              s.next.nameToClusterList.Keys == m.nameToClusterList.Keys + {targetListName} &&
              (forall n :: n in m.nameToClusterList && n != targetListName && n != sourceListName ==>
                 s.next.nameToClusterList[n] == m.nameToClusterList[n]) &&
              s.next.savedLists == m.savedLists + {targetListName} &&
              s.next.algorithmInfo.Keys == m.algorithmInfo.Keys &&
              s.next.algorithmInfo[alg].temporaryListNames == m.algorithmInfo[alg].temporaryListNames - {targetListName} &&
              s.next.currentListName == m.currentListName && s.next.canMakeNewClusters == m.canMakeNewClusters
  {
    if clustersToSave == {} || IsReservedName(targetListName) then Step(InvalidParameter, m)
    else if sourceListName !in m.nameToClusterList || alg !in m.algorithmInfo then Step(NotFound, m)
    else Step(Success, SaveInto(m, alg, targetListName, sourceListName, m.nameToClusterList[sourceListName] * clustersToSave))
  }

  // ---------------------------------------------------------------------------
  // Deletion and merging

  /** DeleteCluster from a named list: NOT_FOUND when the list is missing or
      does not hold the cluster; otherwise only that cluster leaves it. */
  function DeleteClusterFrom(m: ClusterManager, c: ClusterId, listName: ListName): (s: Step)
    ensures s.status == Success <==> listName in m.nameToClusterList && c in m.nameToClusterList[listName]
    ensures s.status != Success ==> s.status == NotFound && s.next == m
    ensures s.status == Success ==>
              s.next == m.(nameToClusterList := m.nameToClusterList[listName := m.nameToClusterList[listName] - {c}])
  {
    if listName !in m.nameToClusterList || c !in m.nameToClusterList[listName] then Step(NotFound, m)
    else Step(Success, m.(nameToClusterList := m.nameToClusterList[listName := m.nameToClusterList[listName] - {c}]))
  }

  /** DeleteCluster without a list name acts on the current list. */
  function DeleteCluster(m: ClusterManager, c: ClusterId): (s: Step)
    ensures var current := m.currentListName;
            (s.status == Success <==> current in m.nameToClusterList && c in m.nameToClusterList[current]) &&
            (s.status != Success ==> s.status == NotFound && s.next == m) &&
            (s.status == Success ==>
               s.next == m.(nameToClusterList := m.nameToClusterList[current := m.nameToClusterList[current] - {c}]))
  {
    DeleteClusterFrom(m, c, m.currentListName)
  }

  /** DeleteClusters from a named list: NOT_FOUND, with nothing deleted, when
      the list is missing or lacks any of the clusters; otherwise exactly
      those clusters leave it. */
  function DeleteClustersFrom(m: ClusterManager, cs: set<ClusterId>, listName: ListName): (s: Step)
    ensures s.status == Success <==> listName in m.nameToClusterList && cs <= m.nameToClusterList[listName]
    ensures s.status != Success ==> s.status == NotFound && s.next == m
    ensures s.status == Success ==>
              s.next == m.(nameToClusterList := m.nameToClusterList[listName := m.nameToClusterList[listName] - cs])
  {
    if listName !in m.nameToClusterList || !(cs <= m.nameToClusterList[listName]) then Step(NotFound, m)
    else Step(Success, m.(nameToClusterList := m.nameToClusterList[listName := m.nameToClusterList[listName] - cs]))
  }

  /** DeleteClusters without a list name acts on the current list. */
  function DeleteClusters(m: ClusterManager, cs: set<ClusterId>): (s: Step)
    ensures var current := m.currentListName;
            (s.status == Success <==> current in m.nameToClusterList && cs <= m.nameToClusterList[current]) &&
            (s.status != Success ==> s.status == NotFound && s.next == m) &&
            (s.status == Success ==>
               s.next == m.(nameToClusterList := m.nameToClusterList[current := m.nameToClusterList[current] - cs]))
  {
    DeleteClustersFrom(m, cs, m.currentListName)
  }

  /** MergeAndDeleteClusters between named lists: the enlarged cluster stays
      where it is (its contents are not modelled) and the other cluster leaves
      its list. INVALID_PARAMETER when both are the same cluster, NOT_FOUND
      when either is not in its stated list. */
  function MergeAndDeleteClustersIn(m: ClusterManager, clusterToEnlarge: ClusterId, clusterToDelete: ClusterId,
                                    enlargeListName: ListName, deleteListName: ListName): (s: Step)
    ensures clusterToEnlarge == clusterToDelete ==> s == Step(InvalidParameter, m)
    ensures s.status == Success <==>
              clusterToEnlarge != clusterToDelete &&
              enlargeListName in m.nameToClusterList && clusterToEnlarge in m.nameToClusterList[enlargeListName] &&
              deleteListName in m.nameToClusterList && clusterToDelete in m.nameToClusterList[deleteListName]
    ensures s.status != Success ==> s.next == m && (s.status == InvalidParameter || s.status == NotFound)
    ensures s.status == Success ==>
              s.next == m.(nameToClusterList := m.nameToClusterList[deleteListName := m.nameToClusterList[deleteListName] - {clusterToDelete}])
    ensures s.status == Success ==> clusterToEnlarge in s.next.nameToClusterList[enlargeListName]
  {
    if clusterToEnlarge == clusterToDelete then Step(InvalidParameter, m)
    else if enlargeListName !in m.nameToClusterList || clusterToEnlarge !in m.nameToClusterList[enlargeListName] then Step(NotFound, m)
    else DeleteClusterFrom(m, clusterToDelete, deleteListName)
  }

  /** MergeAndDeleteClusters within the current list. */
  function MergeAndDeleteClusters(m: ClusterManager, clusterToEnlarge: ClusterId, clusterToDelete: ClusterId): (s: Step)
    ensures var current := m.currentListName;
            (s.status == Success <==>
               clusterToEnlarge != clusterToDelete && current in m.nameToClusterList &&
               clusterToEnlarge in m.nameToClusterList[current] && clusterToDelete in m.nameToClusterList[current]) &&
            (s.status != Success ==> s.next == m) &&
            (s.status == Success ==>
               s.next == m.(nameToClusterList := m.nameToClusterList[current := m.nameToClusterList[current] - {clusterToDelete}]))
  {
    MergeAndDeleteClustersIn(m, clusterToEnlarge, clusterToDelete, m.currentListName, m.currentListName)
  }

  // ---------------------------------------------------------------------------
  // Scope teardown and event reset

  /** The lists an algorithm's reset deletes: its temporary lists that were
      not saved. */
  function ListsToDelete(m: ClusterManager, alg: AlgorithmId): set<ListName>
    requires alg in m.algorithmInfo
  {
    m.algorithmInfo[alg].temporaryListNames - m.savedLists
  }

  /** GetClustersToBeDeleted: every cluster in a list the algorithm's reset
      would delete; NOT_FOUND for an unregistered algorithm. */
  function GetClustersToBeDeleted(m: ClusterManager, alg: AlgorithmId): (r: Result<set<ClusterId>>)
    ensures r.Ok? <==> alg in m.algorithmInfo
    ensures r.Err? ==> r.code == NotFound
    ensures r.Ok? ==> forall c :: c in r.value <==>
              exists n :: n in ListsToDelete(m, alg) && n in m.nameToClusterList && c in m.nameToClusterList[n]
  {
    if alg !in m.algorithmInfo then Err(NotFound)
    else
      var doomed := ListsToDelete(m, alg);
      Ok(set n, c | n in doomed && n in m.nameToClusterList && c in m.nameToClusterList[n] :: c)
  }

  /** ResetAlgorithmInfo: the algorithm's unsaved temporary lists are deleted,
      its parent list becomes current again (clusters may be made unless it
      is the null list), and its record is erased when it has finished and
      otherwise keeps no temporary lists. NOT_FOUND for an unregistered
      algorithm. */
  function ResetAlgorithmInfo(m: ClusterManager, alg: AlgorithmId, isAlgorithmFinished: bool): (s: Step)
    ensures s.status == Success <==> alg in m.algorithmInfo
    ensures s.status != Success ==> s.status == NotFound && s.next == m
    ensures s.status == Success ==>
              var info := m.algorithmInfo[alg];
              (forall n :: n in s.next.nameToClusterList <==> n in m.nameToClusterList && n !in ListsToDelete(m, alg)) &&
              (forall n :: n in s.next.nameToClusterList ==> s.next.nameToClusterList[n] == m.nameToClusterList[n]) &&
              s.next.currentListName == info.parentListName &&
              (s.next.canMakeNewClusters <==> info.parentListName != NULL_LIST_NAME) &&
              (isAlgorithmFinished ==> s.next.algorithmInfo == m.algorithmInfo - {alg}) &&
              (!isAlgorithmFinished ==> s.next.algorithmInfo == m.algorithmInfo[alg := info.(temporaryListNames := {})]) &&
              s.next.savedLists == m.savedLists
  {
    if alg !in m.algorithmInfo then Step(NotFound, m)
    else
      var info := m.algorithmInfo[alg];
      var lists := m.nameToClusterList - ListsToDelete(m, alg);
      var infos := if isAlgorithmFinished then m.algorithmInfo - {alg}
                   else m.algorithmInfo[alg := info.(temporaryListNames := {})];
      Step(Success, m.(nameToClusterList := lists, algorithmInfo := infos,
                       currentListName := info.parentListName,
                       canMakeNewClusters := info.parentListName != NULL_LIST_NAME))
  }

  /** ResetForNextEvent: every list but a fresh, empty null list is gone, every
      record is erased, and the null list is current. */
  function ResetForNextEvent(m: ClusterManager): (s: Step)
    ensures s.status == Success
    ensures s.next.nameToClusterList == map[NULL_LIST_NAME := {}]
    ensures s.next.algorithmInfo == map[] && s.next.savedLists == {}
    ensures s.next.currentListName == NULL_LIST_NAME && !s.next.canMakeNewClusters
  {
    Step(Success, Fresh())
  }

  // ---------------------------------------------------------------------------
  // Cluster creation

  /** CreateCluster: NOT_INITIALIZED while no cluster may be made, the current
      list is missing or the current list is the null list, which stays
      empty; otherwise the new cluster `newCluster` joins the current list.
      `newCluster` stands for the address the allocation returns. */
  function CreateCluster(m: ClusterManager, newCluster: ClusterId): (s: Step)
    ensures s.status == Success <==>
              m.canMakeNewClusters && m.currentListName != NULL_LIST_NAME && m.currentListName in m.nameToClusterList
    ensures s.status != Success ==> s.status == NotInitialized && s.next == m
    ensures s.status == Success ==>
              s.next == m.(nameToClusterList := m.nameToClusterList[m.currentListName := m.nameToClusterList[m.currentListName] + {newCluster}])
  {
    if !m.canMakeNewClusters || m.currentListName == NULL_LIST_NAME || m.currentListName !in m.nameToClusterList then
      Step(NotInitialized, m)
    else Step(Success, m.(nameToClusterList := m.nameToClusterList[m.currentListName := m.nameToClusterList[m.currentListName] + {newCluster}]))
  }
}
