# Pools of the sync server

A model, in Dafny 4.11, of the server that keeps the devices of a pool connected to each other,
with proofs of what it promises. `dafny verify dfyconfig.toml` checks everything.

## The system

A pool seats its connected nodes in a growing tree of clusters. The centre cluster has three
panels of three slots; every other cluster hangs below a panel, its connector, and has two panels
of its own. A node that joins gets a slot in the shallowest level with room, in a least loaded
panel of a least loaded cluster. When a node leaves, a chain of nodes below it moves up, one level
each, until the free slot has nobody below it.

Each node has a node manager on the server. The pool tells it about its place with one full
message and about its neighbourhood with small ones, coded 0 to 14. From its own copy alone the
manager computes to which nodes its client has to be linked, and asks the client to connect by a
handshake of keyed requests. Managers also count reports about peers. Clients are told who is in
the pool by INIT_POOL, ADD_NODE and REMOVE_NODE messages. Users and their devices are kept in
memory and written through to a database.

## The files

| file | about |
|---|---|
| `Ids.dfy` | ids of nodes, users, devices and pools |
| `Sets.dfy` | sizes of finite sets |
| `ClusterTree.dfy` | panels, slots, clusters, who sits where, the full-ancestor property |
| `Placement.dfy` | where the next node goes, and what adding keeps |
| `Promotion.dfy` | the chain of nodes that moves up when one leaves |
| `Thinning.dfy` | from which side of the tree a removal takes its node |
| `Capacity.dfy` | level sizes and the number of levels |
| `Slices.dfy` | Go's slices, as far as appending needs them: memory that several slices share |
| `Paths.dfy` | the path that a panel reads back from its slice, and when it is its own |
| `Views.dfy` | a node's copy of its neighbourhood and the messages that maintain it |
| `Overlay.dfy` | the peer rule; symmetry, degree and connectivity of the network it forms |
| `Directory.dfy` | the node directory that clients rebuild |
| `Runs.dfy` | whole runs of joins and leaves |
| `Meanwhile.dfy` | what bystanders see between the announcements of a removal |
| `FourthLevel.dfy` | where nodes can sit as long as no path is misread, and how many they can be |
| `CutOff.dfy` | what the first node in a panel whose path is misread does to the links of all others |
| `Requests.dfy` | who is asked to connect when a node joins |
| `Promises.dfy` | exactly when a pool keeps what it promises about its network |
| `Growth.dfy` | every live node can leave, and runs of any size exist, also one in which a node is cut off |
| `NodePools.dfy` | the pool's objects, changed in place: nodes, panels, clusters, channels |
| `PoolManager.dfy` | connecting and disconnecting, with the broadcasts |
| `NodeManagers.dfy` | the node manager, its peer computation, keys and reports |
| `Handshake.dfy` | all managers together with messages in flight |
| `Progress.dfy` | handshakes that get to their end, and links that are made again |
| `Reports.dfy` | reports over runs of a manager, and when a client is given up |
| `Conformance.dfy` | pool, managers and runs fit together |
| `Membership.dfy` | users and devices of a pool, written through to the database |
| `ActivePools.dfy` | which pools are in memory, over whole runs of requests, as values |
| `Servers.dfy` | the pools in memory as objects: fetched, changed and given up |

The tree of `ClusterTree.dfy` is the occupancy of all slots as a value. The objects of
`NodePools.dfy` carry it as a ghost field; `Pool.Valid` ties every reference, array entry and map
entry to it, and every method says what becomes of it. `NodeManagers.dfy` has the state of a
manager as a value, functions and relations for its steps, and a class whose methods are proved
to take these steps. What is promised over runs is proved about the values.

## Main results

- The pool's objects: `Pool.AddNode` and `Pool.RemoveNode` keep every reference, array entry and map
  entry consistent, carry out exactly the placement rule and a whole promotion chain, and put exactly
  the messages of the code on the channels (`NodePools.dfy`).
- Paths are slices that share memory. What a panel reads back is known exactly (`ReadBack`): all panels
  read their own paths if and only if there are at most three levels (`PathsReadRight`,
  `OwnPathsAreRead`). In the fourth level a panel 0 reads its sibling's path. The first node that gets a
  slot there is announced under the sibling's code, so that everybody near takes it for the node in the
  sibling's slot and drops that one: it is then in nobody's links and cannot be reached, while it is
  still linked to the node above it (`SiblingIsCutOff`). The newcomer is linked to itself, and asked to
  connect to itself (`OwnPeerIffMisread`, `AskedOnceIffLegible`).
- Over every run of joins and leaves each promise about the network is kept if and only if the pool never
  held more than 75 nodes at once (`PromisesKeptIffSmall`): views and links agree with the tree; links are
  symmetric; everybody reaches everybody; nobody is cut off; nobody is linked to itself; exactly one end
  of each link that a join creates is asked to connect; and clients have everybody's own path. That is to
  say, if and only if nobody ever got a slot in a panel 0 of the fourth level
  (`LegibleIffPanelsZeroEmpty`). Runs of any size exist, and every live node can leave at any time
  (`GrowingRun`, `SomebodyLeaves`); with the 76th node of a run of joins somebody is cut off
  (`SelfLinkIsReached`).
- A slot is only left empty when nobody sits below its panel; promotion relies on it and restores it
  (`RemovalKeepsSound`, `RunsKeepAncestorsFull`). At every step the larger of the two sides below gives up
  a node, so that their sizes come closer by one, or differ by one if they were equal (`LargerSideGives`,
  `SidesEvenOut`); where no node is in the right slot number, the youngest moves up (`YoungestMovesUp`).
- Any number of announcements about moves, in order, leaves every node with exactly the neighbourhood
  that the tree gives it, where the announced paths read right (`NewsSettlesViews`). In between, a
  bystander never misses a node that it keeps (`NobodyIsMissed`).
- The loops of the node manager compute exactly the peer rule (`PeersOfPosition`), and the peer rule,
  applied by everybody to nothing but the own view, gives a symmetric, connected network of degree at
  most 6 where views are those of the tree (`LinksAreSymmetric`, `Connected`, `DegreeBound`), and so in
  every state of a run with at most 75 nodes at once (`SmallPoolsKeepOverlay`). Which end of a new link
  is asked is settled by the two slots (`WhoAsks`, `JoinAsksBySlots`, `OneRequestPerLink`). What the pool
  puts on the channels makes its connects and disconnects steps of runs (`ConnectIsJoin`,
  `DisconnectIsLeave`).
- Handshakes never get further than they were asked to, in every interleaving, also when a device has
  several sockets, and one client message causes at most two report notices
  (`HandshakesAreConserved`, `NoticesAreFew`). They do get to their end when both clients go along, from any
  state of the network (`HandshakeCanComplete`), and a link that fails can be made again from the other end
  (`LinkCanBeMadeAgain`). Over any run of a manager a node is told of a failed link a second time only after
  the link was confirmed or given up in between (`NoReportTwice`). Exactly when a client's message ends it is
  known (`WhoIsGivenUp`).
- Memory and database say the same about members after every request, except in one case, which is
  named exactly (`CallsKeepConsistency`). The objects do what these values say: fetching a pool, acting on
  it and giving it up is one step of them, and other pools are untouched (`Servers.dfy`). A request is
  granted only under its condition and with its effect (`ConnectionGranted`, `JoiningGranted`,
  `LeavingGranted`), and nodes come and go by connecting and disconnecting only (`WhoIsLive`).

## Departures and assumptions

- Paths do not identify panels in the code. `append` on a connector's path (pool/pool.go:213, 237) writes
  into spare capacity that sibling panels share: at level indices 3, 5, 6, 7, 9 and so on, all but the
  powers of two, both siblings read 1 (`Paths.ReadBack`). From the fourth level on a node in a panel 0
  takes itself for one in panel 1, is announced under its sibling's code, and is linked to itself; the
  first such node cuts off the one in the sibling's slot from everybody. A full slice is taken to be
  copied to one of twice its length, as Go does up to 256 elements; a path that long needs a tree of 256
  levels.
- Nobody checks whether a node id is live already. A device that connects a second time (websocket.go:115)
  gets a second slot: `Pool.AddNode` and `PoolManager.Connect` say what becomes of slots, node map and
  channels then, `Placement.SameNodeTwice` is such an input, and `Runs.ComeTwiceAndGo` shows that the
  removal by id takes the newer node and leaves the older one in the tree. `PoolServer.ConnectToPool` says
  what becomes of the server, and `Handshake.dfy` has any number of managers under one id. All other
  methods of the pool, and the runs, are about pools in which no id sits twice.
- A run is the life of a pool in memory. The code gives a pool up when its last node leaves
  (pool/manager.go:179-180) and starts again with one level; a run may also go on with the empty tree and
  its levels, so that runs cover more than the code does.
- A node id is not empty, its channel is new, and creation times are later than the zero time.
- Operations of one pool happen one after the other, as its lock has it.
- A manager whose first position message is a single one has no path yet and crashes (node_manager.go:465);
  `NodeManagers` takes such a message only after a full one, which is what the pool sends first.
- Views, links and directories are compared after all messages of an operation are processed.
  A manager whose client failed processes nothing (node_manager.go:126), so a run assumes
  managers without such a failure; `Handshake.dfy` does not.
- `RemoveDevice` does not restore the user when the write fails for a user's last device
  (store/pool.go:147-156): `Membership.DeviceRemovedMatches` and
  `ActivePools.CallsKeepConsistency` say exactly when this breaks the agreement with the database.

## Model

| member | source | states |
|---|---|---|
| `ClusterTree.AncestorsAreFull` | pool/pool.go:196-399 | if nobody sits below a panel with a free slot, then every panel with anybody below it, at any depth, is full |
| `ClusterTree.SubtreeCountZero` | pool/pool.go:178-194 | the recursive count is zero exactly when nobody sits in the panel or anywhere below it, and in a supported tree exactly when the panel itself is empty |
| `Placement.AddKeepsSound` | pool/pool.go:251-314 | adding a fresh id keeps the tree well formed and every panel above an occupied one full, adds exactly that id, and the newcomer has nobody below it |
| `Placement.AddNeedsFreshId` | pool/pool.go:251-314 | the tree stays sound if and only if the newcomer's id is not empty and not live, which is not checked |
| `Placement.SameNodeTwice` | websocket.go:115 | a concrete input: the first node's id is added a second time, and the tree is not sound any more |
| `Placement.NextSlotIsUnique` | pool/pool.go:256-304 | shallowest level with room, last of the least loaded clusters, last of its least loaded panels, first free slot: this leaves at most one slot |
| `Placement.FirstNode` | pool/pool.go:259-286 | among equals the last is taken: the first node of a pool gets slot 0 of panel 2 |
| `Placement.EqualsTakeLast` | pool/pool.go:256-286 | where all clusters of the level and all panels of the cluster are equally loaded, the very last panel of the level is taken |
| `Placement.FirstOfLevel` | pool/pool.go:256-304 | the first node of any level gets slot 0 of its last panel |
| `Placement.AddKeepsClusterSpread` | pool/pool.go:256-275 | no add raises the spread of cluster sizes in a level above the larger of its old value and 1 |
| `Placement.AddKeepsPanelSpread` | pool/pool.go:277-286 | the same for the panels of a cluster |
| `Placement.AddRunsAreBalanced` | pool/pool.go:251-304 | while nodes only come, clusters of a level and panels of a cluster always differ by at most one node |
| `Promotion.SomebodyToPromote` | pool/pool.go:330-378 | while anybody is directly below the hole there is a node to promote, in one of the two panels below it |
| `Promotion.PromotesIsUnique` | pool/pool.go:346-376 | the choice by slot, subtree size and age names one node |
| `Promotion.PromotedIsBelow` | pool/pool.go:346-385 | the chosen node sits exactly one level below, and if it is in another slot number then nobody is below it |
| `Promotion.ChainShape` | pool/pool.go:330-386 | the chain runs down one level at a time through occupied slots in the leaving node's slot number, of which only the last slot may differ |
| `Promotion.RemovalEffect` | pool/pool.go:316-399 | exactly the leaving id goes; every promoted node moves to the slot before its own in the chain; everybody else stays; exactly the chain's last slot becomes empty; nobody sits twice |
| `Promotion.RemovalKeepsSound` | pool/pool.go:316-399 | after a removal again nobody sits below a panel with a free slot |
| `Promotion.ChainIsUnique` | pool/pool.go:316-386 | removing a node has one outcome |
| `Promotion.HoleKeepsSlot` | pool/pool.go:378-383 | a hole with somebody below it has the leaving node's slot number, so the loop only writes into the hole |
| `Thinning.CountIsSize` | pool/pool.go:178-194 | the recursive count is the number of taken slots in the panel and everywhere below it |
| `Thinning.SideOfStep` | pool/pool.go:330-386 | the side from which a node moves up ends with one node less, the other side as before |
| `Thinning.LargerSideGives` | pool/pool.go:366-376 | with candidates on both sides the larger side gives up a node; of two equal ones, the side with the younger candidate, and else the second side |
| `Thinning.SidesEvenOut` | pool/pool.go:366-376 | the two sizes come closer by one; equal ones differ by one afterwards |
| `Thinning.OnlySideGives` | pool/pool.go:362-365 | with a candidate on one side only, it moves up |
| `Thinning.YoungestMovesUp` | pool/pool.go:346-361 | without a candidate, nobody right below was born later than the node that moves up, nor at the same time before it in order |
| `Capacity.LevelSize` | pool/pool.go:196-249 | level d has exactly 9·2^d slots |
| `Capacity.TreeFits` | pool/pool.go:255-309 | a tree of L levels holds at most 9(2^L − 1) nodes, and exactly so many when it has no room |
| `Capacity.DepthNeedsNodes` | pool/pool.go:251-309 | a node put at level d finds at least 9(2^d − 1) nodes there |
| `Capacity.LevelsAreLeast` | pool/pool.go:306-309 | the invariant on the number of levels makes it the least one that has held the peak |
| `Slices.Append` | pool/pool.go:213-237 | with spare capacity the new element is written into the shared memory behind the slice; a full slice is copied to memory of twice the size |
| `Paths.ReadBack` | pool/pool.go:196-249 | exactly what is read back from a panel's path: its own number at index 0 and at powers of two, 1 everywhere else |
| `Paths.PathsReadRight` | pool/pool.go:49-51 | all panels of a tree read their own paths if and only if it has at most three levels |
| `Paths.FourthLevelMisread` | pool/pool.go:213 | a panel 0 of the fourth level reads the path of its sibling |
| `Views.CodeSentIsSeen` | pool/pool.go:131-161 | the code that is announced names the announced slot if and only if the panel reads its own number or the receiver hangs below it |
| `Views.RightMessageHelps` | node_manager.go:291-323 | a true single-position message corrects its own entry and spoils no other, whatever the view held |
| `Views.NewsSettlesViews` | node_manager.go:286-325 | after all announcements of an operation from panels that read their paths right, in order, the local copy equals a recomputation from the tree, through any number of intermediate moves and the final empty id |
| `Overlay.LinkShape` | node_manager.go:467-568 | when two nodes are linked, in terms of the tree: panel mates, stand-ins across panels, and stand-ins for the parent's slot |
| `Overlay.LinksAreSymmetric` | node_manager.go:467-568 | where views are those of the tree, both ends of a link compute it independently: a lists b exactly when b lists a |
| `Overlay.DegreeBound` | node_manager.go:461-568 | a node whose view is that of the tree has at most six peers and never itself |
| `Overlay.OwnPeerIffMisread` | node_manager.go:461-484 | a node that has just been told its place counts itself among its peers, and asks its client to connect to itself, if and only if its panel misreads its number |
| `Overlay.LinkUp` | node_manager.go:485-523 | where views are those of the tree, every node is linked to the node in its own slot number of its connector panel |
| `Overlay.Connected` | node_manager.go:461-614 | where views are those of the tree, any two nodes, at levels d and e, are at most d + e + 2 hops apart |
| `Overlay.NewLinksHaveNewcomer` | node_manager.go:467-606 | every link that appears with an add has the new node at one end |
| `Overlay.OneEndInitiates` | node_manager.go:485-506 | on a link of a new node exactly one end is the one that asks |
| `Overlay.WhoAsks` | node_manager.go:485-506 | of a new link the end in the later panel of the cluster asks, or the end above; between panel mates the one that was told its full position |
| `Overlay.AcrossGap` | node_manager.go:469-484 | where a node's slot is empty in another panel of its cluster, it is linked to the next taken one: to the right from panel 2 and from panel 1 to 2, to the left otherwise |
| `Overlay.BelowGap` | node_manager.go:512-523 | where its slot is empty in a panel below, it is linked to the next taken one to the right |
| `Directory.InitGivesDirectory` | pool/manager.go:128-160 | INIT_POOL gives the newcomer exactly the map from live ids to the paths that the server reads, whatever it held and in whatever order nodes are listed |
| `Directory.AddKeepsDirectory` | pool/manager.go:130-145 | ADD_NODE keeps everybody else's directory exact |
| `Directory.RemoveKeepsDirectory` | pool/manager.go:182-201 | REMOVE_NODE with its promoted nodes keeps the directory of everybody who stays exact |
| `Runs.RunsKeepInvariant` | pool/pool.go:251-399 | after any run of joins and leaves in which nobody sat in a panel that misreads its path, the tree is sound and every live node's view, links and directory agree with it |
| `Runs.RunsKeepRecords` | pool/pool.go:251-399 | in every state of every run the tree is sound, has the least number of levels for its peak, and every client's directory is exactly what the server reads |
| `Runs.ViewsAgreeIffLegible` | pool/pool.go:126-176 | views and links agree with the tree throughout a run if and only if nobody ever sat in a panel that misreads its path |
| `Runs.SelfLinksIffMisread` | node_manager.go:461-484 | throughout a run no node is linked to itself if and only if nobody ever sat in a panel that misreads its path |
| `Runs.RunsKeepOverlay` | node_manager.go:461-614 | in a run in which no path was misread the nodes' own link sets are symmetric, of degree at most 6, without self-links, among live nodes, and connected within d + e + 2 hops; `Promises.PromisesKeptIffSmall` has the other direction |
| `Runs.RunsKeepAncestorsFull` | pool/pool.go:196-399 | in every reachable pool a panel with anybody below it is full |
| `Runs.RunsHaveLeastLevels` | pool/pool.go:196-309 | in every reachable pool the number of levels is the least one, at least 1, that holds the peak number of nodes |
| `Runs.ArrivalAsksOnce` | node_manager.go:599-606 | where views are those of the tree, every link that an arrival creates has the new node at one end, and exactly one end issues CONNECT_NODE for it |
| `Runs.ComeAndGo` | pool/pool.go:251-399 | a node that leaves right after it came promotes nobody, and all other slots are as before, even when the tree grew |
| `Runs.ComeTwiceAndGo` | pool/pool.go:312-324 | after a second connect of a live id, its removal takes the newer node alone and leaves the older one's slot taken, under an id that the node map does not have |
| `Meanwhile.NobodyIsMissed` | pool/pool.go:388-398 | after any number of a removal's announcements a bystander has every node that it has before and afterwards, in its old place or already in its new one |
| `FourthLevel.SparseIsLegible` | pool/pool.go:196-249 | paths read right where nobody is below the fourth level, and in it only in the first slots of panels 1 |
| `FourthLevel.SparseIsSmall` | pool/pool.go:251-314 | such a tree has at most 75 nodes |
| `FourthLevel.PanelZeroNeedsMany` | pool/pool.go:251-304 | from such a tree a newcomer gets a panel whose path is misread only when there are exactly 75 nodes, and then a panel 0 of the fourth level |
| `FourthLevel.GrowingPoolsReadRight` | pool/pool.go:196-314 | while nodes only come, all occupied panels read their own paths with up to 75 nodes, and never with more |
| `CutOff.RunsAreSparse` | pool/pool.go:251-399 | over any run of joins and leaves in which no path was misread the tree is of that kind |
| `CutOff.HeardEntry` | pool/pool.go:126-176 | everybody near the first node in a panel 0 enters it for the node in the sibling's slot, and changes no other entry |
| `CutOff.SiblingIsCutOff` | node_manager.go:461-614 | after that join the node in the sibling's slot is in nobody's links, while it goes on being linked to the node above it |
| `CutOff.MisreadCutsOff` | node_manager.go:608-612 | in every run in which a path was misread there is a state with a live node that is in nobody's links and linked to another live node |
| `CutOff.OverlayIffLegible` | node_manager.go:461-614 | the nodes' own links were always symmetric, everybody always reached everybody, nobody was ever cut off: each if and only if no path was misread |
| `Requests.AskedOnceIffLegible` | node_manager.go:599-606 | while no path was misread before, a join makes exactly one request for each new link if and only if the newcomer's path reads right; otherwise the newcomer is asked to connect to itself |
| `Requests.JoinAsksBySlots` | node_manager.go:485-506 | for each new link of a join, which end is asked to connect follows from the two slots, and between panel mates it is the newcomer |
| `Requests.RequestsIffLegible` | node_manager.go:599-606 | all joins of a run made exactly one request for each new link if and only if no path was misread |
| `Promises.DirectoriesIffLegible` | pool/pool.go:87-98 | all clients always had everybody's own path if and only if no path was misread |
| `Promises.LegibleIffPanelsZeroEmpty` | pool/pool.go:202-245 | no path was misread in a run if and only if nobody ever got a slot in a panel 0 of the fourth level |
| `Promises.LegibleIffSmall` | pool/pool.go:251-399 | no path was misread in a run if and only if there were never more than 75 nodes at once |
| `Promises.PromisesKeptIffSmall` | pool/pool.go:126-176 | views, links, symmetry, reachability, no self-links, one request for each link that a join creates, and paths in directories: each is right throughout a run if and only if there were never more than 75 nodes at once |
| `Promises.SmallPoolsKeepOverlay` | node_manager.go:461-614 | with at most 75 nodes at once the nodes' own links form the overlay: degree at most 6, and at most d + e + 2 hops between levels d and e |
| `Growth.NextSlotExists` | pool/pool.go:251-309 | every tree with room has a slot that the placement rule names |
| `Growth.GrowingRun` | pool/pool.go:251-314 | for every number of nodes there is a run of joins with that many |
| `Growth.SomebodyJoins` | pool/pool.go:251-314 | from every state that a run can reach a fresh node can join |
| `Growth.SomebodyLeaves` | pool/pool.go:316-399 | from every state that a run can reach any live node can leave |
| `Growth.GrowingRunsLinkRight` | node_manager.go:461-614 | while nodes only come, no self-links, symmetry, reachability, and nobody cut off: each holds exactly as long as there are at most 75 nodes |
| `Growth.SelfLinkIsReached` | node_manager.go:461-614 | there is a run of 76 joins after which a node is linked to itself and a live node is cut off |
| `NodePools.PoolNode.UpdateSingleNodePosition` | pool/pool.go:116-124 | one single-position message is put on the channel, and nothing else |
| `NodePools.PoolNode.UpdateNodePosition` | pool/pool.go:126-176 | exactly the nodes in the neighbourhood get one single-position message each, with the code that follows from the panel number read from the shared path; the node itself gets its neighbourhood with that path, unless it has no id; this holds also when two nodes have the same id |
| `NodePools.PathsBelow` | pool/pool.go:206-240 | the paths of the two panels below a connector, which overwrite one shared cell exactly when the connector's slice has spare capacity |
| `NodePools.PoolNodePanel.GetPanelNumber` | pool/pool.go:49-51 | the last element of the path, which is the sibling's number where the sibling has overwritten it |
| `NodePools.Pool.BuildCluster` | pool/pool.go:202-245 | a new cluster with two panels; the appends leave what every other panel of the pool reads unchanged |
| `NodePools.Pool.OwnPathsAreRead` | pool/pool.go:49-51 | the panel objects of a pool all read their own paths if and only if it has at most three levels |
| `NodePools.PoolNodePanel.GetNodeAmount` | pool/pool.go:61-69 | the number of occupied entries |
| `NodePools.PoolNodeCluster.GetNodeAmount` | pool/pool.go:71-85 | the number of occupied entries of the cluster's own panels: three in the centre, two elsewhere |
| `NodePools.PoolNodePanel.GetChildNodeAmount` | pool/pool.go:178-194 | the number of nodes in the panel and everywhere below it |
| `NodePools.Pool.NewNodePool` | pool/pool.go:401-428 | a consistent pool: an empty centre cluster and nobody in it |
| `NodePools.Pool.WhereIs` | pool/pool.go:251-428 | the occupant of a slot is live, and points at that slot |
| `NodePools.Pool.WhereIsOccupied` | pool/pool.go:251-428 | the slot that a live node points at exists and holds that node |
| `NodePools.Pool.IsEmpty` | pool/pool.go:430-432 | true exactly when the node map is empty, which in a consistent pool is when no slot is occupied |
| `NodePools.Pool.AddNewClusterTreeLevel` | pool/pool.go:196-249 | one more whole level of empty panels, linked to the old ones, which all stay and go on reading the same paths; the new ones read what the shared memory gives them |
| `NodePools.Pool.LeastLoadedCluster` | pool/pool.go:257-265 | the last of the least loaded clusters of a level |
| `NodePools.Pool.LeastLoadedPanel` | pool/pool.go:278-286 | the last of the least loaded panels of a cluster |
| `NodePools.Pool.FindPlace` | pool/pool.go:255-304 | a place is found exactly when some level has room, and it is the one that the placement rule names |
| `NodePools.Pool.AddNode` | pool/pool.go:251-314 | the node is seated by the placement rule, in a tree grown by one level exactly when it had no room; the map has it under its id; everybody in a slot is sent the announcement; with a fresh id the pool stays consistent and supported; with a live one the older node keeps its slot and is in the map no more |
| `NodePools.Pool.ScanForYoungest` | pool/pool.go:347-361 | the youngest node of the slots looked at, the first one among equals |
| `NodePools.Pool.ChooseTarget` | pool/pool.go:346-376 | the node that the promotion rule names, which exists |
| `NodePools.Pool.PromoteChain` | pool/pool.go:330-386 | the loop ends, strictly deeper each turn, with a chain of promotions carried out, all of them recorded in order, and nobody directly below the last hole |
| `NodePools.Pool.Depart` | pool/pool.go:388-398 | the promoted nodes announce themselves from the top down, then the leaving node, without id and in the slot that is empty now |
| `NodePools.Pool.RemoveNode` | pool/pool.go:316-399 | an unknown id changes nothing; otherwise the tree is shifted along a complete promotion chain, the map loses exactly the node, the pool stays consistent and supported, the returned nodes are those of the chain, every live node is sent the removal's announcements, and the leaving node nothing |
| `PoolManager.Connect` | pool/manager.go:122-162 | with an add, the newcomer's channel gets a listing of the node map and everybody else's in it the new node, after the position messages; an older node with the same id gets the position message only |
| `PoolManager.TellAll` | pool/manager.go:69-82 | one message is put on the channel of every connected node, and nothing else |
| `PoolManager.Disconnect` | pool/manager.go:173-202 | with a removal, everybody who is left gets REMOVE_NODE with each promoted node and its new path, after the position messages; an unknown id only causes an empty removal notice |
| `NodeManagers.PeersAreMarked` | node_manager.go:467-568 | the positions touched by the near, child, lone-node and two-node parts of the computation are together exactly those of the peer rule |
| `NodeManagers.NodeManager.NodeAcross` | node_manager.go:469-484 | the modular search finds the node that stands in for this node's slot in another panel |
| `NodeManagers.NodeManager.PeersOfPosition` | node_manager.go:461-568 | the computed map has exactly the peers of the view, each marked with whether this end asks |
| `NodeManagers.NodeManager.UpdateNodePosition` | node_manager.go:461-614 | the active nodes become exactly the peers; the client is told the position, asked once to connect to each new peer for which this end asks, and once to disconnect from each former one |
| `NodeManagers.NodeManager.SinglePosition` | node_manager.go:291-323 | the node's old entry is forgotten, in the own cluster before the one below, and the new one is written |
| `NodeManagers.NodeManager.CreateAckKey` | node_manager.go:346-354 | the key, whichever it is, waits for this op code about this node; older keys are kept unless it equals one |
| `NodeManagers.NodeManager.DisconnectNode` | node_manager.go:388-396 | the link and its report are gone, the count starts again, the client is asked to disconnect |
| `NodeManagers.NodeManager.ReportNode` | node_manager.go:398-449 | a report is taken up exactly under the stated conditions; otherwise the client is dropped or nothing happens, with a final notice exactly when the fifth report is not final itself |
| `NodeManagers.NodeManager.ReceivedSSMessage` | node_manager.go:131-260 | a keyed answer is used once and only for its op code; only heartbeats and reports go without key; each stage's outcome follows only for an active node |
| `NodeManagers.NodeManager.ReceivedFromPool` | node_manager.go:262-335 | offers, answers and confirmations always lead to a keyed request from active nodes, and from no others; a report notice leads to a new connection exactly if it is taken up |
| `NodeManagers.NodeManager.Process` | node_manager.go:100-337 | one turn of the loop is a step of the manager; a failed client makes it idle |
| `NodeManagers.NodeManager.Timeout` | node_manager.go:103-111 | the client fails exactly when the answer to some key is overdue |
| `NodeManagers.StepKeepsOrder` | node_manager.go:375-459 | every step keeps at most 3 reports, none final, only about active nodes, and fewer than 5 counted reports while the client is fine |
| `NodeManagers.RunsStayOrderly` | node_manager.go:100-459 | the same in every state of every manager, over all message sequences that the code survives: a full position comes before single ones |
| `NodeManagers.LinksFollowViews` | node_manager.go:286-325 | the view is the replay of the position messages, and the active nodes are the peers of the view |
| `NodeManagers.ReceiveKeepsNoTwins` | node_manager.go:294-323 | no message makes a view list a node twice |
| `Handshake.RunsConserve` | node_manager.go:131-386 | at each stage no more answers are awaited and used than requests were made, and no more messages are on the way or acted upon than were sent |
| `Handshake.HandshakesAreConserved` | node_manager.go:131-386 | in every interleaving with loss, reordering, arbitrary clients and comings and goings, also of several sockets of one device: the CONNECT_NODE requests to a for b cover everything that has come of them, in all stages together |
| `Handshake.NoticesAreFew` | node_manager.go:327-459 | one client message causes at most two report notices in all managers together |
| `Progress.SuccessHasOutcome` | node_manager.go:153-230 | a successful answer about a linked node uses up its key and has the outcome of its stage, and nothing else; a link that stands clears its report and the count |
| `Progress.SuccessBalances` | node_manager.go:131-230 | then awaited and used answers are exactly as many as were asked for, in every stage about every node |
| `Progress.HandshakeCanComplete` | node_manager.go:153-284 | from any state in which a client is asked for an offer to a node linked both ways, clients' answers and arriving messages can complete the handshake, and leave exactly its seven steps on record |
| `Progress.ComplaintIsPosted` | node_manager.go:398-459 | a report about a linked node, if there is room for it and none stands, is kept, counted and posted to that node |
| `Progress.LinkCanBeMadeAgain` | node_manager.go:327-335 | when a link fails and both ends take the report up, the other end is asked to connect, and a whole handshake can follow from there |
| `Progress.NewsIsAcknowledged` | node_manager.go:281-283 | news is passed on to the client once, and its acknowledgement settles the request and changes nothing else |
| `Reports.NoReportTwice` | node_manager.go:418-427 | over any run of a manager, between two reports of a lost link to the same node the link was confirmed or given up |
| `Reports.StandingReportIsIgnored` | node_manager.go:421-427 | while a report stands, another DISCONNECT report is only counted |
| `Reports.StrayReportIsIgnored` | node_manager.go:402-404 | a report about a node that is not linked does nothing |
| `Reports.FifthReportIsFinal` | node_manager.go:408-418 | the fifth report in a row ends the client, and a final notice goes to the node |
| `Reports.FinalReportIsTheLast` | node_manager.go:417-419 | a final notice is only counted |
| `Reports.WhoIsGivenUp` | node_manager.go:131-260 | a client's message ends it exactly when its key or op code is not expected, or its answer is none that it could give |
| `Reports.KeysAreUsedOnce` | node_manager.go:139-146 | a second answer under the same key ends the client |
| `Reports.OverdueAnswersEndIt` | node_manager.go:103-111 | the timer leaves a client alone whose answers are all due at or after now, and ends one with an earlier deadline |
| `Reports.LostLinksAreForgotten` | node_manager.go:388-396 | links that a new position does away with take their reports with them, and the count begins anew |
| `Conformance.ConnectIsJoin` | pool/manager.go:122-162 | if every manager and client takes in what a connect put on its channel, the connect is a join as the runs have it |
| `Conformance.DisconnectIsLeave` | pool/manager.go:173-202 | if everybody who is left takes in what a disconnect put on its channel, the disconnect is a leave as the runs have it |
| `Conformance.ManagersAreInformed` | node_manager.go:286-325 | a manager that processes an operation's announcements has the view and the links that the run gives its node |
| `Conformance.RequestsAreAsks` | node_manager.go:586-612 | on a new position the client is told it, CONNECT_NODE goes out for exactly the new peers for which this end asks, and DISCONNECT_NODE for exactly the former ones |
| `Conformance.OneRequestPerLink` | node_manager.go:286-325 | when a node joins a run in which no path is misread, the managers of each new link, taking in what is on their channels, ask exactly one of the two clients to connect, namely the one that the slots say |
| `Membership.UserIsAdded` | store/pool.go:82-97 | adding a user adds exactly this user with its devices |
| `Membership.UserIsRemoved` | store/pool.go:99-114 | removing a user by swapping removes exactly this user |
| `Membership.DeviceIsAdded` | store/pool.go:116-135 | adding a device gives it to this user and changes nothing else |
| `Membership.DeviceIsRemoved` | store/pool.go:138-165 | removing a device takes one from this user, who goes exactly with the last one |
| `Membership.UserAddedMatches` | store/pool.go:82-97 | memory and record agree afterwards, whether the write succeeds or is undone |
| `Membership.UserRemovedMatches` | store/pool.go:99-114 | the same for removing a user, whose undoing changes the order only |
| `Membership.DeviceAddedMatches` | store/pool.go:116-135 | the same for adding a device |
| `Membership.DeviceRemovedMatches` | store/pool.go:138-165 | memory and record agree afterwards if and only if the write succeeds or the device is not the user's only one |
| `Membership.LostUser` | store/pool.go:138-165 | a concrete pool in which a failed write loses a user |
| `Membership.StorePool.Update` | store/pool.go:24-32 | the record becomes the list, or goes when the list is empty, or the write fails and nothing changes |
| `Membership.StorePool.NewPool` | store/pool.go:34-54 | a pool is only handed out when it is in the database, which then agrees with it |
| `Membership.StorePool.GetStoredPool` | store/pool.go:78-80 | the list made from a record is the record, with users of its own |
| `Membership.StorePool.HasUser` | store/pool.go:167-174 | whether the list has the user |
| `Membership.StorePool.AddUser` | store/pool.go:82-97 | the list and the database afterwards; agreement is kept |
| `Membership.StorePool.RemoveUser` | store/pool.go:99-114 | the list and the database afterwards; agreement is kept |
| `Membership.StorePool.AddDevice` | store/pool.go:116-135 | the list and the database afterwards; a device that is there already needs no write; agreement is kept |
| `Membership.StorePool.RemoveDevice` | store/pool.go:138-165 | the list and the database afterwards, whether the user went; agreement is kept exactly unless the write fails for an only device |
| `Servers.PoolServer.Fetch` | pool/manager.go:13-35 | a pool that is in memory is handed out; otherwise it is made from its record, with nobody in it; without a record there is none |
| `Servers.PoolServer.GiveUp` | pool/manager.go:47-49 | the pool goes exactly when nobody is connected; all other pools stay what they were |
| `Servers.PoolServer.ConnectToPool` | pool/manager.go:116-164 | the server's pools and the database become what `ActivePools.Perform` says about them as values, also when the node's id is live already; otherwise all pools stay consistent and share no objects, and in that case all others do. The answer is true only for a member of a pool that exists, always for a listed device, and for a fresh id exactly if the node is in the pool afterwards |
| `Servers.PoolServer.DisconnectFromPool` | pool/manager.go:166-205 | the same for a disconnect, which fetches nothing; exactly this node is live no more |
| `Servers.PoolServer.JoinPool` | pool/manager.go:62-88 | the same for a new user, of whom everybody who is connected is told, exactly if the user is added; the answer is true only for one who was no member and is on record afterwards |
| `Servers.PoolServer.LeavePool` | pool/manager.go:90-114 | the same for a device that leaves; everybody who is connected is told, exactly if its user goes with it; the answer is true only for a listed device, of which there is one less on record afterwards |
| `Servers.PoolServer.UserExistsInPool` | pool/manager.go:56-60 | the same for a question about a user, and its answer |
| `Servers.PoolServer.CreatePool` | pool/api.go:53-56 | a new pool is in the database and not in memory |
| `ActivePools.CallsKeepConsistency` | pool/manager.go:13-205 | any request keeps pools in memory non-empty and in agreement with their records, except exactly a failed write for an only device in a pool that stays in memory |
| `ActivePools.RunsStayConsistent` | pool/manager.go:13-205 | over any run without such a failure user ids stay unique, pools in memory have nodes, and their membership is their record's |
| `ActivePools.ConnectionGranted` | pool/manager.go:116-164 | a granted connection has the node in the pool, with everybody who was there, and the device listed; a refused one changes no record and no pool in memory |
| `ActivePools.JoiningGranted` | pool/manager.go:62-88 | a user who is let in is on record, added to the list; otherwise no record changes |
| `ActivePools.LeavingGranted` | pool/manager.go:90-114 | a device that leaves is one less of its user's on record; otherwise no record changes |
| `ActivePools.WhoIsLive` | pool/manager.go:13-205 | over any request exactly the granted connection adds a live node and exactly the disconnect takes one away |
| `ActivePools.OtherPoolsStay` | pool/manager.go:13-205 | no request changes another pool, in memory or on record |
| `ActivePools.ComeAndGo` | pool/manager.go:116-205 | a node that comes with a listed device and goes again leaves memory and database as they were |

## Left out

- Node, user, device and pool ids are numbers, 0 for the empty string: they are only compared.
- `NodePools.Pool.AddNode`: an empty node id, which a test connection without a device id has (websocket.go:75), is not modelled.
- `NodePools.Pool.RemoveNode`: its contract is about pools in which no id sits twice; what it does to the tree otherwise is in `Runs.ComeTwiceAndGo`.
- `Overlay.LinksAreSymmetric`: about views that are those of the tree; what holds of the nodes' own links, and exactly when, is in `CutOff.OverlayIffLegible`.
- `Overlay.LinkUp`: about views that are those of the tree, as above.
- `Overlay.Connected`: about views that are those of the tree, as above.
- `Runs.ArrivalAsksOnce`: about views that are those of the tree; `Requests.AskedOnceIffLegible` is about the nodes' own.
- `Conformance.OneRequestPerLink`: about newcomers whose path reads right; `Requests.AskedOnceIffLegible` says what happens otherwise.
- Panel arrays `[3]*PoolNode` and `[3]*PoolNodePanel` and slices are sequences in fields; Go copies arrays as values there too.
- Node lists and user lists are read under a lock and never concurrently with a change; the race between fetching a pool and giving it up is not modelled.
- `Servers.PoolServer.DisconnectFromPool`: about pools in which no id sits twice, like the other requests to a pool.
- `PoolManager.Connect`: the node id is not empty, and no id sits twice before.
- `PoolManager.Disconnect`: about pools in which no id sits twice.
- `SendToNodeInPool` finds its node in a map and puts one message on its channel; `Handshake` has it as delivery or loss.
- What clients do with INIT_POOL, ADD_NODE and REMOVE_NODE is not part of the repository; `Directory.Apply` is the plain reading.
- The user id and the device data of a node, which are stored and sent along unchanged; a directory entry is an id and a path.
- Links between the messages of one removal: views keep everybody (`NobodyIsMissed`), but links may come and go while the messages are processed.
- That a handshake does complete: clients may say anything, and an offer to a node that is not active there yet is dropped (node_manager.go:269).
- The SDP text, op data without effect on state, the heartbeat reply, the CLOSE message, printing.
- Keys, deadlines and write results are arbitrary; time is a number given to the timer's turn.
- WebSocket and protobuf handling, HTTP routes, authentication, sessions, user devices, invite links and the TTL cache: plumbing, or small members that would add nothing hard.
- Database encoding: a record is the list of users with their device ids; other fields do not change.
